/**
 The interactive /match prompt of pkg/handlers/match_interactive.go: what one tap does to the draft and to the message.
 A message is shown here as callbacks deliver it, with the spoiler markup around the tag stripped.
 */
module Prompt {
  import opened Wrappers
  import opened StoreState
  import opened Strconv
  import opened Header
  import opened Picker

  datatype Message = Message(text: string, keyboard: Keyboard)

  /**
   What a tap leads to: the message it leaves if an edit went through, the toast it answered with last, and the match
   if one is registered.
   */
  datatype Effect = Effect(edit: Option<Message>, toast: string, registered: Option<MatchRow>)

  /** What the world outside the draft answers during one tap. A failing call carries its error text. */
  datatype Env = Env(
    now: int,
    candidates: Result<seq<Candidate>, string>,   // opponentCandidates for the owner
    ownerLabel: string, pickedLabel: string,      // playerLabel of the owner and of the opponent
    group: Result<GroupId, string>,
    allocation: Result<nat, string>,              // AllocateAndInsertMatch: the id
    isAdmin: bool,
    editError: Option<string>,                    // why the message edit fails
    ackError: Option<string>,                     // why the callback cannot be answered
    failureShown: bool)                           // the edit that reports a failure goes through

  const SCORE_MAX := 7

  // ---- callback data

  datatype Tap =
    | Cancel | Noop | Back | Confirm | Unknown
    | Nav(page: Option<int>)
    | Pick(opponent: Option<UserId>)
    | Score(side: int, value: int)
    | BadScore

  function Parsed(s: string): Option<int> { if ParseInt(s).error.None? then Some(ParseInt(s).value) else None }

  /** The position of the first colon, or the length. */
  function Colon(s: string): (n: nat)
    ensures n <= |s| && (n < |s| ==> s[n] == ':') && ':' !in s[..n]
  {
    if s == "" || s[0] == ':' then 0 else 1 + Colon(s[1..])
  }

  lemma {:induction false} ColonExact(a: string, b: string)
    requires ':' !in a
    ensures Colon(a + (":" + b)) == |a|
  {
    if a != "" {
      assert (a + (":" + b))[1..] == a[1..] + (":" + b);
      ColonExact(a[1..], b);
    }
  }

  lemma NoColon(n: int)
    ensures ':' !in FormatInt(n)
  {
    var m := if n < 0 then -n else n;
    assert forall i :: 0 <= i < |FormatNat(m)| ==> IsDigit(FormatNat(m)[i]);
  }

  function ScoreTap(s: string): Tap {
    var n := Colon(s);
    if n == |s| then BadScore else
    match (Parsed(s[..n]), Parsed(s[n+1..]))
    case (Some(side), Some(value)) => if (side == 1 || side == 2) && 0 <= value <= SCORE_MAX then Score(side, value)
        else BadScore
    case _ => BadScore
  }

  /** The cases of `dispatchTap`, in its order. */
  function Decode(payload: string): Tap {
    if payload == "cancel" then Cancel
    else if payload == "noop" then Noop
    else if "nav:" <= payload then Nav(Parsed(payload[4..]))
    else if "opp:" <= payload then Pick(Parsed(payload[4..]))
    else if payload == "back" then Back
    else if "s:" <= payload then ScoreTap(payload[2..])
    else if payload == "confirm" then Confirm
    else Unknown
  }

  // ---- what the messages look like

  function PickerBody(page: int, total: nat): string {
    "Page " + FormatInt(page) + "/" + FormatInt(total) + " - opponents, most-played first:"
  }

  /** `renderOpponentPicker`, with the draft's page already clamped. */
  function PickerMessage(d: Draft, cs: seq<Candidate>): Message
    requires cs != [] && 1 <= d.page <= TotalPages(|cs|)
  {
    var total := TotalPages(|cs|);
    Message(PickerBody(d.page, total) + "\n\n" + RenderOppHeader(d),
            Grid(PageRows(cs, d.page)) + [NavRow(d.page, total)])
  }

  function Clamped(d: Draft, cs: seq<Candidate>): (r: Draft)
    requires cs != []
    ensures 1 <= r.page <= TotalPages(|cs|)
  {
    d.(page := Clamp(d.page, TotalPages(|cs|)))
  }

  function SafeLabel(s: string): string { if s == "" then "player" else s }

  function CellLabel(v: int, selected: bool): string { if selected then "* " + FormatInt(v) + " *" else FormatInt(v) }

  function ScoreBody(d: Draft): string {
    SafeLabel(d.ownerLabel) + " vs " + SafeLabel(d.oppLabel) + "\n\nTap your score on the left, "
        + SafeLabel(d.oppLabel)
    + "'s score on the right. Re-tap to change."
  }

  function CellRow(d: Draft, v: nat): seq<Button> {
    [Button(CellLabel(v, v == d.p1), PREFIX + "s:1:" + FormatInt(v)),
     Button(CellLabel(v, v == d.p2), PREFIX + "s:2:" + FormatInt(v))]
  }

  function ScoreRows(d: Draft, v: nat): Keyboard
    decreases SCORE_MAX + 1 - v
  {
    if v > SCORE_MAX then [] else [CellRow(d, v)] + ScoreRows(d, v + 1)
  }

  /** `renderScorePicker`. */
  function ScoreMessage(d: Draft): Message {
    Message(ScoreBody(d) + "\n\n" + RenderScoreHeader(d),
            ScoreRows(d, 0)
            + [[Button("Confirm", PREFIX + "confirm"), Button("Cancel", PREFIX + "cancel")],
               [Button("Back to opponent", PREFIX + "back")]])
  }

  /** The winner on the left. */
  function Scoreboard(p1: string, s1: nat, s2: nat, p2: string): string {
    if s2 > s1 then p2 + " " + FormatInt(s2) + " - " + FormatInt(s1) + " " + p1
    else p1 + " " + FormatInt(s1) + " - " + FormatInt(s2) + " " + p2
  }

  /** `renderMatch`. */
  function Summary(id: nat, verb: string, p1: string, s1: nat, s2: nat, p2: string): string {
    "Match #" + FormatInt(id) + " " + verb + ".\n" + Scoreboard(p1, s1, s2, p2)
  }

  function Truncate(s: string, n: nat): string { if |s| <= n then s else s[..n] + "..." }

  // ---- one tap on a draft

  /** The draft after the tap, None if it was dropped, and what the tap made visible. */
  datatype Outcome = Outcome(draft: Option<Draft>, effect: Effect)

  const NOTHING := Effect(None, "", None)

  function FailureMessage(cause: string): Message {
    Message("/match - failed.\nError: " + Truncate(cause, 300) + "\n\nRun /match again to retry.", [])
  }

  /** `failTapGracefully`, after what the tap has done so far. */
  function Failed(cause: string, env: Env, done: Effect): Outcome {
    Outcome(None, Effect(if env.failureShown then Some(FailureMessage(cause)) else done.edit,
                         "Error: " + Truncate(cause, 150), done.registered))
  }

  /** An answer that leaves the draft as it is; the tap fails if the answer does. */
  function Ack(d: Draft, toast: string, env: Env): Outcome {
    match env.ackError
    case None => Outcome(Some(d), Effect(None, toast, None))
    case Some(cause) => Failed(cause, env, NOTHING)
  }

  /** `editAndAck`: the tap fails if the edit does; a failing answer is only logged. */
  function Shown(d: Draft, m: Message, env: Env): Outcome {
    match env.editError
    case None => Outcome(Some(d), Effect(Some(m), "", None))
    case Some(cause) => Failed(cause, env, NOTHING)
  }

  function ShowPicker(d: Draft, env: Env, step: string): Outcome {
    match env.candidates
    case Err(e) => Failed(step + e, env, NOTHING)
    case Ok(cs) => if cs == [] then Ack(d, "", env) else Shown(Clamped(d, cs), PickerMessage(Clamped(d, cs), cs), env)
  }

  /** The draft at the score step for this opponent. */
  function Picked(d: Draft, opponent: UserId, env: Env): Draft {
    d.(ownerLabel := if d.ownerLabel == "" then env.ownerLabel else d.ownerLabel,
       opp := opponent, oppLabel := env.pickedLabel, isScore := true, p1 := -1, p2 := -1)
  }

  function PickOpponent(d: Draft, opponent: UserId, env: Env): Outcome {
    Shown(Picked(d, opponent, env), ScoreMessage(Picked(d, opponent, env)), env)
  }

  function Scored(d: Draft, side: int, value: int): Draft {
    if side == 1 then d.(p1 := value) else d.(p2 := value)
  }

  function PickScore(d: Draft, side: int, value: int, env: Env): Outcome {
    Shown(Scored(d, side, value), ScoreMessage(Scored(d, side, value)), env)
  }

  /** Confirm and Cancel for a match that waits for the other player. */
  function ConfirmationRows(m: MatchRow): Keyboard {
    var cb := FormatInt(m.group) + ":" + FormatInt(m.id);
    if m.status == Approved then [] else [[Button("Confirm", "m:c:" + cb), Button("Cancel", "m:x:" + cb)]]
  }

  /** `registerInteractiveMatch`, with what its caller shows: the summary and the toast, or why there is no match. */
  function Registration(env: Env, group: GroupId, owner: UserId, opp: UserId, p1: nat, p2: nat):
      Result<Effect, string> {
    if owner == opp then Err("self-play not allowed")
    else if env.allocation.Err? then Err(env.allocation.error)
    else
      var status := if env.isAdmin then Approved else Pending;
      var row := MatchRow(group, env.allocation.value, owner, opp, p1, p2, owner, status, env.now, env.now);
      var verb := if env.isAdmin then "registered" else "pending";
      var text := Summary(row.id, verb, env.ownerLabel, p1, p2, env.pickedLabel);
      Ok(Effect(Some(Message(text, ConfirmationRows(row))), "Match registered", Some(row)))
  }

  /** A tap that has dropped its draft answers last; if it cannot, it fails. */
  function Dropped(done: Effect, env: Env): Outcome {
    match env.ackError
    case None => Outcome(None, done)
    case Some(cause) => Failed(cause, env, done)
  }

  /** The confirm branch. That the prompt cannot be edited is only logged. */
  function ConfirmDraft(d: Draft, env: Env): Outcome {
    if d.p1 < 0 || d.p2 < 0 then Ack(d, "Pick a score for both players first.", env)
    else if d.p1 == d.p2 then Ack(d, "Score must have a winner.", env)
    else if env.group.Err? then Failed("group lookup: " + env.group.error, env, NOTHING)
    else
      match Registration(env, env.group.value, d.owner, d.opp, d.p1, d.p2)
      case Err(cause) => Failed("registration: " + cause, env, NOTHING)
      case Ok(e) => Dropped(if env.editError.None? then e else e.(edit := None), env)
  }

  const CANCELLED := Effect(Some(Message("/match cancelled.", [])), "Cancelled", None)

  /** The cancel branch. */
  function CancelDraft(env: Env): Outcome {
    match env.editError
    case None => Dropped(CANCELLED, env)
    case Some(cause) => Failed("edit: " + cause, env, NOTHING)
  }

  function Dispatch(d: Draft, tap: Tap, env: Env): Outcome {
    match tap
    case Cancel => CancelDraft(env)
    case Nav(Some(page)) => ShowPicker(d.(page := page, isScore := false), env, "render opp page: ")
    case Pick(Some(opponent)) => if opponent == d.owner then Ack(d, "", env) else PickOpponent(d, opponent, env)
    case Back =>
      if !d.isScore then Ack(d, "", env)
      else ShowPicker(d.(isScore := false, page := 1), env, "render opp on back: ")
    case Score(side, value) => if !d.isScore then Ack(d, "", env) else PickScore(d, side, value, env)
    case Confirm => if !d.isScore then Ack(d, "", env) else ConfirmDraft(d, env)
    case _ => Ack(d, "", env)
  }

  // ---- the prompt: the draft in memory, if it is there, and the message

  datatype Session = Session(live: Option<Draft>, message: Message)

  datatype Event =
    | Restart                                               // the process restarts, or the draft is collected
    | Tapped(from: UserId, payload: string, text: string, env: Env)

  /** `loadOrRestoreDraft`: the draft in memory, else the one in the text that came with the tap. */
  function Loaded(live: Option<Draft>, text: string): Option<Draft> {
    if live.Some? then live else ParseDraftFromHeader(text)
  }

  /**
   `handleMatchInteractiveCallback`: what the tap shows, None for a prompt that is gone. The text is that of the message
   as the callback carries it, which need not be the text the message has when the callback is handled.
   */
  function Response(live: Option<Draft>, from: UserId, payload: string, text: string, env: Env): Outcome {
    match Loaded(live, text)
    case None => Outcome(None, NOTHING)
    case Some(d) => if from != d.owner then Outcome(Some(d), STRANGER) else Dispatch(d, Decode(payload), env)
  }

  const STRANGER := Effect(None, "Only the person who ran /match can use these buttons.", None)

  function Answer(s: Session, ev: Event): Outcome
    requires ev.Tapped?
  {
    Response(s.live, ev.from, ev.payload, ev.text, ev.env)
  }

  function Next(s: Session, ev: Event): Session {
    if ev.Restart? then s.(live := None) else
    var r := Answer(s, ev);
    Session(r.draft, if r.effect.edit.Some? then r.effect.edit.value else s.message)
  }

  /** `startInteractiveMatch`. */
  function FirstDraft(owner: UserId): Draft { Draft(owner, "", false, 1, 0, "", -1, -1) }

  function Opened(owner: UserId, cs: seq<Candidate>): Session
    requires cs != []
  {
    Session(Some(Clamped(FirstDraft(owner), cs)), PickerMessage(Clamped(FirstDraft(owner), cs), cs))
  }

  function Run(s: Session, events: seq<Event>): Session {
    if events == [] then s else Next(Run(s, events[..|events|-1]), events[|events|-1])
  }

  /** What the taps of a run made visible, one entry a tap. */
  function Effects(s: Session, events: seq<Event>): seq<Effect> {
    if events == [] then [] else
    var front, last := events[..|events|-1], events[|events|-1];
    Effects(s, front) + if last.Restart? then [] else [Answer(Run(s, front), last).effect]
  }

  function TapsOnly(events: seq<Event>): seq<Event> {
    if events == [] then [] else
    TapsOnly(events[..|events|-1]) + (if events[|events|-1].Restart? then [] else [events[|events|-1]])
  }
}
