/**
 When the draft in memory and the one restored from a tap's text cannot be told apart, and how many matches a prompt
 registers, over runs of taps and restarts, with failing calls.
 */
module PromptProofs {
  import opened Wrappers
  import opened StoreState
  import opened Strconv
  import opened QueryEscape
  import opened Header
  import opened Picker
  import opened Prompt

  // ---- assumptions on the world outside, and what holds of a draft

  ghost predicate PlainLabel(s: string) { IsBytes(s) && '[' !in s }

  predicate PlainResult<T>(r: Result<T, string>) { r.Err? ==> '[' !in r.error }

  predicate PlainError(e: Option<string>) { e.Some? ==> '[' !in e.value }

  /** Labels and error texts carry no bracket. */
  ghost predicate TextsOk(env: Env) {
    && PlainLabel(env.ownerLabel) && PlainLabel(env.pickedLabel)
    && PlainResult(env.candidates) && PlainResult(env.group) && PlainResult(env.allocation)
    && PlainError(env.editError) && PlainError(env.ackError)
  }

  /** Besides, a group with someone to play against never loses them. */
  ghost predicate EnvOk(env: Env) {
    TextsOk(env) && (env.candidates.Ok? ==> 1 <= |env.candidates.value| <= MAX_INT64)
  }

  /** Ids in callback data are those of participants, positive 64-bit integers. */
  ghost predicate EventOk(ev: Event) {
    ev.Tapped? ==>
      && EnvOk(ev.env)
      && (Decode(ev.payload).Pick? && Decode(ev.payload).opponent.Some? ==> IsId(Decode(ev.payload).opponent.value))
  }

  ghost predicate EventsOk(events: seq<Event>) { forall ev :: ev in events ==> EventOk(ev) }

  ghost predicate DraftOk(d: Draft) {
    && IsId(d.owner) && PlainLabel(d.ownerLabel)
    && if d.isScore then
         IsId(d.opp) && d.opp != d.owner && PlainLabel(d.oppLabel) && -1 <= d.p1 <= SCORE_MAX && -1 <= d.p2 <= SCORE_MAX
       else IsId(d.page)
  }

  /**
   The part of a draft that matters: the picker ignores leftover scores and opponent, the score step ignores the page.
   This is what a restart leaves of it.
   */
  function Essence(d: Draft): Draft { if d.isScore then ScorePart(d) else OppPart(d) }

  // ---- every message restores the draft it was rendered from, and a finished prompt restores none

  lemma {:induction false} PlainNat(n: nat)
    ensures '[' !in FormatNat(n)
  {
    assert forall i :: 0 <= i < |FormatNat(n)| ==> IsDigit(FormatNat(n)[i]);
  }

  lemma PlainInt(n: int)
    ensures '[' !in FormatInt(n)
  {
    PlainNat(if n < 0 then -n else n);
  }

  lemma PickerRestores(d: Draft, cs: seq<Candidate>)
    requires DraftOk(d) && !d.isScore && cs != [] && 1 <= d.page <= TotalPages(|cs|)
    ensures ParseDraftFromHeader(PickerMessage(d, cs).text) == Some(Essence(d))
  {
    PlainInt(d.page);
    PlainInt(TotalPages(|cs|));
    var body := PickerBody(d.page, TotalPages(|cs|));
    assert '[' !in body;
    BracketFree(body);
    OppRoundTrip(body, d);
    hide ParseDraftFromHeader, PickerBody, RenderOppHeader;
  }

  lemma ScoreBodyPlain(d: Draft)
    requires PlainLabel(d.ownerLabel) && PlainLabel(d.oppLabel)
    ensures '[' !in ScoreBody(d)
  {
    var a, b := SafeLabel(d.ownerLabel), SafeLabel(d.oppLabel);
    assert '[' !in a && '[' !in b;
    hide SafeLabel;
    assert '[' !in a + " vs " + b;
    PlainConcat(a + " vs " + b, "\n\nTap your score on the left, ");
    PlainConcat(a + " vs " + b + "\n\nTap your score on the left, ", b);
    PlainConcat(a + " vs " + b + "\n\nTap your score on the left, " + b,
                "'s score on the right. Re-tap to change.");
  }

  lemma ScoreRestores(d: Draft)
    requires DraftOk(d) && d.isScore
    ensures ParseDraftFromHeader(ScoreMessage(d).text) == Some(Essence(d))
  {
    ScoreBodyPlain(d);
    BracketFree(ScoreBody(d));
    ScoreRoundTrip(ScoreBody(d), d);
    hide ParseDraftFromHeader, ScoreBody, RenderScoreHeader;
  }

  lemma SummaryPlain(id: nat, verb: string, p1: string, s1: nat, s2: nat, p2: string)
    requires '[' !in verb && '[' !in p1 && '[' !in p2
    ensures '[' !in Summary(id, verb, p1, s1, s2, p2)
  {
    PlainInt(id);
    ScoreboardPlain(p1, s1, s2, p2);
    hide FormatInt, Scoreboard;
    PlainConcat("Match #" + FormatInt(id) + " " + verb + ".\n", Scoreboard(p1, s1, s2, p2));
  }

  lemma ScoreboardPlain(p1: string, s1: nat, s2: nat, p2: string)
    requires '[' !in p1 && '[' !in p2
    ensures '[' !in Scoreboard(p1, s1, s2, p2)
  {
    PlainInt(s1);
    PlainInt(s2);
    hide FormatInt;
    PlainConcat(p2 + " " + FormatInt(s2) + " - ", FormatInt(s1) + " " + p1);
    PlainConcat(p1 + " " + FormatInt(s1) + " - ", FormatInt(s2) + " " + p2);
  }

  lemma FinishedRestoresNone(text: string)
    requires '[' !in text
    ensures ParseDraftFromHeader(text).None?
  {
    BracketFree(text);
  }

  // ---- one tap

  /**
   The tap left draft d' with a message that restores it, or left no draft and either a message that restores none or
   the message as it was.
   */
  ghost predicate Mirrors(d: Draft, o: Outcome) {
    match o.draft
    case Some(d') =>
      && DraftOk(d') && d'.owner == d.owner && o.effect.registered.None?
      && (match o.effect.edit
          case Some(m) => ParseDraftFromHeader(m.text) == Some(Essence(d'))
          case None => Essence(d') == Essence(d))
    case None => Ends(o.effect)
  }

  /** If the tap edited the message, it restores no draft. */
  ghost predicate Ends(e: Effect) { e.edit.Some? ==> ParseDraftFromHeader(e.edit.value.text).None? }

  lemma FailedPlain(cause: string)
    requires '[' !in cause
    ensures '[' !in "/match - failed.\nError: " + Truncate(cause, 300) + "\n\nRun /match again to retry."
  {
    var t := Truncate(cause, 300);
    PlainConcat(cause[..if |cause| <= 300 then |cause| else 300], "...");
    assert cause[..|cause|] == cause;
    hide Truncate;
    PlainConcat("/match - failed.\nError: ", t);
    PlainConcat("/match - failed.\nError: " + t, "\n\nRun /match again to retry.");
  }

  lemma FailedMirrors(d: Draft, cause: string, env: Env, done: Effect)
    requires '[' !in cause && Ends(done)
    ensures Mirrors(d, Failed(cause, env, done))
  {
    hide ParseDraftFromHeader, Truncate;
    FailedPlain(cause);
    FinishedRestoresNone("/match - failed.\nError: " + Truncate(cause, 300) + "\n\nRun /match again to retry.");
  }

  lemma ShownMirrors(d: Draft, d': Draft, m: Message, env: Env)
    requires TextsOk(env) && DraftOk(d') && d'.owner == d.owner && ParseDraftFromHeader(m.text) == Some(Essence(d'))
    ensures Mirrors(d, Shown(d', m, env))
  {
    hide ParseDraftFromHeader, Essence, Failed, PlainLabel, DraftOk;
    if env.editError.Some? { FailedMirrors(d, env.editError.value, env, NOTHING); }
  }

  lemma DroppedMirrors(d: Draft, done: Effect, env: Env)
    requires TextsOk(env) && Ends(done)
    ensures Mirrors(d, Dropped(done, env))
  {
    hide ParseDraftFromHeader, Failed, PlainLabel;
    if env.ackError.Some? { FailedMirrors(d, env.ackError.value, env, done); }
  }

  lemma ShowPickerMirrors(d: Draft, env: Env, step: string)
    requires IsId(d.owner) && PlainLabel(d.ownerLabel) && !d.isScore && EnvOk(env) && '[' !in step
    ensures Mirrors(d, ShowPicker(d, env, step))
  {
    hide ParseDraftFromHeader, PickerMessage, Failed, Mirrors;
    match env.candidates
    case Err(e) => FailedMirrors(d, step + e, env, NOTHING);
    case Ok(cs) =>
      PickerRestores(Clamped(d, cs), cs);
      ShownMirrors(d, Clamped(d, cs), PickerMessage(Clamped(d, cs), cs), env);
  }

  lemma ConfirmMirrors(d: Draft, env: Env)
    requires DraftOk(d) && d.isScore && TextsOk(env)
    ensures Mirrors(d, ConfirmDraft(d, env))
  {
    AckMirrors(d, "Pick a score for both players first.", env);
    AckMirrors(d, "Score must have a winner.", env);
    hide Mirrors, Failed, Ack, PlainLabel, Registration;
    if d.p1 >= 0 && d.p2 >= 0 && d.p1 != d.p2 {
      if env.group.Err? {
        FailedMirrors(d, "group lookup: " + env.group.error, env, NOTHING);
      } else {
        RegistrationEndsPrompt(env, d);
        match Registration(env, env.group.value, d.owner, d.opp, d.p1, d.p2)
        case Err(cause) => FailedMirrors(d, "registration: " + cause, env, NOTHING);
        case Ok(e) => DroppedMirrors(d, if env.editError.None? then e else e.(edit := None), env);
      }
    }
  }

  lemma RegistrationEndsPrompt(env: Env, d: Draft)
    requires TextsOk(env) && env.group.Ok? && d.p1 >= 0 && d.p2 >= 0
    ensures match Registration(env, env.group.value, d.owner, d.opp, d.p1, d.p2)
            case Err(cause) => '[' !in cause
            case Ok(e) => Ends(e) && e.edit.Some? && e.registered.Some?
  {
    hide ParseDraftFromHeader, Summary, ConfirmationRows;
    if env.allocation.Ok? {
      var verb := if env.isAdmin then "registered" else "pending";
      SummaryPlain(env.allocation.value, verb, env.ownerLabel, d.p1, d.p2, env.pickedLabel);
      FinishedRestoresNone(Summary(env.allocation.value, verb, env.ownerLabel, d.p1, d.p2, env.pickedLabel));
    }
  }

  lemma PickOpponentMirrors(d: Draft, opponent: UserId, env: Env)
    requires IsId(d.owner) && PlainLabel(d.ownerLabel) && EnvOk(env) && IsId(opponent) && opponent != d.owner
    ensures Mirrors(d, PickOpponent(d, opponent, env))
  {
    var d' := Picked(d, opponent, env);
    ScoreRestores(d');
    hide ParseDraftFromHeader, ScoreMessage, Mirrors, Shown;
    ShownMirrors(d, d', ScoreMessage(d'), env);
  }

  lemma PickScoreMirrors(d: Draft, side: int, value: int, env: Env)
    requires DraftOk(d) && d.isScore && 0 <= value <= SCORE_MAX && TextsOk(env)
    ensures Mirrors(d, PickScore(d, side, value, env))
  {
    var d' := Scored(d, side, value);
    ScoreRestores(d');
    hide ParseDraftFromHeader, ScoreMessage, Mirrors, Shown;
    ShownMirrors(d, d', ScoreMessage(d'), env);
  }

  lemma CancelMirrors(d: Draft, env: Env)
    requires TextsOk(env)
    ensures Mirrors(d, CancelDraft(env))
  {
    hide ParseDraftFromHeader, Failed, Dropped, PlainLabel;
    FinishedRestoresNone("/match cancelled.");
    DroppedMirrors(d, CANCELLED, env);
    if env.editError.Some? { FailedMirrors(d, "edit: " + env.editError.value, env, NOTHING); }
  }

  lemma AckMirrors(d: Draft, toast: string, env: Env)
    requires DraftOk(d) && TextsOk(env)
    ensures Mirrors(d, Ack(d, toast, env))
  {
    hide ParseDraftFromHeader, Failed, PlainLabel, DraftOk;
    if env.ackError.Some? { FailedMirrors(d, env.ackError.value, env, NOTHING); }
  }

  lemma NavMirrors(d: Draft, page: int, env: Env)
    requires IsId(d.owner) && PlainLabel(d.ownerLabel) && EnvOk(env)
    ensures Mirrors(d, ShowPicker(d.(page := page, isScore := false), env, "render opp page: "))
  {
    hide Mirrors, ShowPicker, EnvOk;
    PickerStepMirrors(d, page, env, "render opp page: ");
  }

  lemma BackMirrors(d: Draft, env: Env)
    requires IsId(d.owner) && PlainLabel(d.ownerLabel) && EnvOk(env)
    ensures Mirrors(d, ShowPicker(d.(isScore := false, page := 1), env, "render opp on back: "))
  {
    hide Mirrors, ShowPicker, EnvOk;
    PickerStepMirrors(d, 1, env, "render opp on back: ");
  }

  lemma DispatchMirrors(d: Draft, tap: Tap, env: Env)
    requires DraftOk(d) && EnvOk(env)
    requires tap.Pick? && tap.opponent.Some? ==> IsId(tap.opponent.value)
    requires tap.Score? ==> 0 <= tap.value <= SCORE_MAX
    ensures Mirrors(d, Dispatch(d, tap, env))
  {
    AckMirrors(d, "", env);
    CancelMirrors(d, env);
    hide Mirrors, EnvOk, TextsOk, ShowPicker, ConfirmDraft, PickOpponent, PickScore, Ack, PlainLabel, CancelDraft;
    match tap
    case Nav(Some(page)) => NavMirrors(d, page, env);
    case Pick(Some(opponent)) => if opponent != d.owner { PickOpponentMirrors(d, opponent, env); }
    case Back => if d.isScore { BackMirrors(d, env); }
    case Score(side, value) => if d.isScore { PickScoreMirrors(d, side, value, env); }
    case Confirm => if d.isScore { ConfirmMirrors(d, env); }
    case _ =>
  }

  lemma PickerStepMirrors(d: Draft, page: int, env: Env, step: string)
    requires IsId(d.owner) && PlainLabel(d.ownerLabel) && EnvOk(env) && '[' !in step
    ensures Mirrors(d, ShowPicker(d.(page := page, isScore := false), env, step))
  {
    ShowPickerMirrors(d.(page := page, isScore := false), env, step);
    hide ParseDraftFromHeader, ShowPicker;
  }

  /**
   With nobody left to play against the picker is not rendered, yet the draft has moved: it leaves the score step, or
   takes a page the message does not show.
   */
  predicate Strays(d: Draft, tap: Tap, env: Env) {
    && env.candidates == Ok([]) && env.ackError.None?
    && (match tap
        case Nav(Some(page)) => d.isScore || page != d.page
        case Back => d.isScore
        case _ => false)
  }

  /** Those are the only taps after which message and draft differ. */
  lemma DispatchMirrorsIff(d: Draft, tap: Tap, env: Env)
    requires DraftOk(d) && TextsOk(env) && (env.candidates.Ok? ==> |env.candidates.value| <= MAX_INT64)
    requires tap.Pick? && tap.opponent.Some? ==> IsId(tap.opponent.value)
    requires tap.Score? ==> 0 <= tap.value <= SCORE_MAX
    ensures Mirrors(d, Dispatch(d, tap, env)) <==> !Strays(d, tap, env)
  {
    if env.candidates != Ok([]) {
      DispatchMirrors(d, tap, env);
      hide Mirrors, Dispatch;
    } else if tap.Nav? && tap.page.Some? {
      EmptyMirrorsIff(d, d.(page := tap.page.value, isScore := false), env, "render opp page: ");
      hide Mirrors, ShowPicker, PlainLabel;
    } else if tap.Back? && d.isScore {
      EmptyMirrorsIff(d, d.(isScore := false, page := 1), env, "render opp on back: ");
      hide Mirrors, ShowPicker, PlainLabel;
    } else {
      DispatchMirrors(d, tap, env.(candidates := Err("")));
      ListUnread(d, tap, env);
      hide Mirrors, Dispatch;
    }
  }

  lemma EmptyMirrorsIff(d: Draft, d': Draft, env: Env, step: string)
    requires DraftOk(d) && TextsOk(env) && env.candidates == Ok([]) && d' == d.(page := d'.page, isScore := false)
    ensures Mirrors(d, ShowPicker(d', env, step)) <==> env.ackError.Some? || (!d.isScore && d'.page == d.page)
  {
    if env.ackError.Some? { FailedMirrors(d, env.ackError.value, env, NOTHING); }
    hide ParseDraftFromHeader, Failed, PlainLabel;
  }

  lemma ListUnread(d: Draft, tap: Tap, env: Env)
    requires !(tap.Nav? && tap.page.Some?) && !(tap.Back? && d.isScore)
    ensures Dispatch(d, tap, env) == Dispatch(d, tap, env.(candidates := Err("")))
  {
    hide Summary, ConfirmationRows, ScoreMessage, Truncate;
  }

  // ---- leftovers cannot be observed

  /** Two outcomes that nobody can tell apart. */
  ghost predicate Alike(o1: Outcome, o2: Outcome) {
    && o1.effect == o2.effect
    && (o1.draft.None? <==> o2.draft.None?)
    && (o1.draft.Some? ==> Essence(o1.draft.value) == Essence(o2.draft.value))
  }

  lemma ScoreMessageAlike(d1: Draft, d2: Draft)
    requires d1.isScore && d2.isScore && Essence(d1) == Essence(d2)
    ensures ScoreMessage(d1) == ScoreMessage(d2)
  {
    ScoreRowsAlike(d1, d2, 0);
    assert RenderScoreHeader(d1) == RenderScoreHeader(d2);
    assert ScoreBody(d1) == ScoreBody(d2);
    hide ScoreBody, RenderScoreHeader, ScoreRows;
  }

  lemma {:induction false} ScoreRowsAlike(d1: Draft, d2: Draft, v: nat)
    requires d1.p1 == d2.p1 && d1.p2 == d2.p2
    ensures ScoreRows(d1, v) == ScoreRows(d2, v)
    decreases SCORE_MAX + 1 - v
  {
    if v <= SCORE_MAX { ScoreRowsAlike(d1, d2, v + 1); }
  }

  lemma PickerAlike(d1: Draft, d2: Draft, env: Env, step: string)
    requires !d1.isScore && !d2.isScore && Essence(d1) == Essence(d2)
    ensures Alike(ShowPicker(d1, env, step), ShowPicker(d2, env, step))
  {
    hide Failed;
    if env.candidates.Ok? && env.candidates.value != [] {
      var cs := env.candidates.value;
      assert RenderOppHeader(Clamped(d1, cs)) == RenderOppHeader(Clamped(d2, cs));
      hide RenderOppHeader;
    }
  }

  lemma PickerStepAlike(d1: Draft, d2: Draft, page: int, env: Env, step: string)
    requires Essence(d1) == Essence(d2)
    ensures Alike(ShowPicker(d1.(page := page, isScore := false), env, step),
                  ShowPicker(d2.(page := page, isScore := false), env, step))
  {
    PickerAlike(d1.(page := page, isScore := false), d2.(page := page, isScore := false), env, step);
    hide ShowPicker, Alike;
  }

  lemma PickOpponentAlike(d1: Draft, d2: Draft, opponent: UserId, env: Env)
    requires Essence(d1) == Essence(d2)
    ensures Alike(PickOpponent(d1, opponent, env), PickOpponent(d2, opponent, env))
  {
    ScoreMessageAlike(Picked(d1, opponent, env), Picked(d2, opponent, env));
    hide ScoreMessage, Failed;
  }

  lemma PickScoreAlike(d1: Draft, d2: Draft, side: int, value: int, env: Env)
    requires Essence(d1) == Essence(d2) && d1.isScore && d2.isScore
    ensures Alike(PickScore(d1, side, value, env), PickScore(d2, side, value, env))
  {
    ScoreMessageAlike(Scored(d1, side, value), Scored(d2, side, value));
    hide ScoreMessage, Failed;
  }

  lemma ConfirmAlike(d1: Draft, d2: Draft, env: Env)
    requires Essence(d1) == Essence(d2) && d1.isScore && d2.isScore
    ensures Alike(ConfirmDraft(d1, env), ConfirmDraft(d2, env))
  {
    hide Registration, Failed;
  }

  lemma AckAlike(d1: Draft, d2: Draft, toast: string, env: Env)
    requires Essence(d1) == Essence(d2)
    ensures Alike(Ack(d1, toast, env), Ack(d2, toast, env)) && d1.owner == d2.owner && d1.isScore == d2.isScore
  {
    hide Failed;
  }

  /** A tap shows the same and leaves the same, whatever leftovers the draft holds. */
  lemma DispatchAlike(d1: Draft, d2: Draft, tap: Tap, env: Env)
    requires Essence(d1) == Essence(d2)
    ensures Alike(Dispatch(d1, tap, env), Dispatch(d2, tap, env))
  {
    AckAlike(d1, d2, "", env);
    assert Alike(CancelDraft(env), CancelDraft(env)) by { hide CancelDraft; }
    hide Essence, Alike, ShowPicker, PickOpponent, PickScore, ConfirmDraft, Ack, CancelDraft;
    match tap
    case Nav(Some(page)) => PickerStepAlike(d1, d2, page, env, "render opp page: ");
    case Pick(Some(opponent)) => if opponent != d1.owner { PickOpponentAlike(d1, d2, opponent, env); }
    case Back => if d1.isScore { PickerStepAlike(d1, d2, 1, env, "render opp on back: "); }
    case Score(side, value) => if d1.isScore { PickScoreAlike(d1, d2, side, value, env); }
    case Confirm => if d1.isScore { ConfirmAlike(d1, d2, env); }
    case _ =>
  }

  /**
   A restart before a tap is unseen, whoever taps whatever, if and only if the text the tap carries restores the
   essence of the draft that was lost.
   */
  lemma RestartUnseenIff(d: Draft, text: string)
    ensures (forall from, payload, env ::
               Alike(Response(Some(d), from, payload, text, env), Response(None, from, payload, text, env)))
            <==> ParseDraftFromHeader(text) == Some(Essence(d))
  {
    hide Alike, Response, ParseDraftFromHeader, Essence;
    if ParseDraftFromHeader(text) == Some(Essence(d)) {
      forall from, payload, env
        ensures Alike(Response(Some(d), from, payload, text, env), Response(None, from, payload, text, env))
      {
        EssenceAnswersAlike(d, from, payload, text, env);
      }
    } else {
      IdleTapTells(d, text);
    }
  }

  lemma EssenceAnswersAlike(d: Draft, from: UserId, payload: string, text: string, env: Env)
    requires ParseDraftFromHeader(text) == Some(Essence(d))
    ensures Alike(Response(Some(d), from, payload, text, env), Response(None, from, payload, text, env))
  {
    hide ParseDraftFromHeader, Dispatch, Decode;
    DispatchAlike(d, Essence(d), Decode(payload), env);
  }

  /** An outside world. */
  const QUIET := Env(0, Err(""), "", "", Err(""), Err(""), false, None, None, true)

  /** A tap that does nothing tells drafts of different essence apart. */
  lemma IdleTapTells(d: Draft, text: string)
    ensures Alike(Response(Some(d), d.owner, "noop", text, QUIET), Response(None, d.owner, "noop", text, QUIET)) ==>
              ParseDraftFromHeader(text) == Some(Essence(d))
  {
    FixedButtons();
    RestoredIsEssence(text);
    hide ParseDraftFromHeader, Decode;
  }

  lemma RestoredIsEssence(text: string)
    ensures var d := ParseDraftFromHeader(text); d.Some? ==> Essence(d.value) == d.value
  {
    hide FindOpp, FindScore;
  }

  // ---- whole runs

  /** What the prompt goes on with: the draft in memory, else the one its message restores. */
  function Held(s: Session): Option<Draft> { Loaded(s.live, s.message.text) }

  /**
   The tap is about what the prompt holds: a draft is in memory, or the text the tap carries restores what the message
   restores now. A tap that carries the message's present text always is.
   */
  predicate UpToDate(s: Session, ev: Event) { ev.Tapped? ==> Loaded(s.live, ev.text) == Held(s) }

  predicate AllUpToDate(s: Session, events: seq<Event>) {
    events == [] ||
    (AllUpToDate(s, events[..|events|-1]) && UpToDate(Run(s, events[..|events|-1]), events[|events|-1]))
  }

  /** The message restores what matters of the draft in memory. */
  ghost predicate Mirrored(s: Session, owner: UserId) {
    && (Held(s).Some? ==> DraftOk(Held(s).value) && Held(s).value.owner == owner)
    && (match ParseDraftFromHeader(s.message.text)
        case None => s.live.None?
        case Some(d) =>
          DraftOk(d) && d.owner == owner && d == Essence(d) && (s.live.Some? ==> Essence(s.live.value) == d))
  }

  lemma DecodedScore(payload: string)
    ensures Decode(payload).Score? ==> 0 <= Decode(payload).value <= SCORE_MAX
  {
  }

  lemma OpenedMirrored(owner: UserId, cs: seq<Candidate>)
    requires IsId(owner) && 1 <= |cs| <= MAX_INT64
    ensures Mirrored(Opened(owner, cs), owner)
  {
    PickerRestores(Clamped(FirstDraft(owner), cs), cs);
    hide ParseDraftFromHeader, PickerMessage;
  }

  lemma ResponseMirrors(s: Session, owner: UserId, ev: Event)
    requires Mirrored(s, owner) && EventOk(ev) && ev.Tapped? && UpToDate(s, ev) && Held(s).Some?
    ensures Mirrors(Held(s).value, Answer(s, ev))
  {
    var d := Held(s).value;
    DecodedScore(ev.payload);
    assert Mirrors(d, Outcome(Some(d), STRANGER));
    hide Decode, Dispatch, Mirrors, ParseDraftFromHeader;
    if ev.from == d.owner { DispatchMirrors(d, Decode(ev.payload), ev.env); }
  }

  lemma NextMirrored(s: Session, owner: UserId, ev: Event)
    requires Mirrored(s, owner) && EventOk(ev) && UpToDate(s, ev)
    ensures Mirrored(Next(s, ev), owner)
  {
    hide ParseDraftFromHeader, Dispatch, Decode;
    if ev.Tapped? && Held(s).Some? {
      ResponseMirrors(s, owner, ev);
      EssenceTwice(Answer(s, ev).draft);
    }
  }

  lemma EssenceTwice(d: Option<Draft>)
    ensures d.Some? && DraftOk(d.value) ==> DraftOk(Essence(d.value)) && Essence(Essence(d.value)) == Essence(d.value)
  {
  }

  /** Two sessions showing the same message respond alike and show the same message again. */
  lemma TapAlike(s1: Session, s2: Session, owner: UserId, ev: Event)
    requires Mirrored(s1, owner) && Mirrored(s2, owner) && s1.message == s2.message
    requires EventOk(ev) && ev.Tapped? && UpToDate(s1, ev) && UpToDate(s2, ev)
    ensures Alike(Answer(s1, ev), Answer(s2, ev))
  {
    hide ParseDraftFromHeader, Dispatch, Decode;
    if Held(s1).Some? && Held(s2).Some? {
      DispatchAlike(Held(s1).value, Held(s2).value, Decode(ev.payload), ev.env);
    }
  }

  lemma {:induction false} RunMirrored(s: Session, owner: UserId, events: seq<Event>)
    requires Mirrored(s, owner) && EventsOk(events) && AllUpToDate(s, events)
    ensures Mirrored(Run(s, events), owner)
  {
    hide Mirrored, EventOk, UpToDate, Next;
    if events != [] {
      RunMirrored(s, owner, events[..|events|-1]);
      NextMirrored(Run(s, events[..|events|-1]), owner, events[|events|-1]);
    }
  }

  lemma TapsOnlyOk(events: seq<Event>)
    requires EventsOk(events)
    ensures EventsOk(TapsOnly(events))
  {
    if events != [] { TapsOnlyOk(events[..|events|-1]); }
  }

  /** The other process shows the same message and has lost no draft that this one has. */
  predicate Remembers(s: Session, s': Session) { s.message == s'.message && (s'.live.None? ==> s.live.None?) }

  /** A tap that is about what one process holds is about what the other holds. */
  lemma UpToDateToo(s: Session, s': Session, ev: Event)
    requires UpToDate(s, ev) && Remembers(s, s')
    ensures UpToDate(s', ev)
  {
    hide ParseDraftFromHeader;
  }

  lemma {:induction false} RestartsUnseenFrom(s: Session, owner: UserId, events: seq<Event>)
    requires Mirrored(s, owner) && EventsOk(events) && AllUpToDate(s, events)
    ensures Effects(s, events) == Effects(s, TapsOnly(events))
    ensures AllUpToDate(s, TapsOnly(events)) && Remembers(Run(s, events), Run(s, TapsOnly(events)))
  {
    hide Mirrored, EventOk, UpToDate, Next, Answer;
    if events != [] {
      var front, last := events[..|events|-1], events[|events|-1];
      var taps := TapsOnly(front);
      RestartsUnseenFrom(s, owner, front);
      if last.Tapped? {
        assert TapsOnly(events)[..|taps|] == taps;
        TapsOnlyOk(front);
        RunMirrored(s, owner, front);
        RunMirrored(s, owner, taps);
        UpToDateToo(Run(s, front), Run(s, taps), last);
        LastTapAlike(Run(s, front), Run(s, taps), owner, last);
      } else {
        assert TapsOnly(events) == taps;
        RestartForgets(Run(s, front));
      }
    }
  }

  lemma LastTapAlike(s1: Session, s2: Session, owner: UserId, ev: Event)
    requires Mirrored(s1, owner) && Mirrored(s2, owner) && s1.message == s2.message
    requires EventOk(ev) && ev.Tapped? && UpToDate(s1, ev) && UpToDate(s2, ev)
    ensures Answer(s1, ev).effect == Answer(s2, ev).effect
    ensures Remembers(Next(s1, ev), Next(s2, ev))
  {
    TapAlike(s1, s2, owner, ev);
    hide Mirrored, EventOk, Answer;
  }

  lemma RestartForgets(s: Session)
    ensures Next(s, Restart) == s.(live := None)
  {
  }

  /**
   Cold restarts are invisible: losing the draft at any points of a prompt, and rebuilding it from the text that comes
   with the next tap, changes no edit, toast or registration of any tap, provided no tap that finds no draft carries
   an outdated text.
   */
  lemma RestartsUnseen(owner: UserId, cs: seq<Candidate>, events: seq<Event>)
    requires IsId(owner) && 1 <= |cs| <= MAX_INT64 && EventsOk(events) && AllUpToDate(Opened(owner, cs), events)
    ensures Effects(Opened(owner, cs), events) == Effects(Opened(owner, cs), TapsOnly(events))
    ensures Run(Opened(owner, cs), events).message == Run(Opened(owner, cs), TapsOnly(events)).message
  {
    OpenedMirrored(owner, cs);
    RestartsUnseenFrom(Opened(owner, cs), owner, events);
  }

  // ---- registrations

  function Registrations(es: seq<Effect>): seq<MatchRow> {
    if es == [] then [] else
    Registrations(es[..|es|-1]) + (if es[|es|-1].registered.Some? then [es[|es|-1].registered.value] else [])
  }

  lemma RegistrationsSnoc(es: seq<Effect>, e: Effect)
    ensures Registrations(es + [e]) == Registrations(es) + if e.registered.Some? then [e.registered.value] else []
  {
    assert (es + [e])[..|es|] == es;
  }

  /** Between the owner and somebody else, with a winner and scores the keyboard offers. */
  predicate FairMatch(m: MatchRow, owner: UserId) {
    && m.player1 == owner == m.registeredBy && m.player2 != owner
    && 0 <= m.score1 <= SCORE_MAX && 0 <= m.score2 <= SCORE_MAX && m.score1 != m.score2
    && m.status != Undone
  }

  ghost predicate Gone(s: Session) { Held(s).None? }

  lemma RegisteringTap(s: Session, owner: UserId, ev: Event)
    requires Mirrored(s, owner) && EventOk(ev) && ev.Tapped? && UpToDate(s, ev)
    ensures var r := Answer(s, ev);
            r.effect.registered.Some? ==>
              && !Gone(s) && ev.from == owner && FairMatch(r.effect.registered.value, owner)
              && Next(s, ev).live.None? && (Gone(Next(s, ev)) <==> r.effect.edit.Some?)
    ensures Gone(s) ==> Gone(Next(s, ev))
  {
    NextMirrored(s, owner, ev);
    if Held(s).Some? {
      ResponseMirrors(s, owner, ev);
      RegisteringDispatch(Held(s).value, Decode(ev.payload), ev.env);
    }
    hide ParseDraftFromHeader, Dispatch, Decode, FairMatch;
  }

  lemma RegisteringDispatch(d: Draft, tap: Tap, env: Env)
    requires DraftOk(d)
    ensures var o := Dispatch(d, tap, env);
            o.effect.registered.Some? ==> o.draft.None? && FairMatch(o.effect.registered.value, d.owner)
  {
    hide ScoreMessage, PickerMessage, Summary, ConfirmationRows, PlainLabel, Truncate;
  }

  lemma {:induction false} FairMatches(s: Session, owner: UserId, events: seq<Event>)
    requires Mirrored(s, owner) && EventsOk(events) && AllUpToDate(s, events)
    ensures forall m :: m in Registrations(Effects(s, events)) ==> FairMatch(m, owner)
  {
    hide Mirrored, EventOk, UpToDate, Next, Answer, Gone, FairMatch;
    if events != [] {
      var front, last := events[..|events|-1], events[|events|-1];
      FairMatches(s, owner, front);
      RunMirrored(s, owner, front);
      if last.Tapped? {
        RegisteringTap(Run(s, front), owner, last);
        RegistrationsSnoc(Effects(s, front), Answer(Run(s, front), last).effect);
      } else {
        assert Effects(s, events) == Effects(s, front);
      }
      hide Registrations;
    }
  }

  lemma RestartKeepsGone(s: Session)
    ensures Gone(s) ==> Gone(Next(s, Restart))
  {
  }

  // ---- how often a prompt registers

  /** The draft may be confirmed. */
  predicate Ready(d: Draft) { d.isScore && d.p1 >= 0 && d.p2 >= 0 && d.p1 != d.p2 && d.opp != d.owner }

  /**
   When a tap registers a match, whatever text it carries. One that finds no draft in memory does if and only if its
   text restores a draft that may be confirmed, it is that draft's owner's Confirm, and the store works. The row has
   the group, the id the store gave, the draft's players and scores, the owner as registering player and the present
   time; it is APPROVED for a chat admin and PENDING for anybody else.
   */
  lemma RegistersIff(live: Option<Draft>, from: UserId, payload: string, text: string, env: Env)
    ensures Response(live, from, payload, text, env).effect.registered.Some? <==>
              var d := Loaded(live, text);
              && d.Some? && from == d.value.owner && Decode(payload) == Confirm && Ready(d.value)
              && env.group.Ok? && env.allocation.Ok?
    ensures var (r, d) := (Response(live, from, payload, text, env).effect.registered, Loaded(live, text));
            r.Some? && d.Some? && env.group.Ok? && env.allocation.Ok? && d.value.p1 >= 0 && d.value.p2 >= 0 ==>
              r.value == MatchRow(env.group.value, env.allocation.value, d.value.owner, d.value.opp,
                                  d.value.p1, d.value.p2, d.value.owner,
                                  if env.isAdmin then Approved else Pending, env.now, env.now)
  {
    hide ParseDraftFromHeader, Decode, ScoreMessage, PickerMessage, Summary, ConfirmationRows, Truncate;
  }

  /**
   A registration that is shown says its id, what it waits for and the score, and has the buttons to confirm and cancel
   it if and only if the owner is no chat admin.
   */
  lemma RegistrationShown(live: Option<Draft>, from: UserId, payload: string, text: string, env: Env)
    ensures var e := Response(live, from, payload, text, env).effect;
            e.registered.Some? && env.editError.None? && env.ackError.None? ==>
              var m := e.registered.value;
              var key := FormatInt(m.group) + ":" + FormatInt(m.id);
              && e.toast == "Match registered" && e.edit.Some?
              && e.edit.value.text ==
                 "Match #" + FormatInt(m.id) + " " + (if env.isAdmin then "registered" else "pending") + ".\n"
                 + Scoreboard(env.ownerLabel, m.score1, m.score2, env.pickedLabel)
              && e.edit.value.keyboard ==
                 if env.isAdmin then [] else [[Button("Confirm", "m:c:" + key), Button("Cancel", "m:x:" + key)]]
  {
    hide ParseDraftFromHeader, Decode, Scoreboard, FormatInt;
    RegistersIff(live, from, payload, text, env);
    var registered := Response(live, from, payload, text, env).effect.registered;
    if registered.Some? && env.editError.None? && env.ackError.None? {
      ShownRegistration(Loaded(live, text).value, env);
    }
    hide Dispatch;
  }

  lemma ShownRegistration(d: Draft, env: Env)
    requires Ready(d) && env.group.Ok? && env.allocation.Ok? && env.editError.None? && env.ackError.None?
    ensures var e := Dispatch(d, Confirm, env).effect;
            var key := FormatInt(env.group.value) + ":" + FormatInt(env.allocation.value);
            && e.toast == "Match registered" && e.edit.Some?
            && e.edit.value.text ==
               "Match #" + FormatInt(env.allocation.value) + " " + (if env.isAdmin then "registered" else "pending")
               + ".\n" + Scoreboard(env.ownerLabel, d.p1, d.p2, env.pickedLabel)
            && e.edit.value.keyboard ==
               if env.isAdmin then [] else [[Button("Confirm", "m:c:" + key), Button("Cancel", "m:x:" + key)]]
  {
    hide Scoreboard, FormatInt;
  }

  /** Why a Confirm of the owner does not register, while nothing fails: a score is missing, or nobody has won. */
  lemma ConfirmRefused(d: Draft, env: Env)
    requires d.isScore && env.editError.None? && env.ackError.None?
    ensures var e := Dispatch(d, Confirm, env).effect;
            && (d.p1 < 0 || d.p2 < 0 ==> e.toast == "Pick a score for both players first.")
            && (d.p1 >= 0 && d.p1 == d.p2 ==> e.toast == "Score must have a winner.")
            && (d.p1 < 0 || d.p2 < 0 || d.p1 == d.p2 ==>
                  e.edit.None? && e.registered.None? && Dispatch(d, Confirm, env).draft == Some(d))
  {
    hide Summary, ConfirmationRows, Truncate;
  }

  /** Taps that ask for nothing, or for what the step does not offer, are answered and change nothing. */
  lemma IdleTaps(d: Draft, tap: Tap, env: Env)
    requires env.ackError.None?
    requires match tap
             case Noop => true
             case Unknown => true
             case BadScore => true
             case Nav(page) => page.None?
             case Pick(opponent) => opponent.None? || opponent.value == d.owner
             case Cancel => false
             case _ => !d.isScore
    ensures Dispatch(d, tap, env) == Outcome(Some(d), Effect(None, "", None))
  {
  }

  /** Cancel ends the prompt: no draft, no keyboard, no match. */
  lemma CancelEnds(d: Draft, env: Env)
    requires env.editError.None? && env.ackError.None?
    ensures Dispatch(d, Cancel, env) == Outcome(None, Effect(Some(Message("/match cancelled.", [])), "Cancelled", None))
  {
  }

  /** A tap on a prompt that is gone is answered without a word. */
  lemma GoneIsSilent(from: UserId, payload: string, text: string, env: Env)
    requires ParseDraftFromHeader(text).None?
    ensures Response(None, from, payload, text, env) == Outcome(None, Effect(None, "", None))
  {
    hide ParseDraftFromHeader;
  }

  /** A tap of anybody but the owner is answered and changes nothing. */
  lemma StrangersRefused(live: Option<Draft>, from: UserId, payload: string, text: string, env: Env)
    requires Loaded(live, text).Some? && from != Loaded(live, text).value.owner
    ensures var o := Response(live, from, payload, text, env);
            && o.draft == Loaded(live, text) && o.effect.edit.None? && o.effect.registered.None?
            && o.effect.toast == "Only the person who ran /match can use these buttons."
  {
    hide ParseDraftFromHeader;
  }

  /** /match opens on the first page of the picker, for its caller. */
  lemma OpensOnFirstPage(owner: UserId, cs: seq<Candidate>)
    requires cs != []
    ensures var s := Opened(owner, cs);
            && s.live.Some? && s.live.value.owner == owner && !s.live.value.isScore && s.live.value.page == 1
            && s.message == PickerMessage(s.live.value, cs)
  {
    hide PickerMessage;
  }

  /** Back shows the picker's first page, and keeps the draft's owner. */
  lemma BackShowsFirstPage(d: Draft, cs: seq<Candidate>, env: Env)
    requires d.isScore && env.candidates == Ok(cs) && cs != [] && env.editError.None?
    ensures var o := Dispatch(d, Back, env);
            && o.draft.Some? && !o.draft.value.isScore && o.draft.value.page == 1 && o.draft.value.owner == d.owner
            && o.effect.edit == Some(PickerMessage(o.draft.value, cs))
  {
    hide PickerMessage;
  }

  /** Picking an opponent starts the score step with both names and no scores. */
  lemma PickStartsScoring(d: Draft, opponent: UserId, env: Env)
    requires opponent != d.owner && env.editError.None?
    ensures var o := Dispatch(d, Pick(Some(opponent)), env);
            && o.draft.Some? && o.effect.edit == Some(ScoreMessage(o.draft.value))
            && (var d' := o.draft.value;
                && d'.isScore && d'.owner == d.owner && d'.opp == opponent && d'.oppLabel == env.pickedLabel
                && (d.ownerLabel == "" ==> d'.ownerLabel == env.ownerLabel)
                && (d.ownerLabel != "" ==> d'.ownerLabel == d.ownerLabel)
                && d'.p1 < 0 && d'.p2 < 0)
  {
    hide ScoreMessage;
  }

  /** The tap rebuilds, from its text, the draft of a prompt that is over. */
  predicate Revives(s: Session, ev: Event) { ev.Tapped? && Held(s).None? && Loaded(s.live, ev.text).Some? }

  function Revivals(s: Session, events: seq<Event>): nat {
    if events == [] then 0 else
    var front, last := events[..|events|-1], events[|events|-1];
    Revivals(s, front) + if Revives(Run(s, front), last) then 1 else 0
  }

  /** The tap registers a match, but no edit takes the prompt off the message. */
  predicate Lingers(s: Session, ev: Event) {
    ev.Tapped? && Answer(s, ev).effect.registered.Some? && Answer(s, ev).effect.edit.None?
  }

  function Lingerings(s: Session, events: seq<Event>): nat {
    if events == [] then 0 else
    var front, last := events[..|events|-1], events[|events|-1];
    Lingerings(s, front) + if Lingers(Run(s, front), last) then 1 else 0
  }

  function HeldCount(s: Session): nat { if Held(s).Some? then 1 else 0 }

  lemma RegistrationEnds(s: Session, ev: Event)
    requires EventOk(ev) && ev.Tapped?
    ensures Answer(s, ev).effect.registered.Some? ==> Next(s, ev).live.None? && (Gone(Next(s, ev)) || Lingers(s, ev))
    ensures Gone(s) && !Revives(s, ev) ==> Answer(s, ev).effect.registered.None? && Gone(Next(s, ev))
  {
    RegistersIff(s.live, ev.from, ev.payload, ev.text, ev.env);
    if Answer(s, ev).effect.registered.Some? { ConfirmedEnds(Loaded(s.live, ev.text).value, ev.env); }
    hide ParseDraftFromHeader, Decode, Dispatch, ConfirmDraft;
  }

  /** When the edit that ends the prompt gets lost: nothing edits the message in the end. */
  lemma LingersIff(s: Session, ev: Event)
    requires ev.Tapped?
    ensures Lingers(s, ev) <==>
              && Answer(s, ev).effect.registered.Some? && ev.env.editError.Some?
              && (ev.env.ackError.None? || !ev.env.failureShown)
  {
    RegistersIff(s.live, ev.from, ev.payload, ev.text, ev.env);
    hide ParseDraftFromHeader, Decode, Summary, ConfirmationRows, Truncate, ScoreMessage, PickerMessage;
  }

  lemma ConfirmedEnds(d: Draft, env: Env)
    requires EnvOk(env) && Ready(d) && env.group.Ok? && env.allocation.Ok?
    ensures Dispatch(d, Confirm, env).draft.None? && Ends(Dispatch(d, Confirm, env).effect)
  {
    hide Registration, ParseDraftFromHeader, TextsOk;
    RegistrationEndsPrompt(env, d);
    AllocatedRegisters(env, d);
    var e := Registration(env, env.group.value, d.owner, d.opp, d.p1, d.p2).value;
    DroppedMirrors(d, if env.editError.None? then e else e.(edit := None), env);
    hide Dropped, Ends;
  }

  lemma AllocatedRegisters(env: Env, d: Draft)
    requires Ready(d) && env.group.Ok? && env.allocation.Ok?
    ensures Registration(env, env.group.value, d.owner, d.opp, d.p1, d.p2).Ok?
  {
    hide Summary, ConfirmationRows;
  }

  /**
   Whatever texts its taps carry and whatever edits fail, a prompt registers once, and once more at most for every tap
   that revives it and for every registration that cannot be shown.
   */
  lemma {:induction false} RegistrationsBounded(s: Session, events: seq<Event>)
    requires EventsOk(events)
    ensures |Registrations(Effects(s, events))| + HeldCount(Run(s, events)) <=
            HeldCount(s) + Revivals(s, events) + Lingerings(s, events)
  {
    hide EventOk, Next, Answer, Held, Revives, Lingers;
    if events != [] {
      var front, last := events[..|events|-1], events[|events|-1];
      RegistrationsBounded(s, front);
      if last.Tapped? {
        RegistrationEnds(Run(s, front), last);
        RegistrationsSnoc(Effects(s, front), Answer(Run(s, front), last).effect);
      } else {
        RestartKeepsGone(Run(s, front));
        assert Effects(s, events) == Effects(s, front);
      }
      hide Registrations;
    }
  }

  /**
   A double click on Confirm, both taps carrying the score text: the second one is handled after the first registered
   the match and dropped the draft, and registers another.
   */
  lemma DoubleClickRegistersTwice(s: Session, owner: UserId, env1: Env, env2: Env)
    requires Mirrored(s, owner) && Held(s).Some? && Ready(Held(s).value)
    requires env1.group.Ok? && env1.allocation.Ok? && env2.group.Ok? && env2.allocation.Ok?
    ensures var text := s.message.text;
            var clicks := [Tapped(owner, "confirm", text, env1), Tapped(owner, "confirm", text, env2)];
            |Registrations(Effects(s, clicks))| == 2
  {
    var text := s.message.text;
    var e1, e2 := Tapped(owner, "confirm", text, env1), Tapped(owner, "confirm", text, env2);
    FixedButtons();
    hide ParseDraftFromHeader, Decode;
    RegistersIff(s.live, owner, "confirm", text, env1);
    RegistersIff(None, owner, "confirm", text, env2);
    ConfirmedDrops(Held(s).value, env1);
    TwoAnswers(s, e1, e2);
    hide Dispatch, Registrations;
  }

  lemma ConfirmedDrops(d: Draft, env: Env)
    requires Ready(d) && env.group.Ok? && env.allocation.Ok?
    ensures Dispatch(d, Confirm, env).draft.None?
  {
    hide Summary, ConfirmationRows, Truncate;
  }

  /** After a registration that could not be shown, a tap on Confirm with the message's present text registers again. */
  lemma LingeringRegistersAgain(s: Session, owner: UserId, ev: Event, env: Env)
    requires Mirrored(s, owner) && EventOk(ev) && UpToDate(s, ev) && Lingers(s, ev)
    requires env.group.Ok? && env.allocation.Ok?
    ensures var s' := Next(s, ev);
            Answer(s', Tapped(owner, "confirm", s'.message.text, env)).effect.registered.Some?
  {
    FixedButtons();
    hide ParseDraftFromHeader, Decode;
    RegistersIff(s.live, ev.from, ev.payload, ev.text, ev.env);
    RegistersIff(None, owner, "confirm", s.message.text, env);
    ConfirmedDrops(Held(s).value, ev.env);
    hide Dispatch;
  }

  /** While no tap that finds no draft carries an outdated text, no tap revives the prompt. */
  lemma {:induction false} NoneRevives(s: Session, events: seq<Event>)
    requires AllUpToDate(s, events)
    ensures Revivals(s, events) == 0
  {
    if events != [] { NoneRevives(s, events[..|events|-1]); }
    hide Held, Run;
  }

  /**
   Over any run of taps and restarts in which no tap that finds no draft carries an outdated text, a prompt registers
   fair matches only, and at most one, unless a registration cannot be shown.
   */
  lemma OneRegistration(owner: UserId, cs: seq<Candidate>, events: seq<Event>)
    requires IsId(owner) && 1 <= |cs| <= MAX_INT64 && EventsOk(events) && AllUpToDate(Opened(owner, cs), events)
    ensures var ms := Registrations(Effects(Opened(owner, cs), events));
            |ms| <= 1 + Lingerings(Opened(owner, cs), events) && forall m :: m in ms ==> FairMatch(m, owner)
  {
    hide Mirrored, Opened, Gone, EventsOk, AllUpToDate, FairMatch, Effects, Registrations, Run, Held;
    OpenedMirrored(owner, cs);
    FairMatches(Opened(owner, cs), owner, events);
    NoneRevives(Opened(owner, cs), events);
    RegistrationsBounded(Opened(owner, cs), events);
  }

  lemma TwoAnswers(s: Session, e1: Event, e2: Event)
    requires e1.Tapped? && e2.Tapped?
    requires Answer(s, e1).effect.registered.Some? && Answer(Next(s, e1), e2).effect.registered.Some?
    ensures |Registrations(Effects(s, [e1, e2]))| == 2
  {
    hide Answer, Next;
    assert [e1, e2][..1] == [e1] && [e1][..0] == [];
    assert Run(s, [e1]) == Next(s, e1);
    var r1, r2 := Answer(s, e1).effect, Answer(Next(s, e1), e2).effect;
    RegistrationsSnoc([], r1);
    RegistrationsSnoc([r1], r2);
    assert Effects(s, [e1]) == [] + [r1] && Effects(s, [e1, e2]) == [r1] + [r2];
  }

  // ---- a prompt registers what its owner tapped

  /** What the tap asks for can be shown. */
  predicate Works(ev: Event) {
    && ev.Tapped? && ev.env.editError.None?
    && (Decode(ev.payload).Nav? || Decode(ev.payload).Back? ==> ev.env.candidates.Ok?)
  }

  /** The owner's latest choice of an opponent that worked, not taken back by leaving the score step. */
  ghost predicate PickStands(events: seq<Event>, owner: UserId, opp: UserId) {
    if events == [] then false else
    var front, last := events[..|events|-1], events[|events|-1];
    if last.Restart? || last.from != owner || !Works(last) then PickStands(front, owner, opp) else
    match Decode(last.payload)
    case Pick(Some(o)) => if o == owner then PickStands(front, owner, opp) else o == opp
    case Nav(Some(_)) => false
    case Back => false
    case _ => PickStands(front, owner, opp)
  }

  /** The owner's latest score for one side that worked since that choice, -1 if there is none. */
  ghost predicate ScoreStands(events: seq<Event>, owner: UserId, side: int, score: int) {
    if events == [] then false else
    var front, last := events[..|events|-1], events[|events|-1];
    if last.Restart? || last.from != owner || !Works(last) then ScoreStands(front, owner, side, score) else
    match Decode(last.payload)
    case Pick(Some(o)) => if o == owner then ScoreStands(front, owner, side, score) else score == -1
    case Score(sd, v) => if sd == side then score == v else ScoreStands(front, owner, side, score)
    case Nav(Some(_)) => false
    case Back => false
    case _ => ScoreStands(front, owner, side, score)
  }

  ghost predicate Stands(events: seq<Event>, owner: UserId, opp: UserId, p1: int, p2: int) {
    PickStands(events, owner, opp) && ScoreStands(events, owner, 1, p1) && ScoreStands(events, owner, 2, p2)
  }

  /** A draft at the score step holds what stands. */
  ghost predicate Holds(d: Draft, events: seq<Event>, owner: UserId) {
    d.isScore ==> Stands(events, owner, d.opp, d.p1, d.p2)
  }

  lemma DecodedSide(payload: string)
    ensures Decode(payload).Score? ==> Decode(payload).side == 1 || Decode(payload).side == 2
  {
  }

  predicate By(owner: UserId, ev: Event) { ev.Tapped? && ev.from == owner }

  lemma PickHolds(events: seq<Event>, owner: UserId, ev: Event, o: UserId)
    requires By(owner, ev) && Works(ev) && Decode(ev.payload) == Pick(Some(o)) && o != owner
    ensures Stands(events + [ev], owner, o, -1, -1)
  {
    hide Decode;
    assert (events + [ev])[..|events|] == events;
  }

  lemma ScoreHolds(d: Draft, events: seq<Event>, owner: UserId, ev: Event, side: int, v: int)
    requires By(owner, ev) && Works(ev) && Decode(ev.payload) == Score(side, v) && (side == 1 || side == 2)
    requires Stands(events, owner, d.opp, d.p1, d.p2)
    ensures Stands(events + [ev], owner, d.opp, if side == 1 then v else d.p1, if side == 1 then d.p2 else v)
  {
    hide Decode;
    assert (events + [ev])[..|events|] == events;
  }

  /** Taps that neither choose nor take back. */
  lemma IdleHolds(d: Draft, events: seq<Event>, owner: UserId, ev: Event)
    requires By(owner, ev) && Holds(d, events, owner)
    requires Works(ev) ==>
               match Decode(ev.payload)
               case Pick(Some(o)) => o == owner
               case Nav(Some(_)) => false
               case Back => !d.isScore
               case Score(_, _) => !d.isScore
               case _ => true
    ensures Holds(d, events + [ev], owner)
  {
    hide Decode;
    assert (events + [ev])[..|events|] == events;
  }

  lemma ConfirmHolds(d: Draft, events: seq<Event>, owner: UserId, env: Env)
    requires Holds(d, events, owner) && d.isScore
    ensures var o := ConfirmDraft(d, env);
            && (o.draft.Some? ==> o.draft.value == d)
            && (o.effect.registered.Some? ==>
                  var m := o.effect.registered.value; Stands(events, owner, m.player2, m.score1, m.score2))
  {
    hide Summary, ConfirmationRows, Truncate, Stands;
  }

  /** A tap that loses the draft without editing the message neither chooses nor takes back. */
  lemma LostHolds(d: Draft, events: seq<Event>, owner: UserId, ev: Event)
    requires By(owner, ev) && EnvOk(ev.env) && d.owner == owner && Holds(d, events, owner)
    requires var o := Dispatch(d, Decode(ev.payload), ev.env); o.draft.None? && o.effect.edit.None?
    ensures Holds(d, events + [ev], owner)
  {
    hide Decode, ScoreMessage, PickerMessage, ConfirmDraft, Stands, Truncate, PlainLabel, CancelDraft;
    IdleHolds(d, events, owner, ev);
    hide Holds;
  }

  lemma PickerStepPicks(d: Draft, env: Env, step: string)
    requires !d.isScore
    ensures var o := ShowPicker(d, env, step); o.effect.registered.None? && (o.draft.Some? ==> !o.draft.value.isScore)
  {
    hide PickerMessage, Clamp;
  }

  lemma DispatchHolds(d: Draft, events: seq<Event>, owner: UserId, ev: Event)
    requires By(owner, ev) && d.owner == owner && Holds(d, events, owner)
    ensures var o := Dispatch(d, Decode(ev.payload), ev.env);
            o.draft.Some? ==> Holds(o.draft.value, events + [ev], owner)
    ensures var o := Dispatch(d, Decode(ev.payload), ev.env);
            o.effect.registered.Some? ==>
              var m := o.effect.registered.value;
              Decode(ev.payload) == Confirm && Stands(events, owner, m.player2, m.score1, m.score2)
  {
    DecodedSide(ev.payload);
    hide Decode, ScoreMessage, ShowPicker, ConfirmDraft, Stands, Truncate;
    match Decode(ev.payload)
    case Nav(Some(page)) => PickerStepPicks(d.(page := page, isScore := false), ev.env, "render opp page: ");
    case Pick(Some(o)) =>
      if o == owner { IdleHolds(d, events, owner, ev); } else if Works(ev) { PickHolds(events, owner, ev, o); }
    case Back =>
      if d.isScore { PickerStepPicks(d.(isScore := false, page := 1), ev.env, "render opp on back: "); }
      else { IdleHolds(d, events, owner, ev); }
    case Score(side, v) =>
      if !d.isScore { IdleHolds(d, events, owner, ev); }
      else if Works(ev) { ScoreHolds(d, events, owner, ev, side, v); }
    case Confirm =>
      IdleHolds(d, events, owner, ev);
      if d.isScore { ConfirmHolds(d, events, owner, ev.env); }
    case _ => IdleHolds(d, events, owner, ev);
  }

  lemma ForeignTapHolds(d: Draft, events: seq<Event>, owner: UserId, ev: Event)
    requires ev.Restart? || ev.from != owner
    requires Holds(d, events, owner)
    ensures Holds(d, events + [ev], owner)
  {
    assert (events + [ev])[..|events|] == events;
  }

  lemma EssenceHolds(d: Draft, events: seq<Event>, owner: UserId)
    ensures Holds(Essence(d), events, owner) <==> Holds(d, events, owner)
  {
  }

  /** Through restarts as well, what the prompt would register is what stands. */
  lemma {:induction false} DraftHolds(s: Session, owner: UserId, events: seq<Event>)
    requires Mirrored(s, owner) && EventsOk(events) && AllUpToDate(s, events)
    requires Held(s).Some? ==> !Held(s).value.isScore
    ensures Held(Run(s, events)).Some? ==> Holds(Held(Run(s, events)).value, events, owner)
  {
    hide Mirrored, EventOk, Next, Holds, Held, UpToDate;
    if events == [] {
      if Held(s).Some? { NotScoring(Held(s).value, events, owner); }
    } else {
      var front, last := events[..|events|-1], events[|events|-1];
      assert events == front + [last];
      DraftHolds(s, owner, front);
      RunMirrored(s, owner, front);
      NextHolds(Run(s, front), owner, front, last);
    }
  }

  lemma NotScoring(d: Draft, events: seq<Event>, owner: UserId)
    requires !d.isScore
    ensures Holds(d, events, owner)
  {
  }

  /** The draft after an event is, in essence, the one the tap left, or the one it lost. */
  lemma LoadedAfter(s: Session, owner: UserId, ev: Event)
    requires Mirrored(s, owner) && EventOk(ev) && UpToDate(s, ev) && Held(Next(s, ev)).Some?
    ensures Held(s).Some?
    ensures var d' := Held(Next(s, ev)).value;
            if ev.Restart? || Answer(s, ev).draft.None? then
              (ev.Tapped? ==> Answer(s, ev).effect.edit.None?) && Essence(d') == Essence(Held(s).value)
            else Essence(d') == Essence(Answer(s, ev).draft.value)
  {
    hide ParseDraftFromHeader, Dispatch, Decode, DraftOk, Response;
    if ev.Tapped? && Held(s).None? { assert Answer(s, ev) == Outcome(None, NOTHING) by { NobodyAnswers(s, ev); } }
    if ev.Tapped? && Held(s).Some? { ResponseMirrors(s, owner, ev); }
    hide Answer;
  }

  lemma NobodyAnswers(s: Session, ev: Event)
    requires ev.Tapped? && Held(s).None? && UpToDate(s, ev)
    ensures Answer(s, ev) == Outcome(None, NOTHING)
  {
    hide ParseDraftFromHeader, Dispatch, Decode;
  }

  lemma NextHolds(s: Session, owner: UserId, events: seq<Event>, ev: Event)
    requires Mirrored(s, owner) && EventOk(ev) && UpToDate(s, ev)
    requires Held(s).Some? ==> Holds(Held(s).value, events, owner)
    ensures Held(Next(s, ev)).Some? ==> Holds(Held(Next(s, ev)).value, events + [ev], owner)
  {
    if Held(Next(s, ev)).Some? {
      LoadedAfter(s, owner, ev);
      var d, d' := Held(s).value, Held(Next(s, ev)).value;
      EssenceHolds(d', events + [ev], owner);
      EssenceHolds(d, events + [ev], owner);
      if ev.Restart? || ev.from != owner {
        ForeignTapHolds(d, events, owner, ev);
      } else if Answer(s, ev).draft.None? {
        LostHolds(d, events, owner, ev);
      } else {
        DispatchHolds(d, events, owner, ev);
        EssenceHolds(Answer(s, ev).draft.value, events + [ev], owner);
      }
    }
    hide ParseDraftFromHeader, Dispatch, Decode, Holds, DraftOk, Essence, Next;
  }

  /**
   The match a prompt registers, whatever restarts came between, is the one its owner put together: against the
   opponent they picked last, with the scores they tapped last for each side since, confirmed by them.
   */
  lemma RegistersWhatWasTapped(owner: UserId, cs: seq<Candidate>, events: seq<Event>, ev: Event)
    requires IsId(owner) && 1 <= |cs| <= MAX_INT64 && EventsOk(events) && EventOk(ev) && ev.Tapped?
    requires AllUpToDate(Opened(owner, cs), events) && UpToDate(Run(Opened(owner, cs), events), ev)
    ensures var r := Answer(Run(Opened(owner, cs), events), ev).effect.registered;
            r.Some? ==>
              && ev.from == owner && Decode(ev.payload) == Confirm
              && Stands(events, owner, r.value.player2, r.value.score1, r.value.score2)
  {
    var s := Opened(owner, cs);
    OpenedMirrored(owner, cs);
    OpenedPicking(owner, cs);
    DraftHolds(s, owner, events);
    RunMirrored(s, owner, events);
    var now := Run(s, events);
    hide Opened, Run;
    if Held(now).Some? && ev.from == owner { DispatchHolds(Held(now).value, events, owner, ev); }
    hide ParseDraftFromHeader, Dispatch, Decode, Stands, Holds;
  }

  lemma OpenedPicking(owner: UserId, cs: seq<Candidate>)
    requires cs != []
    ensures Held(Opened(owner, cs)).Some? && !Held(Opened(owner, cs)).value.isScore
  {
  }

  // ---- the keyboards say what they mean

  lemma DecodeOpp(rest: string)
    ensures Decode("opp:" + rest) == Pick(Parsed(rest))
  {
    var payload := "opp:" + rest;
    assert payload[0] == 'o' && payload[4..] == rest && "opp:" <= payload;
    assert "cancel"[0] == 'c' && "noop"[0] == 'n' && "nav:"[0] == 'n';
    hide Parsed, ScoreTap;
  }

  lemma DecodeNav(rest: string)
    ensures Decode("nav:" + rest) == Nav(Parsed(rest))
  {
    var payload := "nav:" + rest;
    assert payload[0] == 'n' && payload[1] == 'a' && payload[4..] == rest && "nav:" <= payload;
    assert "cancel"[0] == 'c' && "noop"[1] == 'o';
    hide Parsed, ScoreTap;
  }

  lemma DecodeScore(rest: string)
    ensures Decode("s:" + rest) == ScoreTap(rest)
  {
    var payload := "s:" + rest;
    assert payload[0] == 's' && payload[2..] == rest && "s:" <= payload;
    assert "cancel"[0] == 'c' && "noop"[0] == 'n' && "nav:"[0] == 'n' && "opp:"[0] == 'o' && "back"[0] == 'b';
    hide Parsed, ScoreTap;
  }

  lemma ScoreCellTap(side: int, v: int)
    requires 1 <= side <= 2 && 0 <= v <= SCORE_MAX
    ensures ScoreTap(FormatInt(side) + (":" + FormatInt(v))) == Score(side, v)
  {
    ParseIntFormat(side);
    ParseIntFormat(v);
    var rest := FormatInt(side) + (":" + FormatInt(v));
    assert FormatInt(side) == [CharOf(side)];
    hide FormatInt, ParseInt;
    assert rest[0] != ':' && rest[1..][0] == ':';
    assert Colon(rest) == 1;
    assert rest[..1] == FormatInt(side) && rest[2..] == FormatInt(v);
  }

  /** The button for an opponent, a page or a score cell decodes to that opponent, page or score. */
  lemma ButtonsDecode(id: int, side: int, v: int)
    requires IsInt64(id) && 1 <= side <= 2 && 0 <= v <= SCORE_MAX
    ensures Decode("opp:" + FormatInt(id)) == Pick(Some(id))
    ensures Decode("nav:" + FormatInt(id)) == Nav(Some(id))
    ensures Decode("s:" + FormatInt(side) + ":" + FormatInt(v)) == Score(side, v)
  {
    ParseIntFormat(id);
    DecodeOpp(FormatInt(id));
    DecodeNav(FormatInt(id));
    ScoreCellTap(side, v);
    DecodeScore(FormatInt(side) + (":" + FormatInt(v)));
    hide Decode, FormatInt, ParseInt, ScoreTap;
    assert "s:" + FormatInt(side) + ":" + FormatInt(v) == "s:" + (FormatInt(side) + (":" + FormatInt(v)));
  }

  /** What a button of the prompt means once it is tapped. */
  function TapOf(b: Button): Tap { if PREFIX <= b.callback then Decode(b.callback[|PREFIX|..]) else Unknown }

  lemma TapOfPrefixed(text: string, payload: string)
    ensures TapOf(Button(text, PREFIX + payload)) == Decode(payload)
  {
    hide Decode;
  }

  lemma NavButton(text: string, page: int)
    requires IsInt64(page)
    ensures TapOf(Button(text, PREFIX + "nav:" + FormatInt(page))) == Nav(Some(page))
  {
    TapOfPrefixed(text, "nav:" + FormatInt(page));
    ButtonsDecode(page, 1, 0);
    hide Decode, FormatInt, TapOf;
    assert PREFIX + "nav:" + FormatInt(page) == PREFIX + ("nav:" + FormatInt(page));
  }

  /** An opponent's button picks that opponent. */
  lemma OppButtonPicks(c: Candidate)
    requires IsInt64(c.id)
    ensures TapOf(OppButton(c)) == Pick(Some(c.id))
  {
    TapOfPrefixed(c.name, "opp:" + FormatInt(c.id));
    ButtonsDecode(c.id, 1, 0);
    hide Decode, FormatInt, TapOf;
    assert PREFIX + "opp:" + FormatInt(c.id) == PREFIX + ("opp:" + FormatInt(c.id));
  }

  lemma FixedButtons()
    ensures Decode("noop") == Noop && Decode("cancel") == Cancel && Decode("confirm") == Confirm
            && Decode("back") == Back
  {
    assert "noop"[0] == 'n' && "noop"[1] == 'o' && "nav:"[1] == 'a';
    assert "confirm"[0] == 'c' && "confirm"[1] == 'o' && "cancel"[1] == 'a';
    assert "opp:"[0] == 'o' && "s:"[0] == 's' && "back"[0] == 'b';
  }

  lemma NavTap(d: Draft, page: int, cs: seq<Candidate>, env: Env)
    requires env.candidates == Ok(cs) && cs != [] && 1 <= page <= TotalPages(|cs|)
    ensures var d' := d.(page := page, isScore := false);
            Dispatch(d, Nav(Some(page)), env) == Shown(d', PickerMessage(d', cs), env)
  {
    hide PickerMessage;
  }

  lemma PrevWalks(d: Draft, cs: seq<Candidate>, env: Env)
    requires env.candidates == Ok(cs) && |cs| <= MAX_INT64 && TotalPages(|cs|) > 1 && 1 <= d.page <= TotalPages(|cs|)
    ensures var b := NavRow(d.page, TotalPages(|cs|))[0];
            if d.page > 1 then
              var d' := d.(page := d.page - 1, isScore := false);
              Dispatch(d, TapOf(b), env) == Shown(d', PickerMessage(d', cs), env)
            else TapOf(b) == Noop
  {
    hide Decode, FormatInt, TapOf, PickerMessage, Dispatch;
    FixedButtons();
    TapOfPrefixed(".", "noop");
    if d.page > 1 { NavButton("Prev", d.page - 1); NavTap(d, d.page - 1, cs, env); }
  }

  lemma NextWalks(d: Draft, cs: seq<Candidate>, env: Env)
    requires env.candidates == Ok(cs) && |cs| <= MAX_INT64 && TotalPages(|cs|) > 1 && 1 <= d.page <= TotalPages(|cs|)
    ensures var b := NavRow(d.page, TotalPages(|cs|))[2];
            if d.page < TotalPages(|cs|) then
              var d' := d.(page := d.page + 1, isScore := false);
              Dispatch(d, TapOf(b), env) == Shown(d', PickerMessage(d', cs), env)
            else TapOf(b) == Noop
  {
    hide Decode, FormatInt, TapOf, PickerMessage, Dispatch;
    FixedButtons();
    TapOfPrefixed(".", "noop");
    if d.page < TotalPages(|cs|) { NavButton("Next", d.page + 1); NavTap(d, d.page + 1, cs, env); }
  }

  /** Next and Prev of the picker show the next and the previous page; at the ends they do nothing. */
  lemma NavigationWalks(d: Draft, cs: seq<Candidate>, env: Env)
    requires env.candidates == Ok(cs) && |cs| <= MAX_INT64 && TotalPages(|cs|) > 1 && 1 <= d.page <= TotalPages(|cs|)
    ensures var total := TotalPages(|cs|);
            var row := NavRow(d.page, total);
            && |row| == 3 && TapOf(row[1]) == Cancel
            && (if d.page > 1 then
                  var d' := d.(page := d.page - 1, isScore := false);
                  Dispatch(d, TapOf(row[0]), env) == Shown(d', PickerMessage(d', cs), env)
                else TapOf(row[0]) == Noop)
            && (if d.page < total then
                  var d' := d.(page := d.page + 1, isScore := false);
                  Dispatch(d, TapOf(row[2]), env) == Shown(d', PickerMessage(d', cs), env)
                else TapOf(row[2]) == Noop)
  {
    hide Decode, FormatInt, TapOf, PickerMessage, Dispatch;
    FixedButtons();
    TapOfPrefixed("Cancel", "cancel");
    PrevWalks(d, cs, env);
    NextWalks(d, cs, env);
  }

  lemma SideNames()
    ensures FormatInt(1) == "1" && FormatInt(2) == "2"
  {
  }

  lemma LeftCell(text: string, v: nat)
    requires v <= SCORE_MAX
    ensures TapOf(Button(text, PREFIX + "s:1:" + FormatInt(v))) == Score(1, v)
  {
    SideNames();
    ScoreCellTap(1, v);
    hide FormatInt, ScoreTap;
    var f := FormatInt(v);
    DecodeScore("1" + (":" + f));
    TapOfPrefixed(text, "s:" + ("1" + (":" + f)));
    hide Decode, TapOf;
    assert PREFIX + "s:1:" + f == PREFIX + ("s:" + ("1" + (":" + f)));
  }

  lemma RightCell(text: string, v: nat)
    requires v <= SCORE_MAX
    ensures TapOf(Button(text, PREFIX + "s:2:" + FormatInt(v))) == Score(2, v)
  {
    SideNames();
    ScoreCellTap(2, v);
    hide FormatInt, ScoreTap;
    var f := FormatInt(v);
    DecodeScore("2" + (":" + f));
    TapOfPrefixed(text, "s:" + ("2" + (":" + f)));
    hide Decode, TapOf;
    assert PREFIX + "s:2:" + f == PREFIX + ("s:" + ("2" + (":" + f)));
  }

  ghost predicate CellsFor(row: seq<Button>, v: nat) {
    |row| == 2 && TapOf(row[0]) == Score(1, v) && TapOf(row[1]) == Score(2, v)
  }

  lemma CellRowMeans(d: Draft, v: nat)
    requires v <= SCORE_MAX
    ensures CellsFor(CellRow(d, v), v)
  {
    LeftCell(CellLabel(v, v == d.p1), v);
    RightCell(CellLabel(v, v == d.p2), v);
    hide FormatInt, TapOf, CellLabel;
  }

  /** A cell is marked if and only if it shows the score chosen for its side. */
  lemma ChosenMarked(d: Draft, v: nat)
    ensures var row := CellRow(d, v);
            (row[0].text != FormatInt(v) <==> d.p1 == v) && (row[1].text != FormatInt(v) <==> d.p2 == v)
  {
    assert |"* " + FormatInt(v) + " *"| == |FormatInt(v)| + 4;
    hide FormatInt;
  }

  /** The cells of the score step set the score they show, on the side they stand. */
  lemma {:induction false} ScoreCellsSet(d: Draft, from: nat)
    requires from <= SCORE_MAX + 1
    ensures |ScoreRows(d, from)| == SCORE_MAX + 1 - from
    ensures forall i :: 0 <= i < |ScoreRows(d, from)| ==> CellsFor(ScoreRows(d, from)[i], from + i)
    decreases SCORE_MAX + 1 - from
  {
    hide CellsFor, CellRow;
    if from <= SCORE_MAX {
      ScoreCellsSet(d, from + 1);
      CellRowMeans(d, from);
    }
  }

  /** The scoreboard names the winner first, whichever side they were registered on. */
  lemma WinnerFirst(p1: string, s1: nat, s2: nat, p2: string)
    requires s1 != s2
    ensures var (winner, high, low, loser) := if s1 > s2 then (p1, s1, s2, p2) else (p2, s2, s1, p1);
            Scoreboard(p1, s1, s2, p2) == winner + " " + FormatInt(high) + " - " + FormatInt(low) + " " + loser
    ensures Scoreboard(p1, s1, s2, p2) == Scoreboard(p2, s2, s1, p1)
  {
  }
}
