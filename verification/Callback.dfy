/** Taps on interactive prompts as the handlers run them, updating drafts and the draft table in place. */
module Callback {
  import opened Wrappers
  import opened StoreState
  import opened Header
  import opened Picker
  import opened Prompt
  import opened DraftTable

  /**
   `renderOpponentPicker`: clamps the draft's page, then renders it; without candidates there is nothing to render.
   */
  method RenderOpponentPicker(d: MatchDraft, cs: seq<Candidate>) returns (m: Option<Message>)
    modifies d`page
    ensures cs == [] ==> m == None && d.Value() == old(d.Value())
    ensures cs != [] ==> d.Value() == Clamped(old(d.Value()), cs)
    ensures cs != [] ==> m == Some(PickerMessage(Clamped(old(d.Value()), cs), cs))
  {
    if cs == [] { return None; }
    var totalPages := (|cs| + PER_PAGE - 1) / PER_PAGE;
    if d.page < 1 { d.page := 1; }
    if d.page > totalPages { d.page := totalPages; }
    var shown := Draft(d.ownerID, d.ownerLabel, d.isScore, d.page, d.oppID, d.oppLabel, d.p1, d.p2);
    m := Some(PickerMessage(shown, cs));
  }

  method RenderScorePicker(d: MatchDraft) returns (m: Message)
    ensures m == ScoreMessage(d.Value())
  {
    m := ScoreMessage(Draft(d.ownerID, d.ownerLabel, d.isScore, d.page, d.oppID, d.oppLabel, d.p1, d.p2));
  }

  /** How a branch of `dispatchTap` ends: what it has done, and the error it returns, if any, to be shown. */
  datatype Dispatched = Dispatched(done: Effect, error: Option<string>)

  function Fails(cause: string): Dispatched { Dispatched(NOTHING, Some(cause)) }

  /** The outcome on values that the method's result and the draft's new value stand for. */
  ghost predicate Realizes(o: Outcome, r: Dispatched, d: Draft, env: Env, dropped: bool) {
    match r.error
    case None => o == Outcome(if dropped then None else Some(d), r.done)
    case Some(cause) => o == Failed(cause, env, r.done)
  }

  /** `AnswerCallback`. */
  method Answer(toast: string, env: Env, done: Effect) returns (r: Dispatched)
    ensures r == if env.ackError.None? then Dispatched(done.(toast := toast), None) else Dispatched(done, env.ackError)
  {
    if env.ackError.Some? { return Dispatched(done, env.ackError); }
    return Dispatched(done.(toast := toast), None);
  }

  /** `editAndAck`. */
  method EditAndAck(m: Message, env: Env) returns (r: Dispatched)
    ensures r == if env.editError.None? then Dispatched(Effect(Some(m), "", None), None)
                 else Dispatched(NOTHING, env.editError)
  {
    if env.editError.Some? { return Dispatched(NOTHING, env.editError); }
    return Dispatched(Effect(Some(m), "", None), None);
  }

  method ShowPickerTap(d: MatchDraft, env: Env, step: string) returns (r: Dispatched)
    modifies d
    ensures Realizes(ShowPicker(old(d.Value()), env, step), r, d.Value(), env, false)
    ensures d.touchedAt == old(d.touchedAt) && r.done.registered.None?
  {
    hide PickerMessage, Failed, Clamp;
    if env.candidates.Err? { return Fails(step + env.candidates.error); }
    var m := RenderOpponentPicker(d, env.candidates.value);
    if m.None? { r := Answer("", env, NOTHING); } else { r := EditAndAck(m.value, env); }
  }

  method PickOpponentTap(d: MatchDraft, tid: UserId, env: Env) returns (r: Dispatched)
    modifies d
    ensures Realizes(PickOpponent(old(d.Value()), tid, env), r, d.Value(), env, false)
    ensures d.touchedAt == old(d.touchedAt) && r.done.registered.None?
  {
    hide ScoreMessage, Failed;
    if d.ownerLabel == "" { d.ownerLabel := env.ownerLabel; }
    d.oppID := tid;
    d.oppLabel := env.pickedLabel;
    d.isScore := true;
    d.p1, d.p2 := -1, -1;
    var m := RenderScorePicker(d);
    r := EditAndAck(m, env);
  }

  method PickScoreTap(d: MatchDraft, side: int, value: int, env: Env) returns (r: Dispatched)
    modifies d
    ensures Realizes(PickScore(old(d.Value()), side, value, env), r, d.Value(), env, false)
    ensures d.touchedAt == old(d.touchedAt) && r.done.registered.None?
  {
    hide ScoreMessage, Failed;
    if side == 1 { d.p1 := value; } else { d.p2 := value; }
    var m := RenderScorePicker(d);
    r := EditAndAck(m, env);
  }

  method RegisterInteractiveMatch(env: Env, group: GroupId, owner: UserId, opp: UserId, p1: nat, p2: nat)
    returns (r: Result<Effect, string>)
    ensures r == Registration(env, group, owner, opp, p1, p2)
    ensures r.Ok? ==> r.value.registered.Some? && r.value.toast == "Match registered"
  {
    hide Summary, ConfirmationRows;
    if owner == opp { return Err("self-play not allowed"); }
    var status := Pending;
    if env.isAdmin { status := Approved; }
    if env.allocation.Err? { return Err(env.allocation.error); }
    var row := MatchRow(group, env.allocation.value, owner, opp, p1, p2, owner, status, env.now, env.now);
    var verb := "pending";
    if env.isAdmin { verb := "registered"; }
    var text := Summary(row.id, verb, env.ownerLabel, p1, p2, env.pickedLabel);
    return Ok(Effect(Some(Message(text, ConfirmationRows(row))), "Match registered", Some(row)));
  }

  method ConfirmTap(table: Table, key: string, d: MatchDraft, env: Env) returns (r: Dispatched)
    modifies table
    ensures Realizes(ConfirmDraft(d.Value(), env), r, d.Value(), env, r.done.registered.Some?)
    ensures table.matchDrafts ==
            if r.done.registered.Some? then old(table.matchDrafts) - {key} else old(table.matchDrafts)
  {
    hide Failed, Registration;
    if d.p1 < 0 || d.p2 < 0 { r := Answer("Pick a score for both players first.", env, NOTHING); return; }
    if d.p1 == d.p2 { r := Answer("Score must have a winner.", env, NOTHING); return; }
    if env.group.Err? { return Fails("group lookup: " + env.group.error); }
    var registered := RegisterInteractiveMatch(env, env.group.value, d.ownerID, d.oppID, d.p1, d.p2);
    if registered.Err? { return Fails("registration: " + registered.error); }
    table.DropDraft(key);
    var done := registered.value;
    if env.editError.Some? { done := done.(edit := None); }
    r := Answer("Match registered", env, done);
  }

  method CancelTap(table: Table, key: string, env: Env) returns (r: Dispatched)
    modifies table
    ensures forall d :: Realizes(CancelDraft(env), r, d, env, true)
    ensures table.matchDrafts == old(table.matchDrafts) - {key}
  {
    hide Failed;
    table.DropDraft(key);
    if env.editError.Some? { return Fails("edit: " + env.editError.value); }
    r := Answer("Cancelled", env, CANCELLED);
  }

  /** Whether a tap takes the draft out of the table itself. */
  predicate Drops(tap: Tap, r: Dispatched) { tap == Cancel || r.done.registered.Some? }

  /** `dispatchTap`. */
  method DispatchTap(table: Table, key: string, d: MatchDraft, payload: string, env: Env) returns (r: Dispatched)
    modifies table, d
    ensures d.touchedAt == Some(env.now)
    ensures Realizes(Dispatch(old(d.Value()), Decode(payload), env), r, d.Value(), env, Drops(Decode(payload), r))
    ensures table.matchDrafts ==
            if Drops(Decode(payload), r) then old(table.matchDrafts) - {key} else old(table.matchDrafts)
  {
    hide Decode, ShowPicker, PickOpponent, PickScore, ConfirmDraft, CancelDraft, Failed;
    d.touchedAt := Some(env.now);
    var tap := Decode(payload);
    match tap
    case Cancel => r := CancelTap(table, key, env);
    case Nav(Some(page)) =>
      d.page := page;
      d.isScore := false;
      r := ShowPickerTap(d, env, "render opp page: ");
    case Pick(Some(tid)) =>
      if tid == d.ownerID { r := Answer("", env, NOTHING); } else { r := PickOpponentTap(d, tid, env); }
    case Back =>
      if d.isScore {
        d.isScore := false;
        d.page := 1;
        r := ShowPickerTap(d, env, "render opp on back: ");
      } else {
        r := Answer("", env, NOTHING);
      }
    case Score(side, value) =>
      if d.isScore { r := PickScoreTap(d, side, value, env); } else { r := Answer("", env, NOTHING); }
    case Confirm =>
      if d.isScore { r := ConfirmTap(table, key, d, env); } else { r := Answer("", env, NOTHING); }
    case _ => r := Answer("", env, NOTHING);
  }

  /** `failTapGracefully`: what the tap leads to when it ends with this error. */
  method FailTapGracefully(table: Table, key: string, cause: string, env: Env, done: Effect) returns (e: Effect)
    modifies table
    ensures e == Failed(cause, env, done).effect
    ensures table.matchDrafts == old(table.matchDrafts) - {key}
  {
    hide Truncate;
    table.DropDraft(key);
    e := done.(toast := "Error: " + Truncate(cause, 150));
    if env.failureShown { e := e.(edit := Some(FailureMessage(cause))); }
  }

  /** What the owner's tap, or anybody else's, does to a draft. */
  function Tapped(d: Draft, from: UserId, payload: string, env: Env): Outcome {
    if from != d.owner then Outcome(Some(d), STRANGER) else Dispatch(d, Decode(payload), env)
  }

  /** The rest of the callback once its draft is loaded. */
  method HandleLoaded(table: Table, key: string, d: MatchDraft, from: UserId, payload: string, env: Env)
    returns (e: Effect)
    requires forall k :: k in table.matchDrafts ==> (table.matchDrafts[k] == d <==> k == key)
    modifies table, d
    ensures e == Tapped(old(d.Value()), from, payload, env).effect
    ensures table.matchDrafts == old(table.matchDrafts) || table.matchDrafts == old(table.matchDrafts) - {key}
    ensures key in table.matchDrafts ==>
              Tapped(old(d.Value()), from, payload, env).draft == Some(table.matchDrafts[key].Value())
    ensures forall k :: k in table.matchDrafts && k != key ==>
              && table.matchDrafts[k].Value() == old(table.matchDrafts[k].Value())
              && table.matchDrafts[k].touchedAt == old(table.matchDrafts[k].touchedAt)
  {
    hide Dispatch, Decode;
    if from != d.ownerID { return STRANGER; }
    var r := DispatchTap(table, key, d, payload, env);
    if r.error.None? { return r.done; }
    e := FailTapGracefully(table, key, r.error.value, env, r.done);
  }

  /** The draft in memory of the prompt with this key. */
  ghost function LiveDraft(table: Table, key: string): Option<Draft>
    reads table, table.matchDrafts.Values
  {
    if key in table.matchDrafts then Some(table.matchDrafts[key].Value()) else None
  }

  /** The draft a tap with this text is about, shared with no other prompt. */
  method LoadForTap(table: Table, key: string, text: string, now: int) returns (d: MatchDraft?)
    requires table.Valid()
    modifies table
    ensures table.Valid()
    ensures old(Loaded(LiveDraft(table, key), text)) == if d == null then None else Some(d.Value())
    ensures d == null ==> table.matchDrafts == old(table.matchDrafts) && key !in table.matchDrafts
    ensures d != null ==> |table.matchDrafts| <= MAX_ENTRIES && (fresh(d) || d in old(table.matchDrafts.Values))
    ensures forall k :: k in table.matchDrafts && k == key ==> table.matchDrafts[k] == d
    ensures forall k :: k in table.matchDrafts && k != key ==>
              k in old(table.matchDrafts) && table.matchDrafts[k] == old(table.matchDrafts)[k]
                  && table.matchDrafts[k] != d
  {
    hide Kept, ParseDraftFromHeader, Ages;
    d := table.LoadOrRestoreDraft(key, text, now);
  }

  /** How /match without arguments ends: an apology, or the posted picker. */
  datatype Started = Unreachable(cause: string) | Nobody | NotSent | Posted(message: Message)

  /** `startInteractiveMatch`: posts the picker's first page and, once it is sent, stores the draft. */
  method StartInteractiveMatch(table: Table, key: string, owner: UserId, candidates: Result<seq<Candidate>, string>,
                               sent: bool, now: int)
    returns (r: Started)
    requires table.Valid()
    modifies table
    ensures table.Valid()
    ensures r == (match candidates
                  case Err(cause) => Unreachable(cause)
                  case Ok(cs) => if cs == [] then Nobody else if !sent then NotSent
                      else Posted(Opened(owner, cs).message))
    ensures !r.Posted? ==> table.matchDrafts == old(table.matchDrafts)
    ensures r.Posted? ==> |table.matchDrafts| <= MAX_ENTRIES
    ensures r.Posted? && key in table.matchDrafts ==>
              Session(LiveDraft(table, key), r.message) == Opened(owner, candidates.value)
    ensures forall k :: k in table.matchDrafts && k != key ==>
              k in old(table.matchDrafts) && table.matchDrafts[k] == old(table.matchDrafts)[k]
  {
    hide PickerMessage, Clamp, Kept;
    var d := new MatchDraft(FirstDraft(owner));
    if candidates.Err? { return Unreachable(candidates.error); }
    var m := RenderOpponentPicker(d, candidates.value);
    if m.None? { return Nobody; }
    if !sent { return NotSent; }
    table.StoreDraft(key, d, now);
    return Posted(m.value);
  }

  lemma AnswersTapped(live: Option<Draft>, from: UserId, payload: string, text: string, env: Env)
    ensures match Loaded(live, text)
            case None => Response(live, from, payload, text, env) == Outcome(None, NOTHING)
            case Some(d) => Response(live, from, payload, text, env) == Tapped(d, from, payload, env)
  {
    hide Dispatch, Decode, ParseDraftFromHeader;
  }

  /**
   `handleMatchInteractiveCallback`, for any text the callback carries. What the tap shows is what `Response` says;
   afterwards the draft in memory is the one it leaves, unless a collection took it. No other prompt's draft changes,
   though collections may take those too.
   */
  method HandleCallback(table: Table, key: string, from: UserId, payload: string, text: string, env: Env)
    returns (e: Effect)
    requires table.Valid()
    modifies table, table.matchDrafts.Values
    ensures table.Valid()
    ensures e == old(Response(LiveDraft(table, key), from, payload, text, env)).effect
    ensures key in table.matchDrafts ==>
              Some(table.matchDrafts[key].Value()) ==
                  old(Response(LiveDraft(table, key), from, payload, text, env)).draft
    ensures forall k :: k in table.matchDrafts && k != key ==>
              k in old(table.matchDrafts) && table.matchDrafts[k] == old(table.matchDrafts)[k]
              && table.matchDrafts[k].Value() == old(table.matchDrafts[k].Value())
              && table.matchDrafts[k].touchedAt == old(table.matchDrafts[k].touchedAt)
    ensures old(Loaded(LiveDraft(table, key), text)).Some? ==> |table.matchDrafts| <= MAX_ENTRIES
  {
    var d := LoadForTap(table, key, text, env.now);
    if d == null { return NOTHING; }
    hide Response, Tapped, Loaded, LiveDraft, MatchDraft.Value;
    AnswersTapped(old(LiveDraft(table, key)), from, payload, text, env);
    e := HandleLoaded(table, key, d, from, payload, env);
  }
}
