/**
 Taps on one prompt that overlap. A callback carries the text its message had when the button was clicked; its handler
 loads the draft, from that text if there is none in memory, then waits for the draft's lock and is dispatched without
 loading it again (pkg/handlers/match_interactive.go:510-524). So taps clicked or loaded before a registration can
 still act after it. This module says exactly which of them can register a second match. Callbacks may carry any data at
 any time, whatever keyboard the message shows.
 */
module Overlap {
  import opened Wrappers
  import opened StoreState
  import opened Strconv
  import opened Header
  import opened Picker
  import opened Prompt
  import opened PromptProofs

  type DraftId = nat
  type TapId = nat

  /** A callback that has not been handled yet, with the text the message had when it was clicked. */
  datatype Click = Click(from: UserId, payload: string, text: string)

  /** The owner's tap, waiting for the lock of the draft it loaded. */
  datatype Flight = Flight(draft: DraftId, payload: string)

  /** Draft objects, the one the table holds, the message, the callbacks to be handled and the taps under way. */
  datatype World = World(
    drafts: map<DraftId, Draft>, unused: DraftId, live: Option<DraftId>, message: Message,
    clicks: map<TapId, Click>, flights: map<TapId, Flight>)

  datatype Event =
    | Restart                                           // memory is lost, and with it the taps under way
    | Collect                                           // the table loses the draft; taps that hold it go on
    | Clicked(tap: TapId, from: UserId, payload: string)
    | Load(tap: TapId)
    | Locked(tap: TapId, env: Env)

  /** `loadOrRestoreDraft`: the draft in the table, else a new object restored from the text. */
  function Loading(w: World, text: string): World {
    if w.live.Some? then w else
    match ParseDraftFromHeader(text)
    case None => w
    case Some(d) => w.(drafts := w.drafts[w.unused := d], unused := w.unused + 1, live := Some(w.unused))
  }

  /** The picker's draft once a page was asked for; `renderOpponentPicker` clamps the page if it gets to it. */
  function Turned(d: Draft, env: Env): Draft {
    if env.candidates.Ok? && env.candidates.value != [] then Clamped(d, env.candidates.value) else d
  }

  /** The fields the object is left with, which taps that hold it still see after it was dropped from the table. */
  function Residue(d: Draft, tap: Tap, env: Env): Draft {
    match tap
    case Nav(Some(page)) => Turned(d.(page := page, isScore := false), env)
    case Back => if d.isScore then Turned(d.(isScore := false, page := 1), env) else d
    case Pick(Some(opponent)) => if opponent == d.owner then d else Picked(d, opponent, env)
    case Score(side, value) => if d.isScore then Scored(d, side, value) else d
    case _ => d
  }

  function OutcomeOf(w: World, ev: Event): Option<Outcome> {
    if ev.Locked? && ev.tap in w.flights && w.flights[ev.tap].draft in w.drafts
    then Some(Dispatch(w.drafts[w.flights[ev.tap].draft], Decode(w.flights[ev.tap].payload), ev.env))
    else None
  }

  /** A callback is loaded; unless it is the owner's, that is all. */
  function Handled(w: World, tap: TapId, c: Click): World {
    var w' := Loading(w, c.text).(clicks := w.clicks - {tap});
    if w'.live.None? || w'.live.value !in w'.drafts || c.from != w'.drafts[w'.live.value].owner then w'
    else w'.(flights := w'.flights[tap := Flight(w'.live.value, c.payload)])
  }

  function Next(w: World, ev: Event): World {
    match ev
    case Restart => w.(live := None, flights := map[])
    case Collect => w.(live := None)
    case Clicked(tap, from, payload) =>
      if tap in w.clicks || tap in w.flights then w
      else w.(clicks := w.clicks[tap := Click(from, payload, w.message.text)])
    case Load(tap) => if tap in w.clicks && tap !in w.flights then Handled(w, tap, w.clicks[tap]) else w
    case Locked(tap, env) =>
      match OutcomeOf(w, ev)
      case None => w
      case Some(o) =>
        var f := w.flights[tap];
        w.(drafts := w.drafts[f.draft := Residue(w.drafts[f.draft], Decode(f.payload), env)],
           live := if o.draft.None? then None else w.live,
           message := if o.effect.edit.Some? then o.effect.edit.value else w.message,
           flights := w.flights - {tap})
  }

  predicate Registers(w: World, ev: Event) {
    OutcomeOf(w, ev).Some? && OutcomeOf(w, ev).value.effect.registered.Some?
  }

  /** The matches a run from w registers. */
  function Registrations(w: World, events: seq<Event>): nat
    decreases |events|
  {
    if events == [] then 0
    else (if Registers(w, events[0]) then 1 else 0) + Registrations(Next(w, events[0]), events[1..])
  }

  function RunFrom(w: World, events: seq<Event>): World
    decreases |events|
  {
    if events == [] then w else RunFrom(Next(w, events[0]), events[1..])
  }

  /** The prompt is over: no draft in the table and none to restore. */
  ghost predicate Finished(w: World) { w.live.None? && ParseDraftFromHeader(w.message.text).None? }

  /** The tap, dispatched on this draft, registers a match or shows the prompt again. */
  predicate Reopens(d: Draft, tap: Tap) {
    match tap
    case Nav(Some(_)) => true
    case Pick(Some(o)) => o != d.owner
    case Back => d.isScore
    case Score(_, _) => d.isScore
    case Confirm => d.isScore && d.p1 >= 0 && d.p2 >= 0 && d.p1 != d.p2
    case _ => false
  }

  /** A callback is still to be handled whose text restores a draft. */
  ghost predicate SomeRestores(w: World) {
    exists t :: t in w.clicks && ParseDraftFromHeader(w.clicks[t].text).Some?
  }

  ghost predicate SomeReopens(w: World) {
    exists t :: t in w.flights && w.flights[t].draft in w.drafts
                && Reopens(w.drafts[w.flights[t].draft], Decode(w.flights[t].payload))
  }

  // ---- what holds of every run

  ghost predicate TapOk(payload: string) {
    Decode(payload).Pick? && Decode(payload).opponent.Some? ==> IsId(Decode(payload).opponent.value)
  }

  ghost predicate OverlapEventOk(ev: Event) {
    match ev
    case Clicked(_, _, payload) => TapOk(payload)
    case Locked(_, env) => EnvOk(env)
    case _ => true
  }

  ghost predicate AllOk(events: seq<Event>) { forall ev :: ev in events ==> OverlapEventOk(ev) }

  /** A draft object's fields; a failed page turn may leave any page behind. */
  ghost predicate ObjectOk(d: Draft, owner: UserId) {
    && d.owner == owner && IsId(d.owner) && PlainLabel(d.ownerLabel)
    && (d.isScore ==> DraftOk(d))
  }

  ghost predicate MessageOk(text: string, owner: UserId) {
    match ParseDraftFromHeader(text)
    case None => true
    case Some(d) => DraftOk(d) && d.owner == owner && Essence(d) == d
  }

  ghost predicate WorldOk(w: World, owner: UserId) {
    && IsId(owner)
    && (forall id :: id in w.drafts ==> id < w.unused && ObjectOk(w.drafts[id], owner))
    && (w.live.Some? ==> w.live.value in w.drafts)
    && (forall t :: t in w.clicks ==> TapOk(w.clicks[t].payload) && MessageOk(w.clicks[t].text, owner))
    && (forall t :: t in w.flights ==> w.flights[t].draft in w.drafts && TapOk(w.flights[t].payload))
    && MessageOk(w.message.text, owner)
  }

  lemma ResidueOk(d: Draft, tap: Tap, env: Env)
    requires ObjectOk(d, d.owner) && EnvOk(env)
    requires tap.Pick? && tap.opponent.Some? ==> IsId(tap.opponent.value)
    requires tap.Score? ==> 0 <= tap.value <= SCORE_MAX
    ensures ObjectOk(Residue(d, tap, env), d.owner)
  {
    hide PlainLabel;
  }

  lemma MirroredEdit(d: Draft, o: Outcome)
    requires Mirrors(d, o) && o.effect.edit.Some?
    ensures MessageOk(o.effect.edit.value.text, d.owner)
  {
    EssenceTwice(o.draft);
    hide ParseDraftFromHeader;
  }

  lemma AckEdit(d: Draft, toast: string, env: Env)
    requires EnvOk(env)
    ensures Ends(Ack(d, toast, env).effect)
  {
    hide ParseDraftFromHeader, Truncate, PlainLabel, FailureMessage;
    if env.ackError.Some? { FailedMirrors(d, env.ackError.value, env, NOTHING); }
  }

  /** Whatever a dispatch edits the message to restores a draft of the owner or none. */
  lemma EditOk(d: Draft, tap: Tap, env: Env)
    requires ObjectOk(d, d.owner) && EnvOk(env)
    requires tap.Pick? && tap.opponent.Some? ==> IsId(tap.opponent.value)
    requires tap.Score? ==> 0 <= tap.value <= SCORE_MAX
    ensures var e := Dispatch(d, tap, env).effect; e.edit.Some? ==> MessageOk(e.edit.value.text, d.owner)
  {
    AckEdit(d, "", env);
    hide Mirrors, EnvOk, ShowPicker, ConfirmDraft, CancelDraft, PickOpponent, PickScore, PlainLabel, Ack;
    hide ParseDraftFromHeader;
    match tap {
      case Nav(Some(page)) => NavMirrors(d, page, env);
      case Pick(Some(opponent)) => if opponent != d.owner { PickOpponentMirrors(d, opponent, env); }
      case Back => if d.isScore { BackMirrors(d, env); }
      case Score(side, value) => if d.isScore { PickScoreMirrors(d, side, value, env); }
      case Confirm => if d.isScore { ConfirmMirrors(d, env); }
      case Cancel => CancelMirrors(d, env);
      case _ =>
    }
    var o := Dispatch(d, tap, env);
    if o.effect.edit.Some? && Mirrors(d, o) { MirroredEdit(d, o); }
  }

  lemma LoadingOk(w: World, owner: UserId, text: string)
    requires WorldOk(w, owner) && MessageOk(text, owner)
    ensures WorldOk(Loading(w, text), owner)
  {
    hide ParseDraftFromHeader, PlainLabel;
  }

  lemma LockedOk(w: World, owner: UserId, ev: Event)
    requires WorldOk(w, owner) && ev.Locked? && OverlapEventOk(ev)
    ensures WorldOk(Next(w, ev), owner)
  {
    if OutcomeOf(w, ev).Some? {
      var f := w.flights[ev.tap];
      DecodedScore(f.payload);
      ResidueOk(w.drafts[f.draft], Decode(f.payload), ev.env);
      EditOk(w.drafts[f.draft], Decode(f.payload), ev.env);
    }
    hide Decode, Dispatch, Residue, ObjectOk, MessageOk;
  }

  lemma NextOk(w: World, owner: UserId, ev: Event)
    requires WorldOk(w, owner) && OverlapEventOk(ev)
    ensures WorldOk(Next(w, ev), owner)
  {
    match ev
    case Locked(_, _) => LockedOk(w, owner, ev);
    case Load(_) => LoadOk(w, owner, ev);
    case _ => QuietOk(w, owner, ev);
  }

  lemma LoadOk(w: World, owner: UserId, ev: Event)
    requires WorldOk(w, owner) && ev.Load? && OverlapEventOk(ev)
    ensures WorldOk(Next(w, ev), owner)
  {
    if ev.tap in w.clicks { LoadingOk(w, owner, w.clicks[ev.tap].text); }
    hide Loading, ObjectOk, MessageOk, Decode, OutcomeOf, Residue;
  }

  lemma QuietOk(w: World, owner: UserId, ev: Event)
    requires WorldOk(w, owner) && (ev.Restart? || ev.Collect? || ev.Clicked?) && OverlapEventOk(ev)
    ensures WorldOk(Next(w, ev), owner)
  {
    hide Loading, ObjectOk, MessageOk, Decode, OutcomeOf, Residue;
  }

  // ---- no second registration without a tap that reopens

  /** A registration leaves no draft in the table, and ends the prompt unless no edit takes it off the message. */
  lemma RegisteringFinishes(w: World, owner: UserId, ev: Event)
    requires WorldOk(w, owner) && OverlapEventOk(ev) && Registers(w, ev)
    ensures Next(w, ev).live.None?
    ensures Finished(Next(w, ev)) <==>
            OutcomeOf(w, ev).value.effect.edit.Some? || ParseDraftFromHeader(w.message.text).None?
  {
    var f := w.flights[ev.tap];
    var d := w.drafts[f.draft];
    RegisteringIsConfirm(d, Decode(f.payload), ev.env);
    ConfirmMirrors(d, ev.env);
    hide ParseDraftFromHeader, ConfirmDraft, Residue, Decode;
  }

  lemma RegisteringIsConfirm(d: Draft, tap: Tap, env: Env)
    requires Dispatch(d, tap, env).effect.registered.Some?
    ensures tap == Confirm && Reopens(d, tap) && Dispatch(d, tap, env) == ConfirmDraft(d, env)
    ensures Dispatch(d, tap, env).draft.None?
  {
    hide ScoreMessage, PickerMessage, Summary, ConfirmationRows, Truncate;
  }

  /** A tap that does not reopen changes neither its draft nor, to another prompt, the message. */
  lemma HarmlessTap(d: Draft, tap: Tap, env: Env)
    requires !Reopens(d, tap) && EnvOk(env)
    ensures var o := Dispatch(d, tap, env);
            Residue(d, tap, env) == d && o.effect.registered.None? && Ends(o.effect)
  {
    AckEdit(d, "", env);
    AckEdit(d, "Pick a score for both players first.", env);
    AckEdit(d, "Score must have a winner.", env);
    CancelMirrors(d, env);
    CancelDrops(env);
    hide ParseDraftFromHeader, CancelDraft, Truncate;
  }

  lemma CancelDrops(env: Env)
    ensures CancelDraft(env).draft.None? && CancelDraft(env).effect.registered.None?
  {
    hide Truncate;
  }

  /** The prompt is over, no tap under way reopens it, and no callback to come restores it. */
  ghost predicate Settled(w: World) { Finished(w) && !SomeReopens(w) && !SomeRestores(w) }

  lemma SettledNext(w: World, owner: UserId, ev: Event)
    requires WorldOk(w, owner) && Settled(w) && OverlapEventOk(ev)
    ensures Settled(Next(w, ev)) && !Registers(w, ev)
  {
    hide WorldOk, ParseDraftFromHeader;
    if OutcomeOf(w, ev).Some? { SettledDispatch(w, ev); } else { SettledOther(w, owner, ev); }
    hide Next, Settled, OutcomeOf;
  }

  lemma SettledDispatch(w: World, ev: Event)
    requires Settled(w) && OutcomeOf(w, ev).Some? && OverlapEventOk(ev)
    ensures Settled(Next(w, ev)) && OutcomeOf(w, ev).value.effect.registered.None?
  {
    var f := w.flights[ev.tap];
    assert !Reopens(w.drafts[f.draft], Decode(f.payload));
    HarmlessTap(w.drafts[f.draft], Decode(f.payload), ev.env);
    hide Dispatch, Residue, Reopens, ParseDraftFromHeader, Decode, EnvOk;
    assert Next(w, ev).drafts == w.drafts;
  }

  lemma SettledOther(w: World, owner: UserId, ev: Event)
    requires WorldOk(w, owner) && Settled(w) && OutcomeOf(w, ev).None?
    ensures Settled(Next(w, ev))
  {
    hide OutcomeOf, Residue, Reopens, ParseDraftFromHeader, Decode, WorldOk;
    if ev.Load? && ev.tap in w.clicks { assert ParseDraftFromHeader(w.clicks[ev.tap].text).None?; }
    assert Next(w, ev).drafts == w.drafts;
  }

  lemma {:induction false} SettledStays(w: World, owner: UserId, events: seq<Event>)
    requires WorldOk(w, owner) && Settled(w) && AllOk(events)
    ensures Registrations(w, events) == 0
    decreases |events|
  {
    hide WorldOk, Settled, OverlapEventOk, Next, Registers;
    if events != [] {
      assert events[0] in events;
      SettledNext(w, owner, events[0]);
      NextOk(w, owner, events[0]);
      SettledStays(Next(w, events[0]), owner, events[1..]);
    }
  }

  // ---- otherwise there is a run with a second registration

  /** An undisturbed outside world. */
  const CALM := Env(0, Ok([Candidate(1, "", 0)]), "", "", Ok(0), Ok(1), false, None, None, true)

  lemma CalmOk()
    ensures EnvOk(CALM)
  {
  }

  function Rival(owner: UserId): UserId { if owner == 0 then 1 else 0 }

  /** No callback has this number. */
  predicate Unused(w: World, tap: TapId) { tap !in w.clicks && tap !in w.flights }

  lemma {:induction false} AboveAll(s: set<TapId>) returns (tap: TapId)
    ensures forall t :: t in s ==> t < tap
  {
    if s == {} { return 0; }
    var t :| t in s;
    var rest := AboveAll(s - {t});
    tap := if rest <= t then t + 1 else rest;
    assert forall u :: u in s ==> u == t || u in s - {t};
  }

  lemma UnusedTap(w: World) returns (tap: TapId)
    ensures Unused(w, tap)
  {
    tap := AboveAll(w.clicks.Keys + w.flights.Keys);
    assert tap !in w.clicks.Keys + w.flights.Keys;
  }

  /** A tap that is clicked, loaded and dispatched without another in between. */
  function TapEvents(tap: TapId, owner: UserId, payload: string): seq<Event> {
    [Clicked(tap, owner, payload), Load(tap), Locked(tap, CALM)]
  }

  function PickTaps(tap: TapId, owner: UserId): seq<Event> { TapEvents(tap, owner, "opp:" + FormatInt(Rival(owner))) }

  function ScoreTaps(tap: TapId, owner: UserId): seq<Event> {
    TapEvents(tap, owner, "s:1:1") + TapEvents(tap, owner, "s:2:0")
  }

  /** The prompt can be loaded by a tap that is clicked now. */
  ghost predicate Idle(w: World, owner: UserId) { WorldOk(w, owner) && Loading(w, w.message.text).live.Some? }

  /** The prompt as a session of `Prompt`. */
  function SessionOf(w: World): Session {
    Session(if w.live.Some? && w.live.value in w.drafts then Some(w.drafts[w.live.value]) else None, w.message)
  }

  /** A callback that is loaded and dispatched before the next one is a tap of the uncut prompt, with its own text. */
  lemma UncutTap(w: World, owner: UserId, tap: TapId, env: Env)
    requires WorldOk(w, owner) && tap in w.clicks && tap !in w.flights
    ensures var c, w' := w.clicks[tap], Next(Next(w, Load(tap)), Locked(tap, env));
            && SessionOf(w') == Prompt.Next(SessionOf(w), Tapped(c.from, c.payload, c.text, env))
            && w'.clicks == w.clicks - {tap} && w'.flights == w.flights
    ensures var c := w.clicks[tap];
            Registers(Next(w, Load(tap)), Locked(tap, env)) <==>
              Response(SessionOf(w).live, c.from, c.payload, c.text, env).effect.registered.Some?
  {
    var w1 := Next(w, Load(tap));
    var w2 := Next(w1, Locked(tap, env));
    hide Dispatch, Decode, ParseDraftFromHeader, ObjectOk, MessageOk;
    LoadedSame(w, owner, w.clicks[tap].text);
    if tap in w1.flights {
      assert w1.flights - {tap} == w.flights;
      ResidueOfSome(w1.drafts[w1.live.value], Decode(w.clicks[tap].payload), env);
    }
  }

  lemma LoadedSame(w: World, owner: UserId, text: string)
    requires WorldOk(w, owner)
    ensures var w' := Loading(w, text);
            && Loaded(SessionOf(w).live, text) == SessionOf(w').live
            && (w'.live.Some? ==> w'.live.value in w'.drafts)
            && w'.message == w.message && w'.clicks == w.clicks && w'.flights == w.flights
  {
  }

  lemma HeldOk(w: World, owner: UserId)
    requires WorldOk(w, owner)
    ensures var d := Held(SessionOf(w)); d.Some? ==> ObjectOk(d.value, owner)
  {
    hide ParseDraftFromHeader, PlainLabel;
  }

  lemma ResidueOfSome(d: Draft, tap: Tap, env: Env)
    ensures Dispatch(d, tap, env).draft.Some? ==> Residue(d, tap, env) == Dispatch(d, tap, env).draft.value
  {
  }

  function TapRun(w: World, tap: TapId, owner: UserId, payload: string): World {
    Next(Next(Next(w, Clicked(tap, owner, payload)), Load(tap)), Locked(tap, CALM))
  }

  lemma TapRunIs(w: World, tap: TapId, owner: UserId, payload: string)
    requires WorldOk(w, owner) && Unused(w, tap) && TapOk(payload)
    ensures var w' := TapRun(w, tap, owner, payload);
            && WorldOk(w', owner) && SameTaps(w, w')
            && SessionOf(w') == Prompt.Next(SessionOf(w), Tapped(owner, payload, w.message.text, CALM))
  {
    hide WorldOk, Prompt.Next, MessageOk, Decode;
    CalmOk();
    var w1 := Next(w, Clicked(tap, owner, payload));
    assert w1 == w.(clicks := w.clicks[tap := Click(owner, payload, w.message.text)]);
    assert w1.clicks - {tap} == w.clicks;
    hide Next;
    NextOk(w, owner, Clicked(tap, owner, payload));
    NextOk(w1, owner, Load(tap));
    NextOk(Next(w1, Load(tap)), owner, Locked(tap, CALM));
    UncutTap(w1, owner, tap, CALM);
  }

  /** The table holds a draft at the score step, and the message restores it. */
  ghost predicate Scoring(w: World, owner: UserId, p1: int, p2: int) {
    && WorldOk(w, owner) && w.live.Some?
    && w.drafts[w.live.value].isScore && w.drafts[w.live.value].p1 == p1 && w.drafts[w.live.value].p2 == p2
    && ParseDraftFromHeader(w.message.text) == Some(Essence(w.drafts[w.live.value]))
  }

  /** The same callbacks are waiting. */
  predicate SameTaps(w: World, w': World) { w'.clicks == w.clicks && w'.flights == w.flights }

  lemma PickRun(w: World, tap: TapId, owner: UserId)
    requires Idle(w, owner) && Unused(w, tap)
    ensures var w' := TapRun(w, tap, owner, "opp:" + FormatInt(Rival(owner)));
            Scoring(w', owner, -1, -1) && SameTaps(w, w')
  {
    var payload := "opp:" + FormatInt(Rival(owner));
    PickOk(owner);
    CalmOk();
    hide Decode, FormatInt;
    TapRunIs(w, tap, owner, payload);
    LoadedSame(w, owner, w.message.text);
    HeldOk(w, owner);
    var d := Held(SessionOf(w)).value;
    PickOpponentMirrors(d, Rival(owner), CALM);
    hide TapRun, Loading, ScoreMessage, ParseDraftFromHeader, MessageOk, ObjectOk, PlainLabel, WorldOk;
    ShownScoring(TapRun(w, tap, owner, payload), owner, d, PickOpponent(d, Rival(owner), CALM));
    hide Scoring;
  }

  lemma ShownScoring(w: World, owner: UserId, d: Draft, o: Outcome)
    requires WorldOk(w, owner) && Mirrors(d, o) && o.draft.Some? && o.draft.value.isScore && o.effect.edit.Some?
    requires SessionOf(w) == Session(o.draft, o.effect.edit.value)
    ensures Scoring(w, owner, o.draft.value.p1, o.draft.value.p2)
  {
    hide ParseDraftFromHeader, MessageOk, ObjectOk, DraftOk;
  }

  lemma ScoreRun(w: World, tap: TapId, owner: UserId, p1: int, p2: int, payload: string, side: int, v: int)
    requires Scoring(w, owner, p1, p2) && Unused(w, tap) && Decode(payload) == Score(side, v)
    ensures var w' := TapRun(w, tap, owner, payload);
            && SameTaps(w, w')
            && Scoring(w', owner, if side == 1 then v else p1, if side == 1 then p2 else v)
  {
    DecodedScore(payload);
    hide Decode, ParseDraftFromHeader, MessageOk, PlainLabel, ScoreMessage, TapRun;
    TapRunIs(w, tap, owner, payload);
    var d := Held(SessionOf(w)).value;
    assert d == w.drafts[w.live.value];
    HeldOk(w, owner);
    CalmOk();
    PickScoreMirrors(d, side, v, CALM);
    hide WorldOk, ObjectOk, DraftOk;
    ShownScoring(TapRun(w, tap, owner, payload), owner, d, PickScore(d, side, v, CALM));
    hide Mirrors;
  }

  lemma CellPayloads()
    ensures Decode("s:1:1") == Score(1, 1) && Decode("s:2:0") == Score(2, 0) && Decode("confirm") == Confirm
  {
    hide Decode;
    SideNames();
    assert FormatInt(0) == "0";
    hide FormatInt;
    ButtonsDecode(0, 1, 1);
    ButtonsDecode(0, 2, 0);
    FixedButtons();
    assert "s:" + "1" + ":" + "1" == "s:1:1" && "s:" + "2" + ":" + "0" == "s:2:0";
  }

  function ReadyEvents(tap: TapId, owner: UserId): seq<Event> { PickTaps(tap, owner) + ScoreTaps(tap, owner) }

  function ReadyWorld(w: World, tap: TapId, owner: UserId): World {
    TapRun(TapRun(TapRun(w, tap, owner, "opp:" + FormatInt(Rival(owner))), tap, owner, "s:1:1"), tap, owner, "s:2:0")
  }

  /** Three taps bring any prompt that can be loaded to a score that may be confirmed. */
  lemma GetsReady(w: World, tap: TapId, owner: UserId)
    requires Idle(w, owner) && Unused(w, tap)
    ensures Scoring(ReadyWorld(w, tap, owner), owner, 1, 0) && SameTaps(w, ReadyWorld(w, tap, owner))
  {
    CellPayloads();
    PickRun(w, tap, owner);
    hide Decode, TapRun, Scoring, Idle, FormatInt;
    var w1 := TapRun(w, tap, owner, "opp:" + FormatInt(Rival(owner)));
    ScoreRun(w1, tap, owner, -1, -1, "s:1:1", 1, 1);
    ScoreRun(TapRun(w1, tap, owner, "s:1:1"), tap, owner, 1, -1, "s:2:0", 2, 0);
  }

  lemma FirstOf(w: World, a: Event, rest: seq<Event>)
    ensures Registrations(w, [a] + rest) == (if Registers(w, a) then 1 else 0) + Registrations(Next(w, a), rest)
  {
    hide Next, Registers;
    assert ([a] + rest)[1..] == rest;
  }

  lemma ThreeEvents(w: World, a: Event, b: Event, c: Event, rest: seq<Event>)
    ensures Registrations(w, [a, b, c] + rest) >= Registrations(Next(Next(Next(w, a), b), c), rest)
  {
    assert [a, b, c] + rest == [a] + ([b] + ([c] + rest));
    FirstOf(w, a, [b] + ([c] + rest));
    FirstOf(Next(w, a), b, [c] + rest);
    FirstOf(Next(Next(w, a), b), c, rest);
    hide Next, Registers, Registrations;
  }

  lemma TapRegistrations(w: World, tap: TapId, owner: UserId, payload: string, rest: seq<Event>)
    ensures Registrations(w, TapEvents(tap, owner, payload) + rest) >=
            Registrations(TapRun(w, tap, owner, payload), rest)
  {
    ThreeEvents(w, Clicked(tap, owner, payload), Load(tap), Locked(tap, CALM), rest);
    hide Next, Registrations;
  }

  lemma ReadyRun(w: World, tap: TapId, owner: UserId, rest: seq<Event>)
    ensures Registrations(w, ReadyEvents(tap, owner) + rest) >= Registrations(ReadyWorld(w, tap, owner), rest)
  {
    hide Registrations, TapRun, TapEvents;
    var pick := "opp:" + FormatInt(Rival(owner));
    var w1 := TapRun(w, tap, owner, pick);
    var w2 := TapRun(w1, tap, owner, "s:1:1");
    var r2 := TapEvents(tap, owner, "s:2:0") + rest;
    var r1 := TapEvents(tap, owner, "s:1:1") + r2;
    TapRegistrations(w, tap, owner, pick, r1);
    TapRegistrations(w1, tap, owner, "s:1:1", r2);
    TapRegistrations(w2, tap, owner, "s:2:0", rest);
    assert ReadyEvents(tap, owner) + rest == TapEvents(tap, owner, pick) + r1;
  }

  lemma ReadyEventsOk(tap: TapId, owner: UserId)
    requires IsId(owner)
    ensures AllOk(ReadyEvents(tap, owner)) && AllOk(TapEvents(tap, owner, "confirm"))
  {
    CalmOk();
    CellPayloads();
    PickOk(owner);
    hide Decode, EnvOk, FormatInt;
    TapEventsOk(tap, owner, "opp:" + FormatInt(Rival(owner)));
    TapEventsOk(tap, owner, "s:1:1");
    TapEventsOk(tap, owner, "s:2:0");
    TapEventsOk(tap, owner, "confirm");
    hide TapEvents, OverlapEventOk;
  }

  lemma PickOk(owner: UserId)
    ensures var payload := "opp:" + FormatInt(Rival(owner));
            Decode(payload) == Pick(Some(Rival(owner))) && TapOk(payload)
  {
    ParseIntFormat(Rival(owner));
    DecodeOpp(FormatInt(Rival(owner)));
    hide Decode, FormatInt, ParseInt;
  }

  lemma TapEventsOk(tap: TapId, owner: UserId, payload: string)
    requires TapOk(payload) && EnvOk(CALM)
    ensures AllOk(TapEvents(tap, owner, payload))
  {
    hide Decode, EnvOk, TapOk;
  }

  /** A callback that is the owner's Confirm on a ready draft registers, whatever text it carries. */
  lemma ConfirmRegisters(w: World, owner: UserId, p1: int, p2: int, tap: TapId, env: Env)
    requires Scoring(w, owner, p1, p2) && p1 >= 0 && p2 >= 0 && p1 != p2 && env.group.Ok? && env.allocation.Ok?
    requires tap in w.clicks && tap !in w.flights && w.clicks[tap].from == owner && w.clicks[tap].payload == "confirm"
    ensures Registers(Next(w, Load(tap)), Locked(tap, env))
  {
    var c := w.clicks[tap];
    CellPayloads();
    hide Decode;
    UncutTap(w, owner, tap, env);
    RegistersIff(SessionOf(w).live, owner, "confirm", c.text, env);
    ScoringReady(w, owner, p1, p2);
    hide Next, Registers, WorldOk, Response, ParseDraftFromHeader;
  }

  lemma ScoringReady(w: World, owner: UserId, p1: int, p2: int)
    requires Scoring(w, owner, p1, p2) && p1 >= 0 && p2 >= 0 && p1 != p2
    ensures var d := SessionOf(w).live; d.Some? && Ready(d.value) && d.value.owner == owner
  {
    assert ObjectOk(w.drafts[w.live.value], owner);
  }

  /** A confirm tap alone. */
  lemma ConfirmRun(w: World, tap: TapId, owner: UserId, p1: int, p2: int)
    requires Scoring(w, owner, p1, p2) && p1 >= 0 && p2 >= 0 && p1 != p2 && Unused(w, tap)
    ensures Registrations(w, TapEvents(tap, owner, "confirm")) > 0
  {
    var a, b, c := Clicked(tap, owner, "confirm"), Load(tap), Locked(tap, CALM);
    var w1 := Next(w, a);
    ConfirmClicked(w, owner, p1, p2, tap);
    hide Next, Registers, Registrations, Scoring;
    ConfirmRegisters(w1, owner, p1, p2, tap, CALM);
    FirstOf(w, a, [b, c]);
    FirstOf(w1, b, [c]);
    FirstOf(Next(w1, b), c, []);
    assert [a] + [b, c] == TapEvents(tap, owner, "confirm") && [b] + [c] == [b, c] && [c] + [] == [c];
  }

  lemma ConfirmClicked(w: World, owner: UserId, p1: int, p2: int, tap: TapId)
    requires Scoring(w, owner, p1, p2) && Unused(w, tap)
    ensures var w' := Next(w, Clicked(tap, owner, "confirm"));
            && Scoring(w', owner, p1, p2) && w'.flights == w.flights && w'.message == w.message
            && w'.clicks == w.clicks[tap := Click(owner, "confirm", w.message.text)]
  {
    CellPayloads();
    hide Decode, ParseDraftFromHeader;
    NextOk(w, owner, Clicked(tap, owner, "confirm"));
    hide WorldOk;
  }

  /** From any prompt that can be loaded there is a run that registers. */
  lemma IdleRegisters(w: World, owner: UserId) returns (events: seq<Event>)
    requires Idle(w, owner)
    ensures AllOk(events) && Registrations(w, events) > 0
  {
    var tap := UnusedTap(w);
    ReadyEventsOk(tap, owner);
    hide Idle, Scoring, Registrations, ReadyWorld, Decode, ReadyEvents, TapEvents, OverlapEventOk;
    GetsReady(w, tap, owner);
    ReadyRun(w, tap, owner, TapEvents(tap, owner, "confirm"));
    ConfirmRun(ReadyWorld(w, tap, owner), tap, owner, 1, 0);
    events := ReadyEvents(tap, owner) + TapEvents(tap, owner, "confirm");
  }

  /** A tap that reopens, other than Confirm, shows a message that restores a draft. */
  lemma ReopeningShows(d: Draft, tap: Tap)
    requires ObjectOk(d, d.owner) && Reopens(d, tap) && tap != Confirm
    requires tap.Pick? ==> IsId(tap.opponent.value)
    requires tap.Score? ==> 0 <= tap.value <= SCORE_MAX
    ensures var o := Dispatch(d, tap, CALM);
            o.effect.edit.Some? && ParseDraftFromHeader(o.effect.edit.value.text).Some? && o.effect.registered.None?
  {
    CalmOk();
    hide ParseDraftFromHeader, PickerMessage, ScoreMessage, EnvOk;
    match tap
    case Nav(Some(page)) => NavMirrors(d, page, CALM);
    case Pick(Some(opponent)) => PickOpponentMirrors(d, opponent, CALM);
    case Back => BackMirrors(d, CALM);
    case Score(side, value) => PickScoreMirrors(d, side, value, CALM);
  }

  lemma ReopenedShows(w: World, owner: UserId, t: TapId)
    requires WorldOk(w, owner) && t in w.flights && w.flights[t].draft in w.drafts
    requires Reopens(w.drafts[w.flights[t].draft], Decode(w.flights[t].payload))
    requires Decode(w.flights[t].payload) != Confirm
    ensures ParseDraftFromHeader(Next(w, Locked(t, CALM)).message.text).Some?
  {
    hide ParseDraftFromHeader, Dispatch, Residue, Next;
    DecodedScore(w.flights[t].payload);
    hide Decode, PlainLabel, DraftOk, MessageOk;
    var d := w.drafts[w.flights[t].draft];
    assert ObjectOk(d, owner) && d.owner == owner && TapOk(w.flights[t].payload);
    hide ObjectOk, WorldOk;
    ReopeningShows(d, Decode(w.flights[t].payload));
    hide Reopens;
    DispatchedMessage(w, t);
  }

  lemma DispatchedMessage(w: World, t: TapId)
    requires t in w.flights && w.flights[t].draft in w.drafts
    ensures var o := Dispatch(w.drafts[w.flights[t].draft], Decode(w.flights[t].payload), CALM);
            o.effect.edit.Some? ==> Next(w, Locked(t, CALM)).message == o.effect.edit.value
  {
    hide Dispatch, Residue, Decode;
  }

  lemma ReopenedIdle(w: World, owner: UserId, t: TapId)
    requires WorldOk(w, owner) && t in w.flights && w.flights[t].draft in w.drafts
    requires Reopens(w.drafts[w.flights[t].draft], Decode(w.flights[t].payload))
    requires Decode(w.flights[t].payload) != Confirm
    ensures Idle(Next(w, Locked(t, CALM)), owner)
  {
    CalmOk();
    hide Decode, Reopens, EnvOk, ParseDraftFromHeader;
    ReopenedShows(w, owner, t);
    hide ObjectOk, MessageOk, Dispatch, Residue;
    NextOk(w, owner, Locked(t, CALM));
    hide WorldOk, Next;
  }

  lemma ReopenedRegisters(w: World, owner: UserId, t: TapId) returns (events: seq<Event>)
    requires WorldOk(w, owner) && t in w.flights && w.flights[t].draft in w.drafts
    requires Reopens(w.drafts[w.flights[t].draft], Decode(w.flights[t].payload))
    ensures AllOk(events) && Registrations(w, events) > 0
  {
    CalmOk();
    if Decode(w.flights[t].payload) == Confirm {
      events := [Locked(t, CALM)];
      ConfirmFlight(w, owner, t);
      assert events[1..] == [];
      hide Next, Registers;
    } else {
      ReopenedIdle(w, owner, t);
      var rest := IdleRegisters(Next(w, Locked(t, CALM)), owner);
      FirstOf(w, Locked(t, CALM), rest);
      events := [Locked(t, CALM)] + rest;
      hide Registrations, Next, Decode, EnvOk;
    }
  }

  lemma ConfirmFlight(w: World, owner: UserId, t: TapId)
    requires WorldOk(w, owner) && t in w.flights && w.flights[t].draft in w.drafts
    requires Reopens(w.drafts[w.flights[t].draft], Decode(w.flights[t].payload))
    requires Decode(w.flights[t].payload) == Confirm
    ensures Registers(w, Locked(t, CALM))
  {
    assert ObjectOk(w.drafts[w.flights[t].draft], owner);
    hide Decode, Summary, ConfirmationRows, Truncate;
  }

  /** A callback whose text restores a draft brings the prompt back into memory, whoever clicked whatever. */
  lemma RestoredRegisters(w: World, owner: UserId, t: TapId) returns (events: seq<Event>)
    requires WorldOk(w, owner) && t in w.clicks && ParseDraftFromHeader(w.clicks[t].text).Some?
    ensures AllOk(events) && Registrations(w, events) > 0
  {
    hide ParseDraftFromHeader, WorldOk, Registrations, EnvOk, Decode;
    var w1 := Next(w, Event.Restart);
    NextOk(w, owner, Event.Restart);
    NextOk(w1, owner, Load(t));
    assert Idle(Next(w1, Load(t)), owner);
    hide Idle, Next;
    var rest := IdleRegisters(Next(w1, Load(t)), owner);
    FirstOf(w, Event.Restart, [Load(t)] + rest);
    FirstOf(w1, Load(t), rest);
    events := [Event.Restart] + ([Load(t)] + rest);
  }

  /**
   Whatever has happened to a prompt, some further run registers a match, the first or another, if and only if the table
   holds its draft, its message still restores one, a tap is under way that reopens it, a Confirm whose draft is ready
   or one that shows the prompt again, or a callback is still to be handled whose text restores a draft. All can be read
   off the table, the message, the waiting taps, the drafts they hold and the texts they carry. A registration empties
   the table, so for the next one the other three are left.
   */
  lemma NextRegistrationIff(w: World, owner: UserId)
    requires WorldOk(w, owner)
    ensures (exists events :: AllOk(events) && Registrations(w, events) > 0) <==>
              w.live.Some? || ParseDraftFromHeader(w.message.text).Some? || SomeReopens(w) || SomeRestores(w)
  {
    hide WorldOk, Registrations, OverlapEventOk, ParseDraftFromHeader;
    if w.live.Some? || ParseDraftFromHeader(w.message.text).Some? {
      var events := IdleRegisters(w, owner);
    } else if SomeReopens(w) {
      var t :| t in w.flights && w.flights[t].draft in w.drafts
               && Reopens(w.drafts[w.flights[t].draft], Decode(w.flights[t].payload));
      var events := ReopenedRegisters(w, owner, t);
    } else if SomeRestores(w) {
      var t :| t in w.clicks && ParseDraftFromHeader(w.clicks[t].text).Some?;
      var events := RestoredRegisters(w, owner, t);
    } else {
      forall events | AllOk(events) ensures Registrations(w, events) == 0 { SettledStays(w, owner, events); }
    }
  }

  // ---- whole runs

  /**
   When a match is registered, the message is edited, no tap that reopens is under way, and no callback to come restores
   the prompt.
   */
  ghost predicate NoneReopens(w: World, events: seq<Event>)
    decreases |events|
  {
    events == [] ||
    (&& (Registers(w, events[0]) ==>
           && OutcomeOf(w, events[0]).value.effect.edit.Some?
           && !SomeReopens(Next(w, events[0])) && !SomeRestores(Next(w, events[0])))
     && NoneReopens(Next(w, events[0]), events[1..]))
  }

  /** Then the prompt registers at most one match, however its taps overlap. */
  lemma {:induction false} OneIfNoneReopens(w: World, owner: UserId, events: seq<Event>)
    requires WorldOk(w, owner) && AllOk(events) && NoneReopens(w, events)
    ensures Registrations(w, events) <= 1
    decreases |events|
  {
    hide WorldOk, Registers, Next, OverlapEventOk, Finished, SomeReopens, SomeRestores, OutcomeOf;
    if events != [] {
      var w', rest := Next(w, events[0]), events[1..];
      assert events[0] in events;
      NextOk(w, owner, events[0]);
      OneIfNoneReopens(w', owner, rest);
      if Registers(w, events[0]) {
        RegisteringFinishes(w, owner, events[0]);
        SettledStays(w', owner, rest);
      }
    }
  }

  /** The prompt as it is posted. */
  function OpenedWorld(owner: UserId, cs: seq<Candidate>): World
    requires cs != []
  {
    World(map[0 := Clamped(FirstDraft(owner), cs)], 1, Some(0), Opened(owner, cs).message, map[], map[])
  }

  lemma OpenedOk(owner: UserId, cs: seq<Candidate>)
    requires IsId(owner) && 1 <= |cs| <= MAX_INT64
    ensures Idle(OpenedWorld(owner, cs), owner)
  {
    hide ParseDraftFromHeader, PickerMessage, PlainLabel, Clamp;
    OpenedMirrored(owner, cs);
    assert Held(Opened(owner, cs)) == Opened(owner, cs).live;
    hide DraftOk;
  }

  // ---- two clicks on Confirm

  function ConfirmClicks(owner: UserId): seq<Event> { [Clicked(0, owner, "confirm"), Clicked(1, owner, "confirm")] }

  /** Both load the draft before either is dispatched. */
  function Overlapping(env1: Env, env2: Env): seq<Event> { [Load(0), Load(1), Locked(0, env1), Locked(1, env2)] }

  /** The first is handled to its end before the second is loaded. */
  function InTurn(env1: Env, env2: Env): seq<Event> { [Load(0), Locked(0, env1), Load(1), Locked(1, env2)] }

  /** A ready draft in the table, and two Confirm callbacks that carry the message that restores it. */
  ghost predicate DoubleClicked(w: World, owner: UserId, p1: int, p2: int) {
    var c := Click(owner, "confirm", w.message.text);
    && Scoring(w, owner, p1, p2) && p1 >= 0 && p2 >= 0 && p1 != p2
    && w.clicks == map[0 := c, 1 := c] && w.flights == map[]
  }

  predicate StoreWorks(env: Env) { env.group.Ok? && env.allocation.Ok? }

  lemma OverlappingRegisterTwice(w: World, owner: UserId, p1: int, p2: int, env1: Env, env2: Env)
    requires DoubleClicked(w, owner, p1, p2) && StoreWorks(env1) && StoreWorks(env2)
    ensures Registrations(w, Overlapping(env1, env2)) == 2
  {
    CellPayloads();
    hide Decode, ParseDraftFromHeader;
    ScoringReady(w, owner, p1, p2);
    BothLoad(w, owner, p1, p2);
    hide Next, Registers, WorldOk;
    var w2 := Next(Next(w, Load(0)), Load(1));
    ConfirmLocked(w2, 0, env1);
    ConfirmLocked(Next(w2, Locked(0, env1)), 1, env2);
    FourEvents(w, Load(0), Load(1), Locked(0, env1), Locked(1, env2));
  }

  /** A Confirm on a ready draft registers and leaves the object as it was, for others that hold it. */
  lemma ConfirmLocked(w: World, tap: TapId, env: Env)
    requires tap in w.flights && Decode(w.flights[tap].payload) == Confirm && StoreWorks(env)
    requires w.flights[tap].draft in w.drafts && Ready(w.drafts[w.flights[tap].draft])
    ensures var w' := Next(w, Locked(tap, env));
            Registers(w, Locked(tap, env)) && w'.drafts == w.drafts && w'.flights == w.flights - {tap}
  {
    hide Decode;
    ConfirmedRegisters(w.drafts[w.flights[tap].draft], env);
    hide Dispatch, Residue;
  }

  lemma BothLoad(w: World, owner: UserId, p1: int, p2: int)
    requires DoubleClicked(w, owner, p1, p2)
    ensures var f := Flight(w.live.value, "confirm");
            && Next(Next(w, Load(0)), Load(1)) == w.(clicks := map[], flights := map[0 := f, 1 := f])
            && !Registers(w, Load(0)) && !Registers(Next(w, Load(0)), Load(1))
  {
    hide ParseDraftFromHeader;
    assert ObjectOk(w.drafts[w.live.value], owner);
    hide WorldOk;
    assert w.clicks - {0} - {1} == map[];
  }

  lemma ConfirmedRegisters(d: Draft, env: Env)
    requires Ready(d) && StoreWorks(env)
    ensures Dispatch(d, Confirm, env).effect.registered.Some? && Residue(d, Confirm, env) == d
  {
    hide Summary, ConfirmationRows, Truncate;
  }

  lemma FourEvents(w: World, a: Event, b: Event, c: Event, d: Event)
    ensures var w1 := Next(w, a); var w2 := Next(w1, b); var w3 := Next(w2, c);
            Registrations(w, [a, b, c, d]) ==
            (if Registers(w, a) then 1 else 0) + (if Registers(w1, b) then 1 else 0)
            + (if Registers(w2, c) then 1 else 0) + (if Registers(w3, d) then 1 else 0)
  {
    assert [a, b, c, d] == [a] + [b, c, d] && [b, c, d] == [b] + [c, d] && [c, d] == [c] + [d] && [d] == [d] + [];
    FirstOf(w, a, [b, c, d]);
    FirstOf(Next(w, a), b, [c, d]);
    FirstOf(Next(Next(w, a), b), c, [d]);
    FirstOf(Next(Next(Next(w, a), b), c), d, []);
    hide Next, Registers;
  }

  /** The first registration leaves no draft, and the second callback's own text restores it. */
  lemma InTurnRegisterTwice(w: World, owner: UserId, p1: int, p2: int, env1: Env, env2: Env)
    requires DoubleClicked(w, owner, p1, p2) && StoreWorks(env1) && StoreWorks(env2) && EnvOk(env1)
    ensures Registrations(w, InTurn(env1, env2)) == 2
  {
    CellPayloads();
    hide Decode, ParseDraftFromHeader;
    ConfirmRegisters(w, owner, p1, p2, 0, env1);
    UncutTap(w, owner, 0, env1);
    var w1 := Next(w, Load(0));
    var w2 := Next(w1, Locked(0, env1));
    ScoringReady(w, owner, p1, p2);
    assert SessionOf(w2).live.None? by { hide Next, Summary, ConfirmationRows; }
    NextOk(w, owner, Load(0));
    NextOk(w1, owner, Locked(0, env1));
    UncutTap(w2, owner, 1, env2);
    RegistersIff(None, owner, "confirm", w.message.text, env2);
    hide Next, Registers;
    FourEvents(w, Load(0), Locked(0, env1), Load(1), Locked(1, env2));
  }

  lemma ClickedTwice(w: World, owner: UserId, p1: int, p2: int, rest: seq<Event>)
    requires Scoring(w, owner, p1, p2) && p1 >= 0 && p2 >= 0 && p1 != p2 && w.clicks == map[] && w.flights == map[]
    ensures var w2 := Next(Next(w, Clicked(0, owner, "confirm")), Clicked(1, owner, "confirm"));
            && DoubleClicked(w2, owner, p1, p2)
            && Registrations(w, ConfirmClicks(owner) + rest) >= Registrations(w2, rest)
  {
    var a, b := Clicked(0, owner, "confirm"), Clicked(1, owner, "confirm");
    ConfirmClicked(w, owner, p1, p2, 0);
    ConfirmClicked(Next(w, a), owner, p1, p2, 1);
    FirstOf(w, a, [b] + rest);
    FirstOf(Next(w, a), b, rest);
    assert ConfirmClicks(owner) + rest == [a] + ([b] + rest);
    hide Registrations, Registers, Next, Scoring;
  }

  /** So every posted prompt has a run that registers two matches, with and without an overlap. */
  lemma EveryPromptCanRegisterTwice(owner: UserId, cs: seq<Candidate>)
    requires IsId(owner) && 1 <= |cs| <= MAX_INT64
    ensures var w, start := OpenedWorld(owner, cs), ReadyEvents(0, owner) + ConfirmClicks(owner);
            Registrations(w, start + Overlapping(CALM, CALM)) >= 2 && Registrations(w, start + InTurn(CALM, CALM)) >= 2
  {
    var w, w2 := OpenedWorld(owner, cs), ReadyWorld(OpenedWorld(owner, cs), 0, owner);
    OpenedOk(owner, cs);
    CalmOk();
    hide Registrations, Scoring, DoubleClicked, ReadyWorld, ReadyEvents, ConfirmClicks, Next, EnvOk, Idle;
    PreparedRun(w, owner, Overlapping(CALM, CALM));
    PreparedRun(w, owner, InTurn(CALM, CALM));
    var w3 := Next(Next(w2, Clicked(0, owner, "confirm")), Clicked(1, owner, "confirm"));
    OverlappingRegisterTwice(w3, owner, 1, 0, CALM, CALM);
    InTurnRegisterTwice(w3, owner, 1, 0, CALM, CALM);
  }

  lemma PreparedRun(w: World, owner: UserId, rest: seq<Event>)
    requires Idle(w, owner) && w.clicks == map[] && w.flights == map[]
    ensures var w2 := ReadyWorld(w, 0, owner);
            var w3 := Next(Next(w2, Clicked(0, owner, "confirm")), Clicked(1, owner, "confirm"));
            && DoubleClicked(w3, owner, 1, 0)
            && Registrations(w, ReadyEvents(0, owner) + ConfirmClicks(owner) + rest) >= Registrations(w3, rest)
  {
    hide Registrations, Scoring, DoubleClicked, ReadyWorld, ReadyEvents, ConfirmClicks, Next, Idle;
    GetsReady(w, 0, owner);
    ClickedTwice(ReadyWorld(w, 0, owner), owner, 1, 0, rest);
    ReadyRun(w, 0, owner, ConfirmClicks(owner) + rest);
    assert ReadyEvents(0, owner) + ConfirmClicks(owner) + rest == ReadyEvents(0, owner) + (ConfirmClicks(owner) + rest);
  }
}
