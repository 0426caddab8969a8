/** The opponent picker of pkg/handlers/match_interactive.go: who can be picked, in which order, on which page. */
module Picker {
  import opened Sorting
  import opened StoreState
  import opened History
  import opened Strconv
  import MemStore

  datatype Candidate = Candidate(id: UserId, name: string, matches: nat)

  /** Most played first, then by id. */
  predicate Ahead(a: Candidate, b: Candidate) { if a.matches != b.matches then a.matches > b.matches else a.id < b.id }

  function CandidateOf(usernames: map<UserId, string>, s: State, g: GroupId, id: UserId): Candidate
    requires id in usernames
  {
    Candidate(id, if usernames[id] == "" then "id " + FormatInt(id) else "@" + usernames[id], MatchCount(s, g, id))
  }

  /** Every participant but the caller exactly once, in picker order; participants map telegram ids to usernames. */
  ghost predicate IsPickList(usernames: map<UserId, string>, s: State, g: GroupId, caller: UserId, cs: seq<Candidate>) {
    && (forall c :: c in cs <==> c.id in usernames && c.id != caller && c == CandidateOf(usernames, s, g, c.id))
    && NoDuplicates(cs)
    && SortedBy(Ahead, cs)
  }

  lemma AheadWeakOrder()
    ensures WeakOrder(Ahead)
  {
  }

  /** There is one such list. */
  lemma PickListUnique(usernames: map<UserId, string>, s: State, g: GroupId, caller: UserId, a: seq<Candidate>,
                       b: seq<Candidate>)
    requires IsPickList(usernames, s, g, caller, a) && IsPickList(usernames, s, g, caller, b)
    ensures a == b
  {
    SameElements(a, b);
    assert StrictTotalOn(Ahead, a) by {
      forall x, y | x in a && y in a && x != y ensures Ahead(x, y) || Ahead(y, x) { assert x.id != y.id; }
    }
    SortedPermutationUnique(Ahead, a, b);
  }

  /** One resolved row. */
  method Resolved(usernames: map<UserId, string>, counts: map<UserId, nat>, ghost s: State, ghost g: GroupId,
                  id: UserId)
    returns (c: Candidate)
    requires id in usernames && MemStore.CountsWithout(counts, s, g, {})
    ensures c == CandidateOf(usernames, s, g, id) && c.id == id
  {
    var name := "@" + usernames[id];
    if usernames[id] == "" { name := "id " + FormatInt(id); }
    c := Candidate(id, name, if id in counts then counts[id] else 0);
    MemStore.AllCounted(counts, s, g, id);
  }

  /** `opponentCandidates`, on the participants in whatever order the store lists them. */
  method OpponentCandidates(store: MemStore.Store, participants: seq<UserId>, usernames: map<UserId, string>,
                            g: GroupId, caller: UserId)
    returns (out: seq<Candidate>)
    requires NoDuplicates(participants) && (forall id :: id in participants <==> id in usernames)
    ensures IsPickList(usernames, store.State(), g, caller, out)
  {
    ghost var s := store.State();
    var counts := store.CountsByPlayer(g);
    out := [];
    for i := 0 to |participants|
      invariant NoDuplicates(out)
      invariant forall c :: c in out <==>
                  c.id in participants[..i] && c.id != caller && c == CandidateOf(usernames, s, g, c.id)
    {
      var id := participants[i];
      assert participants[..i+1] == participants[..i] + [id] && id in participants;
      assert id !in participants[..i];
      if id == caller { continue; }
      var c := Resolved(usernames, counts, s, g, id);
      hide CandidateOf, IsPickList;
      out := out + [c];
    }
    assert participants[..|participants|] == participants;
    ghost var listed := out;
    AheadWeakOrder();
    out := SortSlice(Ahead, out);
    MemberByMultiset(listed, out);
    SortedStaysDistinct(listed, out);
  }

  // ---- pages

  const PER_PAGE: nat := 15
  const GRID_COLS: nat := 3

  function TotalPages(n: nat): nat { (n + PER_PAGE - 1) / PER_PAGE }

  function Clamp(page: int, total: nat): int
    requires total >= 1
  {
    if page < 1 then 1 else if page > total then total else page
  }

  function PageStart(page: int): int { (page - 1) * PER_PAGE }

  function PageEnd(n: nat, page: int): int { if PageStart(page) + PER_PAGE > n then n else PageStart(page) + PER_PAGE }

  function PageRows(cs: seq<Candidate>, page: int): (r: seq<Candidate>)
    requires cs != [] && 1 <= page <= TotalPages(|cs|)
    ensures 1 <= |r| <= PER_PAGE
  {
    cs[PageStart(page)..PageEnd(|cs|, page)]
  }

  function PagesUpTo(cs: seq<Candidate>, k: nat): seq<Candidate>
    requires cs != [] && k <= TotalPages(|cs|)
  {
    if k == 0 then [] else PagesUpTo(cs, k - 1) + PageRows(cs, k)
  }

  lemma {:induction false} PagesTile(cs: seq<Candidate>, k: nat)
    requires cs != [] && k <= TotalPages(|cs|)
    ensures PagesUpTo(cs, k) == cs[..if k * PER_PAGE > |cs| then |cs| else k * PER_PAGE]
  {
    if k > 0 { PagesTile(cs, k - 1); }
  }

  /** Paging through the picker from 1 to the last page shows every candidate exactly once, in order. */
  lemma PagesCoverAll(cs: seq<Candidate>)
    requires cs != []
    ensures PagesUpTo(cs, TotalPages(|cs|)) == cs
  {
    PagesTile(cs, TotalPages(|cs|));
    assert cs[..|cs|] == cs;
  }

  /** All pages but the last are full, with 15 candidates. */
  lemma FullPages(cs: seq<Candidate>, page: int)
    requires cs != [] && 1 <= page < TotalPages(|cs|)
    ensures |PageRows(cs, page)| == 15
  {
  }

  // ---- the keyboard

  datatype Button = Button(text: string, callback: string)

  type Keyboard = seq<seq<Button>>

  const PREFIX := "m:i:"

  function OppButton(c: Candidate): Button { Button(c.name, PREFIX + "opp:" + FormatInt(c.id)) }

  function OppButtons(cs: seq<Candidate>): seq<Button> {
    if cs == [] then [] else [OppButton(cs[0])] + OppButtons(cs[1..])
  }

  lemma {:induction false} OppButtonsConcat(a: seq<Candidate>, b: seq<Candidate>)
    ensures OppButtons(a + b) == OppButtons(a) + OppButtons(b)
  {
    hide OppButton;
    if a == [] {
      assert a + b == b;
    } else {
      assert (a + b)[1..] == a[1..] + b;
      OppButtonsConcat(a[1..], b);
    }
  }

  lemma {:induction false} OppButtonsLength(cs: seq<Candidate>)
    ensures |OppButtons(cs)| == |cs|
  {
    hide OppButton;
    if cs != [] { OppButtonsLength(cs[1..]); }
  }

  /** Rows of three. */
  function Grid(cs: seq<Candidate>): Keyboard {
    if cs == [] then [] else
    var n := if |cs| < GRID_COLS then |cs| else GRID_COLS;
    [OppButtons(cs[..n])] + Grid(cs[n..])
  }

  function NavRow(page: int, total: int): seq<Button> {
    var cancel := [Button("Cancel", PREFIX + "cancel")];
    if total <= 1 then cancel else
    [if page > 1 then Button("Prev", PREFIX + "nav:" + FormatInt(page - 1)) else Button(".", PREFIX + "noop")]
    + cancel
    + [if page < total then Button("Next", PREFIX + "nav:" + FormatInt(page + 1)) else Button(".", PREFIX + "noop")]
  }

  function Flat(rows: Keyboard): seq<Button> { if rows == [] then [] else rows[0] + Flat(rows[1..]) }

  /** The grid drops and repeats nobody. */
  lemma {:induction false} GridComplete(cs: seq<Candidate>)
    ensures Flat(Grid(cs)) == OppButtons(cs)
    ensures forall row :: row in Grid(cs) ==> 1 <= |row| <= GRID_COLS
  {
    if cs != [] {
      var n := if |cs| < GRID_COLS then |cs| else GRID_COLS;
      hide OppButton, OppButtons;
      GridComplete(cs[n..]);
      OppButtonsConcat(cs[..n], cs[n..]);
      OppButtonsLength(cs[..n]);
      assert cs == cs[..n] + cs[n..];
      assert Grid(cs)[1..] == Grid(cs[n..]);
    }
  }

  /** The opponents played most come first, those with as many matches in the order of their ids. */
  lemma MostPlayedFirst(usernames: map<UserId, string>, s: State, g: GroupId, caller: UserId, cs: seq<Candidate>,
                        i: nat, j: nat)
    requires IsPickList(usernames, s, g, caller, cs) && i < j < |cs|
    ensures cs[i].matches > cs[j].matches || (cs[i].matches == cs[j].matches && cs[i].id < cs[j].id)
  {
    assert cs[i] in cs && cs[j] in cs;
    assert !Ahead(cs[j], cs[i]) && cs[i] != cs[j];
  }

  /** What the picker counts: the stored matches of the group the candidate plays in, undone ones not counted. */
  lemma CountsTheirMatches(usernames: map<UserId, string>, s: State, g: GroupId, caller: UserId, cs: seq<Candidate>,
                           i: nat)
    requires IsPickList(usernames, s, g, caller, cs) && i < |cs|
    requires forall k :: k in s.matches ==> s.matches[k].player1 != s.matches[k].player2
    ensures cs[i].matches == |set k | k in s.matches && k.group == g && s.matches[k].status != Undone
                                      && (s.matches[k].player1 == cs[i].id || s.matches[k].player2 == cs[i].id)|
  {
    var u := cs[i].id;
    var all := set k | k in s.matches && k.group == g && s.matches[k].status != Undone
                       && (s.matches[k].player1 == u || s.matches[k].player2 == u);
    assert cs[i] in cs;
    assert all == FirstSide(s, g, u) + SecondSide(s, g, u);
    assert FirstSide(s, g, u) * SecondSide(s, g, u) == {};
    hide FirstSide, SecondSide, IsPickList;
  }

  /** Opponents are shown by their username, those without one by their id. */
  lemma NamedByUsername(usernames: map<UserId, string>, s: State, g: GroupId, caller: UserId, cs: seq<Candidate>,
                        i: nat)
    requires IsPickList(usernames, s, g, caller, cs) && i < |cs|
    ensures cs[i].id in usernames
    ensures usernames[cs[i].id] != "" ==> cs[i].name == "@" + usernames[cs[i].id]
    ensures usernames[cs[i].id] == "" ==> cs[i].name == "id " + FormatInt(cs[i].id)
  {
    assert cs[i] in cs;
  }
}
