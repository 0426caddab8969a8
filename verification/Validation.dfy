/** pkg/validation/validation.go: scores and match ids typed by users, and the ids buttons and announcements carry. */
module Validation {
  import opened Wrappers
  import opened Strconv
  import opened StoreState
  import opened Prompt

  // ---- scores

  datatype ParsedScore = ParsedScore(p1: nat, p2: nat)

  datatype ScoreError = ErrScoreFormat | ErrScoreTie | ErrScoreRange

  const SCORE_LIMIT := 99
  const MAX_UINT32: nat := 0xffff_ffff

  /** `0|[1-9][0-9]*` */
  predicate PlainNumber(s: string) { Digits(s) && (s[0] == '0' ==> |s| == 1) }

  /** The position of the first dash, or the length. */
  function Dash(s: string): (n: nat)
    ensures n <= |s| && (n < |s| ==> s[n] == '-') && '-' !in s[..n]
  {
    if s == "" || s[0] == '-' then 0 else 1 + Dash(s[1..])
  }

  function ParseScore(token: string): Result<ParsedScore, ScoreError> {
    var n := Dash(token);
    if n == |token| || !PlainNumber(token[..n]) || !PlainNumber(token[n+1..]) then Err(ErrScoreFormat) else
    match (ParseUint(token[..n]), ParseUint(token[n+1..]))
    case (Ok(p1), Ok(p2)) =>
      if p1 > MAX_UINT32 || p2 > MAX_UINT32 then Err(ErrScoreFormat)
      else if p1 > SCORE_LIMIT || p2 > SCORE_LIMIT then Err(ErrScoreRange)
      else if p1 == p2 then Err(ErrScoreTie)
      else Ok(ParsedScore(p1, p2))
    case _ => Err(ErrScoreFormat)
  }

  function FormatScore(p1: nat, p2: nat): string { FormatNat(p1) + ("-" + FormatNat(p2)) }

  lemma {:induction false} DashExact(a: string, b: string)
    requires '-' !in a
    ensures Dash(a + ("-" + b)) == |a|
  {
    if a != "" {
      assert (a + ("-" + b))[1..] == a[1..] + ("-" + b);
      DashExact(a[1..], b);
    }
  }

  lemma PlainNumberIs(s: string)
    ensures PlainNumber(s) <==> exists n: nat :: s == FormatNat(n)
  {
    if PlainNumber(s) { FormatOfValue(s); assert s == FormatNat(ValueOf(s)); }
    if n: nat :| s == FormatNat(n) { NoLeadingZero(n); }
  }

  lemma ScoreParts(p1: nat, p2: nat)
    ensures var s := FormatScore(p1, p2);
            Dash(s) == |FormatNat(p1)| && s[..Dash(s)] == FormatNat(p1) && s[Dash(s)+1..] == FormatNat(p2)
  {
    assert forall i :: 0 <= i < |FormatNat(p1)| ==> IsDigit(FormatNat(p1)[i]);
    DashExact(FormatNat(p1), FormatNat(p2));
  }

  lemma ParsedNumber(s: string, n: nat)
    requires PlainNumber(s) && ParseUint(s) == Ok(n)
    ensures s == FormatNat(n)
  {
    ScanDigitsCorrect(s);
    FormatOfValue(s);
    hide FormatNat, ValueOf, ScanDigits;
  }

  lemma AcceptedForm(token: string, p1: nat, p2: nat)
    requires ParseScore(token) == Ok(ParsedScore(p1, p2))
    ensures token == FormatScore(p1, p2) && p1 <= SCORE_LIMIT && p2 <= SCORE_LIMIT && p1 != p2
  {
    hide FormatNat, PlainNumber, ParseUint, Dash;
    var n := Dash(token);
    ParsedNumber(token[..n], p1);
    ParsedNumber(token[n+1..], p2);
    assert token == token[..n] + ("-" + token[n+1..]);
  }

  lemma FormAccepted(p1: nat, p2: nat)
    requires p1 <= SCORE_LIMIT && p2 <= SCORE_LIMIT && p1 != p2
    ensures ParseScore(FormatScore(p1, p2)) == Ok(ParsedScore(p1, p2))
  {
    ScoreParts(p1, p2);
    PlainNumberIs(FormatNat(p1));
    PlainNumberIs(FormatNat(p2));
    ParseUintFormat(p1);
    ParseUintFormat(p2);
    hide FormatNat, PlainNumber, ParseUint, Dash;
  }

  /** The accepted scores are exactly the decimal forms of two different numbers up to 99. */
  lemma ParseScoreAccepts(token: string, p1: nat, p2: nat)
    ensures ParseScore(token) == Ok(ParsedScore(p1, p2)) <==>
              token == FormatScore(p1, p2) && p1 <= SCORE_LIMIT && p2 <= SCORE_LIMIT && p1 != p2
  {
    hide ParseScore, FormatScore;
    if ParseScore(token) == Ok(ParsedScore(p1, p2)) { AcceptedForm(token, p1, p2); }
    if p1 <= SCORE_LIMIT && p2 <= SCORE_LIMIT && p1 != p2 { FormAccepted(p1, p2); }
  }

  /** Of two plain numbers that fit 32 bits, one above 99 is out of range, and two equal ones up to 99 are a tie. */
  lemma ScoreRefused(p1: nat, p2: nat)
    requires p1 <= MAX_UINT32 && p2 <= MAX_UINT32
    ensures ParseScore(FormatScore(p1, p2)) == Err(ErrScoreRange) <==> p1 > 99 || p2 > 99
    ensures ParseScore(FormatScore(p1, p2)) == Err(ErrScoreTie) <==> p1 == p2 <= 99
    ensures ParseScore(FormatScore(p1, p2)) != Err(ErrScoreFormat)
  {
    ScoreParts(p1, p2);
    PlainNumberIs(FormatNat(p1));
    PlainNumberIs(FormatNat(p2));
    ParseUintFormat(p1);
    ParseUintFormat(p2);
    hide FormatNat, PlainNumber, ParseUint, Dash;
  }

  // ---- match ids in texts

  predicate IdAt(text: string, i: nat) { i + 1 < |text| && text[i] == '#' && IsDigit(text[i+1]) }

  /** The digits behind the first `#` that has any. */
  function FindMatchID(text: string): Option<string> {
    if text == "" then None
    else if IdAt(text, 0) then Some(text[1..1 + DigitSpan(text[1..])])
    else FindMatchID(text[1..])
  }

  function ExtractMatchID(text: string): Option<nat> {
    match FindMatchID(text)
    case None => None
    case Some(digits) => if ParseUint(digits).Ok? then Some(ParseUint(digits).value) else None
  }

  lemma {:induction false} FindBehind(before: string, digits: string, rest: string)
    requires forall i :: 0 <= i < |before| ==> !IdAt(before + ("#" + (digits + rest)), i)
    requires Digits(digits) && (rest == "" || !IsDigit(rest[0]))
    ensures FindMatchID(before + ("#" + (digits + rest))) == Some(digits)
  {
    var tail := "#" + (digits + rest);
    if before == "" {
      assert before + tail == tail && tail[1..] == digits + rest;
      DigitSpanExact(digits, rest);
      assert IdAt(tail, 0) && tail[1..1 + |digits|] == digits;
    } else {
      var text := before + tail;
      assert text[1..] == before[1..] + tail;
      forall i | 0 <= i < |before[1..]| ensures !IdAt(before[1..] + tail, i) {
        assert !IdAt(text, i + 1);
        assert (before[1..] + tail)[i] == text[i+1];
        if i + 1 < |before[1..] + tail| { assert (before[1..] + tail)[i+1] == text[i+2]; }
      }
      assert !IdAt(text, 0);
      FindBehind(before[1..], digits, rest);
    }
  }

  /** An id printed behind the first `#` of a text is found again, if and only if it fits 64 bits. */
  lemma ExtractPrinted(before: string, id: nat, rest: string)
    requires '#' !in before && (rest == "" || !IsDigit(rest[0]))
    ensures ExtractMatchID(before + ("#" + (FormatNat(id) + rest))) == Some(id) <==> id <= MAX_UINT64
  {
    var text := before + ("#" + (FormatNat(id) + rest));
    forall i | 0 <= i < |before| ensures !IdAt(text, i) { assert text[i] == before[i]; }
    FindBehind(before, FormatNat(id), rest);
    ScanDigitsCorrect(FormatNat(id));
    ValueOfFormat(id);
  }

  /**
   A /undo that replies to a match announcement finds the announced match, whatever the players are called, even when a
   label looks like another match id.
   */
  lemma UndoFindsAnnounced(id: nat, verb: string, p1: string, s1: nat, s2: nat, p2: string)
    ensures ExtractMatchID(Summary(id, verb, p1, s1, s2, p2)) == Some(id) <==> id <= MAX_UINT64
  {
    hide Scoreboard;
    var score := Scoreboard(p1, s1, s2, p2);
    ExtractPrinted("Match ", id, " " + verb + ".\n" + score);
    RegroupSummary("Match ", "#", FormatNat(id), " ", verb, ".\n", score);
    assert "Match #" == "Match " + "#";
    hide ExtractMatchID, FormatNat;
  }

  lemma Assoc(a: string, b: string, c: string)
    ensures a + b + c == a + (b + c)
  {
  }

  lemma RegroupSummary(m: string, hash: string, id: string, space: string, verb: string, dot: string, score: string)
    ensures m + hash + id + space + verb + dot + score == m + (hash + (id + (space + verb + dot + score)))
  {
    var start := m + hash + id;
    Assoc(start, space, verb);
    Assoc(start, space + verb, dot);
    Assoc(start, space + verb + dot, score);
    Assoc(m + hash, id, space + verb + dot + score);
    Assoc(m, hash, id + (space + verb + dot + score));
  }

  // ---- the payload of Confirm and Cancel buttons

  function ParseGroupMatchPayload(s: string): Option<(int, nat)> {
    var n := Colon(s);
    if n == |s| then None
    else if ParseInt(s[..n]).error.Some? || ParseUint(s[n+1..]).Err? then None
    else Some((ParseInt(s[..n]).value, ParseUint(s[n+1..]).value))
  }

  /** A button confirms or cancels exactly the match it was made for; group ids may be negative. */
  lemma PayloadRoundTrip(group: int, id: nat)
    requires IsInt64(group) && id <= MAX_UINT64
    ensures ParseGroupMatchPayload(FormatInt(group) + ":" + FormatInt(id)) == Some((group, id))
  {
    var g, rest := FormatInt(group), FormatNat(id);
    var s := g + (":" + rest);
    NoColon(group);
    ColonExact(g, rest);
    ParseIntFormat(group);
    ParseUintFormat(id);
    assert FormatInt(id) == rest;
    hide FormatInt, FormatNat, ParseInt, ParseUint, Colon;
    assert s[..|g|] == g && s[|g|+1..] == rest;
    assert g + ":" + rest == s;
  }

  /** The two buttons under a match that waits for confirmation name that match. */
  lemma ConfirmationRowsLeadBack(m: MatchRow)
    requires IsInt64(m.group) && m.id <= MAX_UINT64 && m.status != Approved
    ensures var rows := ConfirmationRows(m);
            && |rows| == 1 && |rows[0]| == 2
            && "m:c:" <= rows[0][0].callback
            && ParseGroupMatchPayload(rows[0][0].callback[4..]) == Some((m.group, m.id))
            && "m:x:" <= rows[0][1].callback
            && ParseGroupMatchPayload(rows[0][1].callback[4..]) == Some((m.group, m.id))
  {
    PayloadRoundTrip(m.group, m.id);
    hide ParseGroupMatchPayload, FormatInt;
    var cb := FormatInt(m.group) + ":" + FormatInt(m.id);
    assert ("m:c:" + cb)[4..] == cb && ("m:x:" + cb)[4..] == cb;
  }
}
