/**
 The state tag an interactive /match prompt carries in its message text (pkg/handlers/match_interactive.go): rendering,
 and the two regular expressions that read it back after a restart.
 */
module Header {
  import opened Wrappers
  import opened Strconv
  import opened QueryEscape

  /** One prompt: picking the opponent, or with isScore picking the score against `opp`; -1 is a score not picked. */
  datatype Draft = Draft(
    owner: int, ownerLabel: string, isScore: bool, page: int, opp: int, oppLabel: string, p1: int, p2: int)

  // ---- rendering

  function ScoreTok(v: int): string { if v < 0 then "-" else FormatInt(v) }

  function RenderOppHeader(d: Draft): string {
    "[MATCH_OP=opp owner=" + FormatInt(d.owner) + " owner_label=" + Escape(d.ownerLabel) + " page=" + FormatInt(d.page)
        + "]"
  }

  function RenderScoreHeader(d: Draft): string {
    "[MATCH_OP=score owner=" + FormatInt(d.owner) + " owner_label=" + Escape(d.ownerLabel) + " opp=" + FormatInt(d.opp)
    + " opp_label=" + Escape(d.oppLabel) + " p1=" + ScoreTok(d.p1) + " p2=" + ScoreTok(d.p2) + "]"
  }

  // ---- the regular expressions

  /** The captures of `matchOppHeaderRe`. */
  datatype OppTag = OppTag(owner: string, ownerLabel: string, page: string)

  /** The captures of `matchScoreHeaderRe`. */
  datatype ScoreTag = ScoreTag(owner: string, ownerLabel: string, opp: string, oppLabel: string, p1: string, p2: string)

  predicate NonSpaces(s: string) { forall i :: 0 <= i < |s| ==> NonSpace(s[i]) }

  predicate ScoreClass(s: string) { |s| == 1 && (IsDigit(s[0]) || s[0] == '-') }

  predicate OppCaptures(t: OppTag) { Digits(t.owner) && NonSpaces(t.ownerLabel) && Digits(t.page) }

  predicate ScoreCaptures(t: ScoreTag) {
    && Digits(t.owner) && NonSpaces(t.ownerLabel) && Digits(t.opp) && NonSpaces(t.oppLabel)
    && ScoreClass(t.p1) && ScoreClass(t.p2)
  }

  /** Text that starts with an opponent tag whose groups are t. */
  function OppText(t: OppTag, rest: string): string {
    "[MATCH_OP=opp owner=" + (t.owner + (" owner_label=" + (t.ownerLabel + (" page=" + (t.page + ("]" + rest))))))
  }

  function ScoreText(t: ScoreTag, rest: string): string {
    "[MATCH_OP=score owner=" + (t.owner + (" owner_label=" + (t.ownerLabel + (" opp=" + (t.opp + (" opp_label="
    + (t.oppLabel + (" p1=" + (t.p1 + (" p2=" + (t.p2 + ("]" + rest))))))))))))
  }

  /** The regular expression matches at the start of s with groups t. */
  ghost predicate OppMatches(s: string, t: OppTag) { OppCaptures(t) && exists rest :: s == OppText(t, rest) }

  ghost predicate ScoreMatches(s: string, t: ScoreTag) { ScoreCaptures(t) && exists rest :: s == ScoreText(t, rest) }

  // ---- a matcher for each

  /** The longest prefix without whitespace. */
  function NonSpaceSpan(s: string): (n: nat)
    ensures n <= |s| && NonSpaces(s[..n]) && (n < |s| ==> !NonSpace(s[n]))
  {
    if s == "" || !NonSpace(s[0]) then 0 else 1 + NonSpaceSpan(s[1..])
  }

  /** A piece of text and what follows it. */
  datatype Split = Split(piece: string, rest: string)

  function Literal(s: string, lit: string): Option<string> { if lit <= s then Some(s[|lit|..]) else None }

  /** `(\d+)` followed by lit. */
  function TakeDigits(s: string, lit: string): Option<Split> {
    var n := DigitSpan(s);
    if n == 0 || Literal(s[n..], lit).None? then None else Some(Split(s[..n], Literal(s[n..], lit).value))
  }

  /** `(\S*)` followed by lit. */
  function TakeNonSpaces(s: string, lit: string): Option<Split> {
    var n := NonSpaceSpan(s);
    if Literal(s[n..], lit).None? then None else Some(Split(s[..n], Literal(s[n..], lit).value))
  }

  /** `([0-9-])` followed by lit. */
  function TakeScore(s: string, lit: string): Option<Split> {
    if s == "" || !ScoreClass(s[..1]) || Literal(s[1..], lit).None? then None
    else Some(Split(s[..1], Literal(s[1..], lit).value))
  }

  function MatchOpp(s: string): Option<OppTag> {
    match Literal(s, "[MATCH_OP=opp owner=") case None => None case Some(s1) =>
    match TakeDigits(s1, " owner_label=") case None => None case Some(owner) =>
    match TakeNonSpaces(owner.rest, " page=") case None => None case Some(who) =>
    match TakeDigits(who.rest, "]") case None => None case Some(page) =>
    Some(OppTag(owner.piece, who.piece, page.piece))
  }

  function MatchScore(s: string): Option<ScoreTag> {
    match Literal(s, "[MATCH_OP=score owner=") case None => None case Some(s1) =>
    match TakeDigits(s1, " owner_label=") case None => None case Some(owner) =>
    match TakeNonSpaces(owner.rest, " opp=") case None => None case Some(who) =>
    match TakeDigits(who.rest, " opp_label=") case None => None case Some(opp) =>
    match TakeNonSpaces(opp.rest, " p1=") case None => None case Some(whom) =>
    match TakeScore(whom.rest, " p2=") case None => None case Some(p1) =>
    match TakeScore(p1.rest, "]") case None => None case Some(p2) =>
    Some(ScoreTag(owner.piece, who.piece, opp.piece, whom.piece, p1.piece, p2.piece))
  }

  /** The leftmost match. */
  function FindOpp(text: string): Option<OppTag> {
    if MatchOpp(text).Some? || text == "" then MatchOpp(text) else FindOpp(text[1..])
  }

  function FindScore(text: string): Option<ScoreTag> {
    if MatchScore(text).Some? || text == "" then MatchScore(text) else FindScore(text[1..])
  }

  // ---- the matchers are the regular expressions

  lemma {:induction false} NonSpaceSpanExact(a: string, b: string)
    requires NonSpaces(a) && (b == "" || !NonSpace(b[0]))
    ensures NonSpaceSpan(a + b) == |a|
  {
    if a == "" {
      assert a + b == b;
    } else {
      assert (a + b)[1..] == a[1..] + b;
      NonSpaceSpanExact(a[1..], b);
    }
  }

  lemma LiteralExact(lit: string, b: string)
    ensures Literal(lit + b, lit) == Some(b)
  {
  }

  lemma LiteralSound(s: string, lit: string)
    requires Literal(s, lit).Some?
    ensures s == lit + Literal(s, lit).value
  {
  }

  lemma TakeDigitsExact(a: string, lit: string, b: string)
    requires Digits(a) && lit != "" && !IsDigit(lit[0])
    ensures TakeDigits(a + (lit + b), lit) == Some(Split(a, b))
  {
    DigitSpanExact(a, lit + b);
    assert (a + (lit + b))[|a|..] == lit + b && (a + (lit + b))[..|a|] == a;
    LiteralExact(lit, b);
  }

  lemma TakeNonSpacesExact(a: string, lit: string, b: string)
    requires NonSpaces(a) && lit != "" && !NonSpace(lit[0])
    ensures TakeNonSpaces(a + (lit + b), lit) == Some(Split(a, b))
  {
    NonSpaceSpanExact(a, lit + b);
    assert (a + (lit + b))[|a|..] == lit + b && (a + (lit + b))[..|a|] == a;
    LiteralExact(lit, b);
  }

  lemma TakeScoreExact(a: string, lit: string, b: string)
    requires ScoreClass(a)
    ensures TakeScore(a + (lit + b), lit) == Some(Split(a, b))
  {
    assert (a + (lit + b))[1..] == lit + b && (a + (lit + b))[..1] == a;
    LiteralExact(lit, b);
  }

  lemma TakeDigitsSound(s: string, lit: string)
    requires TakeDigits(s, lit).Some?
    ensures var t := TakeDigits(s, lit).value; Digits(t.piece) && s == t.piece + (lit + t.rest)
  {
    var n := DigitSpan(s);
    LiteralSound(s[n..], lit);
    assert s == s[..n] + s[n..];
  }

  lemma TakeNonSpacesSound(s: string, lit: string)
    requires TakeNonSpaces(s, lit).Some?
    ensures var t := TakeNonSpaces(s, lit).value; NonSpaces(t.piece) && s == t.piece + (lit + t.rest)
  {
    var n := NonSpaceSpan(s);
    LiteralSound(s[n..], lit);
    assert s == s[..n] + s[n..];
  }

  lemma TakeScoreSound(s: string, lit: string)
    requires TakeScore(s, lit).Some?
    ensures var t := TakeScore(s, lit).value; ScoreClass(t.piece) && s == t.piece + (lit + t.rest)
  {
    LiteralSound(s[1..], lit);
    assert s == s[..1] + s[1..];
  }

  lemma MatchOppExact(t: OppTag, rest: string)
    requires OppCaptures(t)
    ensures MatchOpp(OppText(t, rest)) == Some(t)
  {
    var page := t.page + ("]" + rest);
    var who := t.ownerLabel + (" page=" + page);
    var owner := t.owner + (" owner_label=" + who);
    LiteralExact("[MATCH_OP=opp owner=", owner);
    TakeDigitsExact(t.owner, " owner_label=", who);
    TakeNonSpacesExact(t.ownerLabel, " page=", page);
    TakeDigitsExact(t.page, "]", rest);
    hide Literal, TakeDigits, TakeNonSpaces;
    assert OppText(t, rest) == "[MATCH_OP=opp owner=" + owner;
  }

  lemma MatchOppSound(s: string)
    requires MatchOpp(s).Some?
    ensures OppMatches(s, MatchOpp(s).value)
  {
    LiteralSound(s, "[MATCH_OP=opp owner=");
    var s1 := Literal(s, "[MATCH_OP=opp owner=").value;
    TakeDigitsSound(s1, " owner_label=");
    var owner := TakeDigits(s1, " owner_label=").value;
    TakeNonSpacesSound(owner.rest, " page=");
    var who := TakeNonSpaces(owner.rest, " page=").value;
    TakeDigitsSound(who.rest, "]");
    var page := TakeDigits(who.rest, "]").value;
    hide Literal, TakeDigits, TakeNonSpaces;
    assert s == OppText(MatchOpp(s).value, page.rest);
  }

  lemma MatchScoreExact(t: ScoreTag, rest: string)
    requires ScoreCaptures(t)
    ensures MatchScore(ScoreText(t, rest)) == Some(t)
  {
    var p2 := t.p2 + ("]" + rest);
    var p1 := t.p1 + (" p2=" + p2);
    var whom := t.oppLabel + (" p1=" + p1);
    var opp := t.opp + (" opp_label=" + whom);
    var who := t.ownerLabel + (" opp=" + opp);
    var owner := t.owner + (" owner_label=" + who);
    LiteralExact("[MATCH_OP=score owner=", owner);
    TakeDigitsExact(t.owner, " owner_label=", who);
    TakeNonSpacesExact(t.ownerLabel, " opp=", opp);
    TakeDigitsExact(t.opp, " opp_label=", whom);
    TakeNonSpacesExact(t.oppLabel, " p1=", p1);
    TakeScoreExact(t.p1, " p2=", p2);
    TakeScoreExact(t.p2, "]", rest);
    hide Literal, TakeDigits, TakeNonSpaces, TakeScore;
    assert ScoreText(t, rest) == "[MATCH_OP=score owner=" + owner;
  }

  lemma MatchScoreSound(s: string)
    requires MatchScore(s).Some?
    ensures ScoreMatches(s, MatchScore(s).value)
  {
    LiteralSound(s, "[MATCH_OP=score owner=");
    var s1 := Literal(s, "[MATCH_OP=score owner=").value;
    TakeDigitsSound(s1, " owner_label=");
    var owner := TakeDigits(s1, " owner_label=").value;
    TakeNonSpacesSound(owner.rest, " opp=");
    var who := TakeNonSpaces(owner.rest, " opp=").value;
    TakeDigitsSound(who.rest, " opp_label=");
    var opp := TakeDigits(who.rest, " opp_label=").value;
    TakeNonSpacesSound(opp.rest, " p1=");
    var whom := TakeNonSpaces(opp.rest, " p1=").value;
    TakeScoreSound(whom.rest, " p2=");
    var p1 := TakeScore(whom.rest, " p2=").value;
    TakeScoreSound(p1.rest, "]");
    var p2 := TakeScore(p1.rest, "]").value;
    hide Literal, TakeDigits, TakeNonSpaces, TakeScore;
    assert s == ScoreText(MatchScore(s).value, p2.rest);
  }

  /** However the groups could be filled, they are filled one way: the greedy captures are unique. */
  lemma OppCapturesUnique(s: string, t: OppTag)
    ensures OppMatches(s, t) <==> MatchOpp(s) == Some(t)
  {
    if OppMatches(s, t) {
      var rest :| s == OppText(t, rest);
      MatchOppExact(t, rest);
    }
    if MatchOpp(s).Some? { MatchOppSound(s); }
  }

  lemma ScoreCapturesUnique(s: string, t: ScoreTag)
    ensures ScoreMatches(s, t) <==> MatchScore(s) == Some(t)
  {
    if ScoreMatches(s, t) {
      var rest :| s == ScoreText(t, rest);
      MatchScoreExact(t, rest);
    }
    if MatchScore(s).Some? { MatchScoreSound(s); }
  }

  lemma OppStarts(s: string)
    ensures MatchOpp(s).Some? ==> "[MATCH_OP=opp owner=" <= s
  {
  }

  lemma ScoreStarts(s: string)
    ensures MatchScore(s).Some? ==> "[MATCH_OP=score owner=" <= s
  {
  }

  /** No text starts with both tags. */
  lemma TagsDiffer(s: string)
    ensures MatchOpp(s).None? || MatchScore(s).None?
  {
    OppStarts(s);
    ScoreStarts(s);
    hide MatchOpp, MatchScore;
    var a, b := "[MATCH_OP=opp owner=", "[MATCH_OP=score owner=";
    assert a[10] == 'o' && b[10] == 's';
    assert a <= s ==> s[10] == a[10];
    assert b <= s ==> s[10] == b[10];
  }

  // ---- the leftmost match

  /** `FindStringSubmatch` finds the match at the first position that has one, if any has. */
  lemma {:induction false} FindOppLeftmost(text: string)
    ensures FindOpp(text).None? ==> forall i :: 0 <= i <= |text| ==> MatchOpp(text[i..]).None?
    ensures FindOpp(text).Some? ==>
              exists i :: 0 <= i <= |text| && MatchOpp(text[i..]) == FindOpp(text)
                          && forall j :: 0 <= j < i ==> MatchOpp(text[j..]).None?
  {
    assert text[0..] == text;
    if MatchOpp(text).None? && text != "" {
      FindOppLeftmost(text[1..]);
      hide MatchOpp;
      forall i | 0 < i <= |text| ensures text[i..] == text[1..][i-1..] {}
      if FindOpp(text).Some? {
        var i :| 0 <= i <= |text[1..]| && MatchOpp(text[1..][i..]) == FindOpp(text)
                 && forall j :: 0 <= j < i ==> MatchOpp(text[1..][j..]).None?;
        assert MatchOpp(text[i+1..]) == FindOpp(text);
        forall j | 0 <= j < i + 1 ensures MatchOpp(text[j..]).None? {
          if j > 0 { assert text[j..] == text[1..][j-1..]; }
        }
      }
    }
  }

  const TAG := "[MATCH_OP="

  predicate TagAt(s: string, i: nat)
    requires i <= |s|
  {
    TAG <= s[i..]
  }

  ghost predicate NoTag(s: string) { forall i :: 0 <= i <= |s| ==> !TagAt(s, i) }

  lemma MatchesStartWithTag(s: string)
    ensures MatchOpp(s).Some? || MatchScore(s).Some? ==> TAG <= s
  {
    OppStarts(s);
    ScoreStarts(s);
    hide MatchOpp, MatchScore;
    assert TAG <= "[MATCH_OP=opp owner=" && TAG <= "[MATCH_OP=score owner=";
  }

  lemma {:induction false} SkipUntagged(a: string, b: string)
    requires forall i :: 0 <= i < |a| ==> !TagAt(a + b, i)
    ensures FindOpp(a + b) == FindOpp(b) && FindScore(a + b) == FindScore(b)
  {
    if a == "" {
      assert a + b == b;
    } else {
      assert TagAt(a + b, 0) <==> TAG <= a + b;
      MatchesStartWithTag(a + b);
      assert (a + b)[1..] == a[1..] + b;
      forall i | 0 <= i < |a[1..]| ensures !TagAt(a[1..] + b, i) {
        assert (a[1..] + b)[i..] == (a + b)[i+1..];
        assert !TagAt(a + b, i + 1);
      }
      SkipUntagged(a[1..], b);
    }
  }

  /** A tag cannot reach across the blank line in front of the header. */
  lemma BodyUntagged(body: string, header: string, i: nat)
    requires NoTag(body) && i < |body| + 2
    ensures !TagAt(body + "\n\n" + header, i)
  {
    var text := body + "\n\n" + header;
    if i < |body| && i + |TAG| <= |body| {
      assert !TagAt(body, i);
      assert text[i..][..|TAG|] == body[i..][..|TAG|];
    } else if i < |body| {
      assert text[i..][|body|-i] == '\n';
      assert forall k :: 0 <= k < |TAG| ==> TAG[k] != '\n';
    } else {
      assert text[i..][0] == '\n';
    }
  }

  lemma FoundAfterBody(body: string, header: string)
    requires NoTag(body)
    ensures FindOpp(body + "\n\n" + header) == FindOpp(header)
    ensures FindScore(body + "\n\n" + header) == FindScore(header)
  {
    forall i | 0 <= i < |body + "\n\n"| ensures !TagAt(body + "\n\n" + header, i) { BodyUntagged(body, header, i); }
    SkipUntagged(body + "\n\n", header);
  }

  /** Text without brackets, in particular any message whose labels have none, carries no tag. */
  lemma BracketFree(s: string)
    requires '[' !in s
    ensures NoTag(s) && FindOpp(s).None? && FindScore(s).None?
  {
    forall i | 0 <= i <= |s| ensures !TagAt(s, i) {
      assert TAG[0] == '[';
      if i < |s| { assert s[i] in s && s[i..][0] == s[i]; }
    }
    assert s + "" == s;
    assert forall i :: 0 <= i < |s| ==> TagAt(s + "", i) == TagAt(s, i);
    SkipUntagged(s, "");
  }

  // ---- restoring a draft

  /** The ignored error of `ParseInt` leaves the value it returns with it. */
  function Number(s: string): int { ParseInt(s).value }

  /** The ignored error of `QueryUnescape` leaves an empty label. */
  function Label(s: string): string { if Unescape(s).Some? then Unescape(s).value else "" }

  function ParseScoreTok(s: string): int {
    if s == "-" then -1 else if ParseInt(s).error.Some? then -1 else ParseInt(s).value
  }

  function FromOppTag(t: OppTag): Draft {
    Draft(Number(t.owner), Label(t.ownerLabel), false, Number(t.page), 0, "", -1, -1)
  }

  function FromScoreTag(t: ScoreTag): Draft {
    Draft(Number(t.owner), Label(t.ownerLabel), true, 0, Number(t.opp), Label(t.oppLabel),
          ParseScoreTok(t.p1), ParseScoreTok(t.p2))
  }

  function ParseDraftFromHeader(text: string): Option<Draft> {
    match FindOpp(text)
    case Some(t) => Some(FromOppTag(t))
    case None =>
      match FindScore(text)
      case Some(t) => Some(FromScoreTag(t))
      case None => None
  }

  /** What the two headers carry of a draft, everything else as a fresh draft has it. */
  function OppPart(d: Draft): Draft { Draft(d.owner, d.ownerLabel, false, d.page, 0, "", -1, -1) }

  function ScorePart(d: Draft): Draft { Draft(d.owner, d.ownerLabel, true, 0, d.opp, d.oppLabel, d.p1, d.p2) }

  predicate IsId(n: int) { 0 <= n <= MAX_INT64 }

  function OppTagOf(d: Draft): OppTag { OppTag(FormatInt(d.owner), Escape(d.ownerLabel), FormatInt(d.page)) }

  function ScoreTagOf(d: Draft): ScoreTag {
    ScoreTag(FormatInt(d.owner), Escape(d.ownerLabel), FormatInt(d.opp), Escape(d.oppLabel), ScoreTok(d.p1),
             ScoreTok(d.p2))
  }

  lemma NumberBack(n: int)
    requires IsId(n)
    ensures Digits(FormatInt(n)) && Number(FormatInt(n)) == n
  {
    ParseIntFormat(n);
  }

  lemma LabelBack(s: string)
    requires IsBytes(s)
    ensures NonSpaces(Escape(s)) && Label(Escape(s)) == s
  {
    EscapedIsPlain(s);
    UnescapeEscape(s);
  }

  lemma ScoreBack(v: int)
    requires -1 <= v <= 9
    ensures ScoreClass(ScoreTok(v)) && ParseScoreTok(ScoreTok(v)) == v
  {
    if v >= 0 {
      ParseIntFormat(v);
      assert FormatInt(v) == [CharOf(v)];
    }
  }

  lemma RenderedOpp(d: Draft)
    ensures RenderOppHeader(d) == OppText(OppTagOf(d), "")
  {
  }

  lemma Regroup(p: string, a: string, b: string, rest: string)
    ensures p + a + b + rest == p + (a + (b + rest))
  {
  }

  lemma RegroupScore(p0: string, a: string, l1: string, b: string, l2: string, c: string, l3: string, d: string,
                     l4: string, e: string, l5: string, f: string, end: string)
    ensures p0 + a + l1 + b + l2 + c + l3 + d + l4 + e + l5 + f + end
         == p0 + (a + (l1 + (b + (l2 + (c + (l3 + (d + (l4 + (e + (l5 + (f + (end + ""))))))))))))
  {
    var t6 := f + (end + "");
    var p1 := p0 + a + l1;
    var p2 := p1 + b + l2;
    var p3 := p2 + c + l3;
    var p4 := p3 + d + l4;
    var p5 := p4 + e + l5;
    Regroup(p5, f, end, "");
    assert p5 + f + end == p5 + f + end + "";
    RegroupFive(p0, a, l1, b, l2, c, l3, d, l4, e, l5, t6);
  }

  lemma RegroupFive(p0: string, a: string, l1: string, b: string, l2: string, c: string, l3: string, d: string,
                    l4: string, e: string, l5: string, t: string)
    ensures p0 + a + l1 + b + l2 + c + l3 + d + l4 + e + l5 + t
         == p0 + (a + (l1 + (b + (l2 + (c + (l3 + (d + (l4 + (e + (l5 + t))))))))))
  {
    var t5 := e + (l5 + t);
    var t4 := d + (l4 + t5);
    var t3 := c + (l3 + t4);
    var t2 := b + (l2 + t3);
    Regroup(p0 + a + l1 + b + l2 + c + l3 + d + l4, e, l5, t);
    Regroup(p0 + a + l1 + b + l2 + c + l3, d, l4, t5);
    Regroup(p0 + a + l1 + b + l2, c, l3, t4);
    Regroup(p0 + a + l1, b, l2, t3);
    Regroup(p0, a, l1, t2);
  }

  lemma RenderedScore(d: Draft)
    ensures RenderScoreHeader(d) == ScoreText(ScoreTagOf(d), "")
  {
    var t := ScoreTagOf(d);
    RegroupScore("[MATCH_OP=score owner=", t.owner, " owner_label=", t.ownerLabel,
                 " opp=", t.opp, " opp_label=", t.oppLabel,
                 " p1=", t.p1, " p2=", t.p2, "]");
    hide FormatInt, Escape, ScoreTok;
  }

  lemma PlainConcat(a: string, b: string)
    requires '[' !in a && '[' !in b
    ensures '[' !in a + b
  {
  }

  lemma PlainScoreText(t: ScoreTag)
    requires '[' !in t.owner && '[' !in t.ownerLabel && '[' !in t.opp && '[' !in t.oppLabel && '[' !in t.p1
             && '[' !in t.p2
    ensures '[' !in ScoreText(t, "")[1..]
  {
    var t5 := " p2=" + (t.p2 + ("]" + ""));
    assert '[' !in t5;
    var t4 := " p1=" + (t.p1 + t5);
    PlainConcat(t.p1, t5);
    var t3 := " opp_label=" + (t.oppLabel + t4);
    PlainConcat(t.oppLabel, t4);
    var t2 := " opp=" + (t.opp + t3);
    PlainConcat(t.opp, t3);
    var t1 := " owner_label=" + (t.ownerLabel + t2);
    PlainConcat(t.ownerLabel, t2);
    PlainConcat(t.owner, t1);
    PlainConcat("MATCH_OP=score owner=", t.owner + t1);
    assert ScoreText(t, "") == "[MATCH_OP=score owner=" + (t.owner + t1);
    assert "[MATCH_OP=score owner="[1..] == "MATCH_OP=score owner=";
    assert ScoreText(t, "")[1..] == "MATCH_OP=score owner=" + (t.owner + t1);
  }

  /** Nothing after the first character of a score header can start a tag. */
  lemma ScoreHeaderPlain(d: Draft)
    requires IsId(d.owner) && IsId(d.opp) && -1 <= d.p1 <= 9 && -1 <= d.p2 <= 9
    ensures '[' !in RenderScoreHeader(d)[1..]
  {
    NumberBack(d.owner);
    NumberBack(d.opp);
    EscapedIsPlain(d.ownerLabel);
    EscapedIsPlain(d.oppLabel);
    ScoreBack(d.p1);
    ScoreBack(d.p2);
    RenderedScore(d);
    hide FormatInt, Escape, ScoreTok, RenderScoreHeader, ScoreText;
    PlainScoreText(ScoreTagOf(d));
  }

  /** An opponent prompt, after any body without a tag, restores the draft it was rendered from. */
  lemma OppRoundTrip(body: string, d: Draft)
    requires NoTag(body) && IsId(d.owner) && IsBytes(d.ownerLabel) && IsId(d.page)
    ensures ParseDraftFromHeader(body + "\n\n" + RenderOppHeader(d)) == Some(OppPart(d))
  {
    NumberBack(d.owner);
    NumberBack(d.page);
    LabelBack(d.ownerLabel);
    RenderedOpp(d);
    MatchOppExact(OppTagOf(d), "");
    FoundAfterBody(body, RenderOppHeader(d));
    hide RenderOppHeader, MatchOpp, FindScore, Number, Label, FormatInt, Escape;
  }

  /** And a score prompt likewise; its header is never taken for an opponent header. */
  lemma ScoreRoundTrip(body: string, d: Draft)
    requires NoTag(body) && IsId(d.owner) && IsBytes(d.ownerLabel) && IsId(d.opp) && IsBytes(d.oppLabel)
    requires -1 <= d.p1 <= 9 && -1 <= d.p2 <= 9
    ensures ParseDraftFromHeader(body + "\n\n" + RenderScoreHeader(d)) == Some(ScorePart(d))
  {
    ScoreTagBack(d);
    RenderedScore(d);
    MatchScoreExact(ScoreTagOf(d), "");
    var h := RenderScoreHeader(d);
    TagsDiffer(h);
    ScoreHeaderPlain(d);
    BracketFree(h[1..]);
    FoundAfterBody(body, h);
    hide RenderScoreHeader, MatchOpp, MatchScore, FromScoreTag, ScoreTagOf, NoTag;
  }

  lemma ScoreTagBack(d: Draft)
    requires IsId(d.owner) && IsBytes(d.ownerLabel) && IsId(d.opp) && IsBytes(d.oppLabel)
    requires -1 <= d.p1 <= 9 && -1 <= d.p2 <= 9
    ensures ScoreCaptures(ScoreTagOf(d)) && FromScoreTag(ScoreTagOf(d)) == ScorePart(d)
  {
    NumberBack(d.owner);
    NumberBack(d.opp);
    LabelBack(d.ownerLabel);
    LabelBack(d.oppLabel);
    ScoreBack(d.p1);
    ScoreBack(d.p2);
    hide Number, Label, FormatInt, Escape, ScoreTok, ParseScoreTok;
  }

  // ---- which ids survive

  lemma TagsNeedDigits(s: string)
    requires |s| > 20 && "[MATCH_OP=opp owner=" <= s && !IsDigit(s[20])
    ensures MatchOpp(s).None?
  {
    assert |"[MATCH_OP=opp owner="| == 20 && s[20..][0] == s[20];
    assert DigitSpan(s[20..]) == 0;
  }

  lemma PlainOppText(t: OppTag)
    requires '[' !in t.owner && '[' !in t.ownerLabel && '[' !in t.page
    ensures '[' !in OppText(t, "")[1..]
  {
    var t2 := " page=" + (t.page + ("]" + ""));
    assert '[' !in t2;
    var t1 := " owner_label=" + (t.ownerLabel + t2);
    PlainConcat(t.ownerLabel, t2);
    PlainConcat(t.owner, t1);
    PlainConcat("MATCH_OP=opp owner=", t.owner + t1);
    assert OppText(t, "") == "[MATCH_OP=opp owner=" + (t.owner + t1);
    assert "[MATCH_OP=opp owner="[1..] == "MATCH_OP=opp owner=";
    assert OppText(t, "")[1..] == "MATCH_OP=opp owner=" + (t.owner + t1);
  }

  /** A negative owner id makes a header that neither expression matches. */
  lemma NegativeOwnerUnreadable(body: string, d: Draft)
    requires NoTag(body) && d.owner < 0 && IsId(d.page)
    ensures ParseDraftFromHeader(body + "\n\n" + RenderOppHeader(d)).None?
  {
    var h := RenderOppHeader(d);
    RenderedOpp(d);
    assert FormatInt(d.owner)[0] == '-';
    assert h[20] == FormatInt(d.owner)[0];
    TagsNeedDigits(h);
    NotScoreTag(h);
    NumberBack(d.page);
    EscapedIsPlain(d.ownerLabel);
    assert '[' !in FormatNat(-d.owner) by { assert AllDigits(FormatNat(-d.owner)); }
    PlainOppText(OppTagOf(d));
    BracketFree(h[1..]);
    FoundAfterBody(body, h);
    hide RenderOppHeader, MatchOpp, MatchScore, NoTag;
  }

  lemma NotScoreTag(s: string)
    requires "[MATCH_OP=opp owner=" <= s
    ensures MatchScore(s).None?
  {
    ScoreStarts(s);
    hide MatchScore;
    var a, b := "[MATCH_OP=opp owner=", "[MATCH_OP=score owner=";
    assert a[10] == 'o' && b[10] == 's' && s[10] == a[10];
    assert b <= s ==> s[10] == b[10];
  }

  /** An owner id too large for 64 bits comes back as the largest there is. */
  lemma LargeOwnerClamped(body: string, d: Draft)
    requires NoTag(body) && d.owner > MAX_INT64 && IsBytes(d.ownerLabel) && IsId(d.page)
    ensures ParseDraftFromHeader(body + "\n\n" + RenderOppHeader(d)) == Some(OppPart(d.(owner := MAX_INT64)))
  {
    LargeNumber(d.owner);
    NumberBack(d.page);
    LabelBack(d.ownerLabel);
    RenderedOpp(d);
    MatchOppExact(OppTagOf(d), "");
    FoundAfterBody(body, RenderOppHeader(d));
    hide RenderOppHeader, MatchOpp, FindScore, Number, Label, FormatInt, Escape;
  }

  lemma LargeNumber(n: int)
    requires n > MAX_INT64
    ensures Digits(FormatInt(n)) && Number(FormatInt(n)) == MAX_INT64
  {
    ScanDigitsCorrect(FormatNat(n));
    ValueOfFormat(n);
  }

  /** The round trip of an opponent header holds for exactly the owner ids from 0 to the largest 64-bit integer. */
  lemma OppRoundTripIffId(body: string, d: Draft)
    requires NoTag(body) && IsBytes(d.ownerLabel) && IsId(d.page)
    ensures ParseDraftFromHeader(body + "\n\n" + RenderOppHeader(d)) == Some(OppPart(d)) <==> IsId(d.owner)
  {
    hide ParseDraftFromHeader, RenderOppHeader, NoTag;
    if d.owner < 0 { NegativeOwnerUnreadable(body, d); }
    else if d.owner > MAX_INT64 { LargeOwnerClamped(body, d); }
    else { OppRoundTrip(body, d); }
  }
}
