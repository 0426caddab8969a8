/** `url.QueryEscape` and `url.QueryUnescape`: percent-encoding (RFC 3986, sections 2.1 and 2.3) with space as `+`. */
module QueryEscape {
  import opened Wrappers

  /** A Go string: every character is one byte. */
  ghost predicate IsBytes(s: string) { forall i :: 0 <= i < |s| ==> s[i] as int < 256 }

  predicate Unreserved(c: char) {
    'a' <= c <= 'z' || 'A' <= c <= 'Z' || '0' <= c <= '9' || c == '-' || c == '_' || c == '.' || c == '~'
  }

  function HexDigit(d: nat): char
    requires d < 16
  {
    "0123456789ABCDEF"[d]
  }

  function Unhex(c: char): Option<nat> {
    if '0' <= c <= '9' then Some(c as int - '0' as int)
    else if 'a' <= c <= 'f' then Some(c as int - 'a' as int + 10)
    else if 'A' <= c <= 'F' then Some(c as int - 'A' as int + 10)
    else None
  }

  function EscapeByte(c: char): string {
    if Unreserved(c) then [c]
    else if c == ' ' then "+"
    else ['%', HexDigit(c as int / 16 % 16), HexDigit(c as int % 16)]
  }

  function Escape(s: string): string {
    if s == "" then "" else Escape(s[..|s|-1]) + EscapeByte(s[|s|-1])
  }

  datatype Head = Head(byte: char, length: nat)

  /** The first byte of escaped text and how many characters it takes. */
  function FirstByte(s: string): (r: Option<Head>)
    requires s != ""
    ensures r.Some? ==> 1 <= r.value.length <= |s|
  {
    if s[0] == '%' then
      if |s| < 3 || Unhex(s[1]).None? || Unhex(s[2]).None? then None
      else Some(Head((16 * Unhex(s[1]).value + Unhex(s[2]).value) as char, 3))
    else Some(Head(if s[0] == '+' then ' ' else s[0], 1))
  }

  function Prepend(c: char, rest: Option<string>): Option<string> {
    if rest.None? then None else Some([c] + rest.value)
  }

  /** The whole string is refused if one percent sign lacks its two hex digits. */
  function Unescape(s: string): Option<string> {
    if s == "" then Some("") else
    match FirstByte(s)
    case None => None
    case Some(head) => Prepend(head.byte, Unescape(s[head.length..]))
  }

  lemma UnhexHexDigit(d: nat)
    requires d < 16
    ensures Unhex(HexDigit(d)) == Some(d)
    ensures '0' <= HexDigit(d) <= '9' || 'A' <= HexDigit(d) <= 'F'
  {
  }

  lemma FirstByteConcat(a: string, b: string)
    requires a != "" && FirstByte(a).Some?
    ensures FirstByte(a + b) == FirstByte(a)
  {
  }

  lemma UnescapeStep(s: string, head: Head)
    requires s != "" && FirstByte(s) == Some(head)
    ensures Unescape(s) == Prepend(head.byte, Unescape(s[head.length..]))
  {
  }

  function Joined(a: Option<string>, b: Option<string>): Option<string> {
    if a.None? || b.None? then None else Some(a.value + b.value)
  }

  lemma JoinedPrepend(c: char, a: Option<string>, b: Option<string>)
    ensures Joined(Prepend(c, a), b) == Prepend(c, Joined(a, b))
  {
    if a.Some? && b.Some? { assert ([c] + a.value) + b.value == [c] + (a.value + b.value); }
  }

  /** Unescaping a prefix that stands on its own. */
  lemma {:induction false} UnescapeConcat(a: string, b: string)
    requires Unescape(a).Some?
    ensures Unescape(a + b) == Joined(Unescape(a), Unescape(b))
    decreases |a|
  {
    if a == "" {
      assert a + b == b;
      assert Unescape(b).Some? ==> "" + Unescape(b).value == Unescape(b).value;
    } else {
      FirstByteConcat(a, b);
      var head := FirstByte(a).value;
      var rest := a[head.length..];
      UnescapeStep(a, head);
      UnescapeStep(a + b, head);
      hide FirstByte, Unescape;
      assert (a + b)[head.length..] == rest + b;
      UnescapeConcat(rest, b);
      JoinedPrepend(head.byte, Unescape(rest), Unescape(b));
    }
  }

  lemma UnescapeNothing()
    ensures Unescape("") == Some("")
  {
  }

  lemma PercentByte(c: char)
    requires c as int < 256
    ensures FirstByte(['%', HexDigit(c as int / 16), HexDigit(c as int % 16)]) == Some(Head(c, 3))
  {
    UnhexHexDigit(c as int / 16);
    UnhexHexDigit(c as int % 16);
    hide Unhex, HexDigit;
    assert 16 * (c as int / 16) + c as int % 16 == c as int;
  }

  lemma PlainFirstByte(c: char)
    requires c != '%'
    ensures FirstByte([c]) == Some(Head(if c == '+' then ' ' else c, 1))
  {
  }

  lemma ReservedBytes()
    ensures !Unreserved('%') && !Unreserved('+')
  {
  }

  lemma EscapedFirstByte(c: char)
    requires c as int < 256
    ensures EscapeByte(c) != "" && FirstByte(EscapeByte(c)) == Some(Head(c, |EscapeByte(c)|))
  {
    ReservedBytes();
    hide FirstByte, HexDigit, Unreserved;
    if Unreserved(c) {
      PlainFirstByte(c);
    } else if c == ' ' {
      PlainFirstByte('+');
    } else {
      PercentByte(c);
      var e := EscapeByte(c);
      assert e == ['%', HexDigit(c as int / 16), HexDigit(c as int % 16)];
    }
  }

  lemma UnescapeByte(c: char)
    requires c as int < 256
    ensures Unescape(EscapeByte(c)) == Some([c])
  {
    hide FirstByte, EscapeByte, Unescape;
    var e := EscapeByte(c);
    EscapedFirstByte(c);
    UnescapeStep(e, Head(c, |e|));
    UnescapeNothing();
    assert e[|e|..] == "" && [c] + "" == [c];
  }

  /** Every string of bytes comes back. */
  lemma {:induction false} UnescapeEscape(s: string)
    requires IsBytes(s)
    ensures Unescape(Escape(s)) == Some(s)
  {
    hide EscapeByte, Unescape;
    if s == "" {
      UnescapeNothing();
    } else {
      UnescapeEscape(s[..|s|-1]);
      UnescapeByte(s[|s|-1]);
      UnescapeConcat(Escape(s[..|s|-1]), EscapeByte(s[|s|-1]));
      assert s == s[..|s|-1] + [s[|s|-1]];
    }
  }

  /** What may follow a tag's `label=`: the regular expression class `\S`. */
  predicate NonSpace(c: char) { c != ' ' && c != '\t' && c != '\n' && c != '\r' && c as int != 12 }

  /** Escaped text contains neither whitespace nor brackets, so it never ends or starts a tag. */
  lemma {:induction false} EscapedIsPlain(s: string)
    ensures forall i :: 0 <= i < |Escape(s)| ==> NonSpace(Escape(s)[i]) && Escape(s)[i] != '[' && Escape(s)[i] != ']'
  {
    if s != "" {
      EscapedIsPlain(s[..|s|-1]);
      var c := s[|s|-1];
      UnhexHexDigit(c as int / 16 % 16);
      UnhexHexDigit(c as int % 16);
      forall i | 0 <= i < |EscapeByte(c)|
        ensures NonSpace(EscapeByte(c)[i]) && EscapeByte(c)[i] != '[' && EscapeByte(c)[i] != ']' {}
    }
  }

  /** Letters, digits and -_.~ stay, a space becomes +, and any other byte a percent sign and its two hex digits. */
  lemma EscapedByteByByte(a: string, c: char)
    ensures Escape("") == ""
    ensures 'a' <= c <= 'z' || 'A' <= c <= 'Z' || '0' <= c <= '9' || c in "-_.~" ==> Escape(a + [c]) == Escape(a) + [c]
    ensures c == ' ' ==> Escape(a + [c]) == Escape(a) + "+"
    ensures c as int < 256 && c != ' ' && !('a' <= c <= 'z' || 'A' <= c <= 'Z' || '0' <= c <= '9' || c in "-_.~") ==>
              Escape(a + [c]) ==
              Escape(a) + "%" + ["0123456789ABCDEF"[c as int / 16]] + ["0123456789ABCDEF"[c as int % 16]]
  {
    assert (a + [c])[..|a|] == a;
    assert c as int < 256 ==> c as int / 16 % 16 == c as int / 16;
  }
}
