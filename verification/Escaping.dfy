/**
 Query escaping and its decoders, over strings of bytes: percent-encoding as in
 section 2.1 of RFC 3986, and '+' for a space as in section 17.13.4.1 of HTML 4.01.
 */
module Escaping {
  import opened Options

  ghost predicate IsBytes(s: string) { forall i :: 0 <= i < |s| ==> s[i] as int < 256 }

  predicate Unreserved(c: char) {
    'a' <= c <= 'z' || 'A' <= c <= 'Z' || '0' <= c <= '9' || c == '-' || c == '_' || c == '.' || c == '~'
  }

  function HexDigit(d: nat): char
    requires d < 16
  {
    if d < 10 then ('0' as int + d) as char else ('A' as int + (d - 10)) as char
  }

  /** Both cases of a hex digit decode; other characters do not. */
  function HexValue(c: char): Option<nat> {
    if '0' <= c <= '9' then Some(c as int - '0' as int)
    else if 'A' <= c <= 'F' then Some(c as int - 'A' as int + 10)
    else if 'a' <= c <= 'f' then Some(c as int - 'a' as int + 10)
    else None
  }

  function EscapeByte(c: char): string {
    if Unreserved(c) then [c]
    else if c == ' ' then "+"
    else ['%', HexDigit(c as int / 16 % 16), HexDigit(c as int % 16)]
  }

  /** url.QueryEscape. */
  function QueryEscape(s: string): string {
    if s == "" then "" else EscapeByte(s[0]) + QueryEscape(s[1..])
  }

  /** Percent-decoding; with `plus`, form-decoding, where '+' stands for a space. */
  function Unescape(s: string, plus: bool): Option<string> {
    if s == "" then Some("")
    else if s[0] == '%' then
      if |s| < 3 then None
      else
        match (HexValue(s[1]), HexValue(s[2]), Unescape(s[3..], plus)) {
          case (Some(a), Some(b), Some(rest)) => Some([(16 * a + b) as char] + rest)
          case _ => None
        }
    else
      match Unescape(s[1..], plus) {
        case Some(rest) => Some([if plus && s[0] == '+' then ' ' else s[0]] + rest)
        case None => None
      }
  }

  /** What percent-decoding alone makes of an escaped string. */
  function PlusForSpace(s: string): string {
    seq(|s|, i requires 0 <= i < |s| => if s[i] == ' ' then '+' else s[i])
  }

  lemma HexRoundTrip(d: nat)
    requires d < 16
    ensures HexValue(HexDigit(d)) == Some(d)
  {
  }

  lemma UnescapeByte(c: char, plus: bool)
    requires c as int < 256
    ensures Unescape(EscapeByte(c), plus) == Some([if c == ' ' && !plus then '+' else c])
  {
    if !Unreserved(c) && c != ' ' {
      var a, b := c as int / 16 % 16, c as int % 16;
      HexRoundTrip(a);
      HexRoundTrip(b);
      assert 16 * a + b == c as int;
      assert EscapeByte(c)[3..] == "" && [c] + "" == [c];
    } else {
      assert EscapeByte(c)[1..] == "";
      var d := if c == ' ' && !plus then '+' else c;
      assert Unescape("", plus) == Some("") && [d] + "" == [d];
    }
  }

  lemma Regroup(a: string, b: string, c: string)
    ensures (a + b) + c == a + (b + c)
  {
  }

  /** Decoding is compositional: a prefix that decodes does so whatever follows. */
  lemma {:induction false} UnescapeConcat(a: string, b: string, plus: bool)
    requires Unescape(a, plus).Some?
    ensures Unescape(a + b, plus) ==
      match Unescape(b, plus) case Some(y) => Some(Unescape(a, plus).value + y) case None => None
  {
    if a == "" {
      assert a + b == b;
      if Unescape(b, plus).Some? { assert "" + Unescape(b, plus).value == Unescape(b, plus).value; }
    } else if a[0] == '%' {
      assert (a + b)[3..] == a[3..] + b && (a + b)[1] == a[1] && (a + b)[2] == a[2];
      UnescapeConcat(a[3..], b, plus);
      if Unescape(b, plus).Some? {
        Regroup([Unescape(a, plus).value[0]], Unescape(a[3..], plus).value, Unescape(b, plus).value);
      }
    } else {
      assert (a + b)[1..] == a[1..] + b;
      UnescapeConcat(a[1..], b, plus);
      if Unescape(b, plus).Some? {
        Regroup([Unescape(a, plus).value[0]], Unescape(a[1..], plus).value, Unescape(b, plus).value);
      }
    }
  }

  /** Form-decoding undoes escaping; percent-decoding alone turns spaces into '+'. */
  lemma {:induction false} UnescapeEscape(s: string, plus: bool)
    requires IsBytes(s)
    ensures Unescape(QueryEscape(s), plus) == Some(Decoded(s, plus))
  {
    if s == "" {
      assert PlusForSpace(s) == s;
    } else {
      var rest := Decoded(s[1..], plus);
      var first := if s[0] == ' ' && !plus then '+' else s[0];
      UnescapeEscape(s[1..], plus);
      UnescapeByte(s[0], plus);
      UnescapeOneMore(s, plus, rest);
      assert Unescape(QueryEscape(s), plus) == Some([first] + rest);
      DecodedStep(s, plus);
    }
  }

  /** What decoding an escaped string yields. */
  function Decoded(s: string, plus: bool): string { if plus then s else PlusForSpace(s) }

  lemma DecodedStep(s: string, plus: bool)
    requires s != ""
    ensures Decoded(s, plus) == [if s[0] == ' ' && !plus then '+' else s[0]] + Decoded(s[1..], plus)
  {
  }

  lemma {:induction false} UnescapeOneMore(s: string, plus: bool, rest: string)
    requires s != "" && Unescape(QueryEscape(s[1..]), plus) == Some(rest)
    requires Unescape(EscapeByte(s[0]), plus).Some?
    ensures Unescape(QueryEscape(s), plus) == Some(Unescape(EscapeByte(s[0]), plus).value + rest)
  {
    UnescapeConcat(EscapeByte(s[0]), QueryEscape(s[1..]), plus);
  }

  /** Percent-decoding alone restores exactly the strings without a space. */
  lemma PercentDecodingIff(s: string)
    requires IsBytes(s)
    ensures Unescape(QueryEscape(s), false) == Some(s) <==> ' ' !in s
  {
    UnescapeEscape(s, false);
    if k :| 0 <= k < |s| && s[k] == ' ' {
      assert PlusForSpace(s)[k] != s[k];
    } else {
      assert PlusForSpace(s) == s;
    }
  }

  /** The characters an escaped string is made of. */
  predicate EscapedChar(c: char) { Unreserved(c) || c == '%' || c == '+' }

  lemma {:induction false} EscapedChars(s: string)
    ensures forall i :: 0 <= i < |QueryEscape(s)| ==> EscapedChar(QueryEscape(s)[i])
  {
    if s != "" {
      EscapedChars(s[1..]);
      var e := EscapeByte(s[0]);
      assert forall i :: 0 <= i < |e| ==> EscapedChar(e[i]);
    }
  }
}
