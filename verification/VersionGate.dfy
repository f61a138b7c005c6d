/** The spec's version gate, from its YAML scalar to whether the query runs. */
module VersionGate {
  import opened Text
  import opened Options
  import opened SpecYaml
  import opened VP = VersionProbe
  import SC = SpecCollector

  // ---- fmt.Sscanf's %d ----

  /** The blanks scanning skips: Unicode white space except the newline, at which it fails. */
  predicate IsBlank(c: char) {
    var n := c as int;
    (9 <= n <= 13 && n != 10) || n == 0x20 || n == 0x85 || n == 0xA0 || n == 0x1680 || 0x2000 <= n <= 0x200A
    || n == 0x2028 || n == 0x2029 || n == 0x202F || n == 0x205F || n == 0x3000
  }

  function SkipBlanks(s: string): string {
    if s != "" && IsBlank(s[0]) then SkipBlanks(s[1..]) else s
  }

  function LeadingDigits(s: string): (r: string)
    ensures r <= s && forall i :: 0 <= i < |r| ==> IsDigit(r[i])
    ensures |r| < |s| ==> !IsDigit(s[|r|])
  {
    if s != "" && IsDigit(s[0]) then [s[0]] + LeadingDigits(s[1..]) else ""
  }

  /** Digits at the front of `u`, as a number with the given sign; fails without digits or out of range. */
  function ScanDigits(u: string, negative: bool): Option<(int, string)> {
    var digits := LeadingDigits(u);
    if digits == "" then None
    else
      var n: int := DigitsValue(digits);
      var v := if negative then -n else n;
      if InRange(v) then Some((v, u[|digits|..])) else None
  }

  /** The integer at the front and what follows. */
  function ScanInt(s: string): Option<(int, string)> {
    var t := SkipBlanks(s);
    if t != "" && (t[0] == '-' || t[0] == '+') then ScanDigits(t[1..], t[0] == '-') else ScanDigits(t, false)
  }

  /** "major.minor", else a bare major; text after either is ignored. */
  function ParseVersion(s: string): Option<(int, int)> {
    match ScanInt(s)
    case None => None
    case Some((major, rest)) =>
      if rest != "" && rest[0] == '.' then
        match ScanInt(rest[1..]) {
          case Some((minor, _)) => Some((major, minor))
          case None => Some((major, 0))
        }
      else Some((major, 0))
  }

  datatype Node = Sequence(values: seq<int>) | Scalar(text: string)

  /** The field the decoder writes; an error leaves it alone. */
  class VersionField {
    var major: int
    var minor: int

    constructor ()
      ensures major == 0 && minor == 0
    {
      major, minor := 0, 0;
    }

    method Unmarshal(node: Node) returns (ok: bool)
      modifies this
      ensures ok <==> if node.Sequence? then |node.values| == 2 else ParseVersion(node.text).Some?
      ensures ok ==> (major, minor) == if node.Sequence? then (node.values[0], node.values[1])
                                       else ParseVersion(node.text).value
      ensures !ok ==> major == old(major) && minor == old(minor)
    {
      if node.Sequence? {
        if |node.values| != 2 { return false; }
        major, minor := node.values[0], node.values[1];
        return true;
      }
      // Sscanf("%d.%d") may set the major and still fail; the fallback reads it again.
      var first := ScanInt(node.text);
      if first.None? { return false; }
      var newMajor, newMinor := first.value.0, 0;
      var rest := first.value.1;
      if rest != "" && rest[0] == '.' {
        var second := ScanInt(rest[1..]);
        if second.Some? { newMinor := second.value.0; }
      }
      major, minor := newMajor, newMinor;
      ok := true;
    }
  }

  lemma {:induction false} LeadingDigitsOf(d: string, rest: string)
    requires forall i :: 0 <= i < |d| ==> IsDigit(d[i])
    requires rest != "" ==> !IsDigit(rest[0])
    ensures LeadingDigits(d + rest) == d
  {
    if d == "" {
      assert d + rest == rest;
    } else {
      assert (d + rest)[1..] == d[1..] + rest;
      LeadingDigitsOf(d[1..], rest);
    }
  }

  lemma {:induction false} ScanDigitsOf(n: nat, rest: string, v: int)
    requires InRange(v) && (v == n || v + n == 0) && (rest != "" ==> !IsDigit(rest[0]))
    ensures ScanDigits(Digits(n) + rest, v < 0) == Some((v, rest))
  {
    LeadingDigitsOf(Digits(n), rest);
    DigitsRoundTrip(n);
    assert (Digits(n) + rest)[|Digits(n)|..] == rest;
  }

  lemma ScanNegative(t: string)
    ensures ScanInt("-" + t) == ScanDigits(t, true)
  {
  }

  lemma ScanUnsigned(t: string)
    requires t != "" && IsDigit(t[0])
    ensures ScanInt(t) == ScanDigits(t, false)
  {
  }

  lemma {:induction false} ScanItoa(n: int, rest: string)
    requires InRange(n) && (rest != "" ==> !IsDigit(rest[0]))
    ensures ScanInt(Itoa(n) + rest) == Some((n, rest))
  {
    if n < 0 {
      var t := Digits(-n) + rest;
      assert Itoa(n) + rest == "-" + t;
      ScanNegative(t);
      ScanDigitsOf(-n, rest, n);
    } else {
      ScanUnsigned(Digits(n) + rest);
      ScanDigitsOf(n, rest, n);
    }
  }

  /** The string, pair and bare-major encodings of a version read back as that version. */
  lemma EncodingsAgree(major: int, minor: int)
    requires InRange(major) && InRange(minor)
    ensures ParseVersion(Itoa(major) + "." + Itoa(minor)) == Some((major, minor))
    ensures ParseVersion(Itoa(major)) == Some((major, 0))
  {
    var rest := "." + Itoa(minor);
    assert Itoa(major) + "." + Itoa(minor) == Itoa(major) + rest;
    ScanItoa(major, rest);
    assert rest[1..] == Itoa(minor);
    ScanItoa(minor, "");
    assert Itoa(minor) + "" == Itoa(minor);
    ScanItoa(major, "");
    assert Itoa(major) + "" == Itoa(major);
  }

  lemma MajorThenDot(major: int, tail: string)
    requires InRange(major)
    ensures ParseVersion(Itoa(major) + ("." + tail)) ==
      match ScanInt(tail) case Some((minor, _)) => Some((major, minor)) case None => Some((major, 0))
  {
    ScanItoa(major, "." + tail);
    assert ("." + tail)[1..] == tail;
  }

  /** Whatever follows a printed version is ignored. */
  lemma TrailingTextIgnored(major: int, minor: int, rest: string)
    requires InRange(major) && InRange(minor) && (rest != "" ==> !IsDigit(rest[0]))
    ensures ParseVersion(Itoa(major) + ("." + (Itoa(minor) + rest))) == Some((major, minor))
    ensures (rest != "" ==> rest[0] != '.') ==> ParseVersion(Itoa(major) + rest) == Some((major, 0))
  {
    MajorThenDot(major, Itoa(minor) + rest);
    ScanItoa(minor, rest);
    ScanItoa(major, rest);
  }

  /** A number cannot start here. */
  predicate NoNumber(s: string) { s == "" || !(IsBlank(s[0]) || IsDigit(s[0]) || s[0] == '-' || s[0] == '+') }

  /** A dot without a number after it leaves the bare major, and a text that starts with no number is refused. */
  lemma FallbackAndRefusal(major: int, rest: string)
    requires InRange(major) && NoNumber(rest)
    ensures ParseVersion(Itoa(major) + ("." + rest)) == Some((major, 0))
    ensures ParseVersion(rest) == None
  {
    MajorThenDot(major, rest);
    assert ScanInt(rest) == None;
  }

  /** Blanks before the number do not matter, but a newline there is refused. */
  lemma BlanksBefore(c: char, s: string)
    requires c == ' ' || c == '\t' || c == '\r' || c == 0x0B as char || c == 0x0C as char || c == 0xA0 as char
    ensures ParseVersion([c] + s) == ParseVersion(s)
    ensures ParseVersion(['\n'] + s) == None
  {
    assert ([c] + s)[1..] == s;
    assert SkipBlanks([c] + s) == SkipBlanks(s);
  }

  // ---- the gate itself ----

  predicate LexAtLeast(serverMajor: nat, serverMinor: nat, major: int, minor: int) {
    serverMajor > major || (serverMajor == major && serverMinor >= minor)
  }

  /** A server version as it is encoded; no larger number is ever read. */
  ghost predicate IsServer(a: nat, b: nat) { b < 10000 && 0 < a * 10000 + b <= INT_MAX }

  /** The minima whose encoding orders them as the lexicographic order does. */
  predicate Encodable(major: int, minor: int) { 0 <= minor <= 10000 && major * 10000 + minor <= INT_MAX }

  /**
   Once the version is known, the query runs exactly on servers that are
   lexicographically new enough; before, only without a minimum.
   */
  lemma GateIsLexicographic(spec: CollectorSpec, serverMajor: nat, serverMinor: nat)
    requires IsServer(serverMajor, serverMinor)
    requires spec.minMajor > 0 ==> Encodable(spec.minMajor, spec.minMinor)
    ensures SC.GateOpen(spec, VersionNum(serverMajor, serverMinor)) <==>
      spec.minMajor <= 0 || LexAtLeast(serverMajor, serverMinor, spec.minMajor, spec.minMinor)
    ensures SC.GateOpen(spec, 0) <==> spec.minMajor <= 0
  {
  }

  /** The gate and the order agree about one server. */
  ghost predicate AgreesOn(spec: CollectorSpec, a: nat, b: nat)
    requires IsServer(a, b)
  {
    SC.GateOpen(spec, VersionNum(a, b)) <==> LexAtLeast(a, b, spec.minMajor, spec.minMinor)
  }

  /** A minimum within the integers that orders wrongly, by its minor or by overflow, has a server that shows it. */
  lemma DisagreementExists(spec: CollectorSpec) returns (a: nat, b: nat)
    requires spec.minMajor > 0 && InRange(spec.minMajor) && InRange(spec.minMinor)
    requires !Encodable(spec.minMajor, spec.minMinor)
    ensures IsServer(a, b) && !AgreesOn(spec, a, b)
  {
    var major, minor := spec.minMajor, spec.minMinor;
    var n := major * 10000 + minor;
    if n > INT_MAX {
      a, b := INT_MAX / 10000, INT_MAX % 10000;
      assert a * 10000 + b == INT_MAX;
      if LexAtLeast(a, b, major, minor) {
        // Only a huge minor gets here; the sum then wraps to a negative number.
        assert Wrap(n) < 0;
        a, b := 0, 1;
      }
    } else if minor > 10000 {
      a, b := major + 1, 0;
    } else if major * 10000 - 1 <= INT_MAX {
      a, b := major - 1, 9999;
    } else {
      a, b := INT_MAX / 10000, INT_MAX % 10000;
      assert a * 10000 + b == INT_MAX;
    }
  }

  /** The gate agrees with the order on every server exactly for the encodable minima. */
  lemma GateExactIff(spec: CollectorSpec)
    requires spec.minMajor > 0 && InRange(spec.minMajor) && InRange(spec.minMinor)
    ensures (forall a: nat, b: nat :: IsServer(a, b) ==> AgreesOn(spec, a, b))
       <==> Encodable(spec.minMajor, spec.minMinor)
  {
    if Encodable(spec.minMajor, spec.minMinor) {
      forall a: nat, b: nat | IsServer(a, b) ensures AgreesOn(spec, a, b) { GateIsLexicographic(spec, a, b); }
    } else {
      var a, b := DisagreementExists(spec);
    }
  }

  /** A minimum of 2^60, which its text does parse to, wraps to zero: 16.4 runs the query. */
  lemma OverflowOpensGate(spec: CollectorSpec)
    requires spec.minMajor == 0x1000_0000_0000_0000 && spec.minMinor == 0
    ensures InRange(spec.minMajor)
    ensures SC.GateOpen(spec, VersionNum(16, 4)) && !LexAtLeast(16, 4, spec.minMajor, spec.minMinor)
  {
  }
}
