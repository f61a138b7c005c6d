/** Hosts as section 3.2.2 of RFC 3986 writes them in a URI. */
module Hosts {
  import opened Text
  import opened Options
  import opened Escaping
  import opened History

  /** What a host name or IPv4 address is made of, apart from percent escapes and the comma, which lists hosts. */
  predicate HostChar(c: char) {
    Unreserved(c) || c == '!' || c == '$' || c == '&' || c == '\'' || c == '(' || c == ')' || c == '*' || c == '+'
    || c == ';' || c == '='
  }

  predicate IsName(s: string) { forall i :: 0 <= i < |s| ==> HostChar(s[i]) }

  /** A decimal octet without leading zeros. */
  predicate IsOctet(s: string) {
    0 < |s| <= 3 && (forall i :: 0 <= i < |s| ==> IsDigit(s[i])) && DigitsValue(s) < 256 && (s[0] == '0' ==> |s| == 1)
  }

  predicate IsIPv4(s: string) {
    var parts := Split(s, '.');
    |parts| == 4 && IsOctet(parts[0]) && IsOctet(parts[1]) && IsOctet(parts[2]) && IsOctet(parts[3])
  }

  predicate IsGroup(s: string) { 0 < |s| <= 4 && forall i :: 0 <= i < |s| ==> HexValue(s[i]).Some? }

  function Groups(s: string): seq<string> { if s == "" then [] else Split(s, ':') }

  /** How many 16-bit groups these stand for; an IPv4 address may come last and counts twice. */
  function Width(groups: seq<string>, v4Last: bool): Option<nat> {
    if groups == [] then Some(0)
    else
      match Width(Init(groups), false)
      case None => None
      case Some(n) =>
        if IsGroup(Last(groups)) then Some(n + 1)
        else if v4Last && IsIPv4(Last(groups)) then Some(n + 2)
        else None
  }

  /** Eight groups, or fewer around one double colon. */
  predicate IsIPv6(s: string) {
    || Width(Groups(s), true) == Some(8)
    || exists k :: 0 <= k < |s| - 1 && s[k] == ':' && s[k + 1] == ':' && Elided(s[..k], s[k + 2..])
  }

  predicate Elided(before: string, after: string) {
    match (Width(Groups(before), false), Width(Groups(after), true))
    case (Some(a), Some(b)) => a + b <= 7
    case _ => false
  }

  /** An IPv6 address in brackets. */
  predicate IsLiteral(s: string) {
    && |s| > 2 && s[0] == '[' && s[|s| - 1] == ']'
    && (forall i :: 0 < i < |s| - 1 ==> HostChar(s[i]) || s[i] == ':')
    && IsIPv6(s[1..|s| - 1])
  }

  /** A colon only inside the brackets of an address. */
  predicate HostOk(s: string) { IsName(s) || IsLiteral(s) }

  /** A host holds none of the characters that end the authority or its user information. */
  lemma HostChars(s: string)
    requires HostOk(s)
    ensures '#' !in s && '?' !in s && '/' !in s && '@' !in s
  {
  }

  /** Nor percent signs, commas, blanks, quotes, angle brackets, backslashes, or anything outside ASCII. */
  lemma HostCharsArePlain(s: string, i: nat)
    requires HostOk(s) && i < |s|
    ensures '!' <= s[i] <= '~'
    ensures s[i] != '%' && s[i] != ',' && s[i] != '"' && s[i] != '<' && s[i] != '>' && s[i] != '\\'
    ensures s[i] != '^' && s[i] != '`' && s[i] != '{' && s[i] != '|' && s[i] != '}'
    ensures s[i] == '[' ==> i == 0
    ensures s[i] == ']' ==> i == |s| - 1
  {
  }

  /** Every domain name and every IPv4 address is a host. */
  lemma NamesAreHosts(s: string)
    requires forall i :: 0 <= i < |s| ==>
      'a' <= s[i] <= 'z' || 'A' <= s[i] <= 'Z' || '0' <= s[i] <= '9' || s[i] == '-' || s[i] == '.'
    ensures HostOk(s)
  {
  }

  lemma {:induction false} DigitsOfValue(s: string)
    requires s != "" && (forall i :: 0 <= i < |s| ==> IsDigit(s[i])) && (s[0] == '0' ==> |s| == 1)
    ensures Digits(DigitsValue(s)) == s && (s[0] != '0' ==> DigitsValue(s) > 0)
  {
    if |s| > 1 { DigitsOfValue(Init(s)); }
    var c := Last(s);
    assert s == Init(s) + [c] && IsDigit(c) && DigitChar(c as int - '0' as int) == c;
  }

  /** The octets are the numerals of 0 to 255, as they are printed. */
  lemma OctetIff(s: string)
    ensures IsOctet(s) <==> exists n: nat :: n <= 255 && s == Digits(n)
  {
    if IsOctet(s) { DigitsOfValue(s); }
    forall n: nat | n <= 255 && s == Digits(n) ensures IsOctet(s) {
      DigitsRoundTrip(n);
      assert n >= 10 ==> s == Digits(n / 10) + [DigitChar(n % 10)];
      assert n >= 100 ==> Digits(n / 10) == Digits(n / 100) + [DigitChar(n / 10 % 10)];
    }
  }

  function HexNumber(s: string): nat
    requires forall i :: 0 <= i < |s| ==> HexValue(s[i]).Some?
  {
    if s == "" then 0 else assert HexValue(Last(s)).Some?; 16 * HexNumber(Init(s)) + HexValue(Last(s)).value
  }

  /** Each further digit makes room for sixteen times as many numbers. */
  lemma {:induction false} HexNumberBound(s: string, n: nat)
    requires n <= |s| <= 4 && forall i :: 0 <= i < |s| ==> HexValue(s[i]).Some?
    ensures HexNumber(s[..n]) < [1, 0x10, 0x100, 0x1000, 0x1_0000][n]
  {
    if n > 0 {
      HexNumberBound(s, n - 1);
      assert Init(s[..n]) == s[..n - 1] && HexValue(s[n - 1]).Some?;
    }
  }

  /** A group is hexadecimal digits of a 16-bit number. */
  lemma GroupIs16Bit(s: string)
    requires IsGroup(s)
    ensures HexNumber(s) < 0x1_0000
  {
    HexNumberBound(s, |s|);
    assert s[..|s|] == s;
  }

  lemma {:induction false} WidthOfGroups(groups: seq<string>, v4Last: bool)
    requires forall i :: 0 <= i < |groups| ==> IsGroup(groups[i])
    ensures Width(groups, v4Last) == Some(|groups|)
  {
    if groups != [] { WidthOfGroups(Init(groups), false); }
  }

  lemma {:induction false} GroupsOfJoin(groups: seq<string>)
    requires forall i :: 0 <= i < |groups| ==> IsGroup(groups[i])
    ensures Groups(Join(groups, ":")) == groups
  {
    if groups != [] {
      forall i | 0 <= i < |groups| ensures ':' !in groups[i] {
        forall j | 0 <= j < |groups[i]| ensures groups[i][j] != ':' { assert HexValue(groups[i][j]).Some?; }
      }
      SplitJoin(groups, ':');
      assert IsGroup(groups[0]);
    }
  }

  /** Eight groups are an address, and so are at most seven around a double colon. */
  lemma GroupsAreIPv6(before: seq<string>, after: seq<string>)
    requires forall i :: 0 <= i < |before| ==> IsGroup(before[i])
    requires forall i :: 0 <= i < |after| ==> IsGroup(after[i])
    ensures |before| == 8 ==> IsIPv6(Join(before, ":"))
    ensures |before| + |after| <= 7 ==> IsIPv6(Join(before, ":") + "::" + Join(after, ":"))
  {
    GroupsOfJoin(before);
    GroupsOfJoin(after);
    WidthOfGroups(before, true);
    WidthOfGroups(before, false);
    WidthOfGroups(after, true);
    var a, b := Join(before, ":"), Join(after, ":");
    var s := a + "::" + b;
    assert s[|a|] == ':' && s[|a| + 1] == ':' && s[..|a|] == a && s[|a| + 2..] == b;
    if |before| + |after| <= 7 { assert Elided(s[..|a|], s[|a| + 2..]); }
  }

  /** An IPv6 address is a host only in its brackets. */
  lemma BareColonIsNoHost(s: string)
    requires ':' in s && '[' !in s
    ensures !HostOk(s)
  {
    var i :| 0 <= i < |s| && s[i] == ':';
    assert !HostChar(s[i]);
  }

  lemma OneGroup()
    ensures Width(Groups("1"), true) == Some(1) && Width(Groups(""), false) == Some(0)
  {
    var s := "1";
    assert s == ['1'] && s[1..] == "" && Split("", ':') == [""] && ['1'] + "" == s && [""][1..] == [];
    assert Groups(s) == [s] && Init([s]) == [];
  }

  /** Brackets turn every IPv6 address into a host. */
  lemma BracketedIsHost(s: string)
    requires s != "" && IsIPv6(s) && forall i :: 0 <= i < |s| ==> HostChar(s[i]) || s[i] == ':'
    ensures HostOk(['['] + s + [']'])
  {
    var b := ['['] + s + [']'];
    assert b[1..|b| - 1] == s;
    assert forall i :: 0 < i < |b| - 1 ==> b[i] == s[i - 1];
  }

  lemma Loopback()
    ensures IsIPv6("::1")
  {
    var s := "::1";
    OneGroup();
    assert s[0] == ':' && s[1] == ':' && s[..0] == "" && s[2..] == "1";
    assert Elided(s[..0], s[2..]);
  }

  lemma LoopbackNeedsBrackets()
    ensures HostOk(['['] + "::1" + [']']) && !HostOk("::1")
  {
    var s := "::1";
    Loopback();
    BracketedIsHost(s);
    BareColonIsNoHost(s);
  }
}
