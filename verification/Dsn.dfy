/**
 The connection URI: query escaping outside, and inside its `options` parameter
 backslash-escaped spaces for the server, which splits that string again. Strings
 are strings of bytes; durations are nanoseconds.
 */
module Dsn {
  import opened Text
  import opened Options
  import opened Escaping

  datatype Opts = Opts(
    host: string, port: int, user: string, password: string, database: string, applicationName: string,
    isolationLevel: string, statementTimeout: int, lockTimeout: int, idleInTransactionTimeout: int,
    poolMaxConns: int, poolMinConns: int, poolMaxConnLifetime: int, poolMaxConnIdleTime: int,
    poolHealthCheckPeriod: int)
  {
    ghost predicate Bytes() {
      IsBytes(user) && IsBytes(password) && IsBytes(database) && IsBytes(applicationName)
    }
  }

  type Pair = (string, string)

  // ---- the `options` words ----

  /** ASCII white space. */
  predicate IsBlank(c: char) { c == ' ' || '\t' as int <= c as int <= '\r' as int }

  /** strings.Fields: the maximal runs of non-blank characters. */
  function Fields(s: string): (r: seq<string>)
    ensures forall i :: 0 <= i < |r| ==> r[i] != "" && forall j :: 0 <= j < |r[i]| ==> !IsBlank(r[i][j])
  {
    if s == "" then []
    else if IsBlank(s[0]) then Fields(s[1..])
    else
      var w := FirstWord(s);
      [w] + Fields(s[|w|..])
  }

  function FirstWord(s: string): (w: string)
    ensures w <= s && (forall j :: 0 <= j < |w| ==> !IsBlank(w[j]))
    ensures s != "" && !IsBlank(s[0]) ==> w != ""
  {
    if s == "" || IsBlank(s[0]) then "" else [s[0]] + FirstWord(s[1..])
  }

  /** White space normalised to single spaces between words. */
  function Normal(s: string): string { Join(Fields(s), " ") }

  function EscapeAll(words: seq<string>): (r: seq<string>)
    ensures |r| == |words|
  {
    seq(|words|, i requires 0 <= i < |words| => QueryEscape(words[i]))
  }

  function FormatOption(s: string): string { Join(EscapeAll(Fields(s)), "\\%20") }

  method FormatOptionsParam(str: string) returns (r: string)
    ensures r == FormatOption(str)
  {
    var fields := Fields(str);
    var i := 0;
    while i < |fields|
      invariant 0 <= i <= |fields| == |Fields(str)|
      invariant fields == EscapeAll(Fields(str)[..i]) + Fields(str)[i..]
    {
      fields := fields[i := QueryEscape(fields[i])];
      i := i + 1;
    }
    assert fields == EscapeAll(Fields(str));
    r := Join(fields, "\\%20");
  }

  function OptionWord(p: Pair): string { "-c" + FormatOption(p.0) + "%3D" + FormatOption(p.1) }

  function OptionWords(ps: seq<Pair>): seq<string> {
    seq(|ps|, i requires 0 <= i < |ps| => OptionWord(ps[i]))
  }

  function OptionsText(ps: seq<Pair>): string { Join(OptionWords(ps), "%20") }

  /** What the server should see for one option. */
  function Intended(p: Pair): string { "-c" + Normal(p.0) + "=" + Normal(p.1) }

  function AllIntended(ps: seq<Pair>): seq<string> {
    seq(|ps|, i requires 0 <= i < |ps| => Intended(ps[i]))
  }

  // ---- the server's splitting of `options` ----

  /** Blanks separate words unless a backslash precedes them; a backslash keeps the next character. */
  function SplitFrom(s: string, word: string, inWord: bool, escaped: bool): seq<string>
    decreases |s|
  {
    if s == "" then (if inWord then [word] else [])
    else if !escaped && IsBlank(s[0]) then
      (if inWord then [word] else []) + SplitFrom(s[1..], "", false, false)
    else if !escaped && s[0] == '\\' then SplitFrom(s[1..], word, true, true)
    else SplitFrom(s[1..], word + [s[0]], true, false)
  }

  function SplitOptions(s: string): seq<string> { SplitFrom(s, "", false, false) }

  /** A backslash before every space. */
  function Quote(s: string): string {
    if s == "" then "" else (if s[0] == ' ' then "\\ " else [s[0]]) + Quote(s[1..])
  }

  function QuoteAll(words: seq<string>): seq<string> {
    seq(|words|, i requires 0 <= i < |words| => Quote(words[i]))
  }

  // ---- form-decoding the options text gives the quoted words ----

  lemma {:induction false} QuoteConcat(a: string, b: string)
    ensures Quote(a + b) == Quote(a) + Quote(b)
  {
    if a == "" {
      assert a + b == b;
    } else {
      assert (a + b)[1..] == a[1..] + b;
      QuoteConcat(a[1..], b);
    }
  }

  lemma {:induction false} QuoteSpaceless(s: string)
    requires ' ' !in s
    ensures Quote(s) == s
  {
    if s != "" { QuoteSpaceless(s[1..]); }
  }

  /** Decodes, and to this text. */
  ghost predicate DecodesTo(s: string, t: string) { Unescape(s, true) == Some(t) }

  lemma DecodeConcat(a: string, x: string, b: string, y: string)
    requires DecodesTo(a, x) && DecodesTo(b, y)
    ensures DecodesTo(a + b, x + y)
  {
    UnescapeConcat(a, b, true);
  }

  lemma {:induction false} DecodeVerbatim(s: string)
    requires '%' !in s && '+' !in s
    ensures DecodesTo(s, s)
  {
    if s != "" {
      DecodeVerbatim(s[1..]);
      assert s == [s[0]] + s[1..];
    }
  }

  lemma DecodeHex(a: char, b: char, d: char)
    requires HexValue(a).Some? && HexValue(b).Some? && d as int == 16 * HexValue(a).value + HexValue(b).value
    ensures DecodesTo(['%', a, b], [d])
  {
    assert ['%', a, b][3..] == "" && [d] + "" == [d];
  }

  lemma Literals()
    ensures DecodesTo("-c", "-c") && DecodesTo("%3D", "=") && DecodesTo("%20", " ") && DecodesTo("\\%20", "\\ ")
  {
    DecodeVerbatim("-c");
    DecodeVerbatim("\\");
    DecodeHex('3', 'D', '=');
    DecodeHex('2', '0', ' ');
    DecodeConcat("\\", "\\", "%20", " ");
    assert "\\" + "%20" == "\\%20" && "\\" + " " == "\\ ";
  }

  lemma {:induction false} DecodeFields(fields: seq<string>)
    requires forall i :: 0 <= i < |fields| ==> IsBytes(fields[i]) && ' ' !in fields[i]
    ensures DecodesTo(Join(EscapeAll(fields), "\\%20"), Quote(Join(fields, " ")))
  {
    if |fields| == 0 {
    } else if |fields| == 1 {
      UnescapeEscape(fields[0], true);
      QuoteSpaceless(fields[0]);
    } else {
      var rest := fields[1..];
      assert EscapeAll(fields)[1..] == EscapeAll(rest);
      DecodeFields(rest);
      UnescapeEscape(fields[0], true);
      QuoteSpaceless(fields[0]);
      Literals();
      DecodeConcat(QueryEscape(fields[0]), fields[0], "\\%20", "\\ ");
      DecodeConcat(QueryEscape(fields[0]) + "\\%20", fields[0] + "\\ ",
                   Join(EscapeAll(rest), "\\%20"), Quote(Join(rest, " ")));
      QuoteConcat(fields[0] + " ", Join(rest, " "));
      QuoteConcat(fields[0], " ");
      assert Quote(" ") == "\\ " by { assert " "[1..] == "" && "\\ " + "" == "\\ "; }
    }
  }

  lemma {:induction false} FieldsAreBytes(s: string)
    requires IsBytes(s)
    ensures forall i :: 0 <= i < |Fields(s)| ==> IsBytes(Fields(s)[i])
  {
    if s != "" {
      if IsBlank(s[0]) {
        FieldsAreBytes(s[1..]);
      } else {
        var w := FirstWord(s);
        FieldsAreBytes(s[|w|..]);
        assert forall j :: 0 <= j < |w| ==> w[j] == s[j];
      }
    }
  }

  lemma DecodeFormatOption(s: string)
    requires IsBytes(s)
    ensures DecodesTo(FormatOption(s), Quote(Normal(s)))
  {
    FieldsAreBytes(s);
    var fields := Fields(s);
    forall i | 0 <= i < |fields| ensures ' ' !in fields[i] {
      forall j | 0 <= j < |fields[i]| ensures fields[i][j] != ' ' { assert !IsBlank(fields[i][j]); }
    }
    DecodeFields(fields);
  }

  ghost predicate PairBytes(p: Pair) { IsBytes(p.0) && IsBytes(p.1) }

  lemma DecodeOptionWord(p: Pair)
    requires PairBytes(p)
    ensures DecodesTo(OptionWord(p), Quote(Intended(p)))
  {
    var k, v := Normal(p.0), Normal(p.1);
    DecodeFormatOption(p.0);
    DecodeFormatOption(p.1);
    Literals();
    DecodeConcat("-c", "-c", FormatOption(p.0), Quote(k));
    DecodeConcat("-c" + FormatOption(p.0), "-c" + Quote(k), "%3D", "=");
    DecodeConcat("-c" + FormatOption(p.0) + "%3D", "-c" + Quote(k) + "=", FormatOption(p.1), Quote(v));
    QuoteConcat("-c" + k + "=", v);
    QuoteConcat("-c" + k, "=");
    QuoteConcat("-c", k);
    QuoteSpaceless("-c");
    QuoteSpaceless("=");
  }

  lemma {:induction false} DecodeOptionsText(ps: seq<Pair>)
    requires forall i :: 0 <= i < |ps| ==> PairBytes(ps[i])
    ensures DecodesTo(OptionsText(ps), Join(QuoteAll(AllIntended(ps)), " "))
  {
    if |ps| == 0 {
    } else if |ps| == 1 {
      DecodeOptionWord(ps[0]);
    } else {
      var rest := ps[1..];
      assert OptionWords(ps)[1..] == OptionWords(rest);
      assert QuoteAll(AllIntended(ps))[1..] == QuoteAll(AllIntended(rest));
      DecodeOptionWord(ps[0]);
      DecodeOptionsText(rest);
      Literals();
      var w, q := OptionWord(ps[0]), Quote(Intended(ps[0]));
      DecodeConcat(w, q, "%20", " ");
      DecodeConcat(w + "%20", q + " ", OptionsText(rest), Join(QuoteAll(AllIntended(rest)), " "));
    }
  }

  // ---- splitting the quoted words recovers them ----

  /** No backslash, and no white space other than spaces. */
  ghost predicate Plain(s: string) { forall i :: 0 <= i < |s| ==> s[i] != '\\' && (IsBlank(s[i]) ==> s[i] == ' ') }

  lemma {:induction false} SplitOneChar(c: char, s: string, word: string)
    requires Plain([c])
    ensures SplitFrom(Quote([c]) + s, word, true, false) == SplitFrom(s, word + [c], true, false)
  {
  }

  lemma {:induction false} SplitQuoted(t: string, rest: string, word: string)
    requires Plain(t)
    ensures SplitFrom(Quote(t) + rest, word, true, false) == SplitFrom(rest, word + t, true, false)
    decreases |t|
  {
    if t == "" {
      assert Quote(t) + rest == rest && word + t == word;
    } else {
      var tail := Quote(t[1..]) + rest;
      SplitOneChar(t[0], tail, word);
      SplitQuoted(t[1..], rest, word + [t[0]]);
      assert word + [t[0]] + t[1..] == word + t;
      QuoteConcat([t[0]], t[1..]);
      assert [t[0]] + t[1..] == t;
      assert Quote(t) + rest == Quote([t[0]]) + tail;
    }
  }

  ghost predicate OptionLike(s: string) { s != "" && s[0] == '-' && Plain(s) }

  lemma EnterWord(c: char, s: string)
    requires c != '\\' && !IsBlank(c)
    ensures SplitOptions([c] + s) == SplitFrom(s, [c], true, false)
  {
    assert ([c] + s)[1..] == s && "" + [c] == [c];
  }

  lemma {:induction false} SplitFirst(t: string, rest: string)
    requires OptionLike(t)
    ensures SplitOptions(Quote(t) + rest) == SplitFrom(rest, t, true, false)
  {
    var tail := t[1..];
    assert Quote(t) + rest == ['-'] + (Quote(tail) + rest);
    EnterWord('-', Quote(tail) + rest);
    SplitQuoted(tail, rest, ['-']);
    assert ['-'] + tail == t;
  }

  lemma {:induction false} SplitAll(words: seq<string>)
    requires forall i :: 0 <= i < |words| ==> OptionLike(words[i])
    ensures SplitOptions(Join(QuoteAll(words), " ")) == words
  {
    if |words| == 0 {
    } else if |words| == 1 {
      SplitFirst(words[0], "");
      assert Quote(words[0]) + "" == Quote(words[0]);
    } else {
      var rest := Join(QuoteAll(words[1..]), " ");
      assert QuoteAll(words)[1..] == QuoteAll(words[1..]);
      SplitAll(words[1..]);
      SplitFirst(words[0], " " + rest);
      assert Quote(words[0]) + " " + rest == Quote(words[0]) + (" " + rest);
      assert (" " + rest)[1..] == rest;
    }
  }

  // ---- backslashes ----

  function Occurrences(s: string, c: char): nat {
    if s == "" then 0 else (if s[0] == c then 1 else 0) + Occurrences(s[1..], c)
  }

  function TotalOccurrences(words: seq<string>, c: char): nat {
    if words == [] then 0 else Occurrences(words[0], c) + TotalOccurrences(words[1..], c)
  }

  lemma {:induction false} OccurrencesConcat(a: string, b: string, c: char)
    ensures Occurrences(a + b, c) == Occurrences(a, c) + Occurrences(b, c)
  {
    if a == "" {
      assert a + b == b;
    } else {
      assert (a + b)[1..] == a[1..] + b;
      OccurrencesConcat(a[1..], b, c);
    }
  }

  /** Every backslash or space the server keeps inside a word cost an escaping backslash. */
  lemma {:induction false} SplitCost(s: string, word: string, inWord: bool, escaped: bool)
    requires word != "" || escaped ==> inWord
    ensures var out := SplitFrom(s, word, inWord, escaped);
      2 * TotalOccurrences(out, '\\') + TotalOccurrences(out, ' ')
        <= Occurrences(s, '\\') + 2 * Occurrences(word, '\\') + Occurrences(word, ' ') + (if escaped then 1 else 0)
    decreases |s|
  {
    if s == "" {
      if inWord { assert [word][1..] == []; }
    } else if !escaped && IsBlank(s[0]) {
      SplitCost(s[1..], "", false, false);
      var out := SplitFrom(s[1..], "", false, false);
      if inWord {
        assert ([word] + out)[0] == word && ([word] + out)[1..] == out;
        assert TotalOccurrences([word] + out, '\\') == Occurrences(word, '\\') + TotalOccurrences(out, '\\');
        assert TotalOccurrences([word] + out, ' ') == Occurrences(word, ' ') + TotalOccurrences(out, ' ');
      } else {
        assert [] + out == out;
      }
    } else if !escaped && s[0] == '\\' {
      SplitCost(s[1..], word, true, true);
    } else {
      SplitCost(s[1..], word + [s[0]], true, false);
      OccurrencesConcat(word, [s[0]], '\\');
      OccurrencesConcat(word, [s[0]], ' ');
      assert [s[0]][1..] == "";
    }
  }

  lemma {:induction false} QuoteCost(s: string)
    ensures Occurrences(Quote(s), '\\') == Occurrences(s, '\\') + Occurrences(s, ' ')
  {
    if s != "" {
      QuoteCost(s[1..]);
      var head := if s[0] == ' ' then "\\ " else [s[0]];
      OccurrencesConcat(head, Quote(s[1..]), '\\');
      if s[0] == ' ' { assert "\\ "[1..] == " " && " "[1..] == ""; } else { assert [s[0]][1..] == ""; }
    }
  }

  lemma {:induction false} QuoteAllCost(words: seq<string>)
    ensures Occurrences(Join(QuoteAll(words), " "), '\\') == TotalOccurrences(words, '\\') + TotalOccurrences(words, ' ')
  {
    if |words| == 0 {
    } else {
      QuoteCost(words[0]);
      QuoteAllCost(words[1..]);
      assert QuoteAll(words)[1..] == QuoteAll(words[1..]);
      if |words| == 1 {
        assert words[1..] == [];
      } else {
        var rest := Join(QuoteAll(words[1..]), " ");
        OccurrencesConcat(Quote(words[0]) + " ", rest, '\\');
        OccurrencesConcat(Quote(words[0]), " ", '\\');
        assert " "[1..] == "";
      }
    }
  }

  lemma {:induction false} NoOccurrences(s: string, c: char)
    ensures Occurrences(s, c) == 0 <==> c !in s
  {
    if s != "" {
      NoOccurrences(s[1..], c);
      assert s == [s[0]] + s[1..];
    }
  }

  lemma {:induction false} NoTotalOccurrences(words: seq<string>, c: char)
    ensures TotalOccurrences(words, c) == 0 <==> forall i :: 0 <= i < |words| ==> c !in words[i]
  {
    if words != [] {
      NoOccurrences(words[0], c);
      NoTotalOccurrences(words[1..], c);
    }
  }

  lemma {:induction false} SplitQuotedNeedsNoBackslash(words: seq<string>)
    requires SplitOptions(Join(QuoteAll(words), " ")) == words
    ensures forall i :: 0 <= i < |words| ==> '\\' !in words[i]
  {
    SplitCost(Join(QuoteAll(words), " "), "", false, false);
    QuoteAllCost(words);
    NoTotalOccurrences(words, '\\');
  }

  // ---- the options text as a whole ----

  lemma {:induction false} FieldsKeep(s: string, c: char)
    requires !IsBlank(c)
    ensures c in s <==> exists i :: 0 <= i < |Fields(s)| && c in Fields(s)[i]
  {
    if s != "" {
      if IsBlank(s[0]) {
        FieldsKeep(s[1..], c);
        assert s == [s[0]] + s[1..] && c != s[0] && Fields(s) == Fields(s[1..]);
      } else {
        var w := FirstWord(s);
        var rest := Fields(s[|w|..]);
        FieldsKeep(s[|w|..], c);
        assert s == w + s[|w|..];
        assert Fields(s) == [w] + rest;
        if c in w { assert c in Fields(s)[0]; }
        if i :| 0 <= i < |rest| && c in rest[i] { assert c in Fields(s)[i + 1]; }
        if i :| 0 <= i < |Fields(s)| && c in Fields(s)[i] { if i > 0 { assert c in rest[i - 1]; } }
      }
    }
  }

  lemma {:induction false} InJoin(parts: seq<string>, c: char)
    requires c != ' '
    ensures c in Join(parts, " ") <==> exists i :: 0 <= i < |parts| && c in parts[i]
  {
    if |parts| == 1 {
      if c in Join(parts, " ") { assert c in parts[0]; }
    } else if |parts| > 1 {
      InJoin(parts[1..], c);
      assert Join(parts, " ") == parts[0] + [' '] + Join(parts[1..], " ");
      if c in parts[0] { assert c in parts[0]; }
      if i :| 0 <= i < |parts[1..]| && c in parts[1..][i] { assert c in parts[i + 1]; }
      if i :| 0 <= i < |parts| && c in parts[i] { if i > 0 { assert c in parts[1..][i - 1]; } }
    }
  }

  /** Normalising keeps the non-blank characters and leaves only spaces between them. */
  lemma NormalKeeps(s: string, c: char)
    requires c != ' '
    ensures IsBlank(c) ==> c !in Normal(s)
    ensures !IsBlank(c) ==> (c in Normal(s) <==> c in s)
  {
    var fields := Fields(s);
    InJoin(fields, c);
    if IsBlank(c) {
      forall i | 0 <= i < |fields| ensures c !in fields[i] {
        forall j | 0 <= j < |fields[i]| ensures fields[i][j] != c { assert !IsBlank(fields[i][j]); }
      }
    } else {
      FieldsKeep(s, c);
      if c in s {
        var i :| 0 <= i < |fields| && c in fields[i];
      }
      if i :| 0 <= i < |fields| && c in fields[i] {
        assert c in s;
      }
    }
  }

  lemma IntendedPlainIff(p: Pair)
    ensures OptionLike(Intended(p)) <==> '\\' !in p.0 && '\\' !in p.1
    ensures '\\' in Intended(p) <==> '\\' in p.0 || '\\' in p.1
  {
    NormalKeeps(p.0, '\\');
    NormalKeeps(p.1, '\\');
    var t := Intended(p);
    if '\\' !in p.0 && '\\' !in p.1 {
      forall i | 0 <= i < |t| ensures t[i] != '\\' && (IsBlank(t[i]) ==> t[i] == ' ') {
        var c, k, v := t[i], Normal(p.0), Normal(p.1);
        assert c in "-c" || c in k || c in "=" || c in v by {
          if i < 2 { assert c == "-c"[i]; }
          else if i < 2 + |k| { assert c == k[i - 2]; }
          else if i == 2 + |k| { assert c == "="[0]; }
          else { assert c == v[i - 3 - |k|]; }
        }
        if c != ' ' {
          NormalKeeps(p.0, c);
          NormalKeeps(p.1, c);
        }
      }
      assert t[0] == '-';
    } else {
      assert '\\' in t;
      var i :| 0 <= i < |t| && t[i] == '\\';
    }
  }

  /**
   Form-decoding the options text and splitting it as the server does recovers
   exactly the intended words when, and only when, no key or value holds a backslash.
   */
  lemma {:induction false} OptionsRoundTripIff(ps: seq<Pair>)
    requires forall i :: 0 <= i < |ps| ==> PairBytes(ps[i])
    ensures Unescape(OptionsText(ps), true).Some?
    ensures SplitOptions(Unescape(OptionsText(ps), true).value) == AllIntended(ps) <==>
            forall i :: 0 <= i < |ps| ==> '\\' !in ps[i].0 && '\\' !in ps[i].1
  {
    DecodeOptionsText(ps);
    var words := AllIntended(ps);
    forall i | 0 <= i < |ps| ensures
      (OptionLike(words[i]) <==> '\\' !in ps[i].0 && '\\' !in ps[i].1)
      && ('\\' in words[i] <==> '\\' in ps[i].0 || '\\' in ps[i].1)
    {
      IntendedPlainIff(ps[i]);
    }
    if forall i :: 0 <= i < |ps| ==> '\\' !in ps[i].0 && '\\' !in ps[i].1 {
      SplitAll(words);
    }
    if SplitOptions(Join(QuoteAll(words), " ")) == words {
      SplitQuotedNeedsNoBackslash(words);
      forall i | 0 <= i < |ps| ensures '\\' !in ps[i].0 && '\\' !in ps[i].1 {
        assert '\\' !in words[i];
      }
    }
  }
}
