/**
 The program's own connection URI: what a reader finds in the text, key by key, in
 terms of the options alone.
 */
module DsnProgram {
  import opened Text
  import opened Options
  import opened Escaping
  import opened Dsn
  import opened Hosts
  import opened DsnUri

  const SCHEME := "postgresql://"

  const NAMES := Names(
    "application_name", "pool_max_conns", "pool_min_conns", "pool_max_conn_lifetime",
    "pool_max_conn_idle_time", "pool_health_check_period",
    "default_transaction_isolation", "timezone", "statement_timeout", "lock_timeout",
    "idle_in_transaction_session_timeout",
    "UTC", "read committed", "serializable", "repeatable read")

  // ---- the names are plain words ----

  predicate IsLetter(c: char) { 'a' <= c <= 'z' || 'A' <= c <= 'Z' || c == '_' }

  ghost predicate IsWord(s: string) { s != "" && forall i :: 0 <= i < |s| ==> IsLetter(s[i]) }

  lemma {:induction false} FirstWordOf(a: string, rest: string)
    requires (forall i :: 0 <= i < |a| ==> IsLetter(a[i])) && (rest != "" ==> rest[0] == ' ')
    ensures FirstWord(a + rest) == a
  {
    if a == "" {
      assert a + rest == rest;
    } else {
      assert (a + rest)[1..] == a[1..] + rest;
      FirstWordOf(a[1..], rest);
    }
  }

  lemma {:induction false} NormalWord(s: string)
    requires IsWord(s)
    ensures Fields(s) == [s] && Normal(s) == s
  {
    assert s + "" == s;
    FirstWordOf(s, "");
    assert s[|s|..] == "";
  }

  /** Two words and the space between them. */
  ghost predicate IsPhrase(s: string, a: string, b: string) { IsWord(a) && IsWord(b) && s == a + " " + b }

  lemma {:induction false} NormalPhrase(s: string, a: string, b: string)
    requires IsPhrase(s, a, b)
    ensures Good(s) && Normal(s) == s
  {
    var rest := " " + b;
    assert s == a + rest && s[|a|..] == rest && rest[1..] == b;
    FirstWordOf(a, rest);
    NormalWord(b);
    assert Fields(rest) == Fields(b);
    assert Fields(s) == [a] + [b] && [a] + [b] == [a, b] && [a, b][1..] == [b];
  }

  lemma PoolSizeNames()
    ensures IsWord("pool_max_conns") && IsWord("pool_min_conns")
  {
  }

  lemma PoolLifetimeName()
    ensures IsWord("pool_max_conn_lifetime")
  {
  }

  lemma PoolIdleName()
    ensures IsWord("pool_max_conn_idle_time")
  {
  }

  lemma OtherNames()
    ensures IsWord("application_name") && IsWord("pool_health_check_period")
  {
  }

  lemma IsolationName()
    ensures IsWord("default_transaction_isolation")
  {
  }

  lemma ShortTimeoutNames()
    ensures IsWord("timezone") && IsWord("statement_timeout") && IsWord("lock_timeout")
  {
  }

  lemma LongTimeoutName()
    ensures IsWord("idle_in_transaction_session_timeout")
  {
  }

  lemma ValueWords()
    ensures IsWord("UTC") && IsWord("serializable")
    ensures IsWord("read") && IsWord("committed") && IsWord("repeatable")
  {
  }

  lemma ValuePhrases()
    ensures IsPhrase("read committed", "read", "committed") && IsPhrase("repeatable read", "repeatable", "read")
  {
    ValueWords();
  }

  /** Every option name and single-word value is a word, and the other two values are phrases. */
  ghost predicate WordsOk(n: Names) {
    && IsWord(n.isolation) && IsWord(n.timezone) && IsWord(n.statementTimeout) && IsWord(n.lockTimeout)
    && IsWord(n.idleTimeout) && IsWord(n.utc) && IsWord(n.serializable)
    && (exists a, b :: IsPhrase(n.readCommitted, a, b)) && (exists a, b :: IsPhrase(n.repeatableRead, a, b))
  }

  lemma ParamNamesGood(n: Names)
    requires IsWord(n.applicationName) && IsWord(n.poolMaxConns) && IsWord(n.poolMinConns) && IsWord(n.poolMaxConnLifetime)
    requires IsWord(n.poolMaxConnIdleTime) && IsWord(n.poolHealthCheckPeriod) && WordsOk(n)
    ensures n.Ok()
  {
    var a, b :| IsPhrase(n.readCommitted, a, b);
    NormalPhrase(n.readCommitted, a, b);
    var c, d :| IsPhrase(n.repeatableRead, c, d);
    NormalPhrase(n.repeatableRead, c, d);
  }

  lemma NamesOk()
    ensures NAMES.Ok() && WordsOk(NAMES)
  {
    PoolSizeNames();
    PoolLifetimeName();
    PoolIdleName();
    OtherNames();
    IsolationName();
    ShortTimeoutNames();
    LongTimeoutName();
    ValueWords();
    ValuePhrases();
    ParamNamesGood(NAMES);
  }

  /** The names, values and scheme the program writes are within the scope of the round trip. */
  lemma ProgramDsnRoundTripIff(o: Opts)
    requires o.Bytes()
    ensures RoundTrips(NAMES, SCHEME, o) <==> Addressable(o)
  {
    NamesOk();
    DsnRoundTripIff(NAMES, SCHEME, o);
  }

  // ---- what a reader should find ----

  function Abs(n: int): nat { if n < 0 then -n else n }

  /** The number of seconds nearest to a duration in nanoseconds, the even one halfway, with a sign and a unit. */
  ghost predicate IsSeconds(text: string, ns: int) {
    exists k: nat :: text == (if ns < 0 then "-" else "") + Digits(k) + "s" && Nearest(k, Abs(ns))
  }

  predicate Nearest(k: nat, ns: nat) {
    var twice := 2 * (k * 1_000_000_000 - ns);
    -1_000_000_000 <= twice <= 1_000_000_000
    && (twice == 1_000_000_000 || twice == -1_000_000_000 ==> k % 2 == 0)
  }

  /** Whole milliseconds of a duration in nanoseconds, truncated toward zero. */
  predicate WholeMillis(m: int, ns: int) {
    if ns >= 0 then 0 <= ns - m * 1_000_000 < 1_000_000 else 0 <= m * 1_000_000 - ns < 1_000_000
  }

  /** The server gets "-c", the key, an equals sign and the milliseconds. */
  ghost predicate IsTimeout(word: string, key: string, ns: int) {
    exists m: int :: word == "-c" + key + "=" + Itoa(m) && WholeMillis(m, ns)
  }

  ghost predicate PoolOk(ps: seq<Pair>, o: Opts) {
    && |ps| == 5
    && ps[0] == ("pool_max_conns", Itoa(o.poolMaxConns))
    && ps[1] == ("pool_min_conns", Itoa(o.poolMinConns))
    && ps[2].0 == "pool_max_conn_lifetime" && IsSeconds(ps[2].1, o.poolMaxConnLifetime)
    && ps[3].0 == "pool_max_conn_idle_time" && IsSeconds(ps[3].1, o.poolMaxConnIdleTime)
    && ps[4].0 == "pool_health_check_period" && IsSeconds(ps[4].1, o.poolHealthCheckPeriod)
  }

  ghost predicate OptionsOk(words: seq<string>, o: Opts) {
    && |words| == 5
    && words[0] == "-c" + "default_transaction_isolation" + "=" +
         (if o.isolationLevel == "READ_COMMITTED" then "read committed"
          else if o.isolationLevel == "SERIALIZABLE" then "serializable"
          else "repeatable read")
    && words[1] == "-c" + "timezone" + "=" + "UTC"
    && IsTimeout(words[2], "statement_timeout", o.statementTimeout)
    && IsTimeout(words[3], "lock_timeout", o.lockTimeout)
    && IsTimeout(words[4], "idle_in_transaction_session_timeout", o.idleInTransactionTimeout)
  }

  /** The parameters: the application name if there is one, the pool's if wanted, and the options. */
  ghost predicate ParamsOk(ps: seq<Pair>, o: Opts, pool: bool) {
    var a, b := if o.applicationName == "" then 0 else 1, if pool then 5 else 0;
    && |ps| == a + b + 1
    && (a == 1 ==> ps[0] == ("application_name", o.applicationName))
    && (pool ==> PoolOk(ps[a..a + b], o))
    && ps[a + b].0 == "options" && OptionsOk(SplitOptions(ps[a + b].1), o)
  }

  ghost predicate QueryOk(query: string, o: Opts, pool: bool) {
    ParseQuery(query).Some? && ParamsOk(ParseQuery(query).value, o, pool)
  }

  /** Form-decoding the credentials restores them. */
  ghost predicate CredentialsOk(u: Uri, o: Opts) {
    && Unescape(u.user, true) == Some(o.user)
    && Unescape(u.path, true) == Some(o.database)
    && match u.password
       case None => o.password == ""
       case Some(p) => o.password != "" && Unescape(p, true) == Some(o.password)
  }

  ghost predicate Delivers(dsn: string, o: Opts) {
    match ParseUri("postgresql://", dsn)
    case None => false
    case Some(u) => u.host == o.host && u.port == Itoa(o.port) && CredentialsOk(u, o) && QueryOk(u.query, o, true)
  }

  // ---- and does ----

  lemma SecsIsSeconds(ns: int)
    ensures IsSeconds(Secs(ns), ns)
  {
    RoundSecsNearest(Abs(ns));
    assert Nearest(RoundSecs(Abs(ns)), Abs(ns));
    assert "" + Digits(RoundSecs(Abs(ns))) == Digits(RoundSecs(Abs(ns)));
  }

  lemma MillisIsWhole(ns: int)
    ensures WholeMillis(Millis(ns), ns)
  {
    TimeoutOffIff(ns);
  }

  lemma IntendedWord(k: string, v: string)
    requires IsWord(k) && Normal(v) == v
    ensures Intended((k, v)) == "-c" + k + "=" + v
  {
    NormalWord(k);
  }

  lemma {:induction false} NormalNumber(s: string)
    requires s != "" && forall i :: 0 <= i < |s| ==> IsDigit(s[i]) || s[i] == '-'
    ensures Normal(s) == s
  {
    assert s + "" == s;
    FirstWordIsAll(s);
    assert s[|s|..] == "" && Fields("") == [];
    assert Fields(s) == [s] + Fields(s[|s|..]) && [s] + [] == [s];
  }

  lemma {:induction false} FirstWordIsAll(s: string)
    requires forall i :: 0 <= i < |s| ==> !IsBlank(s[i])
    ensures FirstWord(s) == s
  {
    if s != "" { FirstWordIsAll(s[1..]); }
  }

  lemma TimeoutOk(key: string, ns: int, word: string)
    requires IsWord(key) && word == Intended((key, Itoa(Millis(ns))))
    ensures IsTimeout(word, key, ns)
  {
    ItoaChars(Millis(ns));
    NormalNumber(Itoa(Millis(ns)));
    IntendedWord(key, Itoa(Millis(ns)));
    MillisIsWhole(ns);
  }

  lemma IsolationOk(n: Names, name: string, word: string)
    requires WordsOk(n) && word == Intended((n.isolation, IsolationLevel(n, name)))
    ensures word == "-c" + n.isolation + "=" +
      (if name == "READ_COMMITTED" then n.readCommitted else if name == "SERIALIZABLE" then n.serializable
       else n.repeatableRead)
  {
    var a, b :| IsPhrase(n.readCommitted, a, b);
    NormalPhrase(n.readCommitted, a, b);
    var c, d :| IsPhrase(n.repeatableRead, c, d);
    NormalPhrase(n.repeatableRead, c, d);
    NormalWord(n.serializable);
    IntendedWord(n.isolation, IsolationLevel(n, name));
  }

  lemma WordsOf(n: Names, o: Opts, words: seq<string>)
    requires words == AllIntended(ServerOptions(n, o))
    ensures |words| == 5
    ensures words[0] == Intended((n.isolation, IsolationLevel(n, o.isolationLevel)))
    ensures words[1] == Intended((n.timezone, n.utc))
    ensures words[2] == Intended((n.statementTimeout, Itoa(Millis(o.statementTimeout))))
    ensures words[3] == Intended((n.lockTimeout, Itoa(Millis(o.lockTimeout))))
    ensures words[4] == Intended((n.idleTimeout, Itoa(Millis(o.idleInTransactionTimeout))))
  {
  }

  lemma TimezoneOk(n: Names, word: string)
    requires WordsOk(n) && word == Intended((n.timezone, n.utc))
    ensures word == "-c" + n.timezone + "=" + n.utc
  {
    NormalWord(n.utc);
    IntendedWord(n.timezone, n.utc);
  }

  /** The option words, under whatever names. */
  ghost predicate OptionsAre(n: Names, words: seq<string>, o: Opts) {
    && |words| == 5
    && words[0] == "-c" + n.isolation + "=" +
         (if o.isolationLevel == "READ_COMMITTED" then n.readCommitted
          else if o.isolationLevel == "SERIALIZABLE" then n.serializable
          else n.repeatableRead)
    && words[1] == "-c" + n.timezone + "=" + n.utc
    && IsTimeout(words[2], n.statementTimeout, o.statementTimeout)
    && IsTimeout(words[3], n.lockTimeout, o.lockTimeout)
    && IsTimeout(words[4], n.idleTimeout, o.idleInTransactionTimeout)
  }

  lemma ServerOptionsAre(n: Names, o: Opts, words: seq<string>)
    requires WordsOk(n) && words == AllIntended(ServerOptions(n, o))
    ensures OptionsAre(n, words, o)
  {
    WordsOf(n, o, words);
    IsolationOk(n, o.isolationLevel, words[0]);
    TimezoneOk(n, words[1]);
    TimeoutOk(n.statementTimeout, o.statementTimeout, words[2]);
    TimeoutOk(n.lockTimeout, o.lockTimeout, words[3]);
    TimeoutOk(n.idleTimeout, o.idleInTransactionTimeout, words[4]);
  }

  lemma OptionsAreOk(words: seq<string>, o: Opts)
    requires OptionsAre(NAMES, words, o)
    ensures OptionsOk(words, o)
  {
  }

  lemma PoolParamsOk(o: Opts)
    ensures PoolOk(PoolParams(NAMES, o), o)
  {
    SecsIsSeconds(o.poolMaxConnLifetime);
    SecsIsSeconds(o.poolMaxConnIdleTime);
    SecsIsSeconds(o.poolHealthCheckPeriod);
  }

  /** The parts of a parameter list by position. */
  lemma Positions(ps: seq<Pair>, first: seq<Pair>, pool: seq<Pair>, last: Pair)
    requires ps == first + pool + [last]
    ensures |ps| == |first| + |pool| + 1 && ps[..|first|] == first
    ensures ps[|first|..|first| + |pool|] == pool && ps[|first| + |pool|] == last
  {
  }

  /** A parameter list by its parts, under whatever names. */
  ghost predicate ParamsAre(n: Names, ps: seq<Pair>, first: seq<Pair>, pool: seq<Pair>, o: Opts) {
    && |ps| == |first| + |pool| + 1 && ps[..|first|] == first && ps[|first|..|first| + |pool|] == pool
    && ps[|first| + |pool|].0 == "options" && OptionsAre(n, SplitOptions(ps[|first| + |pool|].1), o)
  }

  function FirstParam(n: Names, o: Opts): seq<Pair> {
    if o.applicationName == "" then [] else [(n.applicationName, o.applicationName)]
  }

  lemma PlainParamsParts(n: Names, o: Opts, postgresCompatible: bool)
    ensures PlainParams(n, o, postgresCompatible) == FirstParam(n, o) + if postgresCompatible then [] else PoolParams(n, o)
  {
  }

  lemma ParamsAreFrom(n: Names, ps: seq<Pair>, plain: seq<Pair>, first: seq<Pair>, pool: seq<Pair>, o: Opts)
    requires ps != [] && ps[..|ps| - 1] == plain == first + pool
    requires ps[|ps| - 1].0 == "options" && OptionsAre(n, SplitOptions(ps[|ps| - 1].1), o)
    ensures ParamsAre(n, ps, first, pool, o)
  {
    assert ps == ps[..|ps| - 1] + [ps[|ps| - 1]];
    Positions(ps, first, pool, ps[|ps| - 1]);
  }

  lemma OptionsRead(n: Names, o: Opts, text: string)
    requires WordsOk(n) && SplitOptions(text) == AllIntended(ServerOptions(n, o))
    ensures OptionsAre(n, SplitOptions(text), o)
  {
    ServerOptionsAre(n, o, SplitOptions(text));
  }

  lemma ParamsReadAre(n: Names, o: Opts, postgresCompatible: bool, ps: seq<Pair>)
    requires WordsOk(n) && ParamsRead(n, o, postgresCompatible, ps)
    ensures ParamsAre(n, ps, FirstParam(n, o), if postgresCompatible then [] else PoolParams(n, o), o)
  {
    var plain := PlainParams(n, o, postgresCompatible);
    OptionsRead(n, o, ps[|ps| - 1].1);
    PlainParamsParts(n, o, postgresCompatible);
    ParamsAreFrom(n, ps, plain, FirstParam(n, o), if postgresCompatible then [] else PoolParams(n, o), o);
  }

  lemma ParamsAreOk(ps: seq<Pair>, o: Opts, pool: bool)
    requires ParamsAre(NAMES, ps, FirstParam(NAMES, o), if pool then PoolParams(NAMES, o) else [], o)
    ensures ParamsOk(ps, o, pool)
  {
    var a := |FirstParam(NAMES, o)|;
    var b := if pool then 5 else 0;
    OptionsAreOk(SplitOptions(ps[a + b].1), o);
    if pool { PoolParamsOk(o); }
    if a == 1 { assert ps[0] == ps[..a][0]; }
  }

  /** A query text of the program reads as the options say, with and without the pool settings. */
  lemma ProgramQueryOk(o: Opts, postgresCompatible: bool)
    requires o.Bytes()
    ensures QueryOk(QueryText(PlainParams(NAMES, o, postgresCompatible), ServerOptions(NAMES, o)), o, !postgresCompatible)
  {
    var query := QueryText(PlainParams(NAMES, o, postgresCompatible), ServerOptions(NAMES, o));
    NamesOk();
    QueryReadsBack(NAMES, o, postgresCompatible);
    ParamsReadAre(NAMES, o, postgresCompatible, ParseQuery(query).value);
    ParamsAreOk(ParseQuery(query).value, o, !postgresCompatible);
  }

  lemma CredentialsRead(o: Opts)
    requires o.Bytes()
    ensures CredentialsOk(Parts(NAMES, o), o)
  {
    UnescapeEscape(o.user, true);
    UnescapeEscape(o.password, true);
    UnescapeEscape(o.database, true);
  }

  /** The program's text delivers every option, whenever host and port are addressable. */
  lemma PrintDelivers(o: Opts)
    requires o.Bytes() && Addressable(o)
    ensures Delivers(Print(SCHEME, Parts(NAMES, o)), o)
  {
    ProgramDsnRoundTripIff(o);
    ProgramQueryOk(o, false);
    CredentialsRead(o);
  }

  /** The connection URI of the program. */
  method DSN(o: Opts) returns (dsn: string)
    ensures dsn == Print(SCHEME, Parts(NAMES, o))
    ensures o.Bytes() && Addressable(o) ==> Delivers(dsn, o)
  {
    NamesOk();
    dsn := PrintDSN(NAMES, SCHEME, o);
    if o.Bytes() && Addressable(o) { PrintDelivers(o); }
  }
}
