/** The whole connection URI, and the parser that takes it apart again. */
module DsnUri {
  import opened Text
  import opened Options
  import opened Escaping
  import opened Dsn
  import opened Hosts

  // ---- parameters ----

  /** The parameter names and fixed values the program writes out. */
  datatype Names = Names(
    applicationName: string, poolMaxConns: string, poolMinConns: string, poolMaxConnLifetime: string,
    poolMaxConnIdleTime: string, poolHealthCheckPeriod: string,
    isolation: string, timezone: string, statementTimeout: string, lockTimeout: string, idleTimeout: string,
    utc: string, readCommitted: string, serializable: string, repeatableRead: string)
  {
    ghost predicate Ok() {
      && Good(applicationName) && Good(poolMaxConns) && Good(poolMinConns) && Good(poolMaxConnLifetime)
      && Good(poolMaxConnIdleTime) && Good(poolHealthCheckPeriod)
      && Good(isolation) && Good(timezone) && Good(statementTimeout) && Good(lockTimeout) && Good(idleTimeout)
      && Good(utc) && Good(readCommitted) && Good(serializable) && Good(repeatableRead)
    }
  }

  /** Non-empty bytes without a backslash. */
  ghost predicate Good(s: string) { s != "" && IsBytes(s) && '\\' !in s }

  function IsolationLevel(n: Names, name: string): string {
    if name == "READ_COMMITTED" then n.readCommitted
    else if name == "SERIALIZABLE" then n.serializable
    else n.repeatableRead
  }

  const SECOND := 1_000_000_000
  const MILLISECOND := 1_000_000

  /** Whole milliseconds, truncated toward zero. */
  function Millis(ns: int): int { if ns < 0 then -(-ns / MILLISECOND) else ns / MILLISECOND }

  /** The nearest number of seconds; halfway, the even one. */
  function RoundSecs(ns: nat): nat {
    var q, r := ns / SECOND, ns % SECOND;
    if 2 * r < SECOND || (2 * r == SECOND && q % 2 == 0) then q else q + 1
  }

  /** "%.0f" of the seconds, which keeps the sign of a negative duration that rounds to zero. */
  function Secs(ns: int): string {
    if ns < 0 then "-" + Digits(RoundSecs(-ns)) + "s" else Digits(RoundSecs(ns)) + "s"
  }

  /** Printed seconds are off by at most half a second, and by exactly half only toward the even number. */
  lemma RoundSecsNearest(ns: nat)
    ensures -SECOND <= 2 * (RoundSecs(ns) * SECOND - ns) <= SECOND
    ensures 2 * (RoundSecs(ns) * SECOND - ns) in {SECOND, -SECOND} ==> RoundSecs(ns) % 2 == 0
  {
  }

  /** A timeout is printed as zero, which the server reads as no timeout, exactly below a millisecond. */
  lemma TimeoutOffIff(ns: int)
    ensures Millis(ns) == 0 <==> -MILLISECOND < ns < MILLISECOND
    ensures ns >= 0 ==> 0 <= ns - Millis(ns) * MILLISECOND < MILLISECOND
    ensures ns <= 0 ==> 0 <= Millis(ns) * MILLISECOND - ns < MILLISECOND
  {
  }

  function PoolParams(n: Names, o: Opts): seq<Pair> {
    [(n.poolMaxConns, Itoa(o.poolMaxConns)), (n.poolMinConns, Itoa(o.poolMinConns)),
     (n.poolMaxConnLifetime, Secs(o.poolMaxConnLifetime)),
     (n.poolMaxConnIdleTime, Secs(o.poolMaxConnIdleTime)),
     (n.poolHealthCheckPeriod, Secs(o.poolHealthCheckPeriod))]
  }

  /** The parameters meant to be sent; an empty application name is not sent. */
  function PlainParams(n: Names, o: Opts, postgresCompatible: bool): seq<Pair> {
    (if o.applicationName == "" then [] else [(n.applicationName, o.applicationName)])
    + (if postgresCompatible then [] else PoolParams(n, o))
  }

  function ServerOptions(n: Names, o: Opts): seq<Pair> {
    [(n.isolation, IsolationLevel(n, o.isolationLevel)), (n.timezone, n.utc),
     (n.statementTimeout, Itoa(Millis(o.statementTimeout))), (n.lockTimeout, Itoa(Millis(o.lockTimeout))),
     (n.idleTimeout, Itoa(Millis(o.idleInTransactionTimeout)))]
  }

  function Param(p: Pair): string { QueryEscape(p.0) + "=" + QueryEscape(p.1) }

  function ParamTexts(ps: seq<Pair>): seq<string> {
    seq(|ps|, i requires 0 <= i < |ps| => Param(ps[i]))
  }

  function QueryText(ps: seq<Pair>, options: seq<Pair>): string {
    Join(ParamTexts(ps) + ["options=" + OptionsText(options)], "&")
  }

  // ---- building the string ----

  /** A parameter with an empty key or value is dropped. */
  function Kept(p: Pair): seq<Pair> { if p.0 != "" && p.1 != "" then [p] else [] }

  method AppendParam(texts: seq<string>, key: string, value: string) returns (r: seq<string>)
    ensures r == texts + ParamTexts(Kept((key, value)))
  {
    r := texts;
    if |key| > 0 && |value| > 0 { r := r + [QueryEscape(key) + "=" + QueryEscape(value)]; }
  }

  method AppendOptionsParam(texts: seq<string>, key: string, value: string) returns (r: seq<string>)
    ensures r == texts + OptionWords(Kept((key, value)))
  {
    r := texts;
    if |key| > 0 && |value| > 0 {
      var k := FormatOptionsParam(key);
      var v := FormatOptionsParam(value);
      r := r + ["-c" + k + "%3D" + v];
    }
  }

  ghost predicate FiveKept(ps: seq<Pair>) { |ps| == 5 && forall i :: 0 <= i < 5 ==> Kept(ps[i]) == [ps[i]] }

  lemma FiveParams(texts: seq<string>, ps: seq<Pair>)
    requires FiveKept(ps)
    ensures texts + ParamTexts(Kept(ps[0])) + ParamTexts(Kept(ps[1])) + ParamTexts(Kept(ps[2])) + ParamTexts(Kept(ps[3]))
            + ParamTexts(Kept(ps[4])) == texts + ParamTexts(ps)
  {
  }

  lemma FiveWords(ps: seq<Pair>)
    requires FiveKept(ps)
    ensures [] + OptionWords(Kept(ps[0])) + OptionWords(Kept(ps[1])) + OptionWords(Kept(ps[2])) + OptionWords(Kept(ps[3]))
            + OptionWords(Kept(ps[4])) == OptionWords(ps)
  {
  }

  lemma PoolParamsKept(n: Names, o: Opts)
    requires n.Ok()
    ensures FiveKept(PoolParams(n, o))
  {
    ItoaNonEmpty(o.poolMaxConns);
    ItoaNonEmpty(o.poolMinConns);
  }

  lemma ServerOptionsKept(n: Names, o: Opts)
    requires n.Ok()
    ensures FiveKept(ServerOptions(n, o))
  {
    ItoaNonEmpty(Millis(o.statementTimeout));
    ItoaNonEmpty(Millis(o.lockTimeout));
    ItoaNonEmpty(Millis(o.idleInTransactionTimeout));
  }

  method BuildParams(n: Names, o: Opts, postgresCompatible: bool) returns (texts: seq<string>)
    requires n.Ok()
    ensures texts == ParamTexts(PlainParams(n, o, postgresCompatible))
  {
    texts := AppendParam([], n.applicationName, o.applicationName);
    assert texts == ParamTexts(PlainParams(n, o, true));
    if !postgresCompatible { texts := AppendPoolParams(n, o, texts); }
  }

  method AppendPoolParams(n: Names, o: Opts, texts: seq<string>) returns (r: seq<string>)
    requires n.Ok()
    ensures r == texts + ParamTexts(PoolParams(n, o))
  {
    PoolParamsKept(n, o);
    FiveParams(texts, PoolParams(n, o));
    r := AppendParam(texts, n.poolMaxConns, Itoa(o.poolMaxConns));
    r := AppendParam(r, n.poolMinConns, Itoa(o.poolMinConns));
    r := AppendParam(r, n.poolMaxConnLifetime, Secs(o.poolMaxConnLifetime));
    r := AppendParam(r, n.poolMaxConnIdleTime, Secs(o.poolMaxConnIdleTime));
    r := AppendParam(r, n.poolHealthCheckPeriod, Secs(o.poolHealthCheckPeriod));
  }

  method BuildOptions(n: Names, o: Opts) returns (texts: seq<string>)
    requires n.Ok()
    ensures texts == OptionWords(ServerOptions(n, o))
  {
    ServerOptionsKept(n, o);
    FiveWords(ServerOptions(n, o));
    texts := AppendOptionsParam([], n.isolation, IsolationLevel(n, o.isolationLevel));
    texts := AppendOptionsParam(texts, n.timezone, n.utc);
    texts := AppendOptionsParam(texts, n.statementTimeout, Itoa(Millis(o.statementTimeout)));
    texts := AppendOptionsParam(texts, n.lockTimeout, Itoa(Millis(o.lockTimeout)));
    texts := AppendOptionsParam(texts, n.idleTimeout, Itoa(Millis(o.idleInTransactionTimeout)));
  }

  method AddParametersToDSN(n: Names, dsn: string, o: Opts, postgresCompatible: bool) returns (r: string)
    requires n.Ok()
    ensures r == dsn + "?" + QueryText(PlainParams(n, o, postgresCompatible), ServerOptions(n, o))
  {
    var ps := BuildParams(n, o, postgresCompatible);
    var ops := BuildOptions(n, o);
    if |ops| > 0 { ps := ps + ["options=" + Join(ops, "%20")]; }
    r := dsn;
    if |ps| > 0 {
      r := Join([dsn, Join(ps, "&")], "?");
      JoinTwo(dsn, Join(ps, "&"), "?");
    }
  }

  /** The parts of a URI as written, before any decoding. */
  datatype Uri = Uri(user: string, password: Option<string>, host: string, port: string, path: string, query: string)

  function UserInfo(u: Uri): string {
    match u.password case None => u.user case Some(p) => u.user + ":" + p
  }

  function Print(scheme: string, u: Uri): string {
    scheme + UserInfo(u) + "@" + u.host + ":" + u.port + "/" + u.path + "?" + u.query
  }

  function Parts(n: Names, o: Opts): Uri {
    Uri(QueryEscape(o.user), if o.password == "" then None else Some(QueryEscape(o.password)), o.host, Itoa(o.port),
        QueryEscape(o.database), QueryText(PlainParams(n, o, false), ServerOptions(n, o)))
  }

  method PrintDSN(n: Names, scheme: string, o: Opts) returns (dsn: string)
    requires n.Ok()
    ensures dsn == Print(scheme, Parts(n, o))
  {
    dsn := scheme + QueryEscape(o.user);
    if o.password != "" {
      dsn := dsn + ":" + QueryEscape(o.password);
      assert dsn == scheme + (QueryEscape(o.user) + ":" + QueryEscape(o.password));
    }
    assert dsn == scheme + UserInfo(Parts(n, o));
    dsn := dsn + "@" + o.host + ":" + Itoa(o.port) + "/" + QueryEscape(o.database);
    dsn := AddParametersToDSN(n, dsn, o, false);
  }

  // ---- taking it apart ----

  datatype Authority = Authority(user: string, password: Option<string>, host: string, port: string)

  predicate AllDigits(s: string) { forall i :: 0 <= i < |s| ==> IsDigit(s[i]) }

  /** A host with an optional port. */
  function ParseHostPort(s: string): Option<(string, string)> {
    var (host, hasPort, port) := CutLast(s, ':');
    if hasPort && HostOk(host) && AllDigits(port) then Some((host, port))
    else if HostOk(s) then Some((s, ""))
    else None
  }

  /** User information up to the last '@', with the password after its first ':'. */
  function ParseAuthority(s: string): Option<Authority> {
    var (userInfo, _, hostPort) := CutLast(s, '@');
    var (user, hasPassword, password) := Cut(userInfo, ':');
    match ParseHostPort(hostPort)
    case None => None
    case Some((host, port)) => Some(Authority(user, if hasPassword then Some(password) else None, host, port))
  }

  /** Fragment, query and path are cut off the authority. */
  function ParseMain(s: string): Option<Uri> {
    var main := Cut(s, '#').0;
    var (hier, _, query) := Cut(main, '?');
    var (authority, _, path) := Cut(hier, '/');
    match ParseAuthority(authority)
    case None => None
    case Some(a) => Some(Uri(a.user, a.password, a.host, a.port, path, query))
  }

  function ParseUri(scheme: string, s: string): Option<Uri> {
    if scheme <= s then ParseMain(s[|scheme|..]) else None
  }

  /** Strings of escaped characters and backslashes, which delimit nothing. */
  ghost predicate Harmless(s: string) { forall i :: 0 <= i < |s| ==> EscapedChar(s[i]) || s[i] == '\\' }

  lemma Grouped(scheme: string, a: string, host: string, port: string, path: string, query: string)
    ensures scheme + a + "@" + host + ":" + port + "/" + path + "?" + query ==
            scheme + (a + ['@'] + (host + [':'] + port) + ['/'] + path + ['?'] + query)
  {
  }

  lemma {:induction false} ParsePrint(scheme: string, u: Uri)
    requires Harmless(u.user) && (u.password.Some? ==> Harmless(u.password.value)) && HostOk(u.host)
    requires AllDigits(u.port) && Harmless(u.path) && '#' !in u.query
    ensures ParseUri(scheme, Print(scheme, u)) == Some(u)
  {
    var authority := UserInfo(u) + ['@'] + (u.host + [':'] + u.port);
    var main := authority + ['/'] + u.path + ['?'] + u.query;
    Grouped(scheme, UserInfo(u), u.host, u.port, u.path, u.query);
    assert Print(scheme, u) == scheme + main;
    assert (scheme + main)[|scheme|..] == main;
    ParseMainOf(authority, u);
  }

  lemma {:induction false} ParseMainOf(authority: string, u: Uri)
    requires Harmless(u.user) && (u.password.Some? ==> Harmless(u.password.value)) && HostOk(u.host)
    requires AllDigits(u.port) && Harmless(u.path) && '#' !in u.query
    requires authority == UserInfo(u) + ['@'] + (u.host + [':'] + u.port)
    ensures ParseMain(authority + ['/'] + u.path + ['?'] + u.query) == Some(u)
  {
    AuthorityOf(u);
    AuthorityChars(u);
    CutMain(authority, u.path, u.query);
  }

  lemma {:induction false} AuthorityChars(u: Uri)
    requires Harmless(u.user) && (u.password.Some? ==> Harmless(u.password.value)) && HostOk(u.host) && AllDigits(u.port)
    ensures var authority := UserInfo(u) + ['@'] + (u.host + [':'] + u.port);
            '#' !in authority && '?' !in authority && '/' !in authority
  {
    HostChars(u.host);
  }

  lemma {:induction false} AuthorityOf(u: Uri)
    requires Harmless(u.user) && (u.password.Some? ==> Harmless(u.password.value)) && HostOk(u.host) && AllDigits(u.port)
    ensures ParseAuthority(UserInfo(u) + ['@'] + (u.host + [':'] + u.port)) ==
            Some(Authority(u.user, u.password, u.host, u.port))
  {
    HostChars(u.host);
    CutLastAt(UserInfo(u), '@', u.host + [':'] + u.port);
    CutLastAt(u.host, ':', u.port);
    match u.password
    case None => CutNone(u.user, ':');
    case Some(p) => CutAt(u.user, ':', p);
  }

  lemma {:induction false} CutMain(authority: string, path: string, query: string)
    requires '#' !in query && '#' !in path && '?' !in path
    requires '#' !in authority && '?' !in authority && '/' !in authority
    ensures var hier := authority + ['/'] + path;
      var main := hier + ['?'] + query;
      && Cut(main, '#').0 == main
      && Cut(main, '?') == (hier, true, query)
      && Cut(hier, '/') == (authority, true, path)
  {
    var hier := authority + ['/'] + path;
    CutNone(hier + ['?'] + query, '#');
    CutAt(hier, '?', query);
    CutAt(authority, '/', path);
  }

  /** No text reads as a URI with another kind of host or port. */
  lemma ParsedHostOk(s: string)
    requires ParseMain(s).Some?
    ensures HostOk(ParseMain(s).value.host) && AllDigits(ParseMain(s).value.port)
  {
  }

  lemma {:induction false} JoinHarmless(parts: seq<string>, sep: string)
    requires Harmless(sep) && forall i :: 0 <= i < |parts| ==> Harmless(parts[i])
    ensures Harmless(Join(parts, sep))
  {
    if |parts| > 1 { JoinHarmless(parts[1..], sep); }
  }

  lemma EscapeHarmless(s: string)
    ensures Harmless(QueryEscape(s))
  {
  }

  lemma FormatOptionHarmless(s: string)
    ensures Harmless(FormatOption(s))
  {
    var parts := EscapeAll(Fields(s));
    forall i | 0 <= i < |parts| ensures Harmless(parts[i]) { EscapeHarmless(Fields(s)[i]); }
    JoinHarmless(parts, "\\%20");
  }

  lemma OptionsTextHarmless(ps: seq<Pair>)
    ensures Harmless(OptionsText(ps))
  {
    var words := OptionWords(ps);
    forall i | 0 <= i < |words| ensures Harmless(words[i]) {
      FormatOptionHarmless(ps[i].0);
      FormatOptionHarmless(ps[i].1);
    }
    JoinHarmless(words, "%20");
  }

  lemma {:induction false} NotInJoin(parts: seq<string>, sep: string, c: char)
    requires c !in sep && forall i :: 0 <= i < |parts| ==> c !in parts[i]
    ensures c !in Join(parts, sep)
  {
    if |parts| > 1 { NotInJoin(parts[1..], sep, c); }
  }

  lemma ParamPart(p: Pair)
    ensures '&' !in Param(p) && '#' !in Param(p)
  {
    EscapeHarmless(p.0);
    EscapeHarmless(p.1);
  }

  lemma OptionsPart(options: seq<Pair>)
    ensures '&' !in "options=" + OptionsText(options) && '#' !in "options=" + OptionsText(options)
  {
    OptionsTextHarmless(options);
  }

  /** The parts of a query text hold '=' but neither '&' nor '#'. */
  lemma QueryParts(ps: seq<Pair>, options: seq<Pair>, i: nat)
    requires i <= |ps|
    ensures var part := (ParamTexts(ps) + ["options=" + OptionsText(options)])[i]; '&' !in part && '#' !in part
  {
    if i < |ps| { ParamPart(ps[i]); } else { OptionsPart(options); }
  }

  lemma ItoaDigitsIff(n: int)
    ensures AllDigits(Itoa(n)) <==> n >= 0
  {
    if n < 0 { assert Itoa(n)[0] == '-'; }
  }

  /** The host is a name or a bracketed address, and the port is a number. */
  predicate Addressable(o: Opts) { HostOk(o.host) && o.port >= 0 }

  /**
   The printed URI splits back into its parts for every user, password, database and
   option value, exactly when the host is a name without colons or a bracketed
   address, and the port is not negative.
   */
  lemma {:induction false} UriSplitsIff(n: Names, scheme: string, o: Opts)
    ensures ParseUri(scheme, Print(scheme, Parts(n, o))) == Some(Parts(n, o)) <==> Addressable(o)
  {
    var u := Parts(n, o);
    ItoaDigitsIff(o.port);
    if Addressable(o) {
      EscapeHarmless(o.user);
      EscapeHarmless(o.password);
      EscapeHarmless(o.database);
      var ps, options := PlainParams(n, o, false), ServerOptions(n, o);
      forall i | 0 <= i <= |ps| ensures '#' !in (ParamTexts(ps) + ["options=" + OptionsText(options)])[i] {
        QueryParts(ps, options, i);
      }
      NotInJoin(ParamTexts(ps) + ["options=" + OptionsText(options)], "&", '#');
      ParsePrint(scheme, u);
    } else if ParseUri(scheme, Print(scheme, u)) == Some(u) {
      ParsedHostOk(Print(scheme, u)[|scheme|..]);
    }
  }

  /** An IPv6 address without brackets is such a host. */
  lemma BareAddressFails(n: Names, scheme: string, o: Opts)
    requires ':' in o.host && '[' !in o.host
    ensures ParseUri(scheme, Print(scheme, Parts(n, o))) != Some(Parts(n, o))
  {
    BareColonIsNoHost(o.host);
    UriSplitsIff(n, scheme, o);
  }

  /**
   Percent-decoding the split parts restores the user, password and database that
   hold no space; otherwise each space comes back as '+'.
   */
  lemma CredentialsDecodeIff(n: Names, o: Opts)
    requires o.Bytes()
    ensures Unescape(Parts(n, o).user, false) == Some(o.user) <==> ' ' !in o.user
    ensures Unescape(Parts(n, o).path, false) == Some(o.database) <==> ' ' !in o.database
    ensures Unescape(Parts(n, o).user, false) == Some(PlusForSpace(o.user))
    ensures Unescape(Parts(n, o).path, false) == Some(PlusForSpace(o.database))
    ensures match Parts(n, o).password
            case None => o.password == ""
            case Some(p) =>
              && o.password != "" && Unescape(p, false) == Some(PlusForSpace(o.password))
              && (Unescape(p, false) == Some(o.password) <==> ' ' !in o.password)
  {
    PercentDecodingIff(o.user);
    PercentDecodingIff(o.password);
    PercentDecodingIff(o.database);
    UnescapeEscape(o.user, false);
    UnescapeEscape(o.password, false);
    UnescapeEscape(o.database, false);
  }

  // ---- the query ----

  function ParsePair(s: string): Option<Pair> {
    var (k, _, v) := Cut(s, '=');
    match (Unescape(k, true), Unescape(v, true))
    case (Some(k'), Some(v')) => Some((k', v'))
    case _ => None
  }

  function ParsePairs(parts: seq<string>): Option<seq<Pair>> {
    if parts == [] then Some([])
    else match (ParsePair(parts[0]), ParsePairs(parts[1..])) {
      case (Some(p), Some(rest)) => Some([p] + rest)
      case _ => None
    }
  }

  /** Split at '&', then at the first '=', then form-decode. */
  function ParseQuery(q: string): Option<seq<Pair>> { ParsePairs(Split(q, '&')) }

  lemma ParsePairOfParam(p: Pair)
    requires PairBytes(p)
    ensures ParsePair(Param(p)) == Some(p)
  {
    EscapeHarmless(p.0);
    CutAt(QueryEscape(p.0), '=', QueryEscape(p.1));
    UnescapeEscape(p.0, true);
    UnescapeEscape(p.1, true);
  }

  lemma {:induction false} ParsePairsEach(parts: seq<string>, ps: seq<Pair>)
    requires |parts| == |ps| && forall i :: 0 <= i < |ps| ==> ParsePair(parts[i]) == Some(ps[i])
    ensures ParsePairs(parts) == Some(ps)
  {
    if parts != [] {
      ParsePairsEach(parts[1..], ps[1..]);
      assert ps == [ps[0]] + ps[1..];
    }
  }

  lemma OptionsKey()
    ensures DecodesTo("options", "options") && '=' !in "options" && "options=" == "options" + ['=']
  {
    DecodeVerbatim("options");
  }

  lemma OptionsPair(options: seq<Pair>)
    requires forall i :: 0 <= i < |options| ==> PairBytes(options[i])
    ensures Unescape(OptionsText(options), true).Some?
    ensures ParsePair("options=" + OptionsText(options)) == Some(("options", Unescape(OptionsText(options), true).value))
  {
    DecodeOptionsText(options);
    OptionsKey();
    CutAt("options", '=', OptionsText(options));
  }

  /** Any query text reads back as its parameters, followed by the decoded options. */
  lemma {:induction false} QueryRoundTrip(ps: seq<Pair>, options: seq<Pair>)
    requires forall i :: 0 <= i < |ps| ==> PairBytes(ps[i])
    requires forall i :: 0 <= i < |options| ==> PairBytes(options[i])
    ensures Unescape(OptionsText(options), true).Some?
    ensures ParseQuery(QueryText(ps, options)) ==
            Some(ps + [("options", Unescape(OptionsText(options), true).value)])
  {
    var parts := ParamTexts(ps) + ["options=" + OptionsText(options)];
    forall i | 0 <= i < |parts| ensures '&' !in parts[i] { QueryParts(ps, options, i); }
    SplitJoin(parts, '&');
    OptionsPair(options);
    var pairs := ps + [("options", Unescape(OptionsText(options), true).value)];
    forall i | 0 <= i < |pairs| ensures ParsePair(parts[i]) == Some(pairs[i]) {
      if i < |ps| { ParsePairOfParam(ps[i]); }
    }
    ParsePairsEach(parts, pairs);
  }

  lemma ItoaIsPlain(n: int)
    ensures IsBytes(Itoa(n)) && '\\' !in Itoa(n)
  {
  }

  lemma SecsIsPlain(ns: int)
    ensures IsBytes(Secs(ns))
  {
  }

  lemma PlainParamsBytes(n: Names, o: Opts, postgresCompatible: bool)
    requires n.Ok() && o.Bytes()
    ensures forall i :: 0 <= i < |PlainParams(n, o, postgresCompatible)| ==>
      PairBytes(PlainParams(n, o, postgresCompatible)[i])
  {
    ItoaIsPlain(o.poolMaxConns);
    ItoaIsPlain(o.poolMinConns);
    SecsIsPlain(o.poolMaxConnLifetime);
    SecsIsPlain(o.poolMaxConnIdleTime);
    SecsIsPlain(o.poolHealthCheckPeriod);
    forall i | 0 <= i < |PoolParams(n, o)| ensures PairBytes(PoolParams(n, o)[i]) { }
  }

  lemma ServerOptionsPlain(n: Names, o: Opts, i: nat)
    requires n.Ok() && i < |ServerOptions(n, o)|
    ensures PairBytes(ServerOptions(n, o)[i])
    ensures '\\' !in ServerOptions(n, o)[i].0 && '\\' !in ServerOptions(n, o)[i].1
  {
  }

  /** The parameters meant, then the options, whose words the server recovers. */
  ghost predicate ParamsRead(n: Names, o: Opts, postgresCompatible: bool, ps: seq<Pair>) {
    && ps != [] && ps[..|ps| - 1] == PlainParams(n, o, postgresCompatible)
    && ps[|ps| - 1].0 == "options"
    && SplitOptions(ps[|ps| - 1].1) == AllIntended(ServerOptions(n, o))
  }

  ghost predicate QueryReads(n: Names, o: Opts, postgresCompatible: bool, query: string) {
    ParseQuery(query).Some? && ParamsRead(n, o, postgresCompatible, ParseQuery(query).value)
  }

  lemma {:induction false} QueryReadsBack(n: Names, o: Opts, postgresCompatible: bool)
    requires n.Ok() && o.Bytes()
    ensures QueryReads(n, o, postgresCompatible, QueryText(PlainParams(n, o, postgresCompatible), ServerOptions(n, o)))
  {
    PlainParamsBytes(n, o, postgresCompatible);
    var options := ServerOptions(n, o);
    forall i | 0 <= i < |options|
      ensures PairBytes(options[i]) && '\\' !in options[i].0 && '\\' !in options[i].1
    {
      ServerOptionsPlain(n, o, i);
    }
    QueryRoundTrip(PlainParams(n, o, postgresCompatible), options);
    OptionsRoundTripIff(options);
  }

  /** Splitting, decoding and the server's own splitting of the options undo the printer. */
  ghost predicate RoundTrips(n: Names, scheme: string, o: Opts) {
    && ParseUri(scheme, Print(scheme, Parts(n, o))) == Some(Parts(n, o))
    && QueryReads(n, o, false, Parts(n, o).query)
  }

  /**
   End to end: the printed URI, split, decoded and with its options split again by
   the server, yields exactly the intended parameters and option words, whenever
   host and port are addressable; and only then does it even split.
   */
  lemma {:induction false} DsnRoundTripIff(n: Names, scheme: string, o: Opts)
    requires n.Ok() && o.Bytes()
    ensures RoundTrips(n, scheme, o) <==> Addressable(o)
  {
    UriSplitsIff(n, scheme, o);
    QueryReadsBack(n, o, false);
  }
}
