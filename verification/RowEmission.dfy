/**
 Emission refines "one metric per row": whatever scrapes came before, failed ones
 included, and however the clients of each were interleaved, a successful scrape
 emits the cells of its rows and the leftovers of earlier scrapes. Hypotheses and
 results speak of the cells of the rows the server returned.
 */
module RowEmission {
  import opened Text
  import opened History
  import opened Options
  import opened SpecYaml
  import opened SpecCollector
  import opened Emission
  import CD = CounterDelta

  // ---- scrapes ----

  /** One scrape: what each client read and was answered, and how their writes interleaved. */
  datatype Scrape = Scrape(clients: seq<Client>, order: seq<Write<Target>>)

  ghost predicate Possible(spec: CollectorSpec, s: Scrape) {
    AllWellFormed(s.clients) && IsShuffle(s.order, Writers(spec, s.clients))
  }

  ghost predicate AllPossible(spec: CollectorSpec, scrapes: seq<Scrape>) {
    forall t :: 0 <= t < |scrapes| ==> Possible(spec, scrapes[t])
  }

  function AllWrites(scrapes: seq<Scrape>): seq<Write<Target>> {
    if scrapes == [] then [] else AllWrites(Init(scrapes)) + Last(scrapes).order
  }

  // ---- cells ----

  /** The client's rows are read: the gate lets the query run, it is answered, and the columns are there. */
  predicate Contributes(spec: CollectorSpec, c: Client) {
    GateOpen(spec, c.read) && c.answer.Rows? && ColumnsOk(spec, c.answer.columns)
  }

  ghost predicate IsRow(spec: CollectorSpec, clients: seq<Client>, c: nat, k: nat) {
    c < |clients| && Contributes(spec, clients[c]) && k < |clients[c].answer.rows|
  }

  ghost function LabelsAt(spec: CollectorSpec, clients: seq<Client>, c: nat, k: nat): Labels
    requires AllWellFormed(clients) && IsRow(spec, clients, c, k)
  {
    RowLabels(spec, clients[c].answer.columns, clients[c].answer.rows[k])
  }

  /** Row `k` of client `c` prints the labels `l`, and its cell in the column of metric `i` shows the number `v`. */
  ghost predicate CellAt(spec: CollectorSpec, clients: seq<Client>, c: nat, k: nat, i: nat, l: Labels, v: real)
    requires AllWellFormed(clients)
  {
    && IsRow(spec, clients, c, k) && i < |spec.metrics|
    && var columns, row, m := clients[c].answer.columns, clients[c].answer.rows[k], spec.metrics[i];
       HasLabels(spec, columns, row, l) && Shows(row[ColumnOf(columns, m.column)], m, v)
  }

  ghost predicate IsCell(spec: CollectorSpec, clients: seq<Client>, i: nat, l: Labels, v: real)
    requires AllWellFormed(clients)
  {
    exists c: nat, k: nat :: CellAt(spec, clients, c, k, i, l, v)
  }

  ghost predicate IsCellOf(spec: CollectorSpec, scrapes: seq<Scrape>, i: nat, l: Labels, v: real)
    requires AllPossible(spec, scrapes)
  {
    exists t :: 0 <= t < |scrapes| && IsCell(spec, scrapes[t].clients, i, l, v)
  }

  // ---- the writes of scrapes are their cells ----

  ghost predicate WrittenBy(spec: CollectorSpec, columns: seq<string>, row: seq<Cell>, w: Write<Target>)
    requires ColumnsOk(spec, columns) && |row| == |columns|
  {
    w in RowWrites(spec, columns, row, |spec.metrics|)
  }

  lemma {:induction false} RowsWritesExactly(
      spec: CollectorSpec, columns: seq<string>, rows: seq<seq<Cell>>, w: Write<Target>)
    requires ColumnsOk(spec, columns) && forall k :: 0 <= k < |rows| ==> |rows[k]| == |columns|
    ensures w in RowsWrites(spec, columns, rows) <==>
      exists k :: 0 <= k < |rows| && WrittenBy(spec, columns, rows[k], w)
  {
    if rows != [] {
      var prev := Init(rows);
      RowsWritesExactly(spec, columns, prev, w);
      assert w in RowsWrites(spec, columns, rows) <==>
             w in RowsWrites(spec, columns, prev) || WrittenBy(spec, columns, Last(rows), w);
      if k :| 0 <= k < |prev| && WrittenBy(spec, columns, prev[k], w) {
        assert WrittenBy(spec, columns, rows[k], w);
      }
      if k :| 0 <= k < |rows| && WrittenBy(spec, columns, rows[k], w) {
        if k < |prev| { assert WrittenBy(spec, columns, prev[k], w); }
      }
    }
  }

  /** A client writes exactly the cells of its rows. */
  lemma {:induction false} ClientWritesExactly(
      spec: CollectorSpec, clients: seq<Client>, c: nat, i: nat, l: Labels, v: real)
    requires AllWellFormed(clients) && c < |clients|
    ensures Write((i, l), v) in Writers(spec, clients)[c] <==> exists k: nat :: CellAt(spec, clients, c, k, i, l, v)
  {
    var a, w, n := clients[c].answer, Write((i, l), v), |spec.metrics|;
    if Contributes(spec, clients[c]) {
      RowsWritesExactly(spec, a.columns, a.rows, w);
      forall k: nat ensures CellAt(spec, clients, c, k, i, l, v) <==>
                            k < |a.rows| && WrittenBy(spec, a.columns, a.rows[k], w) {
        if k < |a.rows| { RowWritesExactly(spec, a.columns, a.rows[k], n, w); }
      }
    }
  }

  /** A scrape writes exactly the cells of its rows, however its clients interleave. */
  lemma {:induction false} ScrapeWritesExactly(spec: CollectorSpec, s: Scrape, i: nat, l: Labels, v: real)
    requires Possible(spec, s)
    ensures Write((i, l), v) in s.order <==> IsCell(spec, s.clients, i, l, v)
  {
    var cs := Writers(spec, s.clients);
    ShuffleMembers(s.order, cs, Write((i, l), v));
    forall c: nat | c < |s.clients|
      ensures Write((i, l), v) in Writers(spec, s.clients)[c] <==> exists k: nat :: CellAt(spec, s.clients, c, k, i, l, v)
    {
      ClientWritesExactly(spec, s.clients, c, i, l, v);
    }
    if IsCell(spec, s.clients, i, l, v) {
      var c: nat, k: nat :| CellAt(spec, s.clients, c, k, i, l, v);
      assert Write((i, l), v) in cs[c];
    }
    if c :| 0 <= c < |cs| && Write((i, l), v) in cs[c] {
      var k: nat :| CellAt(spec, s.clients, c, k, i, l, v);
    }
  }

  lemma IsCellOfSnoc(spec: CollectorSpec, scrapes: seq<Scrape>, i: nat, l: Labels, v: real)
    requires scrapes != [] && AllPossible(spec, scrapes)
    ensures IsCellOf(spec, scrapes, i, l, v) <==>
            IsCellOf(spec, Init(scrapes), i, l, v) || IsCell(spec, Last(scrapes).clients, i, l, v)
  {
    var prev := Init(scrapes);
    if t :| 0 <= t < |prev| && IsCell(spec, prev[t].clients, i, l, v) {
      assert IsCell(spec, scrapes[t].clients, i, l, v);
    }
    if t :| 0 <= t < |scrapes| && IsCell(spec, scrapes[t].clients, i, l, v) {
      if t < |prev| { assert IsCell(spec, prev[t].clients, i, l, v); }
    }
  }

  lemma {:induction false} AllWritesExactly(spec: CollectorSpec, scrapes: seq<Scrape>, i: nat, l: Labels, v: real)
    requires AllPossible(spec, scrapes)
    ensures Write((i, l), v) in AllWrites(scrapes) <==> IsCellOf(spec, scrapes, i, l, v)
  {
    if scrapes != [] {
      assert Possible(spec, Last(scrapes));
      AllWritesExactly(spec, Init(scrapes), i, l, v);
      ScrapeWritesExactly(spec, Last(scrapes), i, l, v);
      IsCellOfSnoc(spec, scrapes, i, l, v);
    }
  }

  lemma {:induction false} AllWritesTargets(spec: CollectorSpec, scrapes: seq<Scrape>)
    requires AllPossible(spec, scrapes)
    ensures Targets(spec, AllWrites(scrapes))
  {
    var h := AllWrites(scrapes);
    forall k | 0 <= k < |h| ensures h[k].key.0 < |spec.metrics| {
      var w := h[k];
      assert w == Write((w.key.0, w.key.1), w.value) && w in h;
      AllWritesExactly(spec, scrapes, w.key.0, w.key.1, w.value);
      var t :| 0 <= t < |scrapes| && IsCell(spec, scrapes[t].clients, w.key.0, w.key.1, w.value);
    }
  }

  /** The vectors after the scrapes. */
  ghost function After(spec: CollectorSpec, scrapes: seq<Scrape>): Outcome
    requires AllPossible(spec, scrapes)
  {
    AllWritesTargets(spec, scrapes);
    ApplyAll(spec, Fresh(spec), AllWrites(scrapes))
  }

  // ---- hypotheses on cells ----

  ghost predicate CountersOk(spec: CollectorSpec, scrapes: seq<Scrape>)
    requires AllPossible(spec, scrapes)
  {
    forall i: nat, l, v :: IsCellOf(spec, scrapes, i, l, v) && IsCounter(spec.metrics[i]) ==> v >= 0.0
  }

  /** Rows that give one counter a value have distinct keys unless they have the same labels. */
  ghost predicate RowKeysDistinct(spec: CollectorSpec, scrapes: seq<Scrape>)
    requires AllPossible(spec, scrapes)
  {
    forall i: nat, a, b, x, y ::
      (IsCellOf(spec, scrapes, i, a, x) && IsCellOf(spec, scrapes, i, b, y) && IsCounter(spec.metrics[i])
       && CD.KeyOf(a) == CD.KeyOf(b)) ==> a == b
  }

  lemma {:induction false} CountersOkIff(spec: CollectorSpec, scrapes: seq<Scrape>)
    requires AllPossible(spec, scrapes)
    ensures Targets(spec, AllWrites(scrapes))
    ensures CountersNonNegative(spec, AllWrites(scrapes)) <==> CountersOk(spec, scrapes)
  {
    var h := AllWrites(scrapes);
    AllWritesTargets(spec, scrapes);
    if CountersNonNegative(spec, h) {
      forall i: nat, l, v | IsCellOf(spec, scrapes, i, l, v) && IsCounter(spec.metrics[i]) ensures v >= 0.0 {
        AllWritesExactly(spec, scrapes, i, l, v);
        var k :| 0 <= k < |h| && h[k] == Write((i, l), v);
      }
    }
    if CountersOk(spec, scrapes) {
      forall k | 0 <= k < |h| && IsCounter(spec.metrics[h[k].key.0]) ensures h[k].value >= 0.0 {
        var w := h[k];
        assert w == Write((w.key.0, w.key.1), w.value) && w in h;
        AllWritesExactly(spec, scrapes, w.key.0, w.key.1, w.value);
      }
    }
  }

  /** A history of scrapes panics exactly when some row gives a counter a negative value. */
  lemma PanicsIffNegativeCell(spec: CollectorSpec, scrapes: seq<Scrape>)
    requires AllPossible(spec, scrapes)
    ensures After(spec, scrapes).panicked <==> !CountersOk(spec, scrapes)
  {
    CountersOkIff(spec, scrapes);
    VectorsIndependent(spec, AllWrites(scrapes));
  }

  lemma {:induction false} WrittenIsCell(spec: CollectorSpec, scrapes: seq<Scrape>, i: nat, l: Labels) returns (v: real)
    requires AllPossible(spec, scrapes) && (i, l) in Keys(AllWrites(scrapes))
    ensures IsCellOf(spec, scrapes, i, l, v)
  {
    var h := AllWrites(scrapes);
    var k :| 0 <= k < |h| && h[k].key == (i, l);
    v := h[k].value;
    assert h[k] == Write((i, l), v) && h[k] in h;
    AllWritesExactly(spec, scrapes, i, l, v);
  }

  lemma {:induction false} RowKeysSuffice(spec: CollectorSpec, scrapes: seq<Scrape>)
    requires AllPossible(spec, scrapes) && RowKeysDistinct(spec, scrapes)
    ensures KeysDistinct(spec, AllWrites(scrapes))
  {
    var h := AllWrites(scrapes);
    forall i | 0 <= i < |spec.metrics| && IsCounter(spec.metrics[i]) ensures CD.InjectiveOn(Keys(OnMetric(h, i))) {
      forall a, b | a in Keys(OnMetric(h, i)) && b in Keys(OnMetric(h, i)) && CD.KeyOf(a) == CD.KeyOf(b) ensures a == b {
        LatestOnMetric(h, i, a);
        LatestOnMetric(h, i, b);
        var x := WrittenIsCell(spec, scrapes, i, a);
        var y := WrittenIsCell(spec, scrapes, i, b);
      }
    }
  }

  // ---- what a successful scrape emits ----

  /** No client's query failed, lacked a column or broke off; a closed gate asks nothing. */
  ghost predicate AllSucceed(spec: CollectorSpec, clients: seq<Client>) {
    forall c :: 0 <= c < |clients| ==> GateOpen(spec, clients[c].read) ==> Succeeds(spec, clients[c].answer)
  }

  predicate Succeeds(spec: CollectorSpec, a: Answer) { a.Rows? && !MissesColumn(spec, a.columns) && a.ending.AllRead? }

  /** That is when the scrape emits at all. */
  lemma EmitsIffAllSucceed(spec: CollectorSpec, clients: seq<Client>)
    ensures AllSucceed(spec, clients) <==> !SomeClientFails(spec, clients)
  {
    if SomeClientFails(spec, clients) {
      var c :| 0 <= c < |clients| && ClientFails(spec, clients[c].read, clients[c].answer);
      assert !Succeeds(spec, clients[c].answer);
    }
  }

  /** After the scrapes `earlier`, successful or not, `now` succeeds and emits `out`. */
  ghost predicate EmittedAfter(spec: CollectorSpec, earlier: seq<Scrape>, now: Scrape, out: seq<Sample>) {
    var all := earlier + [now];
    && AllPossible(spec, all) && AllSucceed(spec, now.clients)
    && CountersOk(spec, all) && RowKeysDistinct(spec, all)
    && EmitsAll(After(spec, all).vecs, out)
  }

  lemma AllWritesOneMore(earlier: seq<Scrape>, now: Scrape)
    ensures AllWrites(earlier + [now]) == AllWrites(earlier) + now.order
  {
    assert Init(earlier + [now]) == earlier;
  }

  /**
   After any scrapes, failed ones included, a successful scrape emits exactly one
   sample per target ever written: the current scrape's values, and for targets it
   did not write the leftover of an earlier scrape.
   */
  lemma {:induction false} EmissionRefinement(
      spec: CollectorSpec, earlier: seq<Scrape>, now: Scrape, out: seq<Sample>)
    requires EmittedAfter(spec, earlier, now, out)
    ensures ListsExactly(out, Latest(AllWrites(earlier)) + Latest(now.order))
  {
    var all := earlier + [now];
    CountersOkIff(spec, all);
    RowKeysSuffice(spec, all);
    AllWritesOneMore(earlier, now);
    LatestConcat(AllWrites(earlier), now.order);
    EmissionIsLatest(spec, AllWrites(all), out);
  }

  // ---- rows with distinct labels ----

  ghost predicate RowsDistinct(spec: CollectorSpec, clients: seq<Client>)
    requires AllWellFormed(clients)
  {
    forall c, k, d, m ::
      (IsRow(spec, clients, c, k) && IsRow(spec, clients, d, m)
       && LabelsAt(spec, clients, c, k) == LabelsAt(spec, clients, d, m)) ==> c == d && k == m
  }

  ghost predicate WrittenOnce(h: seq<Write<Target>>) {
    forall j, k :: 0 <= j < k < |h| ==> h[j].key != h[k].key
  }

  lemma {:induction false} WrittenOnceSnoc(h: seq<Write<Target>>)
    requires h != [] && WrittenOnce(Init(h)) && Last(h).key !in Keys(Init(h))
    ensures WrittenOnce(h)
  {
    forall j, k | 0 <= j < k < |h| ensures h[j].key != h[k].key {
      assert Init(h)[j] == h[j];
      if k < |h| - 1 { assert Init(h)[k] == h[k]; }
    }
  }

  lemma {:induction false} WrittenOnceInit(h: seq<Write<Target>>)
    requires h != [] && WrittenOnce(h)
    ensures WrittenOnce(Init(h)) && Last(h).key !in Keys(Init(h))
  {
    forall j, k | 0 <= j < k < |Init(h)| ensures Init(h)[j].key != Init(h)[k].key { assert h[j].key != h[k].key; }
    forall j | 0 <= j < |Init(h)| ensures Init(h)[j].key != Last(h).key { assert h[j].key != h[|h| - 1].key; }
  }

  lemma {:induction false} WrittenOnceConcat(g: seq<Write<Target>>, h: seq<Write<Target>>)
    requires WrittenOnce(g) && WrittenOnce(h) && Keys(g) !! Keys(h)
    ensures WrittenOnce(g + h)
  {
    var w := g + h;
    forall j, k | 0 <= j < k < |w| ensures w[j].key != w[k].key {
      if j < |g| <= k {
        assert g[j].key in Keys(g) && h[k - |g|].key in Keys(h);
      } else if j >= |g| {
        assert w[j] == h[j - |g|] && w[k] == h[k - |g|];
      }
    }
  }

  /** One row writes each metric once, always under its own labels. */
  lemma {:induction false} RowWrittenOnce(spec: CollectorSpec, columns: seq<string>, row: seq<Cell>, n: nat)
    requires ColumnsOk(spec, columns) && |row| == |columns| && n <= |spec.metrics|
    ensures WrittenOnce(RowWrites(spec, columns, row, n))
    ensures forall t :: t in Keys(RowWrites(spec, columns, row, n)) ==> t.0 < n && t.1 == RowLabels(spec, columns, row)
  {
    if n > 0 {
      var prev, h := RowWrites(spec, columns, row, n - 1), RowWrites(spec, columns, row, n);
      RowWrittenOnce(spec, columns, row, n - 1);
      if h != prev {
        assert Init(h) == prev;
        KeysSnoc(h);
        WrittenOnceSnoc(h);
      }
    }
  }

  ghost predicate LabelsDistinct(spec: CollectorSpec, columns: seq<string>, rows: seq<seq<Cell>>)
    requires ColumnsOk(spec, columns) && forall k :: 0 <= k < |rows| ==> |rows[k]| == |columns|
  {
    forall j, k :: 0 <= j < k < |rows| ==> RowLabels(spec, columns, rows[j]) != RowLabels(spec, columns, rows[k])
  }

  lemma {:induction false} KeyHasRow(spec: CollectorSpec, columns: seq<string>, rows: seq<seq<Cell>>, t: Target)
    returns (k: nat)
    requires ColumnsOk(spec, columns) && forall k :: 0 <= k < |rows| ==> |rows[k]| == |columns|
    requires t in Keys(RowsWrites(spec, columns, rows))
    ensures k < |rows| && RowLabels(spec, columns, rows[k]) == t.1
  {
    var h := RowsWrites(spec, columns, rows);
    var j :| 0 <= j < |h| && h[j].key == t;
    assert h[j] in h;
    RowsWritesExactly(spec, columns, rows, h[j]);
    k :| 0 <= k < |rows| && WrittenBy(spec, columns, rows[k], h[j]);
    RowWritesMembers(spec, columns, rows[k], |spec.metrics|, h[j]);
  }

  lemma {:induction false} RowsWrittenOnce(spec: CollectorSpec, columns: seq<string>, rows: seq<seq<Cell>>)
    requires ColumnsOk(spec, columns) && forall k :: 0 <= k < |rows| ==> |rows[k]| == |columns|
    requires LabelsDistinct(spec, columns, rows)
    ensures WrittenOnce(RowsWrites(spec, columns, rows))
  {
    if rows != [] {
      var prev, last := Init(rows), Last(rows);
      assert forall k :: 0 <= k < |prev| ==> prev[k] == rows[k];
      RowsWrittenOnce(spec, columns, prev);
      RowWrittenOnce(spec, columns, last, |spec.metrics|);
      forall t | t in Keys(RowsWrites(spec, columns, prev)) ensures t.1 != RowLabels(spec, columns, last) {
        var k := KeyHasRow(spec, columns, prev, t);
        assert rows[k] == prev[k];
      }
      WrittenOnceConcat(RowsWrites(spec, columns, prev), RowWrites(spec, columns, last, |spec.metrics|));
    }
  }

  /** Interleaving clients that share no target keeps each target written once. */
  lemma {:induction false} ShuffleWrittenOnce(h: seq<Write<Target>>, cs: seq<seq<Write<Target>>>)
    requires IsShuffle(h, cs) && forall i :: 0 <= i < |cs| ==> WrittenOnce(cs[i])
    requires forall i, j :: 0 <= i < j < |cs| ==> Keys(cs[i]) !! Keys(cs[j])
    ensures WrittenOnce(h)
    decreases |h|
  {
    if h != [] {
      var i :| 0 <= i < |cs| && EndsWith(h, cs, i);
      var shorter := cs[i := Init(cs[i])];
      WrittenOnceInit(cs[i]);
      KeysSnoc(cs[i]);
      forall j | 0 <= j < |shorter| ensures WrittenOnce(shorter[j]) && Keys(shorter[j]) <= Keys(cs[j]) { }
      ShuffleWrittenOnce(Init(h), shorter);
      ShuffleKeys(Init(h), shorter, Last(h).key);
      WrittenOnceSnoc(h);
    }
  }

  lemma {:induction false} ScrapeWrittenOnce(spec: CollectorSpec, s: Scrape)
    requires Possible(spec, s) && RowsDistinct(spec, s.clients)
    ensures WrittenOnce(s.order)
  {
    var cs := Writers(spec, s.clients);
    forall c: nat | c < |cs| ensures WrittenOnce(cs[c]) {
      var a := s.clients[c].answer;
      if Contributes(spec, s.clients[c]) {
        forall j: nat, k: nat | j < k < |a.rows|
          ensures RowLabels(spec, a.columns, a.rows[j]) != RowLabels(spec, a.columns, a.rows[k])
        {
          assert IsRow(spec, s.clients, c, j) && IsRow(spec, s.clients, c, k);
        }
        RowsWrittenOnce(spec, a.columns, a.rows);
      }
    }
    forall c: nat, d: nat | c < d < |cs| ensures Keys(cs[c]) !! Keys(cs[d]) {
      forall t | t in Keys(cs[c]) ensures t !in Keys(cs[d]) {
        var k := WriterHasRow(spec, s.clients, c, t);
        if t in Keys(cs[d]) { var m := WriterHasRow(spec, s.clients, d, t); }
      }
    }
    ShuffleWrittenOnce(s.order, cs);
  }

  lemma {:induction false} WriterHasRow(spec: CollectorSpec, clients: seq<Client>, c: nat, t: Target) returns (k: nat)
    requires AllWellFormed(clients) && c < |clients| && t in Keys(Writers(spec, clients)[c])
    ensures IsRow(spec, clients, c, k) && LabelsAt(spec, clients, c, k) == t.1
  {
    k := KeyHasRow(spec, clients[c].answer.columns, clients[c].answer.rows, t);
  }

  lemma {:induction false} LatestWhenWrittenOnce(h: seq<Write<Target>>, w: Write<Target>)
    requires WrittenOnce(h) && w in h
    ensures w.key in Keys(h) && LastValue(h, w.key) == w.value
  {
    KeysSnoc(h);
    if w != Last(h) {
      assert h == Init(h) + [Last(h)];
      WrittenOnceInit(h);
      LatestWhenWrittenOnce(Init(h), w);
    }
  }

  /** No row of the scrape has a number there, and this is the value last recorded by an earlier scrape. */
  ghost predicate Leftover(spec: CollectorSpec, earlier: seq<Scrape>, now: Scrape, i: nat, l: Labels, v: real)
    requires AllPossible(spec, earlier) && Possible(spec, now)
  {
    && (forall x :: !IsCell(spec, now.clients, i, l, x))
    && IsCellOf(spec, earlier, i, l, v)
    && (i, l) in Keys(AllWrites(earlier)) && v == LastValue(AllWrites(earlier), (i, l))
  }

  lemma {:induction false} LastValueWritten(h: seq<Write<Target>>, t: Target)
    requires t in Keys(h)
    ensures Write(t, LastValue(h, t)) in h
  {
    KeysSnoc(h);
    if Last(h).key != t {
      LastValueWritten(Init(h), t);
      assert h == Init(h) + [Last(h)];
    }
  }

  lemma {:induction false} LeftoverIff(
      spec: CollectorSpec, earlier: seq<Scrape>, now: Scrape, i: nat, l: Labels, v: real)
    requires AllPossible(spec, earlier) && Possible(spec, now)
    ensures (i, l) !in Keys(now.order) && (i, l) in Keys(AllWrites(earlier)) && v == LastValue(AllWrites(earlier), (i, l))
       <==> Leftover(spec, earlier, now, i, l, v)
  {
    var h := AllWrites(earlier);
    if (i, l) in Keys(now.order) {
      var k :| 0 <= k < |now.order| && now.order[k].key == (i, l);
      var x := now.order[k].value;
      assert now.order[k] == Write((i, l), x) && now.order[k] in now.order;
      ScrapeWritesExactly(spec, now, i, l, x);
    } else {
      forall x ensures !IsCell(spec, now.clients, i, l, x) {
        ScrapeWritesExactly(spec, now, i, l, x);
      }
      if (i, l) in Keys(h) && v == LastValue(h, (i, l)) {
        LastValueWritten(h, (i, l));
        AllWritesExactly(spec, earlier, i, l, v);
      }
    }
  }

  /**
   When the rows of a successful scrape have distinct labels, it emits exactly one
   sample per number in a metric column of every client's rows, with that row's
   labels, and exactly the leftovers of earlier scrapes besides.
   */
  lemma {:induction false} OneMetricPerRow(
      spec: CollectorSpec, earlier: seq<Scrape>, now: Scrape, out: seq<Sample>)
    requires EmittedAfter(spec, earlier, now, out) && RowsDistinct(spec, now.clients)
    ensures AllPossible(spec, earlier) && Possible(spec, now) && AllDistinct(out)
    ensures forall i: nat, l, v ::
      Sample(i, l, v) in out <==> IsCell(spec, now.clients, i, l, v) || Leftover(spec, earlier, now, i, l, v)
  {
    var all := earlier + [now];
    assert all[|earlier|] == now && forall t :: 0 <= t < |earlier| ==> all[t] == earlier[t];
    EmissionRefinement(spec, earlier, now, out);
    ScrapeWrittenOnce(spec, now);
    forall i: nat, l, v ensures
      Sample(i, l, v) in out <==> IsCell(spec, now.clients, i, l, v) || Leftover(spec, earlier, now, i, l, v)
    {
      SampleIff(spec, earlier, now, i, l, v);
    }
  }

  lemma {:induction false} SampleIff(
      spec: CollectorSpec, earlier: seq<Scrape>, now: Scrape, i: nat, l: Labels, v: real)
    requires AllPossible(spec, earlier) && Possible(spec, now) && WrittenOnce(now.order)
    ensures var e := Latest(AllWrites(earlier)) + Latest(now.order);
      (i, l) in e && e[(i, l)] == v <==>
        IsCell(spec, now.clients, i, l, v) || Leftover(spec, earlier, now, i, l, v)
  {
    LeftoverIff(spec, earlier, now, i, l, v);
    ScrapeWritesExactly(spec, now, i, l, v);
    if Write((i, l), v) in now.order { LatestWhenWrittenOnce(now.order, Write((i, l), v)); }
    if (i, l) in Keys(now.order) { LastValueWritten(now.order, (i, l)); }
  }

  /** With clients that agree on shared targets, the interleaving does not show in the emission. */
  lemma EmissionScheduleIndependent(spec: CollectorSpec, earlier: seq<Scrape>, now: Scrape, out: seq<Sample>)
    requires EmittedAfter(spec, earlier, now, out)
    requires AllWellFormed(now.clients) && AgreeOnShared(Writers(spec, now.clients))
    ensures ListsExactly(out, Latest(AllWrites(earlier)) + Latest(Flatten(Writers(spec, now.clients))))
  {
    assert (earlier + [now])[|earlier|] == now;
    EmissionRefinement(spec, earlier, now, out);
    FlattenIsShuffle(Writers(spec, now.clients));
    ShufflesAgree(now.order, Flatten(Writers(spec, now.clients)), Writers(spec, now.clients));
  }

  lemma {:induction false} AfterOneMore(spec: CollectorSpec, earlier: seq<Scrape>, now: Scrape)
    requires AllPossible(spec, earlier) && Possible(spec, now)
    ensures AllPossible(spec, earlier + [now]) && Targets(spec, now.order)
    ensures var o := After(spec, earlier);
            After(spec, earlier + [now]) == if o.panicked then o else ApplyAll(spec, o.vecs, now.order)
  {
    var all := earlier + [now];
    AllWritesTargets(spec, earlier);
    AllWritesTargets(spec, all);
    AllWritesOneMore(earlier, now);
    forall k | 0 <= k < |now.order| ensures now.order[k].key.0 < |spec.metrics| {
      assert AllWrites(all)[|AllWrites(earlier)| + k] == now.order[k];
    }
    ApplyConcat(spec, Fresh(spec), AllWrites(earlier), now.order);
  }

  /**
   The clients run one after another, as Collector.Scrape does, is one of the possible
   interleavings: from the vectors earlier scrapes left, it ends in the same vectors.
   */
  lemma {:induction false} SequentialScrapeIsPossible(
      spec: CollectorSpec, earlier: seq<Scrape>, clients: seq<Client>)
    requires AllWellFormed(clients) && AllPossible(spec, earlier) && !After(spec, earlier).panicked
    ensures var now := Scrape(clients, Flatten(Writers(spec, clients)));
            AllPossible(spec, earlier + [now])
            && After(spec, earlier + [now]) == ClientsOutcome(spec, After(spec, earlier).vecs, clients)
  {
    FlattenIsShuffle(Writers(spec, clients));
    AfterOneMore(spec, earlier, Scrape(clients, Flatten(Writers(spec, clients))));
  }

  // ---- where distinct keys come from, and where they do not ----

  ghost predicate NulFree(l: Labels, arity: nat) {
    |l| == arity && forall i :: 0 <= i < |l| ==> '\0' !in l[i]
  }

  /** No label cell of any row read holds NUL. */
  ghost predicate LabelCellsNulFree(spec: CollectorSpec, scrapes: seq<Scrape>)
    requires AllPossible(spec, scrapes)
  {
    forall t, c, k, j ::
      (0 <= t < |scrapes| && IsRow(spec, scrapes[t].clients, c, k)
       && 0 <= j < |LabelsAt(spec, scrapes[t].clients, c, k)|) ==> '\0' !in LabelsAt(spec, scrapes[t].clients, c, k)[j]
  }

  /** Every row has the spec's arity, so label cells without NUL have distinct keys. */
  lemma {:induction false} NulFreeRowsKeysDistinct(spec: CollectorSpec, scrapes: seq<Scrape>)
    requires AllPossible(spec, scrapes) && LabelCellsNulFree(spec, scrapes)
    ensures RowKeysDistinct(spec, scrapes)
  {
    forall i: nat, a, b, x, y |
      IsCellOf(spec, scrapes, i, a, x) && IsCellOf(spec, scrapes, i, b, y) && CD.KeyOf(a) == CD.KeyOf(b)
      ensures a == b
    {
      CellNulFree(spec, scrapes, i, a, x);
      CellNulFree(spec, scrapes, i, b, y);
      CD.NulFreeTuplesInjective({a, b}, 1 + |spec.labels|);
    }
  }

  lemma {:induction false} CellNulFree(spec: CollectorSpec, scrapes: seq<Scrape>, i: nat, l: Labels, v: real)
    requires AllPossible(spec, scrapes) && LabelCellsNulFree(spec, scrapes) && IsCellOf(spec, scrapes, i, l, v)
    ensures NulFree(l, 1 + |spec.labels|)
  {
    var t :| 0 <= t < |scrapes| && IsCell(spec, scrapes[t].clients, i, l, v);
    var c: nat, k: nat :| CellAt(spec, scrapes[t].clients, c, k, i, l, v);
    RowLabelsPrint(spec, scrapes[t].clients[c].answer.columns, scrapes[t].clients[c].answer.rows[k], l);
    assert LabelsAt(spec, scrapes[t].clients, c, k) == l;
  }

  // ---- two rows of bytea labels ----

  /** A spec with one counter and two labels beside the database. */
  ghost predicate IsPairSpec(spec: CollectorSpec) {
    && spec.minMajor <= 0 && spec.labels == ["x", "y"]
    && |spec.metrics| == 1 && spec.metrics[0].column == "v" && spec.metrics[0].scale == 0.0 && IsCounter(spec.metrics[0])
  }

  const PAIR_COLUMNS := ["database", "x", "y", "v"]

  function PairRow(x: string, y: string): seq<Cell> { [Other("d"), Other(x), Other(y), Number(1.0, "1")] }

  lemma PairColumns(spec: CollectorSpec)
    requires IsPairSpec(spec)
    ensures ColumnsOk(spec, PAIR_COLUMNS)
    ensures ColumnOf(PAIR_COLUMNS, "database") == 0 && ColumnOf(PAIR_COLUMNS, "x") == 1
    ensures ColumnOf(PAIR_COLUMNS, "y") == 2 && ColumnOf(PAIR_COLUMNS, "v") == 3
  {
    var cs := PAIR_COLUMNS;
    assert cs[0] == "database" && cs[1] == "x" && cs[2] == "y" && cs[3] == "v";
  }

  lemma PairWrites(spec: CollectorSpec, x: string, y: string)
    requires IsPairSpec(spec)
    ensures ColumnsOk(spec, PAIR_COLUMNS)
    ensures RowLabels(spec, PAIR_COLUMNS, PairRow(x, y)) == ["d", x, y]
    ensures RowWrites(spec, PAIR_COLUMNS, PairRow(x, y), 1) == [Write((0, ["d", x, y]), 1.0)]
  {
    PairColumns(spec);
    assert RowWrites(spec, PAIR_COLUMNS, PairRow(x, y), 0) == [];
  }

  lemma PairKeys(a: string, b: string, c: string)
    ensures CD.KeyOf(["d", a + "\0" + b, c]) == CD.KeyOf(["d", a, b + "\0" + c])
  {
    JoinThree("d", a + "\0" + b, c, "\0");
    JoinThree("d", a, b + "\0" + c, "\0");
    assert (a + "\0" + b) + "\0" + c == a + "\0" + (b + "\0" + c);
  }

  /** The one client's scrape of these two rows. */
  function PairScrape(a: string, b: string, c: string): Scrape {
    Scrape([Client(0, Rows(PAIR_COLUMNS, [PairRow(a + "\0" + b, c), PairRow(a, b + "\0" + c)], AllRead))],
           [Write((0, ["d", a + "\0" + b, c]), 1.0), Write((0, ["d", a, b + "\0" + c]), 1.0)])
  }

  /**
   Label cells that hold NUL, as bytea columns may, can give two rows of one query
   different labels and one key: both show one, and the second is emitted as zero.
   */
  lemma {:induction false} BytesBreakEmission(spec: CollectorSpec, a: string, b: string, c: string)
    requires IsPairSpec(spec)
    ensures var now := PairScrape(a, b, c);
      && Possible(spec, now) && !SomeClientFails(spec, now.clients)
      && Targets(spec, AllWrites([now])) && CountersOk(spec, [now]) && !EmitsLatest(spec, AllWrites([now]))
  {
    var now := PairScrape(a, b, c);
    PairWrites(spec, a + "\0" + b, c);
    PairWrites(spec, a, b + "\0" + c);
    PairKeys(a, b, c);
    PairScrapePossible(spec, a, b, c);
    assert Init([now]) == [] && AllWrites([now]) == [] + now.order == now.order;
    var s, t := ["d", a + "\0" + b, c], ["d", a, b + "\0" + c];
    assert s[1] == a + "\0" + b && t[1] == a && |s[1]| > |t[1]|;
    CollisionEmits(spec, 0, s, t);
    CountersOkIff(spec, [now]);
  }

  lemma {:induction false} PairScrapePossible(spec: CollectorSpec, a: string, b: string, c: string)
    requires IsPairSpec(spec)
    ensures Possible(spec, PairScrape(a, b, c)) && !SomeClientFails(spec, PairScrape(a, b, c).clients)
  {
    var now := PairScrape(a, b, c);
    var client := now.clients[0];
    var rows := client.answer.rows;
    PairWrites(spec, a + "\0" + b, c);
    PairWrites(spec, a, b + "\0" + c);
    assert Init(rows) == [rows[0]] && Init([rows[0]]) == [];
    assert RowsWrites(spec, PAIR_COLUMNS, [rows[0]]) == [now.order[0]];
    assert RowsWrites(spec, PAIR_COLUMNS, rows) == now.order;
    FlattenIsShuffle(Writers(spec, now.clients));
    assert Init(Writers(spec, now.clients)) == [];
    assert Flatten(Writers(spec, now.clients)) == now.order;
  }
}
