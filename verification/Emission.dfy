/**
 What a collector emits after any history of writes: the latest value of every
 metric and label tuple ever written, exactly when no two tuples share a key.
 */
module Emission {
  import opened Text
  import opened History
  import opened SpecYaml
  import opened SpecCollector
  import CD = CounterDelta

  /** The writes to metric `i`, with their label tuples. */
  ghost function OnMetric(h: seq<Write<Target>>, i: nat): seq<Write<Labels>> {
    if h == [] then []
    else OnMetric(Init(h), i) + if Last(h).key.0 == i then [Write(Last(h).key.1, Last(h).value)] else []
  }

  ghost predicate CountersNonNegative(spec: CollectorSpec, h: seq<Write<Target>>)
    requires Targets(spec, h)
  {
    forall k :: 0 <= k < |h| && IsCounter(spec.metrics[h[k].key.0]) ==> h[k].value >= 0.0
  }

  /** The label tuples of each counter have distinct keys. */
  ghost predicate KeysDistinct(spec: CollectorSpec, h: seq<Write<Target>>) {
    forall i :: 0 <= i < |spec.metrics| && IsCounter(spec.metrics[i]) ==> CD.InjectiveOn(Keys(OnMetric(h, i)))
  }

  lemma OnMetricSnoc(h: seq<Write<Target>>, w: Write<Target>, i: nat)
    ensures OnMetric(h + [w], i) ==
              if w.key.0 == i then OnMetric(h, i) + [Write(w.key.1, w.value)] else OnMetric(h, i)
  {
  }

  /** The latest value on a metric is the latest value of the whole history there. */
  lemma {:induction false} LatestOnMetric(h: seq<Write<Target>>, i: nat, l: Labels)
    ensures l in Keys(OnMetric(h, i)) <==> (i, l) in Keys(h)
    ensures (i, l) in Keys(h) ==> LastValue(OnMetric(h, i), l) == LastValue(h, (i, l))
  {
    SameEntry(h, i, l);
    assert Keys(h) == Latest(h).Keys && Keys(OnMetric(h, i)) == Latest(OnMetric(h, i)).Keys;
  }

  lemma {:induction false} SameEntry(h: seq<Write<Target>>, i: nat, l: Labels)
    ensures l in Latest(OnMetric(h, i)) <==> (i, l) in Latest(h)
    ensures (i, l) in Latest(h) ==> Latest(OnMetric(h, i))[l] == Latest(h)[(i, l)]
  {
    if h != [] {
      var p, w := Init(h), Last(h);
      SameEntry(p, i, l);
      LatestSnoc(h);
      if w.key.0 == i {
        LatestSnoc(OnMetric(p, i) + [Write(w.key.1, w.value)]);
        assert Init(OnMetric(h, i)) == OnMetric(p, i);
        assert w.key == (i, w.key.1);
      } else {
        assert OnMetric(h, i) == OnMetric(p, i);
      }
    }
  }

  /** Vector `i` is in the state its own writes alone would leave it in. */
  ghost predicate PerMetric(spec: CollectorSpec, v: Vecs, h: seq<Write<Target>>, i: nat)
    requires i < |v.counter| == |v.gauge| == |spec.metrics|
  {
    if IsCounter(spec.metrics[i]) then
      v.counter[i].Some? && !CD.Run(OnMetric(h, i)).panicked && v.counter[i].value == CD.Run(OnMetric(h, i)).state
    else
      v.gauge[i].Some? && v.gauge[i].value == Latest(OnMetric(h, i))
  }

  lemma {:induction false} RunOneMore(h: seq<Write<Labels>>, w: Write<Labels>)
    requires !CD.Run(h).panicked
    ensures CD.Run(h + [w]).panicked == CD.ObserveStep(CD.Run(h).state, w).panicked
    ensures CD.Run(h + [w]).state == CD.ObserveStep(CD.Run(h).state, w).state
    ensures CD.Run(h + [w]).panicked <==> w.value < 0.0
  {
    assert Init(h + [w]) == h;
    CD.PanicsIffNegative(h);
    CD.PanicsIffNegative(h + [w]);
    assert (h + [w])[|h|] == w;
    if w.value >= 0.0 {
      forall k | 0 <= k < |h + [w]| ensures (h + [w])[k].value >= 0.0 { }
    }
  }

  /** Vectors do not disturb each other, and only a negative counter value panics. */
  lemma {:induction false} VectorsIndependent(spec: CollectorSpec, h: seq<Write<Target>>)
    requires Targets(spec, h)
    ensures ApplyAll(spec, Fresh(spec), h).panicked <==> !CountersNonNegative(spec, h)
    ensures CountersNonNegative(spec, h) ==>
      forall i :: 0 <= i < |spec.metrics| ==> PerMetric(spec, ApplyAll(spec, Fresh(spec), h).vecs, h, i)
  {
    if h != [] {
      var p, w := Init(h), Last(h);
      assert h == p + [w];
      VectorsIndependent(spec, p);
      assert CountersNonNegative(spec, h) <==>
             CountersNonNegative(spec, p) && (IsCounter(spec.metrics[w.key.0]) ==> w.value >= 0.0);
      if CountersNonNegative(spec, p) {
        var o := ApplyAll(spec, Fresh(spec), p);
        OneMoreWrite(spec, o.vecs, p, w);
      }
    }
  }

  lemma {:induction false} OneMoreWrite(spec: CollectorSpec, v: Vecs, p: seq<Write<Target>>, w: Write<Target>)
    requires Shaped(spec, v) && w.key.0 < |spec.metrics|
    requires forall i :: 0 <= i < |spec.metrics| ==> PerMetric(spec, v, p, i)
    ensures Apply(v, w).panicked <==> IsCounter(spec.metrics[w.key.0]) && w.value < 0.0
    ensures !Apply(v, w).panicked ==>
      forall i :: 0 <= i < |spec.metrics| ==> PerMetric(spec, Apply(v, w).vecs, p + [w], i)
  {
    var j, w' := w.key.0, Write(w.key.1, w.value);
    OnMetricSnoc(p, w, j);
    assert PerMetric(spec, v, p, j);
    if IsCounter(spec.metrics[j]) {
      RunOneMore(OnMetric(p, j), w');
    } else {
      LatestSnoc(OnMetric(p, j) + [w']);
      assert Init(OnMetric(p, j) + [w']) == OnMetric(p, j);
    }
    if !Apply(v, w).panicked {
      forall i | 0 <= i < |spec.metrics| ensures PerMetric(spec, Apply(v, w).vecs, p + [w], i) {
        OnMetricSnoc(p, w, i);
        assert PerMetric(spec, v, p, i);
      }
    }
  }

  lemma {:induction false} OnMetricNonNegative(spec: CollectorSpec, h: seq<Write<Target>>, i: nat)
    requires Targets(spec, h) && CountersNonNegative(spec, h) && i < |spec.metrics| && IsCounter(spec.metrics[i])
    ensures NonNegative(OnMetric(h, i))
  {
    VectorsIndependent(spec, h);
    assert PerMetric(spec, ApplyAll(spec, Fresh(spec), h).vecs, h, i);
    CD.PanicsIffNegative(OnMetric(h, i));
  }

  /** The children of every vector, counters and gauges alike, are the latest values written. */
  lemma {:induction false} ChildrenAreLatest(spec: CollectorSpec, h: seq<Write<Target>>, i: nat)
    requires Targets(spec, h) && CountersNonNegative(spec, h) && KeysDistinct(spec, h) && i < |spec.metrics|
    ensures ChildrenOf(ApplyAll(spec, Fresh(spec), h).vecs, i) == Latest(OnMetric(h, i))
  {
    VectorsIndependent(spec, h);
    assert PerMetric(spec, ApplyAll(spec, Fresh(spec), h).vecs, h, i);
    if IsCounter(spec.metrics[i]) {
      OnMetricNonNegative(spec, h, i);
      CD.RunTracks(OnMetric(h, i));
    }
  }

  /** A listing of samples that holds exactly the entries of `e`, each once. */
  ghost predicate ListsExactly(out: seq<Sample>, e: map<Target, real>) {
    (forall i: nat, l, x :: Sample(i, l, x) in out <==> (i, l) in e && e[(i, l)] == x) && AllDistinct(out)
  }

  lemma TargetInRange(spec: CollectorSpec, h: seq<Write<Target>>, t: Target)
    requires Targets(spec, h)
    ensures t in Keys(h) ==> t.0 < |spec.metrics|
  {
  }

  /** What is emitted after any history of writes: the latest value of each target, once. */
  lemma {:induction false} EmissionIsLatest(spec: CollectorSpec, h: seq<Write<Target>>, out: seq<Sample>)
    requires Targets(spec, h) && CountersNonNegative(spec, h) && KeysDistinct(spec, h)
    requires EmitsAll(ApplyAll(spec, Fresh(spec), h).vecs, out)
    ensures ListsExactly(out, Latest(h))
  {
    var v := ApplyAll(spec, Fresh(spec), h).vecs;
    forall i: nat, l, x ensures Sample(i, l, x) in out <==> (i, l) in Latest(h) && Latest(h)[(i, l)] == x {
      assert Sample(i, l, x) in out <==> IsChild(v, Sample(i, l, x));
      LatestOnMetric(h, i, l);
      TargetInRange(spec, h, (i, l));
      if i < |spec.metrics| { ChildrenAreLatest(spec, h, i); }
    }
  }

  // ---- exactly when the emission is the latest values ----

  /** Whatever is emitted after these writes, it lists the latest values. */
  ghost predicate EmitsLatest(spec: CollectorSpec, h: seq<Write<Target>>)
    requires Targets(spec, h)
  {
    forall out :: EmitsAll(ApplyAll(spec, Fresh(spec), h).vecs, out) ==> ListsExactly(out, Latest(h))
  }

  /** The label tuples that any counter may be given have distinct keys. */
  ghost predicate TargetsDistinct(spec: CollectorSpec, targets: set<Target>) {
    forall i: nat, a, b ::
      (i < |spec.metrics| && IsCounter(spec.metrics[i]) && (i, a) in targets && (i, b) in targets
       && CD.KeyOf(a) == CD.KeyOf(b)) ==> a == b
  }

  lemma {:induction false} ListVec(v: Vecs, i: nat) returns (out: seq<Sample>)
    requires i < |v.counter| == |v.gauge|
    ensures Lists(v, out, {i})
  {
    var children := ChildrenOf(v, i);
    var left := children.Keys;
    out := [];
    while left != {}
      invariant left <= children.Keys && AllDistinct(out)
      invariant forall k :: 0 <= k < |out| ==> out[k].metric == i && IsChild(v, out[k]) && out[k].labels !in left
      invariant forall l :: l in children && l !in left ==> Sample(i, l, children[l]) in out
    {
      var l :| l in left;
      out := out + [Sample(i, l, children[l])];
      left := left - {l};
    }
  }

  function Below(n: nat): (r: set<nat>)
    ensures forall i: nat :: i in r <==> i < n
  {
    if n == 0 then {} else Below(n - 1) + {n - 1}
  }

  /** Some listing of all children exists. */
  lemma {:induction false} ListAll(v: Vecs, n: nat) returns (out: seq<Sample>)
    requires n <= |v.counter| == |v.gauge|
    ensures Lists(v, out, Below(n))
  {
    if n == 0 {
      out := [];
    } else {
      out := ListAll(v, n - 1);
      var block := ListVec(v, n - 1);
      ListsBlock(v, out, Below(n - 1), n - 1, block);
      out := out + block;
      assert Below(n) == Below(n - 1) + {n - 1};
    }
  }

  lemma {:induction false} EmissionExists(v: Vecs) returns (out: seq<Sample>)
    requires |v.counter| == |v.gauge|
    ensures EmitsAll(v, out)
  {
    out := ListAll(v, |v.counter|);
    forall s ensures IsChild(v, s) <==> s in out {
      if s in out { var k :| 0 <= k < |out| && out[k] == s; }
    }
  }

  /** Two tuples of one key: after one write each, the second emits zero instead of one. */
  lemma {:induction false} CollisionEmits(spec: CollectorSpec, i: nat, a: Labels, b: Labels)
    requires i < |spec.metrics| && IsCounter(spec.metrics[i]) && a != b && CD.KeyOf(a) == CD.KeyOf(b)
    ensures var h := [Write((i, a), 1.0), Write((i, b), 1.0)];
      Targets(spec, h) && CountersNonNegative(spec, h) && !EmitsLatest(spec, h)
  {
    var h := [Write((i, a), 1.0), Write((i, b), 1.0)];
    var v := ApplyAll(spec, Fresh(spec), h).vecs;
    VectorsIndependent(spec, h);
    assert PerMetric(spec, v, h, i);
    assert OnMetric(h, i) == [Write(a, 1.0), Write(b, 1.0)] by {
      assert Init(h) == [h[0]] && Init([h[0]]) == [];
      OnMetricSnoc([], h[0], i);
      OnMetricSnoc([h[0]], h[1], i);
      assert [] + [h[0]] == [h[0]] && [h[0]] + [h[1]] == h;
    }
    CD.CollisionBreaks(a, b);
    assert IsChild(v, Sample(i, b, 0.0));
    assert h[1].key == (i, b) && Last(h) == h[1];
    var out := EmissionExists(v);
    assert Sample(i, b, 0.0) in out && Latest(h)[(i, b)] == 1.0;
  }

  lemma {:induction false} DistinctTargetsSuffice(spec: CollectorSpec, targets: set<Target>, h: seq<Write<Target>>)
    requires Targets(spec, h) && Keys(h) <= targets && TargetsDistinct(spec, targets)
    ensures KeysDistinct(spec, h)
  {
    forall i | 0 <= i < |spec.metrics| && IsCounter(spec.metrics[i]) ensures CD.InjectiveOn(Keys(OnMetric(h, i))) {
      forall a, b | a in Keys(OnMetric(h, i)) && b in Keys(OnMetric(h, i)) && CD.KeyOf(a) == CD.KeyOf(b) ensures a == b {
        LatestOnMetric(h, i, a);
        LatestOnMetric(h, i, b);
      }
    }
  }

  /**
   Over a set of metrics and label tuples, every history of non-negative counter values
   is emitted as its latest values exactly when each counter's tuples have distinct keys.
   */
  lemma {:induction false} EmittedIffDistinct(spec: CollectorSpec, targets: set<Target>)
    requires forall t :: t in targets ==> t.0 < |spec.metrics|
    ensures TargetsDistinct(spec, targets) <==>
      forall h :: Keys(h) <= targets && Targets(spec, h) && CountersNonNegative(spec, h) ==> EmitsLatest(spec, h)
  {
    if TargetsDistinct(spec, targets) {
      forall h | Keys(h) <= targets && Targets(spec, h) && CountersNonNegative(spec, h) ensures EmitsLatest(spec, h) {
        DistinctTargetsSuffice(spec, targets, h);
        forall out | EmitsAll(ApplyAll(spec, Fresh(spec), h).vecs, out) ensures ListsExactly(out, Latest(h)) {
          EmissionIsLatest(spec, h, out);
        }
      }
    } else {
      var i: nat, a, b :| i < |spec.metrics| && IsCounter(spec.metrics[i]) && (i, a) in targets && (i, b) in targets
                          && CD.KeyOf(a) == CD.KeyOf(b) && a != b;
      CollisionEmits(spec, i, a, b);
      var h := [Write((i, a), 1.0), Write((i, b), 1.0)];
      assert Keys(h) <= targets;
    }
  }
}
