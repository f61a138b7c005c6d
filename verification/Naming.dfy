/**
 Names of collectors added after construction. Names label the self-metrics, so two
 collectors with one name overwrite each other's cardinality gauge.
 */
module Naming {
  import opened Text
  import opened Options
  import opened History
  import opened SpecYaml
  import SC = ScrapeCycle

  const CUSTOM := "custom_"
  const SPEC := "spec_"

  function CustomName(n: nat): string { CUSTOM + Itoa(n) }

  lemma CustomNamesInjective(a: nat, b: nat)
    requires CustomName(a) == CustomName(b)
    ensures a == b
  {
    assert CustomName(a)[|CUSTOM|..] == Itoa(a) && CustomName(b)[|CUSTOM|..] == Itoa(b);
    ItoaInjective(a, b);
  }

  /** The names one call gives when `start` collectors exist: each append also moves the counter. */
  function NamesOfCall(start: nat, k: nat): seq<string> {
    seq(k, i requires 0 <= i < k => CustomName(start + 2 * i))
  }

  class Exporter {
    var names: seq<string>

    constructor (resolved: seq<string>)
      ensures names == resolved
    {
      names := resolved;
    }

    method WithCustomCollectors(k: nat)
      modifies this
      ensures names == old(names) + StepNames(|old(names)|, Custom(k))
    {
      var i := 0;
      while i < k
        invariant 0 <= i <= k && names == old(names) + NamesOfCall(|old(names)|, i)
      {
        names := names + [CUSTOM + Itoa(|names| + i)];
        assert NamesOfCall(|old(names)|, i + 1) == NamesOfCall(|old(names)|, i) + [CustomName(|old(names)| + 2 * i)];
        i := i + 1;
      }
    }

    /** All specs are registered in order, or on an error none is. */
    method ExtendFromYaml(raw: seq<YamlSpec>) returns (ok: bool)
      modifies this
      ensures ok <==> forall i :: 0 <= i < |raw| ==> Acceptable(raw[i])
      ensures names == if ok then old(names) + StepNames(|old(names)|, Yaml(Subsystems(raw))) else old(names)
      ensures ok ==> |names| == |old(names)| + |raw|
                     && forall i :: 0 <= i < |raw| ==> names[|old(names)| + i] == "spec_" + raw[i].subsystem
    {
      var r := ParseSpecs(raw);
      if r.Err? { return false; }
      var i := 0;
      while i < |r.value|
        invariant 0 <= i <= |r.value| && names == old(names) + SpecNames(Subsystems(raw))[..i]
      {
        assert !Panics(r.value[i]);
        names := names + [SPEC + r.value[i].subsystem];
        i := i + 1;
      }
      ok := true;
    }
  }

  function Subsystems(raw: seq<YamlSpec>): (r: seq<string>)
    ensures |r| == |raw|
  {
    seq(|raw|, i requires 0 <= i < |raw| => raw[i].subsystem)
  }

  function SpecNames(subsystems: seq<string>): (r: seq<string>)
    ensures |r| == |subsystems|
  {
    seq(|subsystems|, i requires 0 <= i < |subsystems| => SPEC + subsystems[i])
  }

  /** The texts of the names a call gives when `start` collectors exist. */
  lemma NameTexts(start: nat, step: Step, i: nat)
    requires i < |StepNames(start, step)|
    ensures |StepNames(start, step)| == match step case Custom(k) => k case Yaml(subs) => |subs|
    ensures StepNames(start, step)[i] ==
      match step case Custom(_) => "custom_" + Itoa(start + 2 * i) case Yaml(subs) => "spec_" + subs[i]
  {
  }

  // ---- collisions ----

  ghost predicate AllDistinct(s: seq<string>) { forall i, j :: 0 <= i < j < |s| ==> s[i] != s[j] }

  ghost predicate Collide(a: seq<string>, b: seq<string>) {
    exists i, j :: 0 <= i < |a| && 0 <= j < |b| && a[i] == b[j]
  }

  lemma OneCallDistinct(start: nat, k: nat)
    ensures AllDistinct(NamesOfCall(start, k))
  {
    var names := NamesOfCall(start, k);
    forall i, j | 0 <= i < j < k ensures names[i] != names[j] {
      if names[i] == names[j] { CustomNamesInjective(start + 2 * i, start + 2 * j); }
    }
  }

  lemma EvenDistance(start: nat, later: nat, i: nat, j: nat)
    requires start + 2 * i == later + 2 * j
    ensures (later - start) % 2 == 0 && later - start <= 2 * i
  {
    assert later - start == 2 * (i - j);
  }

  lemma NameAt(start: nat, k: nat, i: nat, name: string) returns (p: nat)
    requires i < k && NamesOfCall(start, k)[i] == name
    ensures p == start + 2 * i && CustomName(p) == name
  {
    p := start + 2 * i;
  }

  lemma CollisionNumbers(start: nat, k: nat, later: nat, m: nat) returns (i: nat, j: nat)
    requires Collide(NamesOfCall(start, k), NamesOfCall(later, m))
    ensures i < k && j < m && start + 2 * i == later + 2 * j
  {
    var x, y :| 0 <= x < k && 0 <= y < m && NamesOfCall(start, k)[x] == NamesOfCall(later, m)[y];
    var name := NamesOfCall(start, k)[x];
    var p := NameAt(start, k, x, name);
    var q := NameAt(later, m, y, name);
    CustomNamesInjective(p, q);
    i, j := x, y;
  }

  lemma NumbersCollide(start: nat, k: nat, later: nat, m: nat, i: nat)
    requires i < k && m > 0 && start + 2 * i == later
    ensures Collide(NamesOfCall(start, k), NamesOfCall(later, m))
  {
    assert NamesOfCall(start, k)[i] == NamesOfCall(later, m)[0];
  }

  lemma HalfWay(start: nat, k: nat, later: nat)
    requires start <= later && (later - start) % 2 == 0 && later - start < 2 * k
    ensures (later - start) / 2 < k && start + 2 * ((later - start) / 2) == later
  {
  }

  /**
   Two calls collide exactly when the later one is non-empty and starts an even
   distance after the earlier one, within twice its length.
   */
  lemma CallsCollideIff(start: nat, k: nat, later: nat, m: nat)
    requires start + k <= later
    ensures Collide(NamesOfCall(start, k), NamesOfCall(later, m)) <==>
      m > 0 && (later - start) % 2 == 0 && later - start < 2 * k
  {
    if Collide(NamesOfCall(start, k), NamesOfCall(later, m)) {
      var i, j := CollisionNumbers(start, k, later, m);
      EvenDistance(start, later, i, j);
    }
    if m > 0 && (later - start) % 2 == 0 && later - start < 2 * k {
      HalfWay(start, k, later);
      NumbersCollide(start, k, later, m, (later - start) / 2);
    }
  }

  /** A call with k collectors, then m YAML specs, then another call: a duplicate iff k + m is even and m < k. */
  lemma CustomYamlCustom(start: nat, k: nat, m: nat, k2: nat)
    requires k2 > 0
    ensures Collide(NamesOfCall(start, k), NamesOfCall(start + k + m, k2)) <==> (k + m) % 2 == 0 && m < k
  {
    CallsCollideIff(start, k, start + k + m, k2);
  }

  // ---- whole histories of calls ----

  datatype Step = Custom(k: nat) | Yaml(subsystems: seq<string>)

  /** The names one call appends when `start` collectors exist. */
  function StepNames(start: nat, step: Step): seq<string> {
    match step case Custom(k) => NamesOfCall(start, k) case Yaml(subs) => SpecNames(subs)
  }

  function StepLength(s: Step): nat { match s case Custom(k) => k case Yaml(subs) => |subs| }

  /** How many collectors exist after the first `n` steps. */
  function CountAfter(start: nat, steps: seq<Step>, n: nat): nat
    requires n <= |steps|
  {
    if n == 0 then start else CountAfter(start, steps, n - 1) + StepLength(steps[n - 1])
  }

  function CustomNamesAt(start: nat, steps: seq<Step>, n: nat): seq<string>
    requires n < |steps|
  {
    match steps[n] case Custom(k) => NamesOfCall(CountAfter(start, steps, n), k) case Yaml(_) => []
  }

  /** No two custom collectors of the history share a name. */
  ghost predicate CollisionFree(start: nat, steps: seq<Step>) {
    forall a, b :: 0 <= a < b < |steps| ==> !Collide(CustomNamesAt(start, steps, a), CustomNamesAt(start, steps, b))
  }

  /** The distance between two calls is what was added in between. */
  ghost predicate Clash(start: nat, steps: seq<Step>, a: nat, b: nat)
    requires a < b < |steps|
  {
    var gap := CountAfter(start, steps, b) - CountAfter(start, steps, a);
    steps[a].Custom? && steps[b].Custom? && steps[b].k > 0 && gap % 2 == 0 && gap < 2 * steps[a].k
  }

  lemma {:induction false} CountGrows(start: nat, steps: seq<Step>, a: nat, b: nat)
    requires a < b <= |steps|
    ensures CountAfter(start, steps, b) >= CountAfter(start, steps, a) + StepLength(steps[a])
  {
    if b > a + 1 { CountGrows(start, steps, a, b - 1); }
  }

  /** A history is collision-free exactly when no pair of its calls clashes. */
  lemma CollisionFreeIff(start: nat, steps: seq<Step>)
    ensures CollisionFree(start, steps) <==> forall a, b :: 0 <= a < b < |steps| ==> !Clash(start, steps, a, b)
  {
    forall a, b | 0 <= a < b < |steps|
      ensures Collide(CustomNamesAt(start, steps, a), CustomNamesAt(start, steps, b)) <==> Clash(start, steps, a, b)
    {
      CountGrows(start, steps, a, b);
      if steps[a].Custom? && steps[b].Custom? {
        CallsCollideIff(CountAfter(start, steps, a), steps[a].k, CountAfter(start, steps, b), steps[b].k);
      }
    }
  }

  lemma ShortCallsNeverClash(start: nat, steps: seq<Step>, a: nat, b: nat)
    requires a < b < |steps| && (steps[a].Custom? ==> steps[a].k <= 1)
    ensures !Clash(start, steps, a, b)
  {
    CountGrows(start, steps, a, b);
  }

  /** Adding custom collectors one per call never repeats a name. */
  lemma OneAtATimeIsSafe(start: nat, steps: seq<Step>)
    requires forall n :: 0 <= n < |steps| && steps[n].Custom? ==> steps[n].k <= 1
    ensures CollisionFree(start, steps)
  {
    forall a, b | 0 <= a < b < |steps| ensures !Clash(start, steps, a, b) {
      ShortCallsNeverClash(start, steps, a, b);
    }
    CollisionFreeIff(start, steps);
  }

  /** Two calls of two collectors each already repeat a name. */
  lemma TwoPairsCollide(start: nat)
    ensures !CollisionFree(start, [Custom(2), Custom(2)])
  {
    var steps := [Custom(2), Custom(2)];
    CollisionFreeIff(start, steps);
    assert CountAfter(start, steps, 1) == start + 2;
    assert Clash(start, steps, 0, 1);
  }

  // ---- all names ----

  /** The names after the first `n` calls. */
  function NamesAfter(resolved: seq<string>, steps: seq<Step>, n: nat): seq<string>
    requires n <= |steps|
  {
    if n == 0 then resolved
    else var names := NamesAfter(resolved, steps, n - 1); names + StepNames(|names|, steps[n - 1])
  }

  /** The subsystems of the YAML specs among the first `n` calls. */
  function SubsystemsAfter(steps: seq<Step>, n: nat): seq<string>
    requires n <= |steps|
  {
    if n == 0 then []
    else SubsystemsAfter(steps, n - 1) + match steps[n - 1] case Custom(_) => [] case Yaml(subs) => subs
  }

  /** Not a name that a later call could give. */
  predicate Plain(name: string) { !(CUSTOM <= name) && !(SPEC <= name) }

  ghost predicate AllPlain(names: seq<string>) { forall i :: 0 <= i < |names| ==> Plain(names[i]) }

  lemma {:induction false} NamesLength(resolved: seq<string>, steps: seq<Step>, n: nat)
    requires n <= |steps|
    ensures |NamesAfter(resolved, steps, n)| == CountAfter(|resolved|, steps, n)
  {
    if n > 0 { NamesLength(resolved, steps, n - 1); }
  }

  lemma DistinctConcat(a: seq<string>, b: seq<string>)
    ensures AllDistinct(a + b) <==> AllDistinct(a) && AllDistinct(b) && !Collide(a, b)
  {
    var c := a + b;
    if AllDistinct(c) {
      forall i, j | 0 <= i < j < |a| ensures a[i] != a[j] { assert c[i] == a[i] && c[j] == a[j]; }
      forall i, j | 0 <= i < j < |b| ensures b[i] != b[j] { assert c[|a| + i] == b[i] && c[|a| + j] == b[j]; }
      forall i, j | 0 <= i < |a| && 0 <= j < |b| ensures a[i] != b[j] { assert c[i] == a[i] && c[|a| + j] == b[j]; }
    }
  }

  lemma {:induction false} SpecNamesDistinct(subs: seq<string>)
    ensures AllDistinct(SpecNames(subs)) <==> AllDistinct(subs)
  {
    forall i, j | 0 <= i < |subs| && 0 <= j < |subs|
      ensures SpecNames(subs)[i] == SpecNames(subs)[j] <==> subs[i] == subs[j]
    {
      assert SpecNames(subs)[i][|SPEC|..] == subs[i] && SpecNames(subs)[j][|SPEC|..] == subs[j];
    }
  }

  lemma KindsDiffer(n: nat, sub: string)
    ensures CUSTOM <= CustomName(n) && SPEC <= SPEC + sub && CustomName(n) != SPEC + sub
  {
    assert CustomName(n)[0] == 'c' && (SPEC + sub)[0] == 's';
  }

  /** The names so far: the resolved ones, the specs', and those of the custom calls. */
  ghost predicate IsName(resolved: seq<string>, steps: seq<Step>, n: nat, name: string)
    requires n <= |steps|
  {
    || name in resolved
    || name in SpecNames(SubsystemsAfter(steps, n))
    || exists a :: 0 <= a < n && name in CustomNamesAt(|resolved|, steps, a)
  }

  lemma {:induction false} NamesExactly(resolved: seq<string>, steps: seq<Step>, n: nat, name: string)
    requires n <= |steps|
    ensures name in NamesAfter(resolved, steps, n) <==> IsName(resolved, steps, n, name)
  {
    if n > 0 {
      NamesExactly(resolved, steps, n - 1, name);
      NamesLength(resolved, steps, n - 1);
      SpecNamesConcat(SubsystemsAfter(steps, n - 1), match steps[n - 1] case Custom(_) => [] case Yaml(subs) => subs);
      if name in StepNames(|NamesAfter(resolved, steps, n - 1)|, steps[n - 1]) && steps[n - 1].Custom? {
        assert name in CustomNamesAt(|resolved|, steps, n - 1);
      }
    }
  }

  lemma SpecNamesConcat(a: seq<string>, b: seq<string>)
    ensures SpecNames(a + b) == SpecNames(a) + SpecNames(b)
  {
  }

  /** An earlier custom call gave a name that call `n` gives. */
  ghost predicate RepeatsCustom(start: nat, steps: seq<Step>, n: nat)
    requires n < |steps|
  {
    exists a :: 0 <= a < n && Collide(CustomNamesAt(start, steps, a), CustomNamesAt(start, steps, n))
  }

  lemma {:induction false} CustomNameIsNew(resolved: seq<string>, steps: seq<Step>, n: nat, j: nat)
    requires n < |steps| && AllPlain(resolved) && steps[n].Custom? && j < steps[n].k
    ensures var name := CustomNamesAt(|resolved|, steps, n)[j];
      name in NamesAfter(resolved, steps, n) <==>
        exists a :: 0 <= a < n && name in CustomNamesAt(|resolved|, steps, a)
  {
    var number := CountAfter(|resolved|, steps, n) + 2 * j;
    NamesExactly(resolved, steps, n, CustomName(number));
    NotSpecName(SubsystemsAfter(steps, n), number);
    KindsDiffer(number, "");
  }

  lemma CollideAt(a: seq<string>, b: seq<string>, name: string)
    requires name in a && name in b
    ensures Collide(a, b)
  {
    var i :| 0 <= i < |a| && a[i] == name;
    var j :| 0 <= j < |b| && b[j] == name;
  }

  lemma CollisionPoint(a: seq<string>, b: seq<string>) returns (j: nat)
    requires Collide(a, b)
    ensures j < |b| && b[j] in a
  {
    var i, k :| 0 <= i < |a| && 0 <= k < |b| && a[i] == b[k];
    j := k;
  }

  /** A custom call's names repeat earlier ones exactly when they repeat those of a custom call. */
  lemma {:induction false} CustomRepeats(resolved: seq<string>, steps: seq<Step>, n: nat)
    requires n < |steps| && AllPlain(resolved) && steps[n].Custom?
    ensures Collide(NamesAfter(resolved, steps, n), CustomNamesAt(|resolved|, steps, n)) <==>
            RepeatsCustom(|resolved|, steps, n)
  {
    var names, block := NamesAfter(resolved, steps, n), CustomNamesAt(|resolved|, steps, n);
    if Collide(names, block) {
      var j := CollisionPoint(names, block);
      CustomNameIsNew(resolved, steps, n, j);
      var a :| 0 <= a < n && block[j] in CustomNamesAt(|resolved|, steps, a);
      CollideAt(CustomNamesAt(|resolved|, steps, a), block, block[j]);
    }
    if RepeatsCustom(|resolved|, steps, n) {
      var a :| 0 <= a < n && Collide(CustomNamesAt(|resolved|, steps, a), block);
      var j := CollisionPoint(CustomNamesAt(|resolved|, steps, a), block);
      CustomNameIsNew(resolved, steps, n, j);
      CollideAt(names, block, block[j]);
    }
  }

  lemma NotSpecName(subs: seq<string>, n: nat)
    ensures CustomName(n) !in SpecNames(subs)
  {
    forall i | 0 <= i < |subs| ensures SpecNames(subs)[i] != CustomName(n) { KindsDiffer(n, subs[i]); }
  }

  lemma {:induction false} SpecRepeats(resolved: seq<string>, steps: seq<Step>, n: nat)
    requires n < |steps| && AllPlain(resolved) && steps[n].Yaml?
    ensures Collide(NamesAfter(resolved, steps, n), SpecNames(steps[n].subsystems)) <==>
            Collide(SpecNames(SubsystemsAfter(steps, n)), SpecNames(steps[n].subsystems))
  {
    var names := NamesAfter(resolved, steps, n);
    var old', block := SpecNames(SubsystemsAfter(steps, n)), SpecNames(steps[n].subsystems);
    if i, j :| 0 <= i < |names| && 0 <= j < |block| && names[i] == block[j] {
      NamesExactly(resolved, steps, n, block[j]);
      assert SPEC <= block[j];
      forall a | 0 <= a < n ensures block[j] !in CustomNamesAt(|resolved|, steps, a) {
        forall m | 0 <= m < |CustomNamesAt(|resolved|, steps, a)|
          ensures CustomNamesAt(|resolved|, steps, a)[m] != block[j]
        {
          KindsDiffer(CountAfter(|resolved|, steps, a) + 2 * m, steps[n].subsystems[j]);
        }
      }
      assert block[j] in old';
    }
    if i, j :| 0 <= i < |old'| && 0 <= j < |block| && old'[i] == block[j] {
      NamesExactly(resolved, steps, n, block[j]);
      assert block[j] in names;
    }
  }

  /** The custom calls among the first `n` steps share no name. */
  ghost predicate CollisionFreeTo(start: nat, steps: seq<Step>, n: nat)
    requires n <= |steps|
  {
    forall a, b :: 0 <= a < b < n ==> !Collide(CustomNamesAt(start, steps, a), CustomNamesAt(start, steps, b))
  }

  lemma CollisionFreeToSnoc(start: nat, steps: seq<Step>, n: nat)
    requires n < |steps|
    ensures CollisionFreeTo(start, steps, n + 1) <==> CollisionFreeTo(start, steps, n) && !RepeatsCustom(start, steps, n)
  {
  }

  lemma {:induction false} CustomCallDistinct(resolved: seq<string>, steps: seq<Step>, n: nat)
    requires n < |steps| && AllPlain(resolved) && steps[n].Custom?
    ensures AllDistinct(NamesAfter(resolved, steps, n + 1)) <==>
            AllDistinct(NamesAfter(resolved, steps, n)) && !RepeatsCustom(|resolved|, steps, n)
  {
    var names := NamesAfter(resolved, steps, n);
    NamesLength(resolved, steps, n);
    OneCallDistinct(|names|, steps[n].k);
    CustomRepeats(resolved, steps, n);
    DistinctConcat(names, StepNames(|names|, steps[n]));
  }

  lemma {:induction false} YamlCallDistinct(resolved: seq<string>, steps: seq<Step>, n: nat)
    requires n < |steps| && AllPlain(resolved) && steps[n].Yaml?
    requires AllDistinct(NamesAfter(resolved, steps, n)) ==> AllDistinct(SpecNames(SubsystemsAfter(steps, n)))
    ensures AllDistinct(NamesAfter(resolved, steps, n + 1)) <==>
            AllDistinct(NamesAfter(resolved, steps, n)) && AllDistinct(SpecNames(SubsystemsAfter(steps, n + 1)))
  {
    var names := NamesAfter(resolved, steps, n);
    var specs, block := SpecNames(SubsystemsAfter(steps, n)), SpecNames(steps[n].subsystems);
    SpecRepeats(resolved, steps, n);
    DistinctConcat(names, block);
    DistinctConcat(specs, block);
    SpecNamesConcat(SubsystemsAfter(steps, n), steps[n].subsystems);
  }

  /** Each kind of name is distinct on its own. */
  ghost predicate DistinctByKind(resolved: seq<string>, steps: seq<Step>, n: nat)
    requires n <= |steps|
  {
    && AllDistinct(resolved) && CollisionFreeTo(|resolved|, steps, n)
    && AllDistinct(SpecNames(SubsystemsAfter(steps, n)))
  }

  lemma {:induction false} SpecPrefixDistinct(steps: seq<Step>, n: nat)
    requires n < |steps| && AllDistinct(SpecNames(SubsystemsAfter(steps, n + 1)))
    ensures AllDistinct(SpecNames(SubsystemsAfter(steps, n)))
  {
    var more := match steps[n] case Custom(_) => [] case Yaml(subs) => subs;
    SpecNamesConcat(SubsystemsAfter(steps, n), more);
    DistinctConcat(SpecNames(SubsystemsAfter(steps, n)), SpecNames(more));
  }

  lemma {:induction false} KindsSnoc(resolved: seq<string>, steps: seq<Step>, n: nat)
    requires n < |steps|
    ensures DistinctByKind(resolved, steps, n + 1) <==>
            DistinctByKind(resolved, steps, n)
            && if steps[n].Custom? then !RepeatsCustom(|resolved|, steps, n)
               else AllDistinct(SpecNames(SubsystemsAfter(steps, n + 1)))
  {
    CollisionFreeToSnoc(|resolved|, steps, n);
    if steps[n].Custom? {
      assert SubsystemsAfter(steps, n + 1) == SubsystemsAfter(steps, n);
    } else {
      assert CustomNamesAt(|resolved|, steps, n) == [];
      if AllDistinct(SpecNames(SubsystemsAfter(steps, n + 1))) { SpecPrefixDistinct(steps, n); }
    }
  }

  lemma {:induction false} NamesDistinctTo(resolved: seq<string>, steps: seq<Step>, n: nat)
    requires n <= |steps| && AllPlain(resolved)
    ensures AllDistinct(NamesAfter(resolved, steps, n)) <==> DistinctByKind(resolved, steps, n)
  {
    if n > 0 {
      NamesDistinctTo(resolved, steps, n - 1);
      KindsSnoc(resolved, steps, n - 1);
      if steps[n - 1].Custom? {
        CustomCallDistinct(resolved, steps, n - 1);
      } else {
        YamlCallDistinct(resolved, steps, n - 1);
      }
    }
  }

  /**
   After any history of calls, all names are distinct exactly when the resolved ones
   were, no two custom calls clash, and no two YAML specs share a subsystem.
   */
  lemma {:induction false} NamesDistinctIff(resolved: seq<string>, steps: seq<Step>)
    requires AllPlain(resolved)
    ensures AllDistinct(NamesAfter(resolved, steps, |steps|)) <==>
      && AllDistinct(resolved)
      && (forall a, b :: 0 <= a < b < |steps| ==> !Clash(|resolved|, steps, a, b))
      && AllDistinct(SubsystemsAfter(steps, |steps|))
  {
    NamesDistinctTo(resolved, steps, |steps|);
    CollisionFreeIff(|resolved|, steps);
    SpecNamesDistinct(SubsystemsAfter(steps, |steps|));
  }

  /** In that case the gauges of every cycle sum to the metrics it forwarded. */
  lemma {:induction false} HistoryGaugesSum(resolved: seq<string>, steps: seq<Step>, c: SC.Cycle, s: SC.State)
    requires AllPlain(resolved) && AllDistinct(resolved)
    requires forall a, b :: 0 <= a < b < |steps| ==> !Clash(|resolved|, steps, a, b)
    requires AllDistinct(SubsystemsAfter(steps, |steps|))
    requires c.Valid() && SC.Finished(c, s) && c.names == NamesAfter(resolved, steps, |steps|)
    ensures forall i :: 0 <= i < |c.names| ==> c.names[i] in s.own.cardinality
    ensures SC.GaugeSum(c.names, s.own.cardinality) == |SC.AllForwarded(s.sink)|
  {
    NamesDistinctIff(resolved, steps);
    SC.GaugesSumToForwarded(c, s);
  }
}
