/**
 Delta counters: absolute cumulative values pushed through a counter vector that
 only knows how to add. Values are exact reals; the program uses float64, which
 is exact for integers up to 2^53.
 */
module CounterDelta {
  import opened Text
  import opened History

  type Labels = seq<string>
  type Observation = Write<Labels>

  /** The key of the side map: label values joined with NUL. */
  function KeyOf(labels: Labels): string { Join(labels, "\0") }

  // ---- the counter vector ----

  /** The child for `labels`, created at zero when it does not exist. */
  function Child(children: map<Labels, real>, labels: Labels): real {
    if labels in children then children[labels] else 0.0
  }

  class CounterVec {
    var children: map<Labels, real>

    constructor ()
      ensures children == map[]
    {
      children := map[];
    }

    /** WithLabelValues(labels).Add(amount): a negative amount panics after the child was created. */
    method Add(labels: Labels, amount: real) returns (panicked: bool)
      modifies this
      ensures panicked <==> amount < 0.0
      ensures children == old(children)[labels :=
                            Child(old(children), labels) + if panicked then 0.0 else amount]
    {
      if labels !in children { children := children[labels := 0.0]; }
      panicked := amount < 0.0;
      if !panicked { children := children[labels := children[labels] + amount]; }
    }

    method Delete(labels: Labels)
      modifies this
      ensures children == old(children) - {labels}
    {
      children := children - {labels};
    }
  }

  // ---- one observation ----

  datatype State = State(children: map<Labels, real>, last: map<string, real>)

  /** What reaches the vector: amounts added, and child values dropped by a deletion. */
  datatype Event = Added(labels: Labels, amount: real) | Dropped(labels: Labels, amount: real)

  datatype Outcome = Outcome(state: State, events: seq<Event>, panicked: bool)

  const EMPTY := State(map[], map[])

  function AddStep(children: map<Labels, real>, last: map<string, real>, o: Observation, amount: real,
                   before: seq<Event>): Outcome
  {
    if amount < 0.0 then
      Outcome(State(children[o.key := Child(children, o.key)], last), before, true)
    else
      Outcome(State(children[o.key := Child(children, o.key) + amount], last[KeyOf(o.key) := o.value]),
              before + [Added(o.key, amount)], false)
  }

  function ObserveStep(s: State, o: Observation): Outcome {
    var k := KeyOf(o.key);
    if k !in s.last then
      AddStep(s.children, s.last, o, o.value, [])
    else if o.value < s.last[k] then
      var dropped := if o.key in s.children then [Dropped(o.key, s.children[o.key])] else [];
      AddStep(s.children - {o.key}, s.last, o, o.value, dropped)
    else
      AddStep(s.children, s.last, o, o.value - s.last[k], [])
  }

  class DeltaCounter {
    const vec: CounterVec
    var last: map<string, real>

    constructor (vec: CounterVec)
      requires vec.children == map[]
      ensures this.vec == vec && Model() == EMPTY
    {
      this.vec := vec;
      last := map[];
    }

    ghost function Model(): State
      reads this, vec
    {
      State(vec.children, last)
    }

    /** A panicking Add leaves the side map as it was. */
    method Observe(value: real, labels: Labels) returns (panicked: bool)
      modifies this`last, vec
      ensures Model() == ObserveStep(old(Model()), Write(labels, value)).state
      ensures panicked == ObserveStep(old(Model()), Write(labels, value)).panicked
      ensures last == if panicked then old(last) else old(last)[KeyOf(labels) := value]
    {
      var key := KeyOf(labels);
      if key !in last {
        panicked := vec.Add(labels, value);
      } else if value < last[key] {
        vec.Delete(labels);
        panicked := vec.Add(labels, value);
      } else {
        panicked := vec.Add(labels, value - last[key]);
      }
      if !panicked { last := last[key := value]; }
    }
  }

  // ---- whole histories ----

  /** Every observation in order; a panic ends the run. */
  function Run(h: seq<Observation>): Outcome {
    if h == [] then Outcome(EMPTY, [], false)
    else
      var r := Run(Init(h));
      if r.panicked then r
      else
        var o := ObserveStep(r.state, Last(h));
        Outcome(o.state, r.events + o.events, o.panicked)
  }

  lemma {:induction false} LastNonNegative(h: seq<Observation>)
    ensures forall k :: k in Run(h).state.last ==> Run(h).state.last[k] >= 0.0
  {
    if h != [] { LastNonNegative(Init(h)); }
  }

  /** A history makes Add panic exactly when it holds a negative value. */
  lemma {:induction false} PanicsIffNegative(h: seq<Observation>)
    ensures Run(h).panicked <==> !NonNegative(h)
  {
    if h != [] {
      PanicsIffNegative(Init(h));
      LastNonNegative(Init(h));
      assert NonNegative(h) <==> NonNegative(Init(h)) && Last(h).value >= 0.0 by {
        if NonNegative(Init(h)) && Last(h).value >= 0.0 {
          forall i | 0 <= i < |h| ensures h[i].value >= 0.0 {
            if i < |h| - 1 { assert Init(h)[i].value >= 0.0; }
          }
        }
        if NonNegative(h) {
          forall i | 0 <= i < |Init(h)| ensures Init(h)[i].value >= 0.0 { assert h[i].value >= 0.0; }
        }
      }
    }
  }

  // ---- the index agrees with what it caches ----

  ghost predicate InjectiveOn(tuples: set<Labels>) {
    forall a, b :: a in tuples && b in tuples && KeyOf(a) == KeyOf(b) ==> a == b
  }

  /** Each child is the last value observed for its tuple, and the side map mirrors the children. */
  ghost predicate Tracks(s: State, h: seq<Observation>) {
    && s.children == Latest(h)
    && s.last.Keys == (set l | l in Keys(h) :: KeyOf(l))
    && forall l :: l in Keys(h) ==> s.last[KeyOf(l)] == LastValue(h, l)
  }

  ghost predicate NonNegativeAdds(events: seq<Event>) {
    forall i :: 0 <= i < |events| && events[i].Added? ==> events[i].amount >= 0.0
  }

  /** Over every history: no panic, every child tracked, and no negative amount ever added. */
  lemma {:induction false} RunTracks(h: seq<Observation>)
    requires NonNegative(h) && InjectiveOn(Keys(h))
    ensures !Run(h).panicked && Tracks(Run(h).state, h)
    ensures NonNegativeAdds(Run(h).events)
  {
    if h != [] {
      PrefixOk(h);
      RunTracks(Init(h));
      StepTracks(Run(Init(h)).state, h);
      StepWritesValue(Run(Init(h)).state, Last(h));
    }
  }

  /** The side map and the vector agree about one tuple. */
  ghost predicate Coherent(s: State, l: Labels) {
    && (l in s.children <==> KeyOf(l) in s.last)
    && (l in s.children ==> s.children[l] == s.last[KeyOf(l)] >= 0.0)
  }

  /** From a coherent tuple, all three branches leave the child at the observed value. */
  lemma StepWritesValue(s: State, o: Observation)
    requires o.value >= 0.0 && Coherent(s, o.key)
    ensures var r := ObserveStep(s, o);
      && !r.panicked
      && r.state == State(s.children[o.key := o.value], s.last[KeyOf(o.key) := o.value])
      && r.events == if o.key !in s.children then [Added(o.key, o.value)]
                     else if o.value < s.children[o.key]
                       then [Dropped(o.key, s.children[o.key]), Added(o.key, o.value)]
                     else [Added(o.key, o.value - s.children[o.key])]
  {
  }

  lemma TracksCoherent(s: State, h: seq<Observation>, l: Labels)
    requires Tracks(s, h) && InjectiveOn(Keys(h) + {l}) && NonNegative(h)
    ensures Coherent(s, l)
  {
    if KeyOf(l) in s.last {
      var k :| k in Keys(h) && KeyOf(k) == KeyOf(l);
      assert k == l;
    }
    if l in Keys(h) { LastValueNonNegative(h, l); }
  }

  lemma {:induction false} LastValueNonNegative(h: seq<Observation>, l: Labels)
    requires NonNegative(h) && l in Keys(h)
    ensures LastValue(h, l) >= 0.0
  {
    if Last(h).key != l {
      KeysSnoc(h);
      forall i | 0 <= i < |Init(h)| ensures Init(h)[i].value >= 0.0 { assert h[i].value >= 0.0; }
      LastValueNonNegative(Init(h), l);
    }
  }

  /** Writing one tuple's value keeps the index in step with the history. */
  lemma {:induction false} WriteTracks(s: State, h: seq<Observation>)
    requires h != [] && InjectiveOn(Keys(h)) && Tracks(s, Init(h))
    ensures var o := Last(h);
            Tracks(State(s.children[o.key := o.value], s.last[KeyOf(o.key) := o.value]), h)
  {
    var o, prev := Last(h), Init(h);
    KeysSnoc(h);
    LatestSnoc(h);
    var last := s.last[KeyOf(o.key) := o.value];
    assert last.Keys == (set l | l in Keys(h) :: KeyOf(l));
    forall l | l in Keys(h) ensures last[KeyOf(l)] == LastValue(h, l) {
      if l != o.key { assert KeyOf(l) != KeyOf(o.key); }
    }
  }

  lemma {:induction false} StepTracks(s: State, h: seq<Observation>)
    requires h != [] && NonNegative(h) && InjectiveOn(Keys(h)) && Tracks(s, Init(h))
    ensures Coherent(s, Last(h).key)
    ensures Tracks(ObserveStep(s, Last(h)).state, h)
  {
    KeysSnoc(h);
    PrefixOk(h);
    TracksCoherent(s, Init(h), Last(h).key);
    StepWritesValue(s, Last(h));
    WriteTracks(s, h);
  }

  lemma PrefixOk(h: seq<Observation>)
    requires h != [] && NonNegative(h) && InjectiveOn(Keys(h))
    ensures NonNegative(Init(h)) && InjectiveOn(Keys(Init(h)))
  {
  }

  /** Joining with NUL separates NUL-free tuples of one arity. */
  lemma NulFreeTuplesInjective(tuples: set<Labels>, arity: nat)
    requires forall l :: l in tuples ==> |l| == arity
    requires forall l, i :: l in tuples && 0 <= i < |l| ==> '\0' !in l[i]
    ensures InjectiveOn(tuples)
  {
    forall a, b | a in tuples && b in tuples && KeyOf(a) == KeyOf(b) ensures a == b {
      if arity > 0 {
        SplitJoin(a, '\0');
        SplitJoin(b, '\0');
      }
    }
  }

  /** Two tuples with one key: the second child stays at zero although one was observed. */
  lemma CollisionBreaks(a: Labels, b: Labels)
    requires a != b && KeyOf(a) == KeyOf(b)
    ensures var h := [Write(a, 1.0), Write(b, 1.0)];
            b in Run(h).state.children && Run(h).state.children[b] == 0.0 && LastValue(h, b) == 1.0
  {
    var h := [Write(a, 1.0), Write(b, 1.0)];
    assert Init(h) == [Write(a, 1.0)] && Init(Init(h)) == [];
    assert Run(Init(Init(h))) == Outcome(EMPTY, [], false);
    assert Run(Init(h)).state == State(map[a := 1.0], map[KeyOf(a) := 1.0]);
    assert h[1].key == b;
  }

  /** NUL in a label value does collide. */
  lemma NulCollides()
    ensures ["a\0", "b"] != ["a", "\0b"] && KeyOf(["a\0", "b"]) == KeyOf(["a", "\0b"])
  {
  }

  /** Over a set of label tuples, every history is tracked exactly when their keys are distinct. */
  lemma TracksIffInjective(tuples: set<Labels>)
    ensures (forall h :: Keys(h) <= tuples && NonNegative(h) ==> Tracks(Run(h).state, h))
       <==> InjectiveOn(tuples)
  {
    if InjectiveOn(tuples) {
      forall h | Keys(h) <= tuples && NonNegative(h) ensures Tracks(Run(h).state, h) {
        RunTracks(h);
      }
    } else {
      var a, b :| a in tuples && b in tuples && KeyOf(a) == KeyOf(b) && a != b;
      var h := [Write(a, 1.0), Write(b, 1.0)];
      CollisionBreaks(a, b);
      assert Keys(h) <= tuples && NonNegative(h);
      assert h[1].key == b;
      assert Latest(h)[b] == 1.0;
    }
  }

  // ---- schedules ----

  /** The whole state is a function of the latest value per tuple. */
  lemma LatestDeterminesState(g: seq<Observation>, h: seq<Observation>)
    requires NonNegative(g) && NonNegative(h) && InjectiveOn(Keys(g)) && Latest(g) == Latest(h)
    ensures Run(g).state == Run(h).state
  {
    assert Keys(g) == Latest(g).Keys == Latest(h).Keys == Keys(h);
    RunTracks(g);
    RunTracks(h);
    forall k | k in Run(g).state.last ensures Run(g).state.last[k] == Run(h).state.last[k] {
      var l :| l in Keys(g) && KeyOf(l) == k;
      assert Latest(g)[l] == Latest(h)[l];
    }
  }

  /**
   After any earlier history, clients that share no label tuple (or agree on the
   last value of those they share) leave one and the same counter state, whatever
   the interleaving of their mutex-atomic observations.
   */
  lemma ScheduleIndependence(earlier: seq<Observation>, h: seq<Observation>, cs: seq<seq<Observation>>)
    requires IsShuffle(h, cs) && AgreeOnShared(cs)
    requires NonNegative(earlier) && forall i :: 0 <= i < |cs| ==> NonNegative(cs[i])
    requires InjectiveOn(Keys(earlier + h))
    ensures Run(earlier + h).state == Run(earlier + Flatten(cs)).state
    ensures !Run(earlier + h).panicked && !Run(earlier + Flatten(cs)).panicked
  {
    FlattenIsShuffle(cs);
    ShufflesAgree(h, Flatten(cs), cs);
    LatestConcat(earlier, h);
    LatestConcat(earlier, Flatten(cs));
    ShuffleNonNegative(h, cs);
    ShuffleNonNegative(Flatten(cs), cs);
    LatestDeterminesState(earlier + h, earlier + Flatten(cs));
    PanicsIffNegative(earlier + h);
    PanicsIffNegative(earlier + Flatten(cs));
  }

  lemma {:induction false} ShuffleNonNegative(h: seq<Observation>, cs: seq<seq<Observation>>)
    requires IsShuffle(h, cs) && forall i :: 0 <= i < |cs| ==> NonNegative(cs[i])
    ensures NonNegative(h)
    decreases |h|
  {
    if h != [] {
      var i :| 0 <= i < |cs| && EndsWith(h, cs, i);
      var shorter := cs[i := Init(cs[i])];
      assert Last(cs[i]).value >= 0.0;
      forall j | 0 <= j < |shorter| ensures NonNegative(shorter[j]) {
        assert NonNegative(cs[j]);
      }
      ShuffleNonNegative(Init(h), shorter);
      forall j | 0 <= j < |h| ensures h[j].value >= 0.0 {
        if j < |h| - 1 { assert Init(h)[j].value >= 0.0; }
      }
    }
  }

  // ---- reset accounting ----

  ghost function AddedTo(events: seq<Event>, l: Labels): real {
    if events == [] then 0.0
    else AddedTo(Init(events), l) +
         match Last(events) { case Added(k, v) => if k == l then v else 0.0 case Dropped(_, _) => 0.0 }
  }

  ghost function DroppedFrom(events: seq<Event>, l: Labels): real {
    if events == [] then 0.0
    else DroppedFrom(Init(events), l) +
         match Last(events) { case Dropped(k, v) => if k == l then v else 0.0 case Added(_, _) => 0.0 }
  }

  lemma {:induction false} LedgerConcat(a: seq<Event>, b: seq<Event>, l: Labels)
    ensures AddedTo(a + b, l) == AddedTo(a, l) + AddedTo(b, l)
    ensures DroppedFrom(a + b, l) == DroppedFrom(a, l) + DroppedFrom(b, l)
  {
    if b == [] {
      assert a + b == a;
    } else {
      assert Init(a + b) == a + Init(b);
      LedgerConcat(a, Init(b), l);
    }
  }

  lemma {:induction false} LedgerAdd(k: Labels, v: real, l: Labels)
    ensures AddedTo([Added(k, v)], l) == (if k == l then v else 0.0) && DroppedFrom([Added(k, v)], l) == 0.0
  {
    assert Init([Added(k, v)]) == [];
  }

  lemma {:induction false} LedgerDropAdd(k: Labels, d: real, v: real, l: Labels)
    ensures AddedTo([Dropped(k, d), Added(k, v)], l) == if k == l then v else 0.0
    ensures DroppedFrom([Dropped(k, d), Added(k, v)], l) == if k == l then d else 0.0
  {
    var a, b := [Dropped(k, d)], [Added(k, v)];
    assert Init(a) == [] && a + b == [Dropped(k, d), Added(k, v)];
    LedgerAdd(k, v, l);
    LedgerConcat(a, b, l);
  }

  /** The events of one observation move the ledger and the child together. */
  lemma {:induction false} StepLedger(s: State, o: Observation, l: Labels, r: Outcome)
    requires o.value >= 0.0 && Coherent(s, o.key) && r == ObserveStep(s, o)
    ensures Child(r.state.children, l) - Child(s.children, l) == AddedTo(r.events, l) - DroppedFrom(r.events, l)
    ensures AddedTo(r.events, l) ==
              if o.key != l then 0.0
              else if l !in s.children || o.value < s.children[l] then o.value
              else o.value - s.children[l]
  {
    StepWritesValue(s, o);
    if o.key !in s.children {
      LedgerAdd(o.key, o.value, l);
    } else if o.value < s.children[o.key] {
      LedgerDropAdd(o.key, s.children[o.key], o.value, l);
    } else {
      LedgerAdd(o.key, o.value - s.children[o.key], l);
    }
  }

  lemma {:induction false} RunSnoc(h: seq<Observation>) returns (s: State, r: Outcome)
    requires h != [] && NonNegative(h) && InjectiveOn(Keys(h))
    ensures NonNegative(Init(h)) && InjectiveOn(Keys(Init(h)))
    ensures s == Run(Init(h)).state && r == ObserveStep(s, Last(h)) && Coherent(s, Last(h).key)
    ensures Run(h).state == r.state && Run(h).events == Run(Init(h)).events + r.events
    ensures s.children == Latest(Init(h)) && r.state.children == s.children[Last(h).key := Last(h).value]
  {
    PrefixOk(h);
    RunTracks(Init(h));
    s := Run(Init(h)).state;
    r := ObserveStep(s, Last(h));
    StepTracks(s, h);
    StepWritesValue(s, Last(h));
  }

  lemma {:induction false} AddsBalanceDrops(h: seq<Observation>, l: Labels)
    requires NonNegative(h) && InjectiveOn(Keys(h))
    ensures AddedTo(Run(h).events, l) == Child(Run(h).state.children, l) + DroppedFrom(Run(h).events, l)
  {
    if h != [] {
      var s, r := RunSnoc(h);
      AddsBalanceDrops(Init(h), l);
      StepLedger(s, Last(h), l, r);
      LedgerConcat(Run(Init(h)).events, r.events, l);
    }
  }

  // ---- gains and losses between successive values ----

  /** How far a counter that restarts at a drop moves from `x` to `y`. */
  function Gain(x: real, y: real): real { if y < x then y else y - x }

  /** What a drop from `x` to `y` forgets. */
  function Loss(x: real, y: real): real { if y < x then x else 0.0 }

  /** The value before what follows `xs`. */
  function Prev(p: real, xs: seq<real>): real { if xs == [] then p else Last(xs) }

  function Gains(p: real, xs: seq<real>): real {
    if xs == [] then 0.0 else Gains(p, Init(xs)) + Gain(Prev(p, Init(xs)), Last(xs))
  }

  function Losses(p: real, xs: seq<real>): real {
    if xs == [] then 0.0 else Losses(p, Init(xs)) + Loss(Prev(p, Init(xs)), Last(xs))
  }

  lemma {:induction false} GainsConcat(p: real, xs: seq<real>, ys: seq<real>)
    ensures Gains(p, xs + ys) == Gains(p, xs) + Gains(Prev(p, xs), ys)
    ensures Losses(p, xs + ys) == Losses(p, xs) + Losses(Prev(p, xs), ys)
  {
    if ys == [] {
      assert xs + ys == xs;
    } else {
      assert Init(xs + ys) == xs + Init(ys);
      GainsConcat(p, xs, Init(ys));
    }
  }

  lemma {:induction false} GainsSnoc(p: real, xs: seq<real>, v: real)
    ensures Gains(p, xs + [v]) == Gains(p, xs) + Gain(Prev(p, xs), v)
    ensures Losses(p, xs + [v]) == Losses(p, xs) + Loss(Prev(p, xs), v)
    ensures Prev(p, xs + [v]) == v
  {
    assert Init(xs + [v]) == xs;
  }

  ghost predicate AllNonNegative(xs: seq<real>) { forall i :: 0 <= i < |xs| ==> xs[i] >= 0.0 }

  /** Skipping intermediate values can only lose gain, and loses what their drops forgot beyond the net one. */
  lemma {:induction false} GainsAtLeast(p: real, xs: seq<real>)
    requires p >= 0.0 && AllNonNegative(xs)
    ensures Gains(p, xs) >= Gain(p, Prev(p, xs))
    ensures Gains(p, xs) - Gain(p, Prev(p, xs)) == Losses(p, xs) - Loss(p, Prev(p, xs))
  {
    if xs != [] {
      assert Last(xs) == xs[|xs| - 1];
      GainsAtLeast(p, Init(xs));
    }
  }

  // ---- what is added, and what a scraper can reconstruct ----

  /** The values observed for `l`, in order. */
  ghost function Values(h: seq<Observation>, l: Labels): seq<real> {
    if h == [] then [] else Values(Init(h), l) + if Last(h).key == l then [Last(h).value] else []
  }

  lemma {:induction false} ValuesConcat(g: seq<Observation>, h: seq<Observation>, l: Labels)
    ensures Values(g + h, l) == Values(g, l) + Values(h, l)
  {
    if h == [] {
      assert g + h == g;
    } else {
      assert Init(g + h) == g + Init(h);
      ValuesConcat(g, Init(h), l);
    }
  }

  lemma {:induction false} ValuesNonNegative(h: seq<Observation>, l: Labels)
    requires NonNegative(h)
    ensures AllNonNegative(Values(h, l)) && (l in Keys(h) <==> Values(h, l) != [])
  {
    if h != [] {
      KeysSnoc(h);
      assert Last(h) == h[|h| - 1];
      assert forall i :: 0 <= i < |Init(h)| ==> Init(h)[i] == h[i];
      ValuesNonNegative(Init(h), l);
    }
  }

  /** The vector is moved by exactly the gains of the observed values, and forgets exactly their losses. */
  lemma {:induction false} AddsAreGains(h: seq<Observation>, l: Labels)
    requires NonNegative(h) && InjectiveOn(Keys(h))
    ensures AddedTo(Run(h).events, l) == Gains(0.0, Values(h, l))
    ensures DroppedFrom(Run(h).events, l) == Losses(0.0, Values(h, l))
    ensures Child(Run(h).state.children, l) == Prev(0.0, Values(h, l))
  {
    if h == [] {
      assert Values(h, l) == [] && Run(h).events == [];
    } else {
      var s, r := RunSnoc(h);
      AddsAreGains(Init(h), l);
      GainsStep(h, l, s, r);
      var xs, ys := Values(Init(h), l), Values(h, l);
      LedgerGrows(Run(Init(h)).events, r.events, Run(h).events, l,
                  Gains(0.0, xs), Gains(0.0, ys), Losses(0.0, xs), Losses(0.0, ys));
    }
  }

  /** A tuple has a child exactly when it was observed. */
  lemma ChildIffObserved(h: seq<Observation>, l: Labels)
    requires NonNegative(h) && InjectiveOn(Keys(h))
    ensures l in Run(h).state.children <==> Values(h, l) != []
  {
    RunTracks(h);
    ValuesNonNegative(h, l);
  }

  lemma {:induction false} LedgerGrows(
      before: seq<Event>, more: seq<Event>, after: seq<Event>, l: Labels, a: real, a': real, d: real, d': real)
    requires after == before + more
    requires AddedTo(before, l) == a && AddedTo(more, l) == a' - a
    requires DroppedFrom(before, l) == d && DroppedFrom(more, l) == d' - d
    ensures AddedTo(after, l) == a' && DroppedFrom(after, l) == d'
  {
    LedgerConcat(before, more, l);
  }

  /** One observation moves the ledger by its value's gain and loss. */
  lemma {:induction false} GainsStep(h: seq<Observation>, l: Labels, s: State, r: Outcome)
    requires h != [] && Last(h).value >= 0.0 && Coherent(s, Last(h).key) && r == ObserveStep(s, Last(h))
    requires r.state.children == s.children[Last(h).key := Last(h).value]
    requires Child(s.children, l) == Prev(0.0, Values(Init(h), l))
    ensures AddedTo(r.events, l) == Gains(0.0, Values(h, l)) - Gains(0.0, Values(Init(h), l))
    ensures DroppedFrom(r.events, l) == Losses(0.0, Values(h, l)) - Losses(0.0, Values(Init(h), l))
    ensures Child(r.state.children, l) == Prev(0.0, Values(h, l))
  {
    var before, v := Values(Init(h), l), Last(h).value;
    StepLedger(s, Last(h), l, r);
    if Last(h).key == l {
      GainsSnoc(0.0, before, v);
      assert Values(h, l) == before + [v];
    } else {
      assert Values(h, l) == before;
    }
  }

  /**
   The samples a scraper reads: the child, when there is one, at the end of each scrape.
   Observations of a failed scrape, which exports nothing, count to the next one.
   */
  ghost function Exported(scrapes: seq<seq<Observation>>, l: Labels): seq<real> {
    if scrapes == [] then []
    else
      var children := Run(Flatten(scrapes)).state.children;
      Exported(Init(scrapes), l) + if l in children then [children[l]] else []
  }

  /** Prometheus' increase(): a drop between samples counts as a restart from zero. */
  ghost function Increase(samples: seq<real>): real {
    if |samples| <= 1 then 0.0
    else
      var now, before := Last(samples), samples[|samples| - 2];
      Increase(Init(samples)) + if now < before then now else now - before
  }

  /** The first sample and the increase after it. */
  ghost function FirstPlusIncrease(samples: seq<real>): real {
    if samples == [] then 0.0 else samples[0] + Increase(samples)
  }

  lemma {:induction false} FirstPlusIncreaseIsGains(samples: seq<real>)
    requires AllNonNegative(samples)
    ensures FirstPlusIncrease(samples) == Gains(0.0, samples)
  {
    if |samples| == 1 {
      assert Init(samples) == [];
    } else if |samples| > 1 {
      assert forall i :: 0 <= i < |Init(samples)| ==> Init(samples)[i] == samples[i];
      FirstPlusIncreaseIsGains(Init(samples));
    }
  }

  /** The value a scraper last saw before scrape `n`. */
  ghost function SampleBefore(scrapes: seq<seq<Observation>>, n: nat, l: Labels): real
    requires n <= |scrapes|
  {
    Prev(0.0, Values(Flatten(scrapes[..n]), l))
  }

  /**
   The resets inside scrape `n` are those its samples show: its rows' drops forget the
   sample before it if it ends below that sample, and nothing otherwise.
   */
  ghost predicate ResetsShow(scrapes: seq<seq<Observation>>, n: nat, l: Labels)
    requires n < |scrapes|
  {
    var p, xs := SampleBefore(scrapes, n, l), Values(scrapes[n], l);
    Losses(p, xs) == Loss(p, Prev(p, xs))
  }

  ghost predicate AllResetsShow(scrapes: seq<seq<Observation>>, l: Labels) {
    forall n :: 0 <= n < |scrapes| ==> ResetsShow(scrapes, n, l)
  }

  lemma AllResetsShowSnoc(scrapes: seq<seq<Observation>>, l: Labels)
    requires scrapes != []
    ensures AllResetsShow(scrapes, l) <==>
            AllResetsShow(Init(scrapes), l) && ResetsShow(scrapes, |scrapes| - 1, l)
  {
    forall n | 0 <= n < |Init(scrapes)| ensures ResetsShow(Init(scrapes), n, l) <==> ResetsShow(scrapes, n, l) {
      assert Init(scrapes)[..n] == scrapes[..n];
    }
  }

  lemma {:induction false} FlattenParts(scrapes: seq<seq<Observation>>)
    requires scrapes != [] && NonNegative(Flatten(scrapes)) && InjectiveOn(Keys(Flatten(scrapes)))
    ensures NonNegative(Flatten(Init(scrapes))) && InjectiveOn(Keys(Flatten(Init(scrapes)))) && NonNegative(Last(scrapes))
  {
    var h, g := Flatten(scrapes), Flatten(Init(scrapes));
    forall i | 0 <= i < |g| ensures g[i].value >= 0.0 { assert h[i] == g[i]; }
    forall i | 0 <= i < |Last(scrapes)| ensures Last(scrapes)[i].value >= 0.0 { assert h[|g| + i] == Last(scrapes)[i]; }
    forall k | k in Keys(g) ensures k in Keys(h) {
      var i :| 0 <= i < |g| && g[i].key == k;
      assert h[i].key == k;
    }
  }

  /** The sample after a scrape, repeated when the tuple had no row. */
  lemma {:induction false} SamplesStep(samples: seq<real>, out: seq<real>, v: real)
    requires AllNonNegative(samples) && v >= 0.0
    requires out == samples + [v] || (out == samples == [] && v == 0.0)
    ensures AllNonNegative(out) && Prev(0.0, out) == v
    ensures Gains(0.0, out) == Gains(0.0, samples) + Gain(Prev(0.0, samples), v)
  {
    if out == samples + [v] { GainsSnoc(0.0, samples, v); }
  }

  /** One more scrape: the values go from `ws` to `ws + xs`, and the samples to `out`. */
  lemma {:induction false} ScrapeGains(ws: seq<real>, xs: seq<real>, samples: seq<real>, out: seq<real>)
    requires AllNonNegative(ws) && AllNonNegative(xs) && AllNonNegative(samples)
    requires Prev(0.0, samples) == Prev(0.0, ws) && (samples == [] <==> ws == [])
    requires out == if ws + xs == [] then samples else samples + [Prev(0.0, ws + xs)]
    ensures AllNonNegative(out) && Prev(0.0, out) == Prev(0.0, ws + xs) && (out == [] <==> ws + xs == [])
    ensures var p := Prev(0.0, ws);
      var more := Gains(0.0, ws + xs) - Gains(0.0, ws) - (Gains(0.0, out) - Gains(0.0, samples));
      more >= 0.0 && (more == 0.0 <==> Losses(p, xs) == Loss(p, Prev(p, xs)))
  {
    var p := Prev(0.0, ws);
    if ws != [] { assert ws[|ws| - 1] >= 0.0; }
    if xs != [] { assert xs[|xs| - 1] >= 0.0; }
    GainsConcat(0.0, ws, xs);
    GainsAtLeast(p, xs);
    assert Prev(0.0, ws + xs) == Prev(p, xs);
    SamplesStep(samples, out, Prev(p, xs));
  }

  lemma {:induction false} ExportedGains(scrapes: seq<seq<Observation>>, l: Labels)
    requires NonNegative(Flatten(scrapes)) && InjectiveOn(Keys(Flatten(scrapes)))
    ensures var ws, samples := Values(Flatten(scrapes), l), Exported(scrapes, l);
      && AllNonNegative(samples) && Prev(0.0, samples) == Prev(0.0, ws) && (samples == [] <==> ws == [])
      && Gains(0.0, ws) >= Gains(0.0, samples)
      && (Gains(0.0, ws) == Gains(0.0, samples) <==> AllResetsShow(scrapes, l))
  {
    if scrapes != [] {
      var earlier, now := Flatten(Init(scrapes)), Last(scrapes);
      FlattenParts(scrapes);
      ExportedGains(Init(scrapes), l);
      ValuesNonNegative(earlier, l);
      ValuesNonNegative(now, l);
      ValuesConcat(earlier, now, l);
      AddsAreGains(Flatten(scrapes), l);
      ChildIffObserved(Flatten(scrapes), l);
      ScrapeGains(Values(earlier, l), Values(now, l), Exported(Init(scrapes), l), Exported(scrapes, l));
      AllResetsShowSnoc(scrapes, l);
    }
  }

  /**
   For every tuple, over any scrapes of any rows: what was added is the child plus what
   resets dropped. It is never less than the first exported sample plus the reset-aware
   increase of the samples, and equals that exactly when the samples show all resets.
   */
  lemma {:induction false} ResetAccounting(scrapes: seq<seq<Observation>>, l: Labels)
    requires NonNegative(Flatten(scrapes)) && InjectiveOn(Keys(Flatten(scrapes)))
    ensures var r := Run(Flatten(scrapes));
      && AddedTo(r.events, l) == Child(r.state.children, l) + DroppedFrom(r.events, l)
      && AddedTo(r.events, l) >= FirstPlusIncrease(Exported(scrapes, l))
      && (AddedTo(r.events, l) == FirstPlusIncrease(Exported(scrapes, l)) <==> AllResetsShow(scrapes, l))
  {
    AddsBalanceDrops(Flatten(scrapes), l);
    AddsAreGains(Flatten(scrapes), l);
    ExportedGains(scrapes, l);
    FirstPlusIncreaseIsGains(Exported(scrapes, l));
  }

  /** With at most one row per tuple and scrape, Prometheus reconstructs exactly what was added. */
  lemma {:induction false} OneRowPerScrapeIsExact(scrapes: seq<seq<Observation>>, l: Labels)
    requires NonNegative(Flatten(scrapes)) && InjectiveOn(Keys(Flatten(scrapes)))
    requires forall n :: 0 <= n < |scrapes| ==> |Values(scrapes[n], l)| <= 1
    ensures AddedTo(Run(Flatten(scrapes)).events, l) == FirstPlusIncrease(Exported(scrapes, l))
  {
    forall n | 0 <= n < |scrapes| ensures ResetsShow(scrapes, n, l) {
      var xs := Values(scrapes[n], l);
      if xs != [] { assert Init(xs) == []; }
    }
    ResetAccounting(scrapes, l);
  }

  lemma {:induction false} ValuesOfTwo(a: Observation, b: Observation, l: Labels)
    requires a.key == b.key == l
    ensures Values([a], l) == [a.value] && Values([a, b], l) == [a.value, b.value]
  {
    assert Init([a, b]) == [a] && Init([a]) == [];
  }

  lemma {:induction false} LossesOfTwo(p: real, x: real, y: real)
    ensures Losses(p, [x, y]) == Loss(p, x) + Loss(x, y)
  {
    GainsSnoc(p, [], x);
    GainsSnoc(p, [x], y);
    assert [] + [x] == [x] && [x] + [y] == [x, y];
  }

  /** A reset between two rows of one scrape stays hidden when the scrape ends at or above the last sample. */
  lemma {:induction false} HiddenReset(l: Labels, x: real, y: real, z: real)
    requires 0.0 <= y < x <= z
    ensures var scrapes := [[Write(l, x)], [Write(l, y), Write(l, z)]];
      AddedTo(Run(Flatten(scrapes)).events, l) > FirstPlusIncrease(Exported(scrapes, l))
  {
    var first, second := [Write(l, x)], [Write(l, y), Write(l, z)];
    var scrapes := [first, second];
    assert scrapes[..1] == Init(scrapes) == [first] && Init([first]) == [];
    FlattenTwo(first, second);
    assert NonNegative(first + second) && forall k :: k in Keys(first + second) ==> k == l;
    ValuesOfTwo(Write(l, x), Write(l, x), l);
    ValuesOfTwo(Write(l, y), Write(l, z), l);
    LossesOfTwo(x, y, z);
    assert !ResetsShow(scrapes, 1, l);
    ResetAccounting(scrapes, l);
  }
}
