/**
 Recorded histories: a sequence of (key, value) writes, the last value written
 to each key, and the interleavings of several writers' sequences.
 */
module History {

  datatype Write<K> = Write(key: K, value: real)

  ghost function Keys<K>(h: seq<Write<K>>): set<K> {
    set i | 0 <= i < |h| :: h[i].key
  }

  ghost predicate NonNegative<K>(h: seq<Write<K>>) {
    forall i :: 0 <= i < |h| ==> h[i].value >= 0.0
  }

  function Init<T>(s: seq<T>): seq<T>
    requires s != []
  {
    s[..|s| - 1]
  }

  function Last<T>(s: seq<T>): T
    requires s != []
  {
    s[|s| - 1]
  }

  lemma KeysSnoc<K>(h: seq<Write<K>>)
    requires h != []
    ensures Keys(h) == Keys(Init(h)) + {Last(h).key}
  {
  }

  /** The last value written to `k`. */
  ghost function LastValue<K>(h: seq<Write<K>>, k: K): real
    requires k in Keys(h)
  {
    if Last(h).key == k then Last(h).value
    else KeysSnoc(h); LastValue(Init(h), k)
  }

  /** What a reader of the latest values sees: one entry per key ever written. */
  ghost function Latest<K>(h: seq<Write<K>>): map<K, real> {
    map k | k in Keys(h) :: LastValue(h, k)
  }

  lemma LatestSnoc<K>(h: seq<Write<K>>)
    requires h != []
    ensures Latest(h) == Latest(Init(h))[Last(h).key := Last(h).value]
  {
  }

  lemma {:induction false} LatestConcat<K>(a: seq<Write<K>>, b: seq<Write<K>>)
    ensures Latest(a + b) == Latest(a) + Latest(b)
  {
    if b == [] {
      assert a + b == a;
    } else {
      assert Init(a + b) == a + Init(b);
      LatestConcat(a, Init(b));
      LatestSnoc(a + b);
      LatestSnoc(b);
    }
  }

  // ---- interleavings ----

  /** `h` interleaves the sequences `cs`, keeping the order of each. */
  ghost predicate IsShuffle<T>(h: seq<T>, cs: seq<seq<T>>)
    decreases |h|
  {
    if h == [] then forall i :: 0 <= i < |cs| ==> cs[i] == []
    else exists i :: 0 <= i < |cs| && EndsWith(h, cs, i)
  }

  ghost predicate EndsWith<T>(h: seq<T>, cs: seq<seq<T>>, i: nat)
    requires h != [] && i < |cs|
    decreases |h|, 0
  {
    cs[i] != [] && Last(cs[i]) == Last(h) && IsShuffle(Init(h), cs[i := Init(cs[i])])
  }

  /** Every client's sequence, one client after another. */
  function Flatten<T>(cs: seq<seq<T>>): seq<T> {
    if cs == [] then [] else Flatten(Init(cs)) + Last(cs)
  }

  lemma FlattenTwo<T>(a: seq<T>, b: seq<T>)
    ensures Flatten([a]) == a && Flatten([a, b]) == a + b
  {
    assert Init([a]) == [] && Init([a, b]) == [a] && [] + a == a;
    assert Last([a]) == a && Last([a, b]) == b;
    assert Flatten([a]) == Flatten(Init([a])) + a;
    assert Flatten([a, b]) == Flatten([a]) + b;
  }

  /** A client may always run its whole sequence after the others. */
  lemma {:induction false} ShuffleThenClient<T>(h: seq<T>, cs: seq<seq<T>>, i: nat)
    requires i < |cs|
    requires IsShuffle(h, cs[i := []])
    ensures IsShuffle(h + cs[i], cs)
    decreases |cs[i]|
  {
    if cs[i] == [] {
      assert cs[i := []] == cs;
      assert h + cs[i] == h;
    } else {
      var shorter := cs[i := Init(cs[i])];
      assert shorter[i := []] == cs[i := []];
      ShuffleThenClient(h, shorter, i);
      assert Init(h + cs[i]) == h + Init(cs[i]);
      assert EndsWith(h + cs[i], cs, i);
    }
  }

  /** Adding an idle client changes no interleaving. */
  lemma {:induction false} ShuffleIdle<T>(h: seq<T>, cs: seq<seq<T>>)
    requires IsShuffle(h, cs)
    ensures IsShuffle(h, cs + [[]])
    decreases |h|
  {
    if h != [] {
      var i :| 0 <= i < |cs| && EndsWith(h, cs, i);
      ShuffleIdle(Init(h), cs[i := Init(cs[i])]);
      assert cs[i := Init(cs[i])] + [[]] == (cs + [[]])[i := Init(cs[i])];
      assert EndsWith(h, cs + [[]], i);
    }
  }

  /** Running the clients one after another is one of their interleavings. */
  lemma {:induction false} FlattenIsShuffle<T>(cs: seq<seq<T>>)
    ensures IsShuffle(Flatten(cs), cs)
    decreases |cs|
  {
    if cs != [] {
      FlattenIsShuffle(Init(cs));
      ShuffleIdle(Flatten(Init(cs)), Init(cs));
      assert Init(cs) + [[]] == cs[|cs| - 1 := []];
      ShuffleThenClient(Flatten(Init(cs)), cs, |cs| - 1);
    }
  }

  /** An interleaving holds exactly the elements its clients hold. */
  lemma {:induction false} ShuffleMembers<T>(h: seq<T>, cs: seq<seq<T>>, x: T)
    requires IsShuffle(h, cs)
    ensures x in h <==> exists i :: 0 <= i < |cs| && x in cs[i]
    decreases |h|
  {
    if h != [] {
      var i :| 0 <= i < |cs| && EndsWith(h, cs, i);
      var shorter := cs[i := Init(cs[i])];
      ShuffleMembers(Init(h), shorter, x);
      assert cs[i] == Init(cs[i]) + [Last(h)] && h == Init(h) + [Last(h)];
      if j :| 0 <= j < |shorter| && x in shorter[j] {
        assert x in cs[j];
      }
      if j :| 0 <= j < |cs| && x in cs[j] {
        if j != i { assert x in shorter[j]; }
        else if x in Init(cs[i]) { assert x in shorter[i]; }
      }
    }
  }

  /** An interleaving writes exactly the keys its clients write. */
  lemma {:induction false} ShuffleKeys<K>(h: seq<Write<K>>, cs: seq<seq<Write<K>>>, k: K)
    requires IsShuffle(h, cs)
    ensures k in Keys(h) <==> exists i :: 0 <= i < |cs| && k in Keys(cs[i])
    decreases |h|
  {
    if h != [] {
      var i :| 0 <= i < |cs| && EndsWith(h, cs, i);
      var shorter := cs[i := Init(cs[i])];
      ShuffleKeys(Init(h), shorter, k);
      KeysSnoc(h);
      KeysSnoc(cs[i]);
      if j :| 0 <= j < |shorter| && k in Keys(shorter[j]) {
        assert k in Keys(cs[j]);
      }
      if j :| 0 <= j < |cs| && k in Keys(cs[j]) {
        if j != i { assert k in Keys(shorter[j]); }
        else if k in Keys(Init(cs[i])) { assert k in Keys(shorter[i]); }
      }
    }
  }

  /** The last value of an interleaving is the last value of one of its clients. */
  lemma {:induction false} ShuffleLast<K>(h: seq<Write<K>>, cs: seq<seq<Write<K>>>, k: K) returns (i: nat)
    requires IsShuffle(h, cs) && k in Keys(h)
    ensures i < |cs| && k in Keys(cs[i]) && LastValue(h, k) == LastValue(cs[i], k)
    decreases |h|
  {
    i :| 0 <= i < |cs| && EndsWith(h, cs, i);
    KeysSnoc(h);
    KeysSnoc(cs[i]);
    if Last(h).key != k {
      var c := i;
      i := ShuffleLast(Init(h), cs[i := Init(cs[i])], k);
      if i != c { assert cs[c := Init(cs[c])][i] == cs[i]; }
    }
  }

  /** Clients that write a key in common leave it with the same last value. */
  ghost predicate AgreeOnShared<K(!new)>(cs: seq<seq<Write<K>>>) {
    forall i, j, k ::
      0 <= i < |cs| && 0 <= j < |cs| && k in Keys(cs[i]) && k in Keys(cs[j]) ==>
        LastValue(cs[i], k) == LastValue(cs[j], k)
  }

  lemma ShufflesAgree<K(!new)>(g: seq<Write<K>>, h: seq<Write<K>>, cs: seq<seq<Write<K>>>)
    requires IsShuffle(g, cs) && IsShuffle(h, cs) && AgreeOnShared(cs)
    ensures Latest(g) == Latest(h)
  {
    forall k ensures k in Keys(g) <==> k in Keys(h) {
      ShuffleKeys(g, cs, k);
      ShuffleKeys(h, cs, k);
    }
    forall k | k in Keys(g) ensures Latest(g)[k] == Latest(h)[k] {
      var i := ShuffleLast(g, cs, k);
      var j := ShuffleLast(h, cs, k);
    }
  }

  /** An interleaving that ends with all of client `i`'s writes. */
  lemma ShuffleEndingWith<T>(cs: seq<seq<T>>, i: nat) returns (before: seq<T>)
    requires i < |cs|
    ensures IsShuffle(before + cs[i], cs)
  {
    before := Flatten(cs[i := []]);
    FlattenIsShuffle(cs[i := []]);
    ShuffleThenClient(before, cs, i);
  }

  /** Two clients that leave a shared key different values tell two interleavings apart. */
  lemma {:induction false} DisagreementShows<K>(cs: seq<seq<Write<K>>>, i: nat, j: nat, k: K)
    returns (g: seq<Write<K>>, h: seq<Write<K>>)
    requires i < |cs| && j < |cs| && k in Keys(cs[i]) && k in Keys(cs[j])
    requires LastValue(cs[i], k) != LastValue(cs[j], k)
    ensures IsShuffle(g, cs) && IsShuffle(h, cs) && Latest(g) != Latest(h)
  {
    var a := ShuffleEndingWith(cs, i);
    var b := ShuffleEndingWith(cs, j);
    LatestConcat(a, cs[i]);
    LatestConcat(b, cs[j]);
    g, h := a + cs[i], b + cs[j];
    assert Latest(g)[k] == LastValue(cs[i], k);
    assert Latest(h)[k] == LastValue(cs[j], k);
  }

  /**
   The outcome of running clients concurrently does not depend on the schedule
   exactly when clients that share a key leave it with the same last value.
   */
  lemma {:induction false} ScheduleIndependentIff<K(!new)>(cs: seq<seq<Write<K>>>)
    ensures (forall h :: IsShuffle(h, cs) ==> Latest(h) == Latest(Flatten(cs))) <==> AgreeOnShared(cs)
  {
    FlattenIsShuffle(cs);
    if AgreeOnShared(cs) {
      forall h | IsShuffle(h, cs) ensures Latest(h) == Latest(Flatten(cs)) {
        ShufflesAgree(h, Flatten(cs), cs);
      }
    } else {
      var i, j, k :|
        0 <= i < |cs| && 0 <= j < |cs| && k in Keys(cs[i]) && k in Keys(cs[j])
        && LastValue(cs[i], k) != LastValue(cs[j], k);
      var g, h := DisagreementShows(cs, i, j, k);
    }
  }
}
