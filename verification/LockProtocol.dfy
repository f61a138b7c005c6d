/**
 The exporter's mutex: Collect holds it for a whole scrape, and Shutdown starts a
 helper goroutine that locks it while the caller waits for either the lock or its
 context. A run is any sequence of atomic steps of any number of calls.
 */
module LockProtocol {
  import opened History

  type Call = nat

  datatype Owner = Free | Collecting(call: Call) | Helper(call: Call)

  datatype CollectPc = Wanting | Inside | Left

  datatype Caller =
    | Selecting             // in the select statement
    | ClosingPools(next: nat) // the lock was handed over; pools below `next` are closed
    | ReturnedOk
    | Cancelled             // returned ctx.Err()

  datatype HelperPc = Blocked | Locked | Released

  datatype Shutdown = Shutdown(caller: Caller, helper: HelperPc)

  datatype State = State(lock: Owner, collects: map<Call, CollectPc>, shutdowns: map<Call, Shutdown>)

  datatype Action =
    | CallCollect(c: Call) | Enter(c: Call) | Leave(c: Call)
    | CallShutdown(c: Call) | HelperLock(c: Call)
    | TakeLocked(c: Call)   // select receives from `locked`
    | TakeCancel(c: Call)   // select receives from ctx.Done()
    | ClosePool(c: Call) | ReturnOk(c: Call)

  const START := State(Free, map[], map[])

  predicate Enabled(pools: nat, s: State, a: Action) {
    match a
    case CallCollect(c) => c !in s.collects
    case Enter(c) => c in s.collects && s.collects[c].Wanting? && s.lock.Free?
    case Leave(c) => c in s.collects && s.collects[c].Inside?
    case CallShutdown(c) => c !in s.shutdowns
    case HelperLock(c) => c in s.shutdowns && s.shutdowns[c].helper.Blocked? && s.lock.Free?
    case TakeLocked(c) => c in s.shutdowns && s.shutdowns[c].caller.Selecting? && s.shutdowns[c].helper.Locked?
    case TakeCancel(c) => c in s.shutdowns && s.shutdowns[c].caller.Selecting?
    case ClosePool(c) => c in s.shutdowns && s.shutdowns[c].caller.ClosingPools? && s.shutdowns[c].caller.next < pools
    case ReturnOk(c) => c in s.shutdowns && s.shutdowns[c].caller == ClosingPools(pools)
  }

  function Next(pools: nat, s: State, a: Action): State
    requires Enabled(pools, s, a)
  {
    match a
    case CallCollect(c) => s.(collects := s.collects[c := Wanting])
    case Enter(c) => s.(lock := Collecting(c), collects := s.collects[c := Inside])
    case Leave(c) => s.(lock := Free, collects := s.collects[c := Left])
    case CallShutdown(c) => s.(shutdowns := s.shutdowns[c := Shutdown(Selecting, Blocked)])
    case HelperLock(c) => s.(lock := Helper(c), shutdowns := s.shutdowns[c := s.shutdowns[c].(helper := Locked)])
    case TakeLocked(c) => s.(shutdowns := s.shutdowns[c := s.shutdowns[c].(caller := ClosingPools(0))])
    case TakeCancel(c) => s.(shutdowns := s.shutdowns[c := s.shutdowns[c].(caller := Cancelled)])
    case ClosePool(c) =>
      s.(shutdowns := s.shutdowns[c := s.shutdowns[c].(caller := ClosingPools(s.shutdowns[c].caller.next + 1))])
    case ReturnOk(c) => s.(lock := Free, shutdowns := s.shutdowns[c := Shutdown(ReturnedOk, Released)])
  }

  /** The states of a run from `s`: one more than its actions. */
  ghost predicate IsRun(pools: nat, s: State, actions: seq<Action>, states: seq<State>) {
    && |states| == |actions| + 1 && states[0] == s
    && forall i :: 0 <= i < |actions| ==> Steps(pools, states[i], actions[i], states[i + 1])
  }

  ghost predicate Steps(pools: nat, s: State, a: Action, s': State) {
    Enabled(pools, s, a) && s' == Next(pools, s, a)
  }

  /** The lock has one owner, and the program counters agree with it. */
  ghost predicate Inv(s: State) {
    && (forall c :: c in s.collects ==> (s.collects[c].Inside? <==> s.lock == Collecting(c)))
    && (s.lock.Collecting? ==> s.lock.call in s.collects)
    && (forall c :: c in s.shutdowns ==> (s.shutdowns[c].helper.Locked? <==> s.lock == Helper(c)))
    && (s.lock.Helper? ==> s.lock.call in s.shutdowns)
    && (forall c :: c in s.shutdowns && s.shutdowns[c].caller.ClosingPools? ==> s.shutdowns[c].helper.Locked?)
    && (forall c :: c in s.shutdowns && s.shutdowns[c].helper.Released? ==> s.shutdowns[c].caller.ReturnedOk?)
    && (forall c :: c in s.shutdowns && s.shutdowns[c].caller.ReturnedOk? ==> s.shutdowns[c].helper.Released?)
  }

  lemma StepInv(pools: nat, s: State, a: Action)
    requires Inv(s) && Enabled(pools, s, a)
    ensures Inv(Next(pools, s, a))
  {
  }

  lemma {:induction false} RunInv(pools: nat, s: State, actions: seq<Action>, states: seq<State>, k: nat)
    requires Inv(s) && IsRun(pools, s, actions, states) && k < |states|
    ensures Inv(states[k])
  {
    if k > 0 {
      RunInv(pools, s, actions, states, k - 1);
      assert Steps(pools, states[k - 1], actions[k - 1], states[k]);
      StepInv(pools, states[k - 1], actions[k - 1]);
    }
  }

  /** Pools are closed only while no scrape is in its critical section. */
  lemma {:induction false} PoolsCloseOutsideScrapes(pools: nat, actions: seq<Action>, states: seq<State>, k: nat)
    requires IsRun(pools, START, actions, states) && k < |actions| && actions[k].ClosePool?
    ensures forall c :: c in states[k].collects ==> !states[k].collects[c].Inside?
    ensures states[k].lock == states[k + 1].lock == Helper(actions[k].c)
  {
    RunInv(pools, START, actions, states, k);
    assert Steps(pools, states[k], actions[k], states[k + 1]);
  }

  /** How many pools call `c` closed in these actions. */
  ghost function Closes(actions: seq<Action>, c: Call): nat {
    if actions == [] then 0 else Closes(Init(actions), c) + if Last(actions) == ClosePool(c) then 1 else 0
  }

  /** What a Shutdown's caller has closed, by where it stands. */
  ghost predicate ClosedSoFar(pools: nat, s: State, c: Call, closed: nat) {
    if c !in s.shutdowns then closed == 0
    else
      match s.shutdowns[c].caller
      case Selecting => closed == 0
      case ClosingPools(next) => closed == next <= pools
      case ReturnedOk => closed == pools
      case Cancelled => closed == 0
  }

  /**
   In every run, a Shutdown that returned nil has closed every pool, each once; one
   that is closing them has closed those below its index, and one still waiting or
   cancelled none.
   */
  lemma {:induction false} ReturnedOkClosedAll(pools: nat, actions: seq<Action>, states: seq<State>, k: nat, c: Call)
    requires IsRun(pools, START, actions, states) && k < |states|
    ensures ClosedSoFar(pools, states[k], c, Closes(actions[..k], c))
  {
    if k > 0 {
      ReturnedOkClosedAll(pools, actions, states, k - 1, c);
      assert Init(actions[..k]) == actions[..k - 1] && Last(actions[..k]) == actions[k - 1];
      assert Steps(pools, states[k - 1], actions[k - 1], states[k]);
    }
  }

  // ---- runs in which no Shutdown is cancelled ----

  /** A scrape, or a Shutdown between its helper's lock and its own return. */
  ghost predicate SectionActive(s: State) {
    || (exists c :: c in s.collects && s.collects[c].Inside?)
    || (exists c :: c in s.shutdowns && s.shutdowns[c].helper.Locked? && !s.shutdowns[c].caller.Cancelled?)
  }

  ghost predicate NoneCancelled(s: State) {
    forall c :: c in s.shutdowns ==> !s.shutdowns[c].caller.Cancelled?
  }

  /** Without a cancelled Shutdown the lock is free exactly when no section is active. */
  lemma {:induction false} LockFreeIffIdle(pools: nat, actions: seq<Action>, states: seq<State>, k: nat)
    requires IsRun(pools, START, actions, states) && k < |states|
    requires forall i :: 0 <= i < k ==> !actions[i].TakeCancel?
    ensures NoneCancelled(states[k])
    ensures states[k].lock.Free? <==> !SectionActive(states[k])
  {
    RunInv(pools, START, actions, states, k);
    if k > 0 {
      LockFreeIffIdle(pools, actions, states, k - 1);
      assert Steps(pools, states[k - 1], actions[k - 1], states[k]);
    }
    var s := states[k];
    match s.lock
    case Free =>
    case Collecting(c) => assert c in s.collects && s.collects[c].Inside?;
    case Helper(c) => assert c in s.shutdowns && s.shutdowns[c].helper.Locked?;
  }

  // ---- a cancelled Shutdown ----

  /** The lock belongs to the helper of a Shutdown that already gave up. */
  ghost predicate Orphaned(s: State, c: Call) {
    s.lock == Helper(c) && c in s.shutdowns && s.shutdowns[c] == Shutdown(Cancelled, Locked)
  }

  /** An orphaned lock is never released: no scrape enters, no pool closes, no Shutdown succeeds. */
  lemma {:induction false} OrphanedForever(
      pools: nat, s: State, c: Call, actions: seq<Action>, states: seq<State>, k: nat)
    requires Inv(s) && Orphaned(s, c) && IsRun(pools, s, actions, states) && k < |states|
    ensures Orphaned(states[k], c)
    ensures k < |actions| ==> !actions[k].Enter? && !actions[k].ClosePool? && !actions[k].ReturnOk?
  {
    if k > 0 {
      OrphanedForever(pools, s, c, actions, states, k - 1);
      assert Steps(pools, states[k - 1], actions[k - 1], states[k]);
    }
    RunInv(pools, s, actions, states, k);
    if k > 0 { RunInv(pools, s, actions, states, k - 1); }
    if k < |actions| { assert Steps(pools, states[k], actions[k], states[k + 1]); }
  }

  /** A cancelled Shutdown leaves its helper behind for good: blocked, or owning the lock. */
  lemma {:induction false} HelperOutlivesCancel(
      pools: nat, s: State, c: Call, actions: seq<Action>, states: seq<State>, k: nat)
    requires Inv(s) && c in s.shutdowns && s.shutdowns[c].caller.Cancelled?
    requires IsRun(pools, s, actions, states) && k < |states|
    ensures c in states[k].shutdowns && states[k].shutdowns[c].caller.Cancelled?
    ensures states[k].lock.Free? ==> Enabled(pools, states[k], HelperLock(c))
                                     && Orphaned(Next(pools, states[k], HelperLock(c)), c)
  {
    RunInv(pools, s, actions, states, k);
    if k > 0 {
      HelperOutlivesCancel(pools, s, c, actions, states, k - 1);
      assert Steps(pools, states[k - 1], actions[k - 1], states[k]);
    }
  }

  /** `c` can still get into its critical section by some run from `s`. */
  ghost predicate CanEnter(pools: nat, s: State, c: Call) {
    exists actions, states :: IsRun(pools, s, actions, states) && actions != [] && Last(actions) == Enter(c)
  }

  lemma RunCons(pools: nat, s: State, a: Action, actions: seq<Action>, states: seq<State>)
    requires Enabled(pools, s, a) && IsRun(pools, Next(pools, s, a), actions, states)
    ensures IsRun(pools, s, [a] + actions, [s] + states)
  {
  }

  lemma CanEnterAfter(pools: nat, s: State, a: Action, c: Call)
    requires Enabled(pools, s, a) && CanEnter(pools, Next(pools, s, a), c)
    ensures CanEnter(pools, s, c)
  {
    var actions, states :|
      IsRun(pools, Next(pools, s, a), actions, states) && actions != [] && Last(actions) == Enter(c);
    RunCons(pools, s, a, actions, states);
    assert Last([a] + actions) == Enter(c);
  }

  lemma CanEnterNow(pools: nat, s: State, c: Call)
    requires Enabled(pools, s, Enter(c))
    ensures CanEnter(pools, s, c)
  {
    var states := [s, Next(pools, s, Enter(c))];
    assert Steps(pools, states[0], Enter(c), states[1]);
    assert IsRun(pools, s, [Enter(c)], states) && Last([Enter(c)]) == Enter(c);
  }

  /** A Shutdown that owns the lock and was not cancelled can close every pool and release it. */
  lemma {:induction false} ShutdownReleases(pools: nat, s: State, d: Call, c: Call)
    requires Inv(s) && c in s.collects && s.collects[c].Wanting?
    requires d in s.shutdowns && s.shutdowns[d].caller.ClosingPools? && s.shutdowns[d].caller.next <= pools
    ensures CanEnter(pools, s, c)
    decreases pools - s.shutdowns[d].caller.next
  {
    var next := s.shutdowns[d].caller.next;
    if next == pools {
      CanEnterNow(pools, Next(pools, s, ReturnOk(d)), c);
      CanEnterAfter(pools, s, ReturnOk(d), c);
    } else {
      StepInv(pools, s, ClosePool(d));
      ShutdownReleases(pools, Next(pools, s, ClosePool(d)), d, c);
      CanEnterAfter(pools, s, ClosePool(d), c);
    }
  }

  ghost predicate PoolsInRange(pools: nat, s: State) {
    forall d :: d in s.shutdowns && s.shutdowns[d].caller.ClosingPools? ==> s.shutdowns[d].caller.next <= pools
  }

  lemma {:induction false} RunPoolsInRange(pools: nat, actions: seq<Action>, states: seq<State>, k: nat)
    requires IsRun(pools, START, actions, states) && k < |states|
    ensures PoolsInRange(pools, states[k])
  {
    if k > 0 {
      RunPoolsInRange(pools, actions, states, k - 1);
      assert Steps(pools, states[k - 1], actions[k - 1], states[k]);
    }
  }

  /**
   In every reachable state, a waiting scrape can still run exactly when the lock is
   not held by the helper of a cancelled Shutdown.
   */
  lemma {:induction false} ScrapePossibleIff(pools: nat, actions: seq<Action>, states: seq<State>, c: Call)
    requires IsRun(pools, START, actions, states)
    requires var s := Last(states); c in s.collects && s.collects[c].Wanting?
    ensures CanEnter(pools, Last(states), c) <==> !exists d :: Orphaned(Last(states), d)
  {
    var s := Last(states);
    RunInv(pools, START, actions, states, |states| - 1);
    RunPoolsInRange(pools, actions, states, |states| - 1);
    if d :| Orphaned(s, d) {
      if CanEnter(pools, s, c) {
        var as', ss :| IsRun(pools, s, as', ss) && as' != [] && Last(as') == Enter(c);
        OrphanedForever(pools, s, d, as', ss, |as'| - 1);
      }
    } else {
      match s.lock
      case Free => CanEnterNow(pools, s, c);
      case Collecting(u) =>
        CanEnterNow(pools, Next(pools, s, Leave(u)), c);
        CanEnterAfter(pools, s, Leave(u), c);
      case Helper(d) =>
        var sd := s.shutdowns[d];
        assert !Orphaned(s, d);
        if sd.caller.Selecting? {
          StepInv(pools, s, TakeLocked(d));
          ShutdownReleases(pools, Next(pools, s, TakeLocked(d)), d, c);
          CanEnterAfter(pools, s, TakeLocked(d), c);
        } else {
          ShutdownReleases(pools, s, d, c);
        }
    }
  }

  /** The orphaned lock is reachable: the context wins the race after the helper got the lock. */
  lemma OrphanReachable(pools: nat) returns (actions: seq<Action>, states: seq<State>)
    ensures IsRun(pools, START, actions, states) && Orphaned(Last(states), 0)
  {
    actions := [CallShutdown(0), HelperLock(0), TakeCancel(0)];
    var s1 := Next(pools, START, actions[0]);
    var s2 := Next(pools, s1, actions[1]);
    var s3 := Next(pools, s2, actions[2]);
    states := [START, s1, s2, s3];
    forall i | 0 <= i < |actions| ensures Steps(pools, states[i], actions[i], states[i + 1]) { }
  }
}
