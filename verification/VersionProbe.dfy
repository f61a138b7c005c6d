/**
 The cached server version: a cell that is zero until a probe succeeds, read
 without a lock and filled under a mutex by any number of concurrent callers of
 AtLeast. Probes may fail at any time. Each read or write is one atomic step.
 */
module VersionProbe {
  import opened Options

  type CallerId = nat

  const INT_MIN := -0x8000_0000_0000_0000
  const INT_MAX := 0x7FFF_FFFF_FFFF_FFFF

  predicate InRange(n: int) { INT_MIN <= n <= INT_MAX }

  /** What 64-bit arithmetic makes of an exact result. */
  function Wrap(n: int): (r: int)
    ensures InRange(r) && (InRange(n) ==> r == n)
  {
    if InRange(n) then n else (n - INT_MIN) % 0x1_0000_0000_0000_0000 + INT_MIN
  }

  /** PostgreSQL's encoding of a version: 16.4 is 160004. */
  function VersionNum(major: int, minor: int): int { Wrap(major * 10000 + minor) }

  /** The two comparisons at the end of AtLeast, on the version they read. */
  predicate Gate(read: nat, need: int) { read != 0 && read >= need }

  datatype Probe = Skipped | Succeeded | Failed

  datatype Pc =
    | Entered                     // about to read the cell
    | WantsLock
    | HoldsLock                   // about to re-check the cell
    | Querying
    | Scanned(v: nat)             // the query answered; about to write the cell
    | Unlocking(probe: Probe)
    | Probed(probe: Probe)        // about to read the cell for the answer
    | Answered(probe: Probe, read: nat)

  datatype Call = Call(need: int, pc: Pc)

  datatype State = State(version: nat, mutex: Option<CallerId>, calls: map<CallerId, Call>, scans: nat, writes: nat)

  /** The server this client talks to, and whether it has a pool to ask through. */
  datatype Server = Server(version: nat, hasPool: bool)

  datatype Action =
    | Enter(c: CallerId, need: int) | FirstRead(c: CallerId) | Lock(c: CallerId) | Recheck(c: CallerId)
    | QueryOk(c: CallerId) | QueryFails(c: CallerId) | WriteCell(c: CallerId) | Unlock(c: CallerId)
    | FinalRead(c: CallerId)

  const START := State(0, None, map[], 0, 0)

  predicate At(s: State, c: CallerId, pc: Pc) { c in s.calls && s.calls[c].pc == pc }

  predicate Enabled(s: State, a: Action) {
    match a
    case Enter(c, _) => c in s.calls ==> s.calls[c].pc.Answered?
    case FirstRead(c) => At(s, c, Entered)
    case Lock(c) => At(s, c, WantsLock) && s.mutex.None?
    case Recheck(c) => At(s, c, HoldsLock)
    case QueryOk(c) => At(s, c, Querying)
    case QueryFails(c) => At(s, c, Querying)
    case WriteCell(c) => c in s.calls && s.calls[c].pc.Scanned?
    case Unlock(c) => c in s.calls && s.calls[c].pc.Unlocking?
    case FinalRead(c) => c in s.calls && s.calls[c].pc.Probed?
  }

  function Goto(s: State, c: CallerId, pc: Pc): State
    requires c in s.calls
  {
    s.(calls := s.calls[c := s.calls[c].(pc := pc)])
  }

  function Next(v: Server, s: State, a: Action): State
    requires Enabled(s, a)
  {
    match a
    case Enter(c, need) => s.(calls := s.calls[c := Call(need, Entered)])
    case FirstRead(c) => Goto(s, c, if s.version == 0 && v.hasPool then WantsLock else Probed(Skipped))
    case Lock(c) => Goto(s, c, HoldsLock).(mutex := Some(c))
    case Recheck(c) => Goto(s, c, if s.version != 0 then Unlocking(Succeeded) else Querying)
    case QueryOk(c) => Goto(s, c, Scanned(v.version)).(scans := s.scans + 1)
    case QueryFails(c) => Goto(s, c, Unlocking(Failed))
    case WriteCell(c) => Goto(s, c, Unlocking(Succeeded)).(version := s.calls[c].pc.v, writes := s.writes + 1)
    case Unlock(c) => Goto(s, c, Probed(s.calls[c].pc.probe)).(mutex := None)
    case FinalRead(c) => Goto(s, c, Answered(s.calls[c].pc.probe, s.version))
  }

  ghost predicate Steps(v: Server, s: State, a: Action, s': State) {
    Enabled(s, a) && s' == Next(v, s, a)
  }

  ghost predicate IsRun(v: Server, actions: seq<Action>, states: seq<State>) {
    && |states| == |actions| + 1 && states[0] == START
    && forall i :: 0 <= i < |actions| ==> Steps(v, states[i], actions[i], states[i + 1])
  }

  predicate InLock(pc: Pc) { pc.HoldsLock? || pc.Querying? || pc.Scanned? || pc.Unlocking? }

  ghost predicate CallInv(v: Server, s: State, c: CallerId)
    requires c in s.calls
  {
    var pc := s.calls[c].pc;
    && (InLock(pc) <==> s.mutex == Some(c))
    && (pc.Querying? || pc.Scanned? ==> s.version == 0)
    && (pc.Scanned? ==> pc.v == v.version)
    && (pc.Unlocking? && pc.probe.Succeeded? ==> s.version != 0)
    && (pc.Unlocking? ==> !pc.probe.Skipped?)
    && (pc.Probed? ==> s.version != 0 || pc.probe.Failed? || !v.hasPool)
    && (pc.Answered? ==>
          && (pc.read == v.version || (pc.read == 0 && (pc.probe.Failed? || !v.hasPool)))
          && (pc.read != 0 ==> s.version != 0))
  }

  ghost predicate Scanning(s: State) {
    s.mutex.Some? && s.mutex.value in s.calls && s.calls[s.mutex.value].pc.Scanned?
  }

  ghost predicate Inv(v: Server, s: State) {
    && (s.version == 0 || s.version == v.version)
    && (s.mutex.Some? ==> s.mutex.value in s.calls)
    && (forall c :: c in s.calls ==> CallInv(v, s, c))
    && s.writes == (if s.version != 0 then 1 else 0)
    && s.scans == s.writes + if Scanning(s) then 1 else 0
  }

  lemma StepInv(v: Server, s: State, a: Action)
    requires v.version > 0 && Inv(v, s) && Enabled(s, a)
    ensures Inv(v, Next(v, s, a))
    ensures s.version != 0 ==> Next(v, s, a).version == s.version
  {
    var s' := Next(v, s, a);
    assert !a.Enter? ==> CallInv(v, s, a.c);
    forall c | c in s'.calls ensures CallInv(v, s', c) {
      if c != a.c { assert CallInv(v, s, c); }
    }
  }

  lemma {:induction false} RunInv(v: Server, actions: seq<Action>, states: seq<State>, k: nat)
    requires v.version > 0 && IsRun(v, actions, states) && k < |states|
    ensures Inv(v, states[k])
  {
    if k > 0 {
      RunInv(v, actions, states, k - 1);
      assert Steps(v, states[k - 1], actions[k - 1], states[k]);
      StepInv(v, states[k - 1], actions[k - 1]);
    }
  }

  /**
   Over every run with any number of callers: the cell only ever holds zero or the
   server's version, it is written at most once, and at most one query succeeds.
   */
  lemma VersionWrittenOnce(v: Server, actions: seq<Action>, states: seq<State>, k: nat)
    requires v.version > 0 && IsRun(v, actions, states) && k < |states|
    ensures states[k].version == 0 || states[k].version == v.version
    ensures states[k].writes <= 1 && states[k].scans <= 1
  {
    RunInv(v, actions, states, k);
    if Scanning(states[k]) { assert CallInv(v, states[k], states[k].mutex.value); }
  }

  /** Once known, the version stays known. */
  lemma {:induction false} VersionStays(v: Server, actions: seq<Action>, states: seq<State>, i: nat, j: nat)
    requires v.version > 0 && IsRun(v, actions, states) && i <= j < |states| && states[i].version != 0
    ensures states[j].version == v.version
  {
    RunInv(v, actions, states, j);
    if i < j {
      VersionStays(v, actions, states, i, j - 1);
      assert Steps(v, states[j - 1], actions[j - 1], states[j]);
      RunInv(v, actions, states, j - 1);
      StepInv(v, states[j - 1], actions[j - 1]);
    }
  }

  /** At most one version query is outstanding at any time. */
  lemma QueriesSerialised(v: Server, actions: seq<Action>, states: seq<State>, k: nat, c: CallerId, d: CallerId)
    requires v.version > 0 && IsRun(v, actions, states) && k < |states|
    requires At(states[k], c, Querying) && At(states[k], d, Querying)
    ensures c == d
  {
    RunInv(v, actions, states, k);
    assert CallInv(v, states[k], c) && CallInv(v, states[k], d);
  }

  /**
   A true answer is always right. A false answer is wrong exactly when the server is
   new enough and the caller's last read still found no version, which happens only
   after the caller's own probe failed or without a pool to probe through.
   */
  lemma AnswersCorrect(v: Server, actions: seq<Action>, states: seq<State>, k: nat, c: CallerId)
    requires v.version > 0 && IsRun(v, actions, states) && k < |states|
    requires c in states[k].calls && states[k].calls[c].pc.Answered?
    ensures var call := states[k].calls[c];
      && (Gate(call.pc.read, call.need) ==> v.version >= call.need)
      && (v.version >= call.need ==> (!Gate(call.pc.read, call.need) <==> call.pc.read == 0))
      && (call.pc.read == 0 ==> call.pc.probe.Failed? || !v.hasPool)
  {
    RunInv(v, actions, states, k);
    assert CallInv(v, states[k], c);
  }

  /** Whoever answers after the version became known answers exactly. */
  lemma KnownVersionAnswersExactly(v: Server, actions: seq<Action>, states: seq<State>, i: nat, j: nat)
    requires v.version > 0 && IsRun(v, actions, states) && i <= j < |actions|
    requires states[i].version != 0 && actions[j].FinalRead?
    ensures actions[j].c in states[j + 1].calls
    ensures var call := states[j + 1].calls[actions[j].c];
            call.pc.Answered? && (Gate(call.pc.read, call.need) <==> v.version >= call.need)
  {
    VersionStays(v, actions, states, i, j);
    assert Steps(v, states[j], actions[j], states[j + 1]);
  }

  /** The versions a sequence of gate calls may base its answers on. */
  ghost predicate Admissible(server: nat, seen: seq<nat>) {
    && (forall i :: 0 <= i < |seen| ==> seen[i] == 0 || seen[i] == server)
    && (forall i, j :: 0 <= i < j < |seen| && seen[i] != 0 ==> seen[j] != 0)
  }

  /** In any run, the final seen taken at increasing times are admissible. */
  lemma FinalReadsAdmissible(v: Server, actions: seq<Action>, states: seq<State>, times: seq<nat>)
    requires v.version > 0 && IsRun(v, actions, states)
    requires forall i :: 0 <= i < |times| ==> times[i] < |actions|
    requires forall i, j :: 0 <= i < j < |times| ==> times[i] < times[j]
    ensures Admissible(v.version, seq(|times|, i requires 0 <= i < |times| => states[times[i]].version))
  {
    var seen := seq(|times|, i requires 0 <= i < |times| => states[times[i]].version);
    forall i | 0 <= i < |seen| ensures seen[i] == 0 || seen[i] == v.version {
      VersionWrittenOnce(v, actions, states, times[i]);
    }
    forall i, j | 0 <= i < j < |seen| && seen[i] != 0 ensures seen[j] != 0 {
      VersionStays(v, actions, states, times[i], times[j]);
    }
  }

  /** One caller, no version, nothing asked successfully. */
  function Lone(need: int, pc: Pc): State {
    State(0, if InLock(pc) then Some(0) else None, map[0 := Call(need, pc)], 0, 0)
  }

  lemma LoneStep(v: Server, need: int, pc: Pc, a: Action, pc': Pc)
    requires Enabled(Lone(need, pc), a) && !a.Enter? && !a.QueryOk? && !a.WriteCell? && a.c == 0
    requires Next(v, Lone(need, pc), a).calls[0].pc == pc' && Next(v, Lone(need, pc), a).mutex == Lone(need, pc').mutex
    ensures Steps(v, Lone(need, pc), a, Lone(need, pc'))
  {
  }

  /** A run in which the query fails and the caller answers without a version. */
  lemma UnknownAnswerReachable(v: Server, need: int) returns (actions: seq<Action>, states: seq<State>)
    requires v.hasPool
    ensures IsRun(v, actions, states) && |actions| == 7
    ensures actions[6].FinalRead? && At(states[7], 0, Answered(Failed, 0)) && states[6].version == 0
  {
    actions := [Enter(0, need), FirstRead(0), Lock(0), Recheck(0), QueryFails(0), Unlock(0), FinalRead(0)];
    var pcs := [Entered, WantsLock, HoldsLock, Querying, Unlocking(Failed), Probed(Failed), Answered(Failed, 0)];
    states := [START] + seq(7, i requires 0 <= i < 7 => Lone(need, pcs[i]));
    forall i | 0 <= i < |actions| ensures Steps(v, states[i], actions[i], states[i + 1]) {
      if i > 0 { LoneStep(v, need, pcs[i - 1], actions[i], pcs[i]); }
    }
  }
}
