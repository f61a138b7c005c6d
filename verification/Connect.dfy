/** The connection retry loop of the client's constructor. */
module Connect {
  import opened Options

  /** What one attempt to create the pool does. */
  datatype Attempt = Connects | ContextError | OtherError

  datatype Result =
    | Client(attempts: nat)
    | ContextEnded(attempts: nat)
    | LastError(attempts: nat)
    | NilNil                  // no client and no error
    | StillTrying             // unbounded retries, and no attempt so far has ended the loop

  /** The loop runs while i <= maxRetries, or forever when maxRetries is -1. */
  method Connect(maxRetries: int, script: seq<Attempt>) returns (r: Result)
    requires maxRetries >= 0 ==> |script| > maxRetries
    ensures r == Outcome(maxRetries, script)
  {
    var i := 0;
    var failed := false;
    while (i <= maxRetries || maxRetries == -1) && i < |script|
      invariant 0 <= i <= |script| && (failed <==> i > 0)
      invariant maxRetries >= 0 ==> i <= maxRetries + 1
      invariant maxRetries < -1 ==> i == 0
      invariant FirstEnd(script, i).None?
    {
      EndStays(script, i + 1, Reach(maxRetries, script));
      if script[i].ContextError? { return ContextEnded(i + 1); }
      if script[i].Connects? { return Client(i + 1); }
      failed := true;
      i := i + 1;
    }
    r := if maxRetries == -1 then StillTrying else if failed then LastError(i) else NilNil;
  }

  /** How many attempts the retry limit allows. */
  function Reach(maxRetries: int, script: seq<Attempt>): (n: nat)
    requires maxRetries >= 0 ==> |script| > maxRetries
    ensures n <= |script|
  {
    if maxRetries == -1 then |script| else if maxRetries < -1 then 0 else maxRetries + 1
  }

  /** The first of `n` attempts that connects or sees the context end. */
  function FirstEnd(script: seq<Attempt>, n: nat): (k: Option<nat>)
    requires n <= |script|
    ensures k.Some? ==> k.value < n && !script[k.value].OtherError?
                        && forall j :: 0 <= j < k.value ==> script[j].OtherError?
    ensures k.None? ==> forall j :: 0 <= j < n ==> script[j].OtherError?
  {
    if n == 0 then None
    else if FirstEnd(script, n - 1).Some? then FirstEnd(script, n - 1)
    else if script[n - 1].OtherError? then None
    else Some(n - 1)
  }

  lemma {:induction false} EndStays(script: seq<Attempt>, n: nat, m: nat)
    requires n <= m <= |script|
    ensures FirstEnd(script, n).Some? ==> FirstEnd(script, m) == FirstEnd(script, n)
  {
  }

  function Outcome(maxRetries: int, script: seq<Attempt>): Result
    requires maxRetries >= 0 ==> |script| > maxRetries
  {
    var reach := Reach(maxRetries, script);
    match FirstEnd(script, reach)
    case Some(k) => if script[k].Connects? then Client(k + 1) else ContextEnded(k + 1)
    case None => if maxRetries == -1 then StillTrying else if reach == 0 then NilNil else LastError(reach)
  }

  /** A client comes back exactly when an allowed attempt connects and every one before it failed otherwise. */
  lemma ClientIff(maxRetries: int, script: seq<Attempt>, n: nat)
    requires maxRetries >= 0 ==> |script| > maxRetries
    ensures Outcome(maxRetries, script) == Client(n) <==>
      && 0 < n <= |script| && (maxRetries == -1 || n <= maxRetries + 1)
      && script[n - 1].Connects? && forall j :: 0 <= j < n - 1 ==> script[j].OtherError?
  {
  }

  /** The context's error comes back exactly when an allowed attempt sees it end and every one before it failed otherwise. */
  lemma ContextEndedIff(maxRetries: int, script: seq<Attempt>, n: nat)
    requires maxRetries >= 0 ==> |script| > maxRetries
    ensures Outcome(maxRetries, script) == ContextEnded(n) <==>
      && 0 < n <= |script| && (maxRetries == -1 || n <= maxRetries + 1)
      && script[n - 1].ContextError? && forall j :: 0 <= j < n - 1 ==> script[j].OtherError?
  {
    var reach := Reach(maxRetries, script);
    if 0 < n <= reach && script[n - 1].ContextError? && forall j :: 0 <= j < n - 1 ==> script[j].OtherError? {
      assert FirstEnd(script, n) == Some(n - 1);
      EndStays(script, n, reach);
    }
  }

  /** The last attempt's error comes back exactly when all attempts of a limit that is not negative failed otherwise. */
  lemma LastErrorIff(maxRetries: int, script: seq<Attempt>, n: nat)
    requires maxRetries >= 0 ==> |script| > maxRetries
    ensures Outcome(maxRetries, script) == LastError(n) <==>
      maxRetries >= 0 && n == maxRetries + 1 && forall j :: 0 <= j < n ==> script[j].OtherError?
  {
    var reach := Reach(maxRetries, script);
    if FirstEnd(script, reach).Some? { assert !script[FirstEnd(script, reach).value].OtherError?; }
  }

  /** A retry limit below -1 makes no attempt and reports neither a client nor an error. */
  lemma NilNilIff(maxRetries: int, script: seq<Attempt>)
    requires maxRetries >= 0 ==> |script| > maxRetries
    ensures Outcome(maxRetries, script) == NilNil <==> maxRetries < -1
  {
  }
}
