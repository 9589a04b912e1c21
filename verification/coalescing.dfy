/** The two process-wide flags of httpserver.go and the single-caller
    control flow that uses them: a redeploy request either runs now, or,
    when a run is already active, raises the rerun flag so that the active
    caller runs once more. Each atomic operation is one transition. */
module Coalescing {
  import opened Errors

  newtype u32 = x: int | 0 <= x < 0x1_0000_0000

  /** `redeployServiceIsRunning` and `redeployServiceShouldRunAgain`. */
  datatype Flags = Flags(isRunning: u32, shouldRunAgain: u32)

  /** Both flags start at 0. */
  const Initial := Flags(0, 0)

  /** Only 0 and 1 are ever stored in either flag. */
  predicate Valid(f: Flags) {
    f.isRunning <= 1 && f.shouldRunAgain <= 1
  }

  /** Whether a compare-and-swap succeeded, and the flags afterwards. */
  datatype Swap = Swap(swapped: bool, flags: Flags)

  /** `RedeployServiceIsNotRunningThenSet`: CAS of the running flag from 0 to 1. */
  function RedeployServiceIsNotRunningThenSet(f: Flags): (r: Swap)
    ensures r.swapped <==> f.isRunning == 0
    ensures r.swapped ==> r.flags == f.(isRunning := 1)
    ensures !r.swapped ==> r.flags == f
  {
    if f.isRunning == 0 then Swap(true, f.(isRunning := 1)) else Swap(false, f)
  }

  /** `redeployServiceShouldRunAgainThenReset`: CAS of the rerun flag from 1 to 0. */
  function RedeployServiceShouldRunAgainThenReset(f: Flags): (r: Swap)
    ensures r.swapped <==> f.shouldRunAgain == 1
    ensures r.swapped ==> r.flags == f.(shouldRunAgain := 0)
    ensures !r.swapped ==> r.flags == f
  {
    if f.shouldRunAgain == 1 then Swap(true, f.(shouldRunAgain := 0)) else Swap(false, f)
  }

  /** `atomic.SwapUint32(&redeployServiceIsRunning, 0)`. */
  function ClearRunning(f: Flags): Flags {
    f.(isRunning := 0)
  }

  /** `atomic.SwapUint32(&redeployServiceShouldRunAgain, 1)`. */
  function RequestRerun(f: Flags): Flags {
    f.(shouldRunAgain := 1)
  }

  /** Every transition keeps both flags within {0, 1}. */
  lemma TransitionsPreserveValid(f: Flags)
    requires Valid(f)
    ensures Valid(RedeployServiceIsNotRunningThenSet(f).flags)
    ensures Valid(RedeployServiceShouldRunAgainThenReset(f).flags)
    ensures Valid(ClearRunning(f)) && Valid(RequestRerun(f))
  {
  }

  /** A successful claim excludes a second one until the running flag is
      cleared; clearing makes the claim available again. */
  lemma ClaimIsExclusive(f: Flags)
    requires RedeployServiceIsNotRunningThenSet(f).swapped
    ensures var g := RedeployServiceIsNotRunningThenSet(f).flags;
      && !RedeployServiceIsNotRunningThenSet(g).swapped
      && RedeployServiceIsNotRunningThenSet(g).flags == g
      && RedeployServiceIsNotRunningThenSet(ClearRunning(g)).swapped
      && ClearRunning(g) == f
  {
  }

  /** Raising the rerun flag is a level, not a counter: however many times it
      is raised, one test-and-clear consumes it and the next one fails. */
  lemma RerunRequestsCoalesce(f: Flags)
    ensures RequestRerun(RequestRerun(f)) == RequestRerun(f)
    ensures var c := RedeployServiceShouldRunAgainThenReset(RequestRerun(f));
      && c.swapped
      && !RedeployServiceShouldRunAgainThenReset(c.flags).swapped
  {
  }

  // ----- redeployServiceRunOnceAtATime -----

  /** What the oracle says about one run: the rollout's result, and whether
      another caller raised the rerun flag while the run was in progress. */
  datatype RunInput = RunInput(outcome: Outcome, rerunRequested: bool)

  datatype Attempt = Attempt(alreadyRunning: bool, outcome: Outcome, flags: Flags)

  /** `redeployServiceRunOnceAtATime`: run only when the claim succeeds, then
      clear the running flag (once explicitly and once more by the `defer`). */
  function RedeployServiceRunOnceAtATime(f: Flags, run: RunInput): (a: Attempt)
    ensures a.alreadyRunning <==> f.isRunning != 0
    ensures a.alreadyRunning ==> a.flags == f && a.outcome == Pass
    ensures !a.alreadyRunning ==>
      && a.flags.isRunning == 0
      && a.outcome == run.outcome
      && a.flags.shouldRunAgain == (if run.rerunRequested then 1 else f.shouldRunAgain)
  {
    var claim := RedeployServiceIsNotRunningThenSet(f);
    if claim.swapped then
      var during := if run.rerunRequested then RequestRerun(claim.flags) else claim.flags;
      Attempt(false, run.outcome, ClearRunning(ClearRunning(during)))
    else
      Attempt(true, Pass, f)
  }

  // ----- redeployServiceMaybeDeferred -----

  /** How the caller's loop ended, with the number of runs it performed.
      `InProgress` means that the oracle ran out while a run had been claimed. */
  datatype Report =
    | Deferred(flags: Flags, performed: nat)
    | Returned(flags: Flags, performed: nat, outcome: Outcome)
    | InProgress(flags: Flags, performed: nat)

  function OneMoreRun(r: Report): Report {
    match r
    case Deferred(g, n) => Deferred(g, n + 1)
    case Returned(g, n, o) => Returned(g, n + 1, o)
    case InProgress(g, n) => InProgress(g, n + 1)
  }

  /** The rerun flag is set when run `k` ends: raised during that run, or,
      for the first run, already set when the loop started. */
  predicate RerunPending(f: Flags, runs: seq<RunInput>, k: nat)
    requires k < |runs|
  {
    runs[k].rerunRequested || (k == 0 && f.shouldRunAgain == 1)
  }

  /** `redeployServiceMaybeDeferred` for a single caller; `runs[k]` describes
      the `k`-th run this caller performs. */
  function RedeployServiceMaybeDeferred(f: Flags, runs: seq<RunInput>): (r: Report)
    ensures f.isRunning != 0 ==> r == Deferred(RequestRerun(f), 0)
    ensures Valid(f) && f.isRunning == 0 ==> !r.Deferred?
    ensures Valid(f) && r.Returned? ==>
      && 1 <= r.performed <= |runs|
      && r.flags == Initial
      && r.outcome == runs[r.performed - 1].outcome
      && !RerunPending(f, runs, r.performed - 1)
      && (forall k :: 0 <= k < r.performed - 1 ==> RerunPending(f, runs, k))
    ensures Valid(f) && r.InProgress? ==>
      && r.performed == |runs|
      && r.flags.isRunning == 1
      && (r.performed > 0 ==> r.flags.shouldRunAgain == 0)
      && (forall k :: 0 <= k < |runs| ==> RerunPending(f, runs, k))
    decreases |runs|
  {
    if |runs| == 0 then
      var claim := RedeployServiceIsNotRunningThenSet(f);
      if claim.swapped then InProgress(claim.flags, 0)
      else Deferred(RequestRerun(f), 0)
    else
      var a := RedeployServiceRunOnceAtATime(f, runs[0]);
      if a.alreadyRunning then Deferred(RequestRerun(f), 0)
      else
        var again := RedeployServiceShouldRunAgainThenReset(a.flags);
        if !again.swapped then Returned(again.flags, 1, a.outcome)
        else
          var rest := RedeployServiceMaybeDeferred(again.flags, runs[1..]);
          assert RerunPending(f, runs, 0);
          assert forall k :: 1 <= k < |runs| ==>
            (RerunPending(again.flags, runs[1..], k - 1) <==> RerunPending(f, runs, k));
          OneMoreRun(rest)
  }

  // ----- redeployServiceNowOrLater -----

  /** `redeployServiceNowOrLater`: with a rerun already pending the call is a
      no-op; otherwise it enters the loop above. */
  function RedeployServiceNowOrLater(f: Flags, runs: seq<RunInput>): (r: Report)
    ensures f.shouldRunAgain >= 1 ==> r == Returned(f, 0, Pass)
    ensures f.shouldRunAgain == 0 && f.isRunning != 0 ==> r == Deferred(RequestRerun(f), 0)
    ensures f == Initial && |runs| > 0 ==> r.performed >= 1 && !r.Deferred?
  {
    if f.shouldRunAgain >= 1 then Returned(f, 0, Pass)
    else RedeployServiceMaybeDeferred(f, runs)
  }

  /** The flags after `n` further requests arrive while a run is in progress;
      each of them returns without running. */
  function RequestsDuringRun(f: Flags, n: nat): (g: Flags)
    requires f.isRunning != 0
    ensures g.isRunning == f.isRunning
    decreases n
  {
    if n == 0 then f
    else
      var r := RedeployServiceNowOrLater(f, []);
      assert r.performed == 0;
      RequestsDuringRun(r.flags, n - 1)
  }

  /** A burst of requests during a run collapses into exactly one pending
      rerun, whether the flag was already raised or not. */
  lemma {:induction false} BurstDuringRunCoalesces(f: Flags, n: nat)
    requires Valid(f) && f.isRunning != 0 && n >= 1
    ensures RequestsDuringRun(f, n) == RequestRerun(f)
    decreases n
  {
    var g := RedeployServiceNowOrLater(f, []).flags;
    assert g == RequestRerun(f);
    if n > 1 {
      BurstDuringRunCoalesces(g, n - 1);
    } else {
      assert RequestsDuringRun(f, 1) == RequestsDuringRun(g, 0);
    }
  }
}
