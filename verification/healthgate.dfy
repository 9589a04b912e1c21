/** `waitForCheckOk`: poll the container's check URL until it answers with a
    2xx status or, after a non-2xx answer, the time budget is used up. */
module HealthGate {
  import opened Strings
  import opened Tutum

  /** Pause between two attempts (`time.Sleep(5 * time.Second)`). It only
      documents the sleep: the model reads clock values, not elapsed time. */
  const PollIntervalSeconds := 5

  /** What one `http.Get` produced: a response with its status code, together
      with the clock reading taken after it, or a transport error. */
  datatype Probe = Responded(status: int, now: int) | Unreachable(reason: string)

  /** The inputs the gate reads from its environment: the
      `SEQREDEPLOY_HOSTIP` override, the clock at the start, and the outcome
      of each attempt in order. */
  datatype Probing = Probing(hostOverride: string, startedAt: int, probes: seq<Probe>)

  /** `attempt` is the 0-based index of the probe that ended the wait;
      `Polling` means the probes ran out while the source keeps polling. */
  datatype GateResult = Healthy(attempt: nat) | TimedOut(attempt: nat, url: string) | Polling

  predicate IsSuccess(status: int) {
    200 <= status && status < 300
  }

  /** The override when it is set, the container's private address otherwise. */
  function ProbeHost(hostOverride: string, container: Container): string {
    if hostOverride == "" then container.privateIp else hostOverride
  }

  /** `"http://" + host + ":" + Itoa(port) + path`, using the first published port. */
  function CheckUrl(hostOverride: string, container: Container, path: string): (url: string)
    requires |container.ports| > 0
    ensures var host := ProbeHost(hostOverride, container);
      && |url| >= 8 + |host| + |path|
      && HasPrefix(url, "http://")
      && url[7..7 + |host|] == host
      && url[7 + |host|] == ':'
      && url[|url| - |path|..] == path
      && IsDecimal(url[8 + |host|..|url| - |path|])
      && CanonicalDecimal(url[8 + |host|..|url| - |path|])
      && Atoi(url[8 + |host|..|url| - |path|]) == container.ports[0].outerPort
  {
    var host := ProbeHost(hostOverride, container);
    var port := Itoa(container.ports[0].outerPort);
    var url := "http://" + host + ":" + port + path;
    ItoaRoundTrip(container.ports[0].outerPort);
    ItoaCanonical(container.ports[0].outerPort);
    assert url[8 + |host|..|url| - |path|] == port;
    url
  }

  /** A probe that ends the wait: a 2xx response, or a non-2xx response read
      when the budget is used up. A transport error never ends it. */
  predicate EndsWait(p: Probe, startedAt: int, timeoutSeconds: int) {
    p.Responded? && (IsSuccess(p.status) || p.now - startedAt >= timeoutSeconds)
  }

  function PollFrom(url: string, probes: seq<Probe>, startedAt: int, timeoutSeconds: int, i: nat): GateResult
    requires i <= |probes|
    decreases |probes| - i
  {
    if i == |probes| then Polling
    else match probes[i]
      case Unreachable(_) => PollFrom(url, probes, startedAt, timeoutSeconds, i + 1)
      case Responded(status, now) =>
        if IsSuccess(status) then Healthy(i)
        else if now - startedAt >= timeoutSeconds then TimedOut(i, url)
        else PollFrom(url, probes, startedAt, timeoutSeconds, i + 1)
  }

  /** `waitForCheckOk(path, container, timeoutSeconds)`. */
  function WaitForCheckOk(path: string, container: Container, timeoutSeconds: int, env: Probing): GateResult
    requires |container.ports| > 0
  {
    PollFrom(CheckUrl(env.hostOverride, container, path), env.probes, env.startedAt, timeoutSeconds, 0)
  }

  lemma {:induction false} PollFromFirstEnding(url: string, probes: seq<Probe>, startedAt: int, timeoutSeconds: int, i: nat, k: nat)
    requires i <= k < |probes|
    requires EndsWait(probes[k], startedAt, timeoutSeconds)
    requires forall j :: i <= j < k ==> !EndsWait(probes[j], startedAt, timeoutSeconds)
    ensures PollFrom(url, probes, startedAt, timeoutSeconds, i)
         == if IsSuccess(probes[k].status) then Healthy(k) else TimedOut(k, url)
    decreases k - i
  {
    if i < k {
      PollFromFirstEnding(url, probes, startedAt, timeoutSeconds, i + 1, k);
    }
  }

  lemma {:induction false} PollFromNoneEnding(url: string, probes: seq<Probe>, startedAt: int, timeoutSeconds: int, i: nat)
    requires i <= |probes|
    requires forall j :: i <= j < |probes| ==> !EndsWait(probes[j], startedAt, timeoutSeconds)
    ensures PollFrom(url, probes, startedAt, timeoutSeconds, i) == Polling
    decreases |probes| - i
  {
    if i < |probes| {
      PollFromNoneEnding(url, probes, startedAt, timeoutSeconds, i + 1);
    }
  }

  /** The gate is decided by the first probe that ends the wait: success if
      that probe is a 2xx response, timeout otherwise. Earlier probes (transport
      errors, and non-2xx responses read within budget) are retried. */
  lemma GateDecidedByFirstEndingProbe(path: string, container: Container, timeoutSeconds: int, env: Probing, k: nat)
    requires |container.ports| > 0
    requires k < |env.probes| && EndsWait(env.probes[k], env.startedAt, timeoutSeconds)
    requires forall j :: 0 <= j < k ==> !EndsWait(env.probes[j], env.startedAt, timeoutSeconds)
    ensures WaitForCheckOk(path, container, timeoutSeconds, env)
         == if IsSuccess(env.probes[k].status) then Healthy(k)
            else TimedOut(k, CheckUrl(env.hostOverride, container, path))
  {
    PollFromFirstEnding(CheckUrl(env.hostOverride, container, path), env.probes, env.startedAt, timeoutSeconds, 0, k);
  }

  /** While no probe ends the wait, the gate keeps polling. In particular a
      run of transport errors never times out, whatever the clock says. */
  lemma GateKeepsPollingWithoutEndingProbe(path: string, container: Container, timeoutSeconds: int, env: Probing)
    requires |container.ports| > 0
    requires forall j :: 0 <= j < |env.probes| ==> !EndsWait(env.probes[j], env.startedAt, timeoutSeconds)
    ensures WaitForCheckOk(path, container, timeoutSeconds, env) == Polling
  {
    PollFromNoneEnding(CheckUrl(env.hostOverride, container, path), env.probes, env.startedAt, timeoutSeconds, 0);
  }

  /** An endpoint that only ever answers non-2xx times out at the first
      attempt whose clock reading is past the budget, and at no earlier one. */
  lemma AlwaysFailingEndpointTimesOut(path: string, container: Container, timeoutSeconds: int, env: Probing, k: nat)
    requires |container.ports| > 0
    requires forall j :: 0 <= j < |env.probes| ==> env.probes[j].Responded? && !IsSuccess(env.probes[j].status)
    requires k < |env.probes| && env.probes[k].now - env.startedAt >= timeoutSeconds
    ensures var r := WaitForCheckOk(path, container, timeoutSeconds, env);
      && r.TimedOut? && r.attempt <= k
      && env.probes[r.attempt].now - env.startedAt >= timeoutSeconds
      && forall j :: 0 <= j < r.attempt ==> env.probes[j].now - env.startedAt < timeoutSeconds
  {
    var first := FirstEnding(env.probes, env.startedAt, timeoutSeconds, 0, k);
    GateDecidedByFirstEndingProbe(path, container, timeoutSeconds, env, first);
  }

  /** The least index in `[i, k]` whose probe ends the wait. */
  function FirstEnding(probes: seq<Probe>, startedAt: int, timeoutSeconds: int, i: nat, k: nat): (f: nat)
    requires i <= k < |probes| && EndsWait(probes[k], startedAt, timeoutSeconds)
    ensures i <= f <= k && EndsWait(probes[f], startedAt, timeoutSeconds)
    ensures forall j :: i <= j < f ==> !EndsWait(probes[j], startedAt, timeoutSeconds)
    decreases k - i
  {
    if EndsWait(probes[i], startedAt, timeoutSeconds) then i
    else FirstEnding(probes, startedAt, timeoutSeconds, i + 1, k)
  }
}
