/** The rollout: resolve the names, then redeploy the service's containers
    one at a time, in inventory order, stopping at the first that fails. */
module Redeploy {
  import opened Errors
  import opened Strings
  import opened Tutum
  import opened Lookup
  import opened HttpCheck
  import opened HealthGate
  import opened Watcher

  /** Budget handed to the health gate for every container (`10*60`). */
  const CheckTimeoutSeconds := 10 * 60

  /** Pause after each redeployed container (`time.Sleep(25 * time.Second)`).
      It only documents the sleep, which the model does not represent. */
  const SettleSeconds := 25

  /** The results the remote API hands back while one container is
      redeployed: `getContainer` answers both the initial fetch and the
      watcher's re-fetch, `redeploy` is the result of the Redeploy call. */
  datatype StepWorld = StepWorld(
    getContainer: string -> Result<Container>,
    redeploy: Outcome,
    feed: seq<FeedItem>,
    probing: Probing)

  /** Whether the Redeploy command was issued, and how the step ended. */
  datatype StepReport = StepReport(issued: bool, progress: Progress)

  /** The container the step works on, as fetched by URI. */
  function Fetched(containerUri: string, w: StepWorld): Result<Container> {
    w.getContainer(GetUuidFromUri(containerUri))
  }

  /** The `HTTP_CHECK` path of the fetched container, or the error that
      ends the step before Redeploy: the definition is missing, or it does
      not start with `GET` and a space. */
  function CheckPath(c: Container): (r: Result<string>)
    ensures GetEnvFromContainer(CheckEnvName, c).Err? ==> r == Err(EnvNotFound(CheckEnvName, c.name))
    ensures GetEnvFromContainer(CheckEnvName, c).Ok? ==>
      var definition := GetEnvFromContainer(CheckEnvName, c).value;
      && (r.Ok? <==> HasPrefix(definition, "GET "))
      && (r.Ok? ==> r.value == Split(definition[4..], ' ')[0])
      && (r.Err? ==> r.error == BadHttpCheck(c.name, definition))
  {
    match GetEnvFromContainer(CheckEnvName, c)
    case Err(e) => Err(e)
    case Ok(definition) =>
      HttpCheckAcceptedIffGetPrefix(c.name, definition);
      ParseHttpCheck(c.name, definition)
  }

  /** What the watcher reports for the fetched container. */
  function Watched(c: Container, parentService: Service, w: StepWorld): WatchResult {
    WaitForContainerToTerminateAndReappear(c, parentService, w.feed, w.getContainer)
  }

  /** The health gate reads `Container_ports[0]` of the replacement; the
      source panics when the replacement publishes no port. The gate is only
      reached after a valid check definition, an accepted Redeploy and a
      replacement seen by the watcher. */
  predicate ReplacementHasPort(parentService: Service, containerUri: string, w: StepWorld) {
    && Fetched(containerUri, w).Ok?
    && CheckPath(Fetched(containerUri, w).value).Ok?
    && w.redeploy == Pass
    && Watched(Fetched(containerUri, w).value, parentService, w).Replaced?
    ==> |Watched(Fetched(containerUri, w).value, parentService, w).container.ports| > 0
  }

  /** `doRedeployContainer`. The haproxy container uuid is accepted but not
      used, as in the source. */
  function DoRedeployContainer(containerUri: string, parentService: Service, haproxyContainerUuid: string,
                               w: StepWorld): (r: StepReport)
    requires ReplacementHasPort(parentService, containerUri, w)
    ensures !r.issued ==> r.progress.Aborted?
  {
    match Fetched(containerUri, w)
    case Err(e) => StepReport(false, Aborted(e))
    case Ok(c) =>
      match CheckPath(c)
      case Err(e) => StepReport(false, Aborted(e))
      case Ok(path) =>
        match w.redeploy
        case Fail(e) => StepReport(true, Aborted(e))
        case Pass =>
          match Watched(c, parentService, w)
          case Broken(e) => StepReport(true, Aborted(e))
          case Watching => StepReport(true, Stalled)
          case Replaced(successor) =>
            match WaitForCheckOk(path, successor, CheckTimeoutSeconds, w.probing)
            case Healthy(_) => StepReport(true, Done)
            case TimedOut(_, url) => StepReport(true, Aborted(CheckTimeout(successor.name, url)))
            case Polling => StepReport(true, Stalled)
  }

  /** The Redeploy command is issued exactly when the container was fetched
      and carries an `HTTP_CHECK` of the form `GET <path>`. A missing or
      malformed definition aborts the step with its error beforehand. */
  lemma CheckValidatedBeforeRedeploy(containerUri: string, parentService: Service, haproxyContainerUuid: string,
                                     w: StepWorld)
    requires ReplacementHasPort(parentService, containerUri, w)
    ensures var r := DoRedeployContainer(containerUri, parentService, haproxyContainerUuid, w);
      && (r.issued <==>
           && Fetched(containerUri, w).Ok?
           && GetEnvFromContainer(CheckEnvName, Fetched(containerUri, w).value).Ok?
           && HasPrefix(GetEnvFromContainer(CheckEnvName, Fetched(containerUri, w).value).value, "GET "))
      && (Fetched(containerUri, w).Ok? ==>
           var c := Fetched(containerUri, w).value;
           && (GetEnvFromContainer(CheckEnvName, c).Err? ==>
                 r.progress == Aborted(EnvNotFound(CheckEnvName, c.name)))
           && (GetEnvFromContainer(CheckEnvName, c).Ok? &&
               !HasPrefix(GetEnvFromContainer(CheckEnvName, c).value, "GET ") ==>
                 r.progress == Aborted(BadHttpCheck(c.name, GetEnvFromContainer(CheckEnvName, c).value))))
  {
  }

  /** A step succeeds exactly through the whole chain: the container was
      fetched, its check is `GET <path>`, Redeploy was accepted, the watcher
      saw a replacement, and the gate got a 2xx answer from it. */
  lemma StepDoneIffHealthy(containerUri: string, parentService: Service, haproxyContainerUuid: string,
                           w: StepWorld)
    requires ReplacementHasPort(parentService, containerUri, w)
    ensures DoRedeployContainer(containerUri, parentService, haproxyContainerUuid, w).progress.Done? <==>
      && Fetched(containerUri, w).Ok?
      && var c := Fetched(containerUri, w).value;
      && CheckPath(c).Ok?
      && w.redeploy == Pass
      && Watched(c, parentService, w).Replaced?
      && WaitForCheckOk(CheckPath(c).value, Watched(c, parentService, w).container,
                        CheckTimeoutSeconds, w.probing).Healthy?
  {
  }

  /** Once the check definition is valid, Redeploy is issued and each later
      stage that does not succeed ends the step with its own result: a
      Redeploy or watcher error is returned unchanged, a timed-out gate
      becomes a check-timeout error naming the replacement and the URL, and
      a watcher or gate that is still waiting leaves the step stalled. */
  lemma LateStageOutcomes(containerUri: string, parentService: Service, haproxyContainerUuid: string,
                          w: StepWorld)
    requires && ReplacementHasPort(parentService, containerUri, w)
             && Fetched(containerUri, w).Ok?
             && CheckPath(Fetched(containerUri, w).value).Ok?
    ensures var r := DoRedeployContainer(containerUri, parentService, haproxyContainerUuid, w);
      var c := Fetched(containerUri, w).value;
      var o := Watched(c, parentService, w);
      && r.issued
      && (w.redeploy.Fail? ==> r.progress == Aborted(w.redeploy.error))
      && (w.redeploy == Pass && o.Broken? ==> r.progress == Aborted(o.error))
      && (w.redeploy == Pass && o.Watching? ==> r.progress == Stalled)
      && (w.redeploy == Pass && o.Replaced? ==>
            var g := WaitForCheckOk(CheckPath(c).value, o.container, CheckTimeoutSeconds, w.probing);
            && (g.Healthy? ==> r.progress == Done)
            && (g.TimedOut? ==> r.progress == Aborted(CheckTimeout(o.container.name, g.url)))
            && (g.Polling? ==> r.progress == Stalled))
  {
  }

  // ----- redeployService -----

  /** What the remote API answers to `ListServices` and `GetService`. */
  datatype Api = Api(listServices: Result<seq<Service>>, getService: string -> Result<Service>)

  /** The service to roll out and the haproxy service's first container. */
  datatype Resolved = Resolved(service: Service, haproxyContainer: string)

  /** `visited`: URIs handed to `doRedeployContainer`, in order;
      `redeployed`: those for which the Redeploy command was issued. */
  datatype RolloutReport = RolloutReport(visited: seq<string>, redeployed: seq<string>, progress: Progress)

  predicate Named(services: seq<Service>, name: string) {
    exists i :: 0 <= i < |services| && services[i].name == name
  }

  /** `Containers[0]` of the haproxy service is read once both names resolve;
      the source panics when that service has no container. */
  predicate HaproxyHasContainer(target: string, haproxy: string, api: Api) {
    && api.listServices.Ok?
    && GetServiceUuid(target, api.listServices.value).Ok?
    && GetServiceUuid(haproxy, api.listServices.value).Ok?
    && api.getService(GetServiceUuid(haproxy, api.listServices.value).value).Ok?
    ==> |api.getService(GetServiceUuid(haproxy, api.listServices.value).value).value.containers| > 0
  }

  /** The lookups that precede the container loop, in the source's order. */
  function Resolve(target: string, haproxy: string, api: Api): (r: Result<Resolved>)
    requires HaproxyHasContainer(target, haproxy, api)
    ensures api.listServices.Err? ==> r == Err(api.listServices.error)
    ensures api.listServices.Ok? && !Named(api.listServices.value, target) ==> r == Err(ServiceNotFound(target))
    ensures api.listServices.Ok? && Named(api.listServices.value, target) && !Named(api.listServices.value, haproxy)
            ==> r == Err(ServiceNotFound(haproxy))
    ensures api.listServices.Ok? && Named(api.listServices.value, target) && Named(api.listServices.value, haproxy) ==>
      var services := api.listServices.value;
      var haproxyService := api.getService(GetServiceUuid(haproxy, services).value);
      var targetService := api.getService(GetServiceUuid(target, services).value);
      && (haproxyService.Err? ==> r == Err(haproxyService.error))
      && (haproxyService.Ok? && targetService.Err? ==> r == Err(targetService.error))
      && (haproxyService.Ok? && targetService.Ok? ==>
            r == Ok(Resolved(targetService.value, haproxyService.value.containers[0])))
    ensures r.Ok? ==>
      && api.listServices.Ok?
      && Named(api.listServices.value, target) && Named(api.listServices.value, haproxy)
      && api.getService(GetServiceUuid(target, api.listServices.value).value) == Ok(r.value.service)
      && api.getService(GetServiceUuid(haproxy, api.listServices.value).value).Ok?
      && r.value.haproxyContainer == api.getService(GetServiceUuid(haproxy, api.listServices.value).value).value.containers[0]
  {
    match api.listServices
    case Err(e) => Err(e)
    case Ok(services) =>
      match GetServiceUuid(target, services)
      case Err(e) => Err(e)
      case Ok(targetUuid) =>
        match GetServiceUuid(haproxy, services)
        case Err(e) => Err(e)
        case Ok(haproxyUuid) =>
          match FirstContainerUuid(api.getService(haproxyUuid))
          case Err(e) => Err(e)
          case Ok(haproxyContainer) =>
            match api.getService(targetUuid)
            case Err(e) => Err(e)
            case Ok(service) => Ok(Resolved(service, haproxyContainer))
  }

  /** No panic is reachable for these inputs. */
  predicate RolloutSafe(target: string, haproxy: string, api: Api, steps: nat -> StepWorld) {
    && HaproxyHasContainer(target, haproxy, api)
    && (Resolve(target, haproxy, api).Ok? ==>
         var svc := Resolve(target, haproxy, api).value.service;
         StepsSafe(svc, steps))
  }

  predicate StepsSafe(svc: Service, steps: nat -> StepWorld) {
    forall j :: 0 <= j < |svc.containers| ==> ReplacementHasPort(svc, svc.containers[j], steps(j))
  }

  /** Step `j` of the loop, with the API results of position `j`. */
  function StepAt(svc: Service, haproxyContainer: string, steps: nat -> StepWorld, j: nat): StepReport
    requires j < |svc.containers| && ReplacementHasPort(svc, svc.containers[j], steps(j))
  {
    DoRedeployContainer(svc.containers[j], svc, haproxyContainer, steps(j))
  }

  /** The report each step would give, from position `i` on. */
  function StepReportsFrom(svc: Service, haproxyContainer: string, steps: nat -> StepWorld, i: nat): (reports: seq<StepReport>)
    requires i <= |svc.containers| && StepsSafe(svc, steps)
    ensures |reports| == |svc.containers| - i
    ensures forall j :: i <= j < |svc.containers| ==> reports[j - i] == StepAt(svc, haproxyContainer, steps, j)
    decreases |svc.containers| - i
  {
    if i == |svc.containers| then []
    else [StepAt(svc, haproxyContainer, steps, i)] + StepReportsFrom(svc, haproxyContainer, steps, i + 1)
  }

  /** URIs in positions `[lo, hi)` whose step issued the Redeploy command. */
  function IssuedBetween(uris: seq<string>, reports: seq<StepReport>, lo: nat, hi: nat): seq<string>
    requires |reports| == |uris| && lo <= hi <= |uris|
    decreases hi - lo
  {
    if lo == hi then []
    else (if reports[lo].issued then [uris[lo]] else []) + IssuedBetween(uris, reports, lo + 1, hi)
  }

  /** The container loop from position `i` on, given what each step reports. */
  function RunInOrder(uris: seq<string>, reports: seq<StepReport>, i: nat): (r: RolloutReport)
    requires |reports| == |uris| && i <= |uris|
    ensures i + |r.visited| <= |uris| && r.visited == uris[i..i + |r.visited|]
    ensures forall j :: i <= j < i + |r.visited| - 1 ==> reports[j].progress.Done?
    ensures r.progress.Done? <==> forall j :: i <= j < |uris| ==> reports[j].progress.Done?
    ensures r.progress.Done? ==> i + |r.visited| == |uris|
    ensures !r.progress.Done? ==> |r.visited| > 0 && r.progress == reports[i + |r.visited| - 1].progress
    ensures r.redeployed == IssuedBetween(uris, reports, i, i + |r.visited|)
    decreases |uris| - i
  {
    if i == |uris| then RolloutReport([], [], Done)
    else
      var mine := if reports[i].issued then [uris[i]] else [];
      if !reports[i].progress.Done? then RolloutReport([uris[i]], mine, reports[i].progress)
      else
        var rest := RunInOrder(uris, reports, i + 1);
        RolloutReport([uris[i]] + rest.visited, mine + rest.redeployed, rest.progress)
  }

  /** `redeployService`. Both names and the haproxy container are resolved
      before any container is touched; a failed lookup is the rollout's error. */
  function RedeployService(target: string, haproxy: string, api: Api, steps: nat -> StepWorld): (r: RolloutReport)
    requires RolloutSafe(target, haproxy, api, steps)
    ensures Resolve(target, haproxy, api).Err? ==>
      r == RolloutReport([], [], Aborted(Resolve(target, haproxy, api).error))
    ensures api.listServices.Ok? && !Named(api.listServices.value, target) ==>
      r == RolloutReport([], [], Aborted(ServiceNotFound(target)))
    ensures r.visited != [] ==> Resolve(target, haproxy, api).Ok?
  {
    match Resolve(target, haproxy, api)
    case Err(e) => RolloutReport([], [], Aborted(e))
    case Ok(res) => RunInOrder(res.service.containers, StepReportsFrom(res.service, res.haproxyContainer, steps, 0), 0)
  }

  /** Once resolved, containers are processed in inventory order, the loop
      stops at the first step that does not succeed and reports its outcome,
      and the rollout succeeds only if every step did. `reports[j]` is what
      step `j` reports (see `StepReportsFrom`). */
  lemma RolloutInOrder(target: string, haproxy: string, api: Api, steps: nat -> StepWorld,
                       res: Resolved, reports: seq<StepReport>)
    requires && RolloutSafe(target, haproxy, api, steps)
             && Resolve(target, haproxy, api) == Ok(res)
             && reports == StepReportsFrom(res.service, res.haproxyContainer, steps, 0)
    ensures var r := RedeployService(target, haproxy, api, steps);
      var uris := res.service.containers;
      && |r.visited| <= |uris| && r.visited == uris[..|r.visited|]
      && (forall j :: 0 <= j < |r.visited| - 1 ==> reports[j].progress.Done?)
      && (r.progress.Done? <==> forall j :: 0 <= j < |uris| ==> reports[j].progress.Done?)
      && (r.progress.Done? ==> |r.visited| == |uris|)
      && (!r.progress.Done? ==> |r.visited| > 0 && r.progress == reports[|r.visited| - 1].progress)
      && r.redeployed == IssuedBetween(uris, reports, 0, |r.visited|)
  {
    var r := RunInOrder(res.service.containers, reports, 0);
    assert res.service.containers[0..0 + |r.visited|] == res.service.containers[..|r.visited|];
  }

}
