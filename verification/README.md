# seqredeploy core in Dafny

A model of the decision logic of seqredeploy. This tool rolls a Tutum
service's containers over one at a time. For each container it issues a
redeploy, waits for the event feed to report the old container as
Terminated and a sibling as Running, and then polls the replacement's
`HTTP_CHECK` URL until it answers 2xx. A pair of atomic flags makes sure that
requests arriving during a rollout collapse into one rerun.

The model is functional. The answers of the Tutum API, the merged
event/error feed, the HTTP probe outcomes, clock readings and environment
values are all inputs. The model also covers the flag transitions and the
single-caller control flow of the trigger, and the secret gate in front of
the HTTP handlers.

Modules:

- `Errors` holds the error kinds the core raises, plus `Result`, `Outcome` (nil or error) and `Progress` (done, aborted or stalled).
- `Strings` models `strings.Contains`, `strings.Split` on one character, and `strconv.Itoa`, each with an independent characterisation.
- `Tutum` holds the records the core reads: `Service`, `Container`, `EnvVar`, `Port`, `Event`, and `FeedItem`. A `FeedItem` is one element of the event and error channels merged in the order the `select` receives them.
- `Lookup` covers `getServiceUuid`, `getServicesFirstContainerUuid`, `getUuidFromUri` (the identity) and `getEnvFromContainer`, and `parentsContain` together with its substring characterisation.
- `HttpCheck` parses the `HTTP_CHECK` definition.
- `HealthGate` covers `waitForCheckOk`: the check URL and the polling loop over a sequence of probes.
- `Watcher` covers `waitForContainerToTerminateAndReappear`.
- `Redeploy` covers `doRedeployContainer` and `redeployService`.
- `Coalescing` covers the two `uint32` flags, their compare-and-swap and swap transitions, `redeployServiceRunOnceAtATime`, `redeployServiceMaybeDeferred` and `redeployServiceNowOrLater`.
- `Auth` covers the decision in `checkSecret`.

Some waits never end in the source: the watcher blocks forever, and the
health gate can loop forever. The model returns a "still waiting" value
(`Watching`, `Polling`, `Stalled`) when its input sequence runs out at such
a point.

`InProgress` is different. The rerun loop in `Coalescing` reads the outcome
of each run, and whether another caller asked for a rerun, from a finite
sequence. `InProgress` means that this sequence ran out while a run was
claimed. The Go loop does not block there. It simply goes on, and the model
has no input describing what happens next.

Behaviours of the code the model keeps as they are:

- Transport errors are only logged and retried. Unlike non-2xx answers, they are never followed by the timeout check, so a gate that only sees transport errors never times out.
- The watcher matches the old container by substring (`strings.Contains` on `Resource_uri`), and the parent service by substring of some parent URI. It does not test identifiers for equality.
- The 25-second pause follows every container, the last one included.
- A malformed `HTTP_CHECK` is returned as an error that aborts the rollout. The container is not skipped.
- The rerun check in `redeployServiceNowOrLater` is a plain read, not an atomic step.

## Model

| member | source | states |
|---|---|---|
| `Strings.Contains` | redeploy.go:186 | `strings.Contains`; no contract; characterised by `Strings.ContainsIffOccurs` |
| `Strings.ContainsIffOccurs` | redeploy.go:186 | `strings.Contains(s, sub)` holds exactly when `sub` occurs in `s` at some index; the empty string occurs in every string |
| `Strings.Split` | redeploy.go:110 | splitting on one character yields one more field than there are separators, and no field contains the separator |
| `Strings.JoinSplit` | redeploy.go:110 | re-joining the fields of `strings.Split` with the separator gives back the original definition |
| `Strings.SplitJoin` | redeploy.go:110 | splitting a join of separator-free fields gives back exactly those fields |
| `Strings.FirstFieldIsLongestPrefix` | redeploy.go:110-115 | the first field is a prefix of the string, followed by the separator or the end |
| `Strings.NatToString` | redeploy.go:146 | the port text is a non-empty string of decimal digits without a leading zero |
| `Strings.ItoaRoundTrip` | redeploy.go:146 | `strconv.Itoa` text reads back as the same integer, negative values included |
| `Strings.Itoa` | redeploy.go:146 | `strconv.Itoa`; no contract; characterised by `Strings.ItoaRoundTrip`, `Strings.ItoaCanonical` and `Strings.CanonicalIsItoa` |
| `Strings.ItoaCanonical` | redeploy.go:146 | the port text is canonical: an optional minus sign, then digits with no leading zero, and never `-0` |
| `Strings.CanonicalIsItoa` | redeploy.go:146 | every canonical text is the `strconv.Itoa` text of its own value, so the canonical text of a value is unique |
| `Lookup.GetUuidFromUri` | redeploy.go:87-89 | `getUuidFromUri`, the identity; no contract; it is used unchanged in `Lookup.FirstContainerUuid` and in each fetch |
| `Lookup.GetServiceUuid` | redeploy.go:68-77 | returns the uuid of the first service in list order whose name equals the requested one; errors with "service not found" iff no service has that name |
| `Lookup.FirstContainerUuid` | redeploy.go:79-89 | a failed service fetch passes its error on; otherwise the result is the first container URI unchanged (a service without containers is excluded, as the source panics) |
| `Lookup.GetEnvFromContainer` | redeploy.go:91-99 | returns the value of the first env var whose key matches; errors with "env not found" for that key and container iff none matches |
| `Lookup.ParentsContain` | redeploy.go:210-217 | `parentsContain`; no contract; characterised by `Lookup.ParentsContainIffOccurs` |
| `Lookup.ParentsContainIffOccurs` | redeploy.go:210-217 | `parentsContain` is true iff the looked-for text occurs as a substring of some parent |
| `HttpCheck.ParseHttpCheck` | redeploy.go:110-115 | the `HTTP_CHECK` parse; no contract; characterised by `HttpCheck.HttpCheckAcceptedIffGetPrefix` and `HttpCheck.CheckPathIsSecondField` |
| `HttpCheck.HttpCheckAcceptedIffGetPrefix` | redeploy.go:106-115 | the definition is accepted iff it starts with `GET` and a space, that is, splitting on one space gives at least two fields and the first is exactly `GET`; the path is the second field; otherwise the error names the container and the definition |
| `HttpCheck.CheckPathIsSecondField` | redeploy.go:110-115 | the accepted path contains no space and is the whole text between the first space and the next space or the end |
| `HealthGate.CheckUrl` | redeploy.go:141-146 | the URL is `http://`, then the host, then `:`, then the first outer port in canonical decimal (no leading zero, no `-0`, and it reads back as the port), then the path. The host is the override when it is non-empty, and the private IP otherwise. With `Strings.CanonicalIsItoa` this fixes the URL text |
| `HealthGate.WaitForCheckOk` | redeploy.go:137-163 | `waitForCheckOk`; no contract; characterised by `HealthGate.GateDecidedByFirstEndingProbe`, `HealthGate.GateKeepsPollingWithoutEndingProbe` and `HealthGate.AlwaysFailingEndpointTimesOut` |
| `HealthGate.GateDecidedByFirstEndingProbe` | redeploy.go:148-162 | the first 2xx answer wins; after a non-2xx answer the gate fails iff now − startedAt ≥ timeout; transport errors and in-budget non-2xx answers are retried, so the first probe that ends the wait decides it |
| `HealthGate.GateKeepsPollingWithoutEndingProbe` | redeploy.go:148-162 | while no probe ends the wait the gate keeps polling; in particular transport errors alone never time out, whatever the clock reads |
| `HealthGate.AlwaysFailingEndpointTimesOut` | redeploy.go:154-160 | an endpoint that only answers non-2xx times out at the first attempt whose clock reading is past the budget, and not before |
| `Watcher.WaitForContainerToTerminateAndReappear` | redeploy.go:169-208 | `waitForContainerToTerminateAndReappear`; no contract; characterised by `Watcher.WatchDecidedByFirstDecidingItem` and `Watcher.WatchWaitsWithoutDecidingItem` |
| `Watcher.WatchDecidedByFirstDecidingItem` | redeploy.go:177-206 | the wait ends at the first feed error (with that error, in either state), or at the first container-type Running event under the parent that comes strictly after a container-type Terminated event for the old container; that event's container is then re-fetched |
| `Watcher.WatchWaitsWithoutDecidingItem` | redeploy.go:181-207 | with no such item the watcher is still waiting when the feed ends |
| `Watcher.EventsBeforeTerminationIgnored` | redeploy.go:185-196 | events before the old container's termination, qualifying Running events included, change nothing |
| `Watcher.TerminationThenRunningMatches` | redeploy.go:185-202 | after the termination, the first Running sibling is taken as the replacement, skipping unrelated events in between |
| `Watcher.RunningBeforeTerminationDoesNotMatch` | redeploy.go:185-196 | a Running sibling that arrives before the Terminated event does not match |
| `Redeploy.CheckPath` | redeploy.go:105-115 | a missing `HTTP_CHECK` gives "env not found" for that container. A definition is accepted iff it starts with `GET` and a space, and the path is the text from there to the next space. Otherwise the error names the container and the definition |
| `Redeploy.DoRedeployContainer` | redeploy.go:101-135 | a step that never issues the Redeploy command always ends with an error |
| `Redeploy.CheckValidatedBeforeRedeploy` | redeploy.go:102-122 | Redeploy is issued iff the container was fetched and its `HTTP_CHECK` exists and is of the form `GET <path>`; a missing or bad definition returns its error before Redeploy |
| `Redeploy.StepDoneIffHealthy` | redeploy.go:101-134 | a step succeeds iff all of these hold: the container was fetched, its check definition is valid, Redeploy succeeded, the watcher found a replacement, and the health gate saw a 2xx answer from that replacement |
| `Redeploy.LateStageOutcomes` | redeploy.go:117-134 | once the check definition is valid, Redeploy is issued. A Redeploy error or a watcher error is returned unchanged. A timed-out gate gives a check timeout naming the replacement and the URL. A watcher or gate that is still waiting leaves the step stalled, and a 2xx answer ends it with success |
| `Redeploy.Resolve` | redeploy.go:26-47 | the lookups run in source order. A list error, an unknown service name, an unknown haproxy name, a failed fetch of the haproxy service and a failed fetch of the target service are each returned as they are. When every lookup succeeds the result holds the fetched target service and the haproxy service's first container; success happens only then |
| `Redeploy.RedeployService` | redeploy.go:23-47 | no container is visited before both names and the haproxy container are resolved; an unknown service name aborts with "service not found" and no redeploy |
| `Redeploy.RunInOrder` | redeploy.go:52-58 | containers are visited in list order; every visited container but the last succeeded; the loop succeeds iff every step succeeded, and otherwise reports the first failing step's outcome; redeploys are issued exactly for the visited containers whose step issued one |
| `Redeploy.RolloutInOrder` | redeploy.go:52-65 | once both names are resolved, the rollout visits a prefix of the service's containers in order; every visited container but the last succeeded; it returns nil iff every container's step succeeded, and otherwise the outcome of the last visited step; redeploys are issued exactly for the visited containers whose step issued one |
| `Coalescing.RedeployServiceIsNotRunningThenSet` | httpserver.go:79-81 | returns true iff the running flag was 0 and then leaves it at 1; when it returns false the state is unchanged |
| `Coalescing.RedeployServiceShouldRunAgainThenReset` | httpserver.go:83-85 | returns true iff the rerun flag was 1 and then leaves it at 0; otherwise the state is unchanged |
| `Coalescing.ClearRunning` | httpserver.go:68-70 | the swap of the running flag to 0; no contract; characterised by `Coalescing.TransitionsPreserveValid` and `Coalescing.ClaimIsExclusive` |
| `Coalescing.RequestRerun` | httpserver.go:50 | the swap of the rerun flag to 1; no contract; characterised by `Coalescing.RerunRequestsCoalesce` |
| `Coalescing.TransitionsPreserveValid` | httpserver.go:67-85 | every flag transition keeps both flags in {0, 1} |
| `Coalescing.ClaimIsExclusive` | httpserver.go:67-81 | after a successful claim a second claim fails until the running flag is cleared |
| `Coalescing.RerunRequestsCoalesce` | httpserver.go:47-57 | raising the rerun flag is a level: raising it twice equals raising it once, and one test-and-clear consumes it |
| `Coalescing.RedeployServiceRunOnceAtATime` | httpserver.go:65-77 | when the claim fails the caller is told "already running", with no run and no change; after a claimed run, whether it succeeded or failed, the running flag is 0 and the run's error is returned |
| `Coalescing.RedeployServiceMaybeDeferred` | httpserver.go:44-63 | a failed claim sets the rerun flag and returns nil; otherwise the loop repeats exactly while test-and-clear succeeds, even after a failed run; it returns the error of the last run performed, and leaves both flags at 0 with no pending rerun dropped |
| `Coalescing.RedeployServiceNowOrLater` | httpserver.go:36-42 | with the rerun flag ≥ 1 it returns nil, runs nothing and changes no flag; during someone else's run it defers; from the idle state it performs at least one run |
| `Coalescing.BurstDuringRunCoalesces` | httpserver.go:36-53 | any number of requests during a run leave exactly one pending rerun and no other change |
| `Auth.CheckSecret` | httpserver.go:89-106 | an empty expected secret is rejected as "missing env", even if the supplied secret is empty too; a differing secret is rejected as "bad secret"; both rejections are 401; otherwise the request is passed on |

## Left out

- Calls into the Tutum client (`ListServices`, `GetService`, `GetContainer`, `Redeploy`, `TutumEvents`) are not modelled. Their answers are inputs: `Api` for the lookups, and one `StepWorld` per container position for the rest.
- The watcher's re-fetch and the step's initial fetch both use the step's `getContainer`. The source's API state may change between the two calls, and the model does not represent that.
- `http.Get`, `time.Sleep`, `getTimestampSeconds`, `os.Getenv` and logging are I/O and clock reads. They become inputs: probe outcomes with the clock reading taken after each answer, the start time, the host override and the expected secret.
- The pauses (5 s between probes, 25 s after each container) are kept as constants but not modelled as elapsed time.
- Waits that never end are not modelled as divergence. When an input sequence runs out while the source would still block or poll, the model returns a "still waiting" value.
- The rerun loop does not model what happens after its finite input of run outcomes is used up. When that input runs out while a run is claimed, it reports `InProgress`.
- HTTP routing, `redeployHandler`, `triggerToRedeployServiceNowOrLater`, `healthHandler`, `main` and `main_hide` are server plumbing and are left out. The same goes for the response text `http.Error` writes (the trailing newline and headers).
- Interleavings between goroutines are not modelled. Each atomic operation is one transition, and only single-caller behaviour is modelled. An oracle says whether another caller raised the rerun flag during each run. Another caller claiming the running flag between two of this caller's runs is not modelled, and neither is the "at most one run at a time" claim across callers.
- The index panics are preconditions, not modelled behaviour: `Containers[0]` of the haproxy service, `Container_ports[0]` of the replacement container, and `Query()["secret"][0]`.
- Redeploy.RedeployService: its precondition asks every container position to be panic-free. The source only needs this for the positions the loop actually reaches.
- Error texts are reduced to their kind and identifying values. For example, `BadHttpCheck` keeps the container name and the definition but not the container URI.
