/** First-match lookups of redeploy.go: service by name, environment
    variable by key, and the substring test over an event's parent list. */
module Lookup {
  import opened Errors
  import opened Strings
  import opened Tutum

  /** Index `i` holds the first service named `name`. */
  ghost predicate FirstNamed(services: seq<Service>, name: string, i: int) {
    0 <= i < |services| && services[i].name == name
    && forall j :: 0 <= j < i ==> services[j].name != name
  }

  /** `getServiceUuid`: the uuid of the first service with that name, in list order. */
  function GetServiceUuid(name: string, services: seq<Service>): (r: Result<string>)
    ensures r.Ok? <==> exists i :: 0 <= i < |services| && services[i].name == name
    ensures r.Ok? ==> exists i :: FirstNamed(services, name, i) && r.value == services[i].uuid
    ensures r.Err? ==> r.error == ServiceNotFound(name)
    decreases |services|
  {
    if |services| == 0 then Err(ServiceNotFound(name))
    else if services[0].name == name then Ok(services[0].uuid)
    else
      var r := GetServiceUuid(name, services[1..]);
      assert r.Ok? ==> exists i :: FirstNamed(services, name, i) && r.value == services[i].uuid by {
        if r.Ok? {
          var i :| FirstNamed(services[1..], name, i) && r.value == services[1..][i].uuid;
          assert FirstNamed(services, name, i + 1);
        }
      }
      r
  }

  /** `getUuidFromUri`: the API accepts a container's resource URI where a
      uuid is expected, so no conversion takes place. */
  function GetUuidFromUri(uri: string): string {
    uri
  }

  /** `getServicesFirstContainerUuid`, given the result of fetching the service.
      A fetched service without containers makes the source panic. */
  function FirstContainerUuid(fetched: Result<Service>): (r: Result<string>)
    requires fetched.Ok? ==> |fetched.value.containers| > 0
    ensures fetched.Err? ==> r == Err(fetched.error)
    ensures fetched.Ok? ==> r.Ok? && r.value == fetched.value.containers[0]
  {
    match fetched
    case Err(e) => Err(e)
    case Ok(service) => Ok(GetUuidFromUri(service.containers[0]))
  }

  /** Index `i` holds the first environment variable with key `key`. */
  ghost predicate FirstKeyed(vars: seq<EnvVar>, key: string, i: int) {
    0 <= i < |vars| && vars[i].key == key
    && forall j :: 0 <= j < i ==> vars[j].key != key
  }

  function EnvValueFrom(key: string, vars: seq<EnvVar>, containerName: string): (r: Result<string>)
    ensures r.Ok? <==> exists i :: 0 <= i < |vars| && vars[i].key == key
    ensures r.Ok? ==> exists i :: FirstKeyed(vars, key, i) && r.value == vars[i].value
    ensures r.Err? ==> r.error == EnvNotFound(key, containerName)
    decreases |vars|
  {
    if |vars| == 0 then Err(EnvNotFound(key, containerName))
    else if vars[0].key == key then Ok(vars[0].value)
    else
      var r := EnvValueFrom(key, vars[1..], containerName);
      assert r.Ok? ==> exists i :: FirstKeyed(vars, key, i) && r.value == vars[i].value by {
        if r.Ok? {
          var i :| FirstKeyed(vars[1..], key, i) && r.value == vars[1..][i].value;
          assert FirstKeyed(vars, key, i + 1);
        }
      }
      r
  }

  /** `getEnvFromContainer`: the value of the first variable with that key. */
  function GetEnvFromContainer(key: string, container: Container): (r: Result<string>)
    ensures r.Ok? <==> exists i :: 0 <= i < |container.envVars| && container.envVars[i].key == key
    ensures r.Ok? ==> exists i :: FirstKeyed(container.envVars, key, i) && r.value == container.envVars[i].value
    ensures r.Err? ==> r.error == EnvNotFound(key, container.name)
  {
    EnvValueFrom(key, container.envVars, container.name)
  }

  /** `parentsContain`: some parent URI contains `lookedFor`. */
  predicate ParentsContain(parents: seq<string>, lookedFor: string)
    decreases |parents|
  {
    |parents| > 0 && (Contains(parents[0], lookedFor) || ParentsContain(parents[1..], lookedFor))
  }

  /** `ParentsContain` is true exactly when `lookedFor` occurs as a
      substring of some element of `parents`. */
  lemma {:induction false} ParentsContainIffOccurs(parents: seq<string>, lookedFor: string)
    ensures ParentsContain(parents, lookedFor)
        <==> exists k, i :: 0 <= k < |parents| && OccursAt(parents[k], lookedFor, i)
    decreases |parents|
  {
    if |parents| > 0 {
      ContainsIffOccurs(parents[0], lookedFor);
      ParentsContainIffOccurs(parents[1..], lookedFor);
      if exists k, i :: 0 <= k < |parents| && OccursAt(parents[k], lookedFor, i) {
        var k, i :| 0 <= k < |parents| && OccursAt(parents[k], lookedFor, i);
        if k > 0 {
          assert OccursAt(parents[1..][k - 1], lookedFor, i);
        }
      }
      if exists k, i :: 0 <= k < |parents[1..]| && OccursAt(parents[1..][k], lookedFor, i) {
        var k, i :| 0 <= k < |parents[1..]| && OccursAt(parents[1..][k], lookedFor, i);
        assert OccursAt(parents[k + 1], lookedFor, i);
      }
    }
  }
}
