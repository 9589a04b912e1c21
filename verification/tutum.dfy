/** The records of the cluster API the core reads. Only the fields the core
    looks at are kept; all of them are read-only snapshots. */
module Tutum {

  /** A service: its containers are listed by resource URI, in inventory order. */
  datatype Service = Service(uuid: string, name: string, containers: seq<string>)

  datatype EnvVar = EnvVar(key: string, value: string)

  datatype Port = Port(outerPort: int)

  datatype Container = Container(
    uuid: string,
    name: string,
    privateIp: string,
    ports: seq<Port>,
    envVars: seq<EnvVar>)

  /** One message of the live event feed. `kind` is the resource type
      ("container", "service", ...), `state` the lifecycle state. */
  datatype Event = Event(kind: string, state: string, resourceUri: string, parents: seq<string>)

  /** The event channel and the error channel merged into one stream, in the
      order in which the `select` receives them. */
  datatype FeedItem = Notice(event: Event) | FeedError(message: string)
}
