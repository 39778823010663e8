/** Rows of the connection and capability registry. */
module RegistryTypes {
  import opened Common

  type Id = nat

  const QUALIFIED_PROTOCOL_REVISION := "2025-06-18"

  datatype Lifecycle = Verifying | Active | Degraded | Retired

  datatype CapabilityStatus = PendingReview | Enabled | Disabled | Unavailable

  datatype RefreshStatus = RefreshQueued | RefreshLeased | RefreshSucceeded | RefreshFailed | RefreshObsolete

  datatype Connection = Connection(
    lifecycle: Lifecycle,
    pending: Option<Id>,
    verified: Option<Id>,
    controlEpoch: nat,
    generation: nat,
    allocatedEpoch: Option<nat>,
    allocatedTarget: Option<Id>,
    snapshot: Option<Id>)
  {
    /** The version a refresh works on: the pending one, else the verified one. */
    function Target(): Option<Id> {
      if pending.Some? then pending else verified
    }
  }

  datatype Capability = Capability(
    connection: Id,
    identity: string,
    pending: Option<Id>,
    enabled: Option<Id>,
    status: CapabilityStatus,
    statusEpoch: nat)
  {
    /** The version an operator decides on. */
    function Decision(): Option<Id> {
      if pending.Some? then pending else enabled
    }
  }

  /** Display name, description, schemas and digest, compared as one value. */
  datatype Metadata = Metadata(toolName: string, digest: string, details: string)

  /** An immutable capability version together with its tool binding. */
  datatype ToolVersion = ToolVersion(
    capability: Id,
    sequence: nat,
    connection: Id,
    connectionVersion: Id,
    protocol: string,
    supported: bool,
    metadata: Metadata)

  datatype Snapshot = Snapshot(
    connection: Id,
    connectionVersion: Id,
    generation: nat,
    controlEpoch: nat,
    members: set<Id>)

  /** The registry rows that admission, claims and fences read. */
  datatype Authority = Authority(
    operators: set<(Id, Id)>,
    connections: map<Id, Connection>,
    capabilities: map<Id, Capability>,
    versions: map<Id, ToolVersion>,
    snapshots: map<Id, Snapshot>)
  {
    /** A snapshot row for this version exists in the connection's current snapshot. */
    predicate Observed(connection: Id, connectionVersion: Id, version: Id)
    {
      && connection in connections
      && connections[connection].snapshot.Some?
      && connections[connection].snapshot.value in snapshots
      && var snapshot := snapshots[connections[connection].snapshot.value];
         snapshot.connection == connection
         && snapshot.connectionVersion == connectionVersion
         && version in snapshot.members
    }
  }
}
