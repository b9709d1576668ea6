/** Wire and state types shared by every module (src/types.rs). */
module Types {

  datatype Option<+T> = None | Some(value: T)

  const U16_MAX: nat := 0xFFFF
  const U32_MAX: nat := 0xFFFF_FFFF
  const U64_MAX: nat := 0xFFFF_FFFF_FFFF_FFFF

  type byte = x: int | 0 <= x < 256
  type u16 = x: nat | x <= U16_MAX
  type u32 = x: nat | x <= U32_MAX
  type u64 = x: nat | x <= U64_MAX

  type Bytes = seq<byte>
  type NodeId = nat
  type ClientId = nat
  type Sequence = u64
  type Version = nat

  const MAX_CLUSTER_NODES: nat := 8
  const MAX_ENDPOINT_BYTES: nat := 256
  const MAX_VALUE_BYTES: nat := 1024 * 1024
  const MAX_ROUTING_PAYLOAD_BYTES: nat := 4 * 1024 * 1024
  const PROTOCOL_VERSION: nat := 7
  const MIN_REPLICATION: nat := 3
  const MIN_META_VOTERS: nat := 3

  datatype LogId = LogId(term: nat, index: nat)

  datatype GroupId = Meta | Data(partition: u16)

  // -- Client data operations ------------------------------------------------

  datatype IfVersion = Number(version: Version) | Absent

  datatype DataOp =
    | Put(key: Bytes, value: Bytes, ifVersion: Option<IfVersion>)
    | Delete(key: Bytes, ifVersion: Option<IfVersion>)

  datatype DataRequest = DataRequest(recoveryEpoch: nat, clientId: ClientId, sequence: Sequence, op: DataOp)

  datatype KeyPresence = KeyAbsent | KeyPresent(version: Version)

  datatype MutationResult = Applied(version: Version) | ConditionFailed(current: KeyPresence)

  // -- Cluster, placement and directory records ------------------------------

  datatype ClusterConfig = ClusterConfig(clusterId: nat, protocolVersion: nat, p: u16, r: nat, hashSeed: nat)

  datatype MovePlan = MovePlan(planId: nat, targetVoters: seq<NodeId>, aborting: bool)

  datatype Placement = Placement(voters: seq<NodeId>, votersLogId: LogId, move: Option<MovePlan>)
  {
    predicate ReferencesNode(n: NodeId) {
      n in voters || (move.Some? && n in move.value.targetVoters)
    }
  }

  datatype NodeState = Active | Suspect | Down | Draining

  /** A control or bulk address: strings that are only ever compared and measured. */
  datatype Endpoint = Endpoint(text: nat, bytes: nat)

  datatype NodeEntry = NodeEntry(nodeId: NodeId, controlAddr: Endpoint, bulkAddr: Endpoint, state: NodeState,
                                 incarnation: u64)

  // -- Maintenance -----------------------------------------------------------

  datatype MaintenanceStage = Preparing | Quiesced | Verifying | Released

  /** `maintenance_stage_rank`: the order in which one generation moves through its stages. */
  function StageRank(stage: MaintenanceStage): nat {
    match stage
    case Preparing => 0
    case Quiesced => 1
    case Verifying => 2
    case Released => 3
  }

  datatype MaintenanceRecord = MaintenanceRecord(
    operationId: nat,
    generation: u64,
    participants: seq<NodeId>,
    acknowledged: seq<NodeId>,
    recovered: seq<NodeId>,
    recoveryProcesses: seq<(NodeId, u64)>,
    recoveryPolicyDigests: seq<(NodeId, nat)>,
    verificationPolicyDigest: Option<nat>,
    verificationRecoveryEpoch: Option<nat>,
    stage: MaintenanceStage)

  datatype DataConfigObservation = DataConfigObservation(group: GroupId, planId: nat, voterSet: seq<NodeId>,
                                                         configLogId: LogId)

  // -- Voter sets and sorted sequences ---------------------------------------

  /** The comparable form of a voter list (`voter_set`). */
  function VoterSet(voters: seq<NodeId>): set<NodeId> {
    set v | v in voters
  }

  /** A single-voter replacement. */
  predicate OneForOne(current: set<NodeId>, target: set<NodeId>) {
    |target - current| == 1 && |current - target| == 1
  }

  /** A single-voter removal. */
  predicate OneRemoved(current: set<NodeId>, target: set<NodeId>) {
    |target - current| == 0 && |current - target| == 1
  }

  predicate Distinct<T(==)>(s: seq<T>) {
    forall i, j :: 0 <= i < j < |s| ==> s[i] != s[j]
  }

  /** Strictly ascending: how every sorted, duplicate-free id list is stored. */
  predicate Ascending(s: seq<nat>) {
    forall i, j :: 0 <= i < j < |s| ==> s[i] < s[j]
  }

  lemma {:induction false} VoterSetSize(s: seq<NodeId>)
    ensures |VoterSet(s)| <= |s|
    ensures |VoterSet(s)| == |s| <==> Distinct(s)
  {
    if s == [] {
    } else {
      var init, last := s[..|s| - 1], s[|s| - 1];
      VoterSetSize(init);
      assert VoterSet(s) == VoterSet(init) + {last};
      if last in init {
        assert VoterSet(s) == VoterSet(init);
        var i :| 0 <= i < |init| && init[i] == last;
        assert s[i] == s[|s| - 1];
      } else if Distinct(init) {
        assert Distinct(s) by {
          forall i, j | 0 <= i < j < |s| ensures s[i] != s[j] {
            if j < |init| { assert s[i] == init[i] && s[j] == init[j]; } else { assert s[i] == init[i]; }
          }
        }
      } else {
        var i, j :| 0 <= i < j < |init| && init[i] == init[j];
        assert s[i] == s[j];
      }
    }
  }

  ghost predicate IsLeast(m: nat, s: set<nat>) {
    m in s && forall x :: x in s ==> m <= x
  }

  lemma {:induction false} LeastExists(s: set<nat>) returns (m: nat)
    requires s != {}
    ensures IsLeast(m, s)
  {
    var any :| any in s;
    var rest := s - {any};
    m := any;
    if rest != {} {
      var k := LeastExists(rest);
      if k < any { m := k; }
    }
    assert forall x :: x in s ==> x == any || x in rest;
  }

  function Least(s: set<nat>): (m: nat)
    requires s != {}
    ensures m in s && forall x :: x in s ==> m <= x
  {
    ghost var k := LeastWitness(s);
    var m :| m in s && forall x :: x in s ==> m <= x;
    m
  }

  ghost function LeastWitness(s: set<nat>): (m: nat)
    requires s != {}
    ensures IsLeast(m, s)
  {
    assert exists m :: IsLeast(m, s) by { var m := LeastExists(s); }
    var m :| IsLeast(m, s); m
  }

  /** The elements of a `BTreeSet` in iteration order. */
  function SortedSeq(s: set<nat>): (r: seq<nat>)
    ensures Ascending(r)
    ensures forall x :: x in r <==> x in s
    ensures |r| == |s|
  {
    if s == {} then []
    else
      var m := Least(s);
      var rest := SortedSeq(s - {m});
      assert forall i :: 0 <= i < |rest| ==> rest[i] in rest;
      [m] + rest
  }

  lemma AscendingIsDistinct(s: seq<nat>)
    requires Ascending(s)
    ensures Distinct(s) && |VoterSet(s)| == |s|
  {
    VoterSetSize(s);
  }

  lemma SortedSeqIsVoterSet(s: set<nat>)
    ensures VoterSet(SortedSeq(s)) == s
  {
  }
}
