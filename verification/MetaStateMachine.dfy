/** The meta group's state machine (src/meta/state_machine.rs): cluster record, node directory,
    placements and move plans, retirement tombstones, search generations and maintenance. */
module MetaStateMachine {
  import opened Types
  import opened Config
  import opened Keyspace

  const SEARCH_MAX_NAME_BYTES: nat := 128
  const SEARCH_MAX_INDEXES: nat := 64
  const SEARCH_MAX_CATALOG_BYTES: nat := 256 * 1024
  const SEARCH_MAX_RETIRING_GENERATIONS: nat := 4096

  // -- Search catalog records -----------------------------------------------------------

  /** An index definition, reduced to what the catalog uses: whether it validates, its hash and its encoded size. */
  datatype SearchDefinition = SearchDefinition(valid: bool, hash: nat, encodedBytes: nat)

  datatype SearchGeneration = SearchGeneration(id: nat, definitionHash: nat, engineRevision: nat,
                                               definition: SearchDefinition)

  datatype SearchRecord = SearchRecord(
    name: Bytes,
    active: Option<SearchGeneration>,
    building: Option<SearchGeneration>,
    retiring: seq<nat>)

  datatype SearchReady = SearchReady(
    generation: nat,
    definitionHash: nat,
    engineRevision: nat,
    group: GroupId,
    nodeId: NodeId,
    votersLogId: LogId,
    projectionEpoch: nat,
    sourceLogId: LogId)

  predicate IndexNameByte(b: byte) {
    || 'a' as int <= b <= 'z' as int || 'A' as int <= b <= 'Z' as int || '0' as int <= b <= '9' as int
    || b == '-' as int || b == '_' as int || b == '.' as int
  }

  predicate ValidIndexName(name: Bytes) {
    && 1 <= |name| <= SEARCH_MAX_NAME_BYTES
    && (forall i :: 0 <= i < |name| ==> IndexNameByte(name[i]))
    && (exists i :: 0 <= i < |name| && name[i] != '.' as int)
  }

  predicate GenerationIntact(g: SearchGeneration) {
    g.id != 0 && g.engineRevision != 0 && g.definition.valid && g.definitionHash == g.definition.hash
  }

  function GenerationBytes(g: Option<SearchGeneration>): nat {
    if g.None? then 1 else 1 + 8 + 32 + 4 + g.value.definition.encodedBytes
  }

  /** `SearchIndexRecord::validate`. */
  predicate ValidSearchRecord(r: SearchRecord) {
    && ValidIndexName(r.name)
    && |r.retiring| <= SEARCH_MAX_RETIRING_GENERATIONS
    && (r.active.Some? ==> GenerationIntact(r.active.value))
    && (r.building.Some? ==> GenerationIntact(r.building.value))
    && 8 + |r.name| + GenerationBytes(r.active) + GenerationBytes(r.building) + 8 + 8 * |r.retiring|
       <= SEARCH_MAX_CATALOG_BYTES
  }

  // -- State, commands, results -------------------------------------------------------------

  datatype MetaState = MetaState(
    cluster: Option<ClusterConfig>,
    nodes: map<NodeId, NodeEntry>,
    retired: map<NodeId, u64>,
    placements: map<GroupId, Placement>,
    maintenance: Option<MaintenanceRecord>,
    search: map<Bytes, SearchRecord>,
    ready: map<ReadyKey, SearchReady>)

  const EMPTY_META: MetaState := MetaState(None, map[], map[], map[], None, map[], map[])

  /** What a replica's storage supplies besides replicated state: its bound cluster identity and recovery epoch. */
  datatype Env = Env(identity: Option<nat>, recoveryEpoch: nat)

  /** The canonical topology digest, taken to be injective: represented by the sorted voter sets it covers. */
  datatype TopologyDigest = TopologyDigest(groups: seq<(GroupId, set<NodeId>)>)

  datatype MetaCommand =
    | ClusterInit(config: ClusterConfig, metaVoters: seq<NodeId>)
    | RegisterNode(node: NodeId, controlAddr: Endpoint, bulkAddr: Endpoint)
    | SeedPlacement(group: GroupId, voters: seq<NodeId>)
    | SetNodeState(node: NodeId, state: NodeState, incarnation: nat)
    | RetireNode(node: NodeId, incarnation: nat)
    | CreatePlan(group: GroupId, targetVoters: seq<NodeId>)
    | MarkAborting(group: GroupId, planId: nat)
    | FinalizePlan(group: GroupId, planId: nat, observation: DataConfigObservation)
    | AbortReport(group: GroupId, planId: nat, observation: DataConfigObservation)
    | CreateSearchIndex(name: Bytes, definition: SearchDefinition, engineRevision: nat)
    | CreateSearchGeneration(name: Bytes, definition: SearchDefinition, engineRevision: nat)
    | ReportSearchReady(name: Bytes, ready: SearchReady)
    | ActivateSearchGeneration(name: Bytes, generation: nat)
    | DropSearchIndex(name: Bytes)
    | FinalizeSearchDrop(name: Bytes, generation: nat)
    | BeginMaintenance(operationId: nat, operationGeneration: u64, participants: seq<NodeId>)
    | ReleaseMaintenance(operationId: nat, operationGeneration: u64, liveProcesses: seq<(NodeId, u64)>,
                         liveIncarnations: seq<(NodeId, u64)>, policyDigest: nat)
    | AcknowledgeMaintenance(operationId: nat, operationGeneration: u64, node: NodeId, incarnation: nat)
    | QuiesceMaintenance(operationId: nat, operationGeneration: u64)
    | EnterMaintenanceVerification(operationId: nat, operationGeneration: u64)
    | AcknowledgeMaintenanceRecovery(operationId: nat, operationGeneration: u64, node: NodeId, incarnation: nat,
                                     processIncarnation: u64, topologyDigest: TopologyDigest, policyDigest: nat,
                                     recoveryEpoch: nat)

  datatype MetaReject =
    | ClusterNotInitialized | ClusterConflict | InvalidConfig
    | NoPlacement | PlacementConflict | PlanExists | NoPlan | PlanIdMismatch
    | IllegalVoterChange | IneligibleTarget | ObservationMismatch | PlanAborting | NotAborting
    | UnknownNode | StaleIncarnation | SeedMetaForbidden
    | SearchIndexExists | SearchIndexNotFound | SearchGenerationExists | SearchGenerationMismatch
    | SearchGenerationNotReady
    | MaintenanceActive | MaintenanceBusy | MaintenanceMismatch | MaintenanceTopologyMismatch
    | MaintenancePolicyMismatch | MaintenanceLivenessMismatch | StaleMaintenanceProcess

  datatype MetaResult = MetaApplied | MetaNoOp | MetaRejected(why: MetaReject)

  /** A handler's outcome: the result and the state its mutations produce. Rejections and no-ops write nothing. */
  datatype Outcome = Outcome(result: MetaResult, state: MetaState)

  /** Only an Applied command writes. */
  predicate Untouched(s: MetaState, o: Outcome) {
    !o.result.MetaApplied? ==> o.state == s
  }

  function Reject(s: MetaState, why: MetaReject): Outcome { Outcome(MetaRejected(why), s) }

  function Same(s: MetaState): Outcome { Outcome(MetaNoOp, s) }

  function Write(s: MetaState): Outcome { Outcome(MetaApplied, s) }

  // -- Reads -----------------------------------------------------------------------------------

  predicate IsActive(s: MetaState, n: NodeId) {
    n in s.nodes && s.nodes[n].state == Active
  }

  function ActiveSet(s: MetaState): set<NodeId> {
    set n | n in s.nodes && s.nodes[n].state == Active
  }

  /** The groups a cluster-wide scan visits, in order: the meta group, then every partition. */
  function Groups(p: u16): (gs: seq<GroupId>)
    ensures |gs| == p + 1
    ensures gs[0] == Meta && forall i :: 0 <= i < p ==> gs[i + 1] == Data(i)
  {
    [Meta] + seq(p, i requires 0 <= i < p => Data(i))
  }

  predicate MaintenanceIsActive(s: MetaState) {
    s.maintenance.Some? && s.maintenance.value.stage != Released
  }

  predicate IsMaintenanceCommand(cmd: MetaCommand) {
    || cmd.BeginMaintenance? || cmd.ReleaseMaintenance? || cmd.AcknowledgeMaintenance?
    || cmd.QuiesceMaintenance? || cmd.EnterMaintenanceVerification? || cmd.AcknowledgeMaintenanceRecovery?
  }

  /** Decide one committed command. */
  function Evaluate(env: Env, s: MetaState, cmd: MetaCommand, logId: LogId): Outcome {
    if MaintenanceIsActive(s) && !IsMaintenanceCommand(cmd) then Reject(s, MaintenanceActive)
    else
      match cmd
      case ClusterInit(config, voters) => EvalClusterInit(env, s, config, voters, logId)
      case RegisterNode(n, control, bulk) => EvalRegisterNode(s, n, control, bulk)
      case SeedPlacement(g, voters) => EvalSeedPlacement(s, g, voters, logId)
      case SetNodeState(n, state, incarnation) => EvalSetNodeState(s, n, state, incarnation)
      case RetireNode(n, incarnation) => EvalRetireNode(s, n, incarnation)
      case CreatePlan(g, target) => EvalCreatePlan(s, g, target, logId)
      case MarkAborting(g, id) => EvalMarkAborting(s, g, id)
      case FinalizePlan(g, id, obs) => EvalFinalizePlan(s, g, id, obs, false)
      case AbortReport(g, id, obs) => EvalFinalizePlan(s, g, id, obs, true)
      case CreateSearchIndex(name, def, rev) => EvalCreateSearch(s, name, def, rev, logId, false)
      case CreateSearchGeneration(name, def, rev) => EvalCreateSearch(s, name, def, rev, logId, true)
      case ReportSearchReady(name, ready) => EvalReportReady(s, name, ready)
      case ActivateSearchGeneration(name, gen) => EvalActivate(s, name, gen)
      case DropSearchIndex(name) => EvalDropSearch(s, name)
      case FinalizeSearchDrop(name, gen) => EvalFinalizeDrop(s, name, gen)
      case BeginMaintenance(op, gen, participants) => EvalBegin(s, op, gen, participants)
      case ReleaseMaintenance(op, gen, procs, incs, digest) => EvalRelease(env, s, op, gen, procs, incs, digest)
      case AcknowledgeMaintenance(op, gen, n, inc) => EvalAcknowledge(s, op, gen, n, inc)
      case QuiesceMaintenance(op, gen) => EvalQuiesce(s, op, gen)
      case EnterMaintenanceVerification(op, gen) => EvalEnterVerification(s, op, gen)
      case AcknowledgeMaintenanceRecovery(op, gen, n, inc, proc, topology, policy, epoch) =>
        EvalAcknowledgeRecovery(env, s, op, gen, n, inc, proc, topology, policy, epoch)
  }

  // -- Bootstrap and directory ------------------------------------------------------------------

  function InitRefusal(env: Env, s: MetaState, config: ClusterConfig, metaVoters: seq<NodeId>): Option<MetaResult> {
    var mv := VoterSet(metaVoters);
    if s.cluster.Some? then
      if s.cluster.value == config && Meta in s.placements && VoterSet(s.placements[Meta].voters) == mv then
        Some(MetaNoOp)
      else Some(MetaRejected(ClusterConflict))
    else if env.identity.None? || config.clusterId != env.identity.value then Some(MetaRejected(InvalidConfig))
    else if config.protocolVersion != PROTOCOL_VERSION then Some(MetaRejected(InvalidConfig))
    else if config.r < MIN_REPLICATION || config.p == 0 then Some(MetaRejected(InvalidConfig))
    else if !ValidRoutingShape(config.p, config.r) then Some(MetaRejected(InvalidConfig))
    else if |mv| != |metaVoters| then Some(MetaRejected(InvalidConfig))
    else if |mv| < MIN_META_VOTERS || |mv| % 2 == 0 then Some(MetaRejected(InvalidConfig))
    else if |mv| > MAX_CLUSTER_NODES then Some(MetaRejected(InvalidConfig))
    else None
  }

  function EvalClusterInit(env: Env, s: MetaState, config: ClusterConfig, metaVoters: seq<NodeId>,
                           logId: LogId): (o: Outcome)
    ensures o.state == s.(cluster := o.state.cluster, placements := o.state.placements)
    ensures Untouched(s, o)
  {
    var refusal := InitRefusal(env, s, config, metaVoters);
    if refusal.Some? then Outcome(refusal.value, s)
    else Write(s.(cluster := Some(config),
                  placements := s.placements[Meta := Placement(SortedSeq(VoterSet(metaVoters)), logId, None)]))
  }

  predicate SharesEndpoint(e: NodeEntry, control: Endpoint, bulk: Endpoint) {
    e.controlAddr == control || e.bulkAddr == control || e.controlAddr == bulk || e.bulkAddr == bulk
  }

  function EvalRegisterNode(s: MetaState, n: NodeId, control: Endpoint, bulk: Endpoint): (o: Outcome)
    ensures o.state == s.(nodes := o.state.nodes)
    ensures Untouched(s, o)
  {
    if s.cluster.None? then Reject(s, ClusterNotInitialized)
    else if n == 0 then Reject(s, InvalidConfig)
    else if control.bytes == 0 || bulk.bytes == 0 then Reject(s, InvalidConfig)
    else if control.bytes > MAX_ENDPOINT_BYTES || bulk.bytes > MAX_ENDPOINT_BYTES then Reject(s, InvalidConfig)
    else if control == bulk then Reject(s, InvalidConfig)
    else if n in s.retired then Reject(s, InvalidConfig)
    else if exists m :: m in s.nodes && m != n && SharesEndpoint(s.nodes[m], control, bulk) then
      Reject(s, InvalidConfig)
    else if |s.nodes| >= MAX_CLUSTER_NODES && n !in s.nodes then Reject(s, InvalidConfig)
    else if n !in s.nodes then Write(s.(nodes := s.nodes[n := NodeEntry(n, control, bulk, Active, 1)]))
    else
      var e := s.nodes[n];
      if e.controlAddr == control && e.bulkAddr == bulk && e.state != Down then Same(s)
      else if e.incarnation == U64_MAX then Reject(s, InvalidConfig)
      else Write(s.(nodes := s.nodes[n := NodeEntry(n, control, bulk, Active, e.incarnation + 1)]))
  }

  function EvalSetNodeState(s: MetaState, n: NodeId, state: NodeState, incarnation: nat): (o: Outcome)
    ensures o.state == s.(nodes := o.state.nodes)
    ensures Untouched(s, o)
  {
    if n !in s.nodes then Reject(s, UnknownNode)
    else
      var e := s.nodes[n];
      if incarnation != e.incarnation then Reject(s, StaleIncarnation)
      else if (e.state == Down && state != Down && state != Draining) || (e.state == Draining && state != Draining) then
        Reject(s, StaleIncarnation)
      else if e.state == state then Same(s)
      else Write(s.(nodes := s.nodes[n := e.(state := state)]))
  }

  /** The first group, in scan order, that keeps a node from retiring. */
  function RetireIssue(s: MetaState, n: NodeId, groups: seq<GroupId>): Option<MetaReject> {
    if groups == [] then None
    else if groups[0] !in s.placements then Some(NoPlacement)
    else if s.placements[groups[0]].ReferencesNode(n) then Some(InvalidConfig)
    else RetireIssue(s, n, groups[1..])
  }

  function RetireRefusal(s: MetaState, n: NodeId, incarnation: nat): Option<MetaResult> {
    if n in s.retired then Some(if s.retired[n] == incarnation then MetaNoOp else MetaRejected(StaleIncarnation))
    else if n !in s.nodes then Some(MetaRejected(UnknownNode))
    else if s.nodes[n].incarnation != incarnation then Some(MetaRejected(StaleIncarnation))
    else if s.nodes[n].state != Draining then Some(MetaRejected(IneligibleTarget))
    else if s.cluster.None? then Some(MetaRejected(ClusterNotInitialized))
    else
      var issue := RetireIssue(s, n, Groups(s.cluster.value.p));
      if issue.Some? then Some(MetaRejected(issue.value)) else None
  }

  function EvalRetireNode(s: MetaState, n: NodeId, incarnation: nat): (o: Outcome)
    ensures o.state == s.(nodes := o.state.nodes, retired := o.state.retired)
    ensures Untouched(s, o)
  {
    var refusal := RetireRefusal(s, n, incarnation);
    if refusal.Some? then Outcome(refusal.value, s)
    else Write(s.(retired := s.retired[n := s.nodes[n].incarnation], nodes := s.nodes - {n}))
  }

  // -- Placements and plans ------------------------------------------------------------------------

  function SeedRefusal(s: MetaState, g: GroupId, voters: seq<NodeId>): Option<MetaResult> {
    var vs := VoterSet(voters);
    if s.cluster.None? then Some(MetaRejected(ClusterNotInitialized))
    else if g == Meta then Some(MetaRejected(SeedMetaForbidden))
    else if g.partition >= s.cluster.value.p then Some(MetaRejected(IllegalVoterChange))
    else if |vs| != |voters| then Some(MetaRejected(IllegalVoterChange))
    else if |vs| != s.cluster.value.r then Some(MetaRejected(IllegalVoterChange))
    else if exists v :: v in voters && !IsActive(s, v) then Some(MetaRejected(IneligibleTarget))
    else if g in s.placements then
      if s.placements[g].move.None? && VoterSet(s.placements[g].voters) == vs then Some(MetaNoOp)
      else Some(MetaRejected(PlacementConflict))
    else None
  }

  function EvalSeedPlacement(s: MetaState, g: GroupId, voters: seq<NodeId>, logId: LogId): (o: Outcome)
    ensures o.state == s.(placements := o.state.placements)
    ensures Untouched(s, o)
  {
    var refusal := SeedRefusal(s, g, voters);
    if refusal.Some? then Outcome(refusal.value, s)
    else Write(s.(placements := s.placements[g := Placement(SortedSeq(VoterSet(voters)), logId, None)]))
  }

  /** Why a plan for `g` is refused, if it is. */
  function PlanRefusal(s: MetaState, g: GroupId, targetVoters: seq<NodeId>): Option<MetaReject> {
    if s.cluster.None? then Some(ClusterNotInitialized)
    else if g !in s.placements then Some(NoPlacement)
    else if s.placements[g].move.Some? then Some(PlanExists)
    else TargetRefusal(s, s.cluster.value.r, g, VoterSet(s.placements[g].voters), targetVoters)
  }

  function TargetRefusal(s: MetaState, r: nat, g: GroupId, current: set<NodeId>,
                         targetVoters: seq<NodeId>): Option<MetaReject> {
    var target := VoterSet(targetVoters);
    if |target| != |targetVoters| then Some(IllegalVoterChange)
    else if g.Data? && (|target| != r || !OneForOne(current, target)) then Some(IllegalVoterChange)
    else if g.Data? && |ActiveSet(s)| < r then Some(IneligibleTarget)
    else if g.Meta? && |target| < MIN_META_VOTERS then Some(IllegalVoterChange)
    else if g.Meta? && !(OneForOne(current, target) && |target| == |current|)
            && !(OneRemoved(current, target) && |target| + 1 == |current|) then Some(IllegalVoterChange)
    else if exists v :: v in target - current && !IsActive(s, v) then Some(IneligibleTarget)
    else None
  }

  function EvalCreatePlan(s: MetaState, g: GroupId, targetVoters: seq<NodeId>, logId: LogId): (o: Outcome)
    ensures o.state == s.(placements := o.state.placements)
    ensures Untouched(s, o)
  {
    var refusal := PlanRefusal(s, g, targetVoters);
    if refusal.Some? then Reject(s, refusal.value)
    else
      var plan := MovePlan(logId.index, SortedSeq(VoterSet(targetVoters)), false);
      Write(s.(placements := s.placements[g := s.placements[g].(move := Some(plan))]))
  }

  function EvalMarkAborting(s: MetaState, g: GroupId, planId: nat): (o: Outcome)
    ensures o.state == s.(placements := o.state.placements)
    ensures Untouched(s, o)
  {
    if g !in s.placements || s.placements[g].move.None? then Reject(s, NoPlan)
    else
      var placement := s.placements[g];
      var plan := placement.move.value;
      if plan.planId != planId then Reject(s, PlanIdMismatch)
      else if plan.aborting then Same(s)
      else Write(s.(placements := s.placements[g := placement.(move := Some(plan.(aborting := true)))]))
  }

  /** The voters a resolved plan leaves, or None if the observation fits no legal resolution. */
  function ResolvedVoters(placement: Placement, plan: MovePlan, observed: set<NodeId>,
                          isAbort: bool): Option<seq<NodeId>> {
    if isAbort && observed == VoterSet(placement.voters) then Some(placement.voters)
    else if observed == VoterSet(plan.targetVoters) then Some(plan.targetVoters)
    else None
  }

  function EvalFinalizePlan(s: MetaState, g: GroupId, planId: nat, obs: DataConfigObservation,
                            isAbort: bool): (o: Outcome)
    ensures o.state == s.(placements := o.state.placements)
    ensures Untouched(s, o)
  {
    if g !in s.placements || s.placements[g].move.None? then Reject(s, NoPlan)
    else
      var placement := s.placements[g];
      var plan := placement.move.value;
      if plan.planId != planId then Reject(s, PlanIdMismatch)
      else if obs.group != g || obs.planId != planId then Reject(s, ObservationMismatch)
      else if isAbort && !plan.aborting then Reject(s, NotAborting)
      else if !isAbort && plan.aborting then Reject(s, PlanAborting)
      else
        var voters := ResolvedVoters(placement, plan, VoterSet(obs.voterSet), isAbort);
        if voters.None? then Reject(s, ObservationMismatch)
        else Write(s.(placements := s.placements[g := Placement(Sorted(voters.value), obs.configLogId, None)]))
  }

  /** `sort_unstable` of a duplicate-free voter list. */
  function Sorted(voters: seq<NodeId>): seq<NodeId> {
    SortedSeq(VoterSet(voters))
  }

  // -- Search generations ------------------------------------------------------------------------------

  predicate SameGeneration(a: SearchGeneration, b: SearchGeneration) {
    a.definitionHash == b.definitionHash && a.engineRevision == b.engineRevision
  }

  function EvalCreateSearch(s: MetaState, name: Bytes, def: SearchDefinition, revision: nat, logId: LogId,
                            update: bool): (o: Outcome)
    ensures o.state == s.(search := o.state.search)
    ensures Untouched(s, o)
  {
    if s.cluster.None? then Reject(s, ClusterNotInitialized)
    else if !ValidIndexName(name) then Reject(s, InvalidConfig)
    else if logId.index == 0 || revision == 0 || !def.valid then Reject(s, InvalidConfig)
    else
      var generation := SearchGeneration(logId.index, def.hash, revision, def);
      if name !in s.search then
        if update then Reject(s, SearchIndexNotFound)
        else if |s.search| >= SEARCH_MAX_INDEXES then Reject(s, InvalidConfig)
        else StoreSearch(s, SearchRecord(name, None, Some(generation), []))
      else
        var record := s.search[name];
        if !update then
          if record.active.None? && record.building.Some? && SameGeneration(record.building.value, generation) then
            Same(s)
          else Reject(s, SearchIndexExists)
        else if record.building.Some? then
          if SameGeneration(record.building.value, generation) then Same(s) else Reject(s, SearchGenerationExists)
        else if record.active.None? then Reject(s, SearchIndexNotFound)
        else if |record.retiring| >= SEARCH_MAX_RETIRING_GENERATIONS then Reject(s, InvalidConfig)
        else StoreSearch(s, record.(building := Some(generation)))
  }

  function StoreSearch(s: MetaState, record: SearchRecord): (o: Outcome)
    ensures o.state == s.(search := o.state.search)
    ensures Untouched(s, o)
  {
    if !ValidSearchRecord(record) then Reject(s, InvalidConfig)
    else Write(s.(search := s.search[record.name := record]))
  }

  function EvalReportReady(s: MetaState, name: Bytes, obs: SearchReady): (o: Outcome)
    ensures o.state == s.(ready := o.state.ready)
    ensures Untouched(s, o)
  {
    if name !in s.search then Reject(s, SearchIndexNotFound)
    else if s.search[name].building.None? then Reject(s, SearchGenerationMismatch)
    else
      var building := s.search[name].building.value;
      if obs.generation != building.id || obs.definitionHash != building.definitionHash
         || obs.engineRevision != building.engineRevision then Reject(s, SearchGenerationMismatch)
      else if obs.group == Meta then Reject(s, ObservationMismatch)
      else if s.cluster.None? then Reject(s, ClusterNotInitialized)
      else if obs.group.partition >= s.cluster.value.p || obs.projectionEpoch == 0 then Reject(s, ObservationMismatch)
      else if obs.group !in s.placements then Reject(s, NoPlacement)
      else
        var placement := s.placements[obs.group];
        if placement.move.Some? || placement.votersLogId != obs.votersLogId || obs.nodeId !in placement.voters then
          Reject(s, ObservationMismatch)
        else
          var key := ReadyKey(name, obs.generation, obs.group, obs.nodeId);
          if key in s.ready && s.ready[key] == obs then Same(s)
          else if key in s.ready && (obs.projectionEpoch < s.ready[key].projectionEpoch
                  || (obs.projectionEpoch == s.ready[key].projectionEpoch
                      && obs.sourceLogId.index < s.ready[key].sourceLogId.index)) then Reject(s, ObservationMismatch)
          else Write(s.(ready := s.ready[key := obs]))
  }

  /** The prefix scan over the state column family for one index generation. */
  function ReadyScan(s: MetaState, name: Bytes, generation: nat): set<ReadyKey> {
    set k | k in s.ready && ReadyPrefix(name, generation) <= ReadyKeyBytes(k)
  }

  predicate VoterReady(s: MetaState, name: Bytes, building: SearchGeneration, g: GroupId, n: NodeId)
    requires g in s.placements
  {
    exists k :: k in ReadyScan(s, name, building.id)
      && s.ready[k].generation == building.id
      && s.ready[k].group == g
      && s.ready[k].nodeId == n
      && s.ready[k].votersLogId == s.placements[g].votersLogId
      && s.ready[k].definitionHash == building.definitionHash
      && s.ready[k].engineRevision == building.engineRevision
  }

  predicate GroupReady(s: MetaState, name: Bytes, building: SearchGeneration, g: GroupId) {
    && g in s.placements
    && s.placements[g].move.None?
    && (forall n :: n in s.placements[g].voters ==> VoterReady(s, name, building, g, n))
  }

  predicate AllReady(s: MetaState, name: Bytes, building: SearchGeneration, p: u16) {
    forall i: u16 :: i < p ==> GroupReady(s, name, building, Data(i))
  }

  function EvalActivate(s: MetaState, name: Bytes, generation: nat): (o: Outcome)
    ensures o.state == s.(search := o.state.search, ready := o.state.ready)
    ensures Untouched(s, o)
  {
    if name !in s.search then Reject(s, SearchIndexNotFound)
    else
      var record := s.search[name];
      if record.building.None? then
        if record.active.Some? && record.active.value.id == generation then Same(s)
        else Reject(s, SearchGenerationMismatch)
      else if record.building.value.id != generation then Reject(s, SearchGenerationMismatch)
      else if s.cluster.None? then Reject(s, ClusterNotInitialized)
      else if !AllReady(s, name, record.building.value, s.cluster.value.p) then Reject(s, SearchGenerationNotReady)
      else
        var retires := record.active.Some? && record.active.value.id !in record.retiring;
        if retires && |record.retiring| >= SEARCH_MAX_RETIRING_GENERATIONS then Reject(s, InvalidConfig)
        else
          var next := record.(active := record.building, building := None,
                              retiring := if retires then record.retiring + [record.active.value.id]
                                  else record.retiring);
          if !ValidSearchRecord(next) then Reject(s, InvalidConfig)
          else Write(s.(search := s.search[name := next], ready := s.ready - ReadyScan(s, name, generation)))
  }

  function RetireGeneration(retiring: seq<nat>, g: Option<SearchGeneration>): seq<nat> {
    if g.Some? && g.value.id !in retiring then retiring + [g.value.id] else retiring
  }

  function EvalDropSearch(s: MetaState, name: Bytes): (o: Outcome)
    ensures o.state == s.(search := o.state.search, ready := o.state.ready)
    ensures Untouched(s, o)
  {
    if name !in s.search then Same(s)
    else
      var record := s.search[name];
      if record.active.None? && record.building.None? then Same(s)
      else
        var additions := (if record.active.Some? && record.active.value.id !in record.retiring then 1 else 0)
                       + (if record.building.Some? && record.building.value.id !in record.retiring then 1 else 0);
        if |record.retiring| + additions > SEARCH_MAX_RETIRING_GENERATIONS then Reject(s, InvalidConfig)
        else
          var next := record.(active := None, building := None,
                              retiring := RetireGeneration(RetireGeneration(record.retiring, record.active),
                                                           record.building));
          if !ValidSearchRecord(next) then Reject(s, InvalidConfig)
          else
            var stale := if record.building.Some? then ReadyScan(s, name, record.building.value.id) else {};
            Write(s.(search := s.search[name := next], ready := s.ready - stale))
  }

  function Without(ids: seq<nat>, id: nat): (r: seq<nat>)
    ensures |r| <= |ids|
  {
    if ids == [] then []
    else if ids[0] == id then Without(ids[1..], id)
    else [ids[0]] + Without(ids[1..], id)
  }

  function EvalFinalizeDrop(s: MetaState, name: Bytes, generation: nat): (o: Outcome)
    ensures o.state == s.(search := o.state.search)
    ensures Untouched(s, o)
  {
    if name !in s.search then Same(s)
    else
      var record := s.search[name];
      var next := record.(retiring := Without(record.retiring, generation));
      if |next.retiring| == |record.retiring| then Same(s)
      else if next.active.None? && next.building.None? && next.retiring == [] then
        Write(s.(search := s.search - {name}))
      else Write(s.(search := s.search[name := next]))
  }

  // -- Maintenance -----------------------------------------------------------------------------------------

  /** Sorted insertion at the position `binary_search` reports for an absent element. */
  function InsertSorted(ids: seq<NodeId>, n: NodeId): seq<NodeId> {
    if ids == [] || n < ids[0] then [n] + ids
    else if n == ids[0] then ids
    else [ids[0]] + InsertSorted(ids[1..], n)
  }

  /** Sorted upsert of a keyed pair: replace the value at `n`, or insert it. */
  function UpsertSorted<V>(pairs: seq<(NodeId, V)>, n: NodeId, v: V): seq<(NodeId, V)> {
    if pairs == [] || n < pairs[0].0 then [(n, v)] + pairs
    else if n == pairs[0].0 then [(n, v)] + pairs[1..]
    else [pairs[0]] + UpsertSorted(pairs[1..], n, v)
  }

  function Lookup<V>(pairs: seq<(NodeId, V)>, n: NodeId): Option<V> {
    if pairs == [] then None else if pairs[0].0 == n then Some(pairs[0].1) else Lookup(pairs[1..], n)
  }

  function PairKeys<V>(pairs: seq<(NodeId, V)>): (ks: seq<NodeId>)
    ensures |ks| == |pairs|
  {
    seq(|pairs|, i requires 0 <= i < |pairs| => pairs[i].0)
  }

  predicate SettledOn(s: MetaState, g: GroupId, active: set<NodeId>) {
    && g in s.placements
    && s.placements[g].move.None?
    && (forall v :: v in s.placements[g].voters ==> v in active)
  }

  /** Why an operation may not begin, if it may not; `active` are the Active nodes in order. */
  function BeginRefusal(s: MetaState, operationId: nat, generation: u64, participants: seq<NodeId>,
                        active: seq<NodeId>): Option<MetaResult> {
    if s.cluster.None? then Some(MetaRejected(ClusterNotInitialized))
    else if operationId == 0 || generation == 0 || participants == [] then Some(MetaRejected(InvalidConfig))
    else if !Ascending(participants) then Some(MetaRejected(InvalidConfig))
    else if participants != active then Some(MetaRejected(InvalidConfig))
    else if exists g :: g in Groups(s.cluster.value.p) && !SettledOn(s, g, ActiveSet(s)) then
      Some(MetaRejected(MaintenanceBusy))
    else if exists name :: name in s.search && (s.search[name].building.Some? || s.search[name].retiring != []) then
      Some(MetaRejected(MaintenanceBusy))
    else if MaintenanceIsActive(s) then
      var previous := s.maintenance.value;
      if previous.operationId == operationId && previous.generation == generation
          && previous.participants == participants
      then Some(MetaNoOp) else Some(MetaRejected(MaintenanceActive))
    else if s.maintenance.Some?
            && (s.maintenance.value.operationId == operationId || s.maintenance.value.generation + 1 != generation) then
      Some(MetaRejected(MaintenanceMismatch))
    else if s.maintenance.None? && generation != 1 then Some(MetaRejected(MaintenanceMismatch))
    else None
  }

  function EvalBegin(s: MetaState, operationId: nat, generation: u64, participants: seq<NodeId>): (o: Outcome)
    ensures o.state == s.(maintenance := o.state.maintenance)
    ensures Untouched(s, o)
  {
    var refusal := BeginRefusal(s, operationId, generation, participants, SortedSeq(ActiveSet(s)));
    if refusal.Some? then Outcome(refusal.value, s)
    else
      var record := MaintenanceRecord(operationId, generation, participants, [], [], [], [], None, None, Preparing);
      WriteRecord(s, record)
  }

  predicate NamesOperation(s: MetaState, operationId: nat, generation: u64) {
    s.maintenance.Some? && s.maintenance.value.operationId == operationId
        && s.maintenance.value.generation == generation
  }

  function WriteRecord(s: MetaState, record: MaintenanceRecord): Outcome {
    Write(s.(maintenance := Some(record)))
  }

  predicate LiveAs(s: MetaState, n: NodeId, claim: (NodeId, u64)) {
    n == claim.0 && n in s.nodes && s.nodes[n].state == Active && s.nodes[n].incarnation == claim.1
  }

  function EvalRelease(env: Env, s: MetaState, operationId: nat, generation: u64, liveProcesses: seq<(NodeId, u64)>,
                       liveIncarnations: seq<(NodeId, u64)>, policyDigest: nat): (o: Outcome)
    ensures o.state == s.(maintenance := o.state.maintenance)
    ensures Untouched(s, o)
  {
    if !NamesOperation(s, operationId, generation) then Reject(s, MaintenanceMismatch)
    else
      var record := s.maintenance.value;
      if record.stage == Released then Same(s)
      else if record.stage == Preparing then WriteRecord(s, record.(stage := Released))
      else if record.stage == Verifying && record.recovered == record.participants
              && PairKeys(record.recoveryProcesses) == record.participants then
        if record.verificationPolicyDigest != Some(policyDigest) then Reject(s, MaintenancePolicyMismatch)
        else if record.verificationRecoveryEpoch != Some(env.recoveryEpoch) then Reject(s, MaintenanceMismatch)
        else if record.recoveryProcesses != liveProcesses then Reject(s, MaintenanceLivenessMismatch)
        else if |liveIncarnations| != |record.participants| then Reject(s, MaintenanceLivenessMismatch)
        else if exists i :: (0 <= i < |record.participants|
                             && !LiveAs(s, record.participants[i], liveIncarnations[i])) then
          Reject(s, MaintenanceLivenessMismatch)
        else WriteRecord(s, record.(stage := Released))
      else Reject(s, MaintenanceBusy)
  }

  function EvalAcknowledge(s: MetaState, operationId: nat, generation: u64, n: NodeId, incarnation: nat): (o: Outcome)
    ensures o.state == s.(maintenance := o.state.maintenance)
    ensures Untouched(s, o)
  {
    if !NamesOperation(s, operationId, generation) then Reject(s, MaintenanceMismatch)
    else
      var record := s.maintenance.value;
      if record.stage != Preparing then Reject(s, MaintenanceBusy)
      else if n !in record.participants then Reject(s, IneligibleTarget)
      else if n !in s.nodes then Reject(s, UnknownNode)
      else if s.nodes[n].incarnation != incarnation then Reject(s, StaleIncarnation)
      else if s.nodes[n].state != Active then Reject(s, IneligibleTarget)
      else if n in record.acknowledged then Same(s)
      else WriteRecord(s, record.(acknowledged := InsertSorted(record.acknowledged, n)))
  }

  function EvalQuiesce(s: MetaState, operationId: nat, generation: u64): (o: Outcome)
    ensures o.state == s.(maintenance := o.state.maintenance)
    ensures Untouched(s, o)
  {
    if !NamesOperation(s, operationId, generation) then Reject(s, MaintenanceMismatch)
    else
      var record := s.maintenance.value;
      if record.stage == Quiesced then Same(s)
      else if record.stage != Preparing || record.acknowledged != record.participants then Reject(s, MaintenanceBusy)
      else WriteRecord(s, record.(stage := Quiesced))
  }

  function EvalEnterVerification(s: MetaState, operationId: nat, generation: u64): (o: Outcome)
    ensures o.state == s.(maintenance := o.state.maintenance)
    ensures Untouched(s, o)
  {
    if !NamesOperation(s, operationId, generation) then Reject(s, MaintenanceMismatch)
    else
      var record := s.maintenance.value;
      if record.stage == Verifying then Same(s)
      else if record.stage != Quiesced then Reject(s, MaintenanceBusy)
      else WriteRecord(s, record.(stage := Verifying, recovered := [], recoveryProcesses := [],
                                  recoveryPolicyDigests := [],
                                  verificationPolicyDigest := None, verificationRecoveryEpoch := None))
  }

  datatype TopologyScan = Scanned(groups: seq<(GroupId, set<NodeId>)>) | ScanFailed(why: MetaReject)

  /** The voter configurations `n` hosts, or the first group that is missing or moving. */
  function ScanTopology(s: MetaState, n: NodeId, groups: seq<GroupId>): TopologyScan {
    if groups == [] then Scanned([])
    else if groups[0] !in s.placements then ScanFailed(NoPlacement)
    else if s.placements[groups[0]].move.Some? then ScanFailed(MaintenanceBusy)
    else
      var rest := ScanTopology(s, n, groups[1..]);
      if rest.ScanFailed? then rest
      else if n in s.placements[groups[0]].voters then
        Scanned([(groups[0], VoterSet(s.placements[groups[0]].voters))] + rest.groups)
      else rest
  }

  /** The verification fields after one participant's recovery acknowledgement. */
  function Recover(record: MaintenanceRecord, n: NodeId, process: u64, policy: nat, epoch: nat): MaintenanceRecord {
    var recovered := InsertSorted(record.recovered, n);
    var digests := UpsertSorted(record.recoveryPolicyDigests, n, policy);
    var agreed := recovered == record.participants && PairKeys(digests) == record.participants
                  && forall i :: 0 <= i < |digests| ==> digests[i].1 == policy;
    record.(recovered := recovered,
            recoveryProcesses := UpsertSorted(record.recoveryProcesses, n, process),
            recoveryPolicyDigests := digests,
            verificationPolicyDigest := if agreed then Some(policy) else None,
            verificationRecoveryEpoch := if recovered == record.participants then Some(epoch) else None)
  }

  function EvalAcknowledgeRecovery(env: Env, s: MetaState, operationId: nat, generation: u64, n: NodeId,
                                   incarnation: nat, process: u64, topology: TopologyDigest, policy: nat,
                                       epoch: nat): (o: Outcome)
    ensures o.state == s.(maintenance := o.state.maintenance)
    ensures Untouched(s, o)
  {
    if !NamesOperation(s, operationId, generation) then Reject(s, MaintenanceMismatch)
    else
      var record := s.maintenance.value;
      var previous := Lookup(record.recoveryProcesses, n);
      if record.stage != Verifying then Reject(s, MaintenanceBusy)
      else if n !in record.participants then Reject(s, IneligibleTarget)
      else if n !in s.nodes then Reject(s, UnknownNode)
      else if s.nodes[n].incarnation != incarnation then Reject(s, StaleIncarnation)
      else if s.nodes[n].state != Active then Reject(s, IneligibleTarget)
      else if process == 0 || policy == 0 then Reject(s, InvalidConfig)
      else if epoch != env.recoveryEpoch then Reject(s, MaintenanceMismatch)
      else if previous.Some? && process < previous.value then Reject(s, StaleMaintenanceProcess)
      else if previous.Some? && process == previous.value && n in record.recovered then Same(s)
      else if s.cluster.None? then Reject(s, ClusterNotInitialized)
      else
        var scan := ScanTopology(s, n, Groups(s.cluster.value.p));
        if scan.ScanFailed? then Reject(s, scan.why)
        else if topology != TopologyDigest(scan.groups) then Reject(s, MaintenanceTopologyMismatch)
        else WriteRecord(s, Recover(record, n, process, policy, epoch))
  }

  // -- Runs -----------------------------------------------------------------------------------------------------

  datatype Committed = Committed(cmd: MetaCommand, logId: LogId)

  /** A committed meta log: indices strictly increase. */
  predicate LogOrdered(log: seq<Committed>) {
    forall i, j :: 0 <= i < j < |log| ==> log[i].logId.index < log[j].logId.index
  }

  function ApplyLog(env: Env, s: MetaState, log: seq<Committed>): MetaState
    decreases |log|
  {
    if log == [] then s else ApplyLog(env, Evaluate(env, s, log[0].cmd, log[0].logId).state, log[1..])
  }

  lemma {:induction false} ApplyLogSnoc(env: Env, s: MetaState, log: seq<Committed>, c: Committed)
    ensures ApplyLog(env, s, log + [c]) == Evaluate(env, ApplyLog(env, s, log), c.cmd, c.logId).state
    decreases |log|
  {
    if log == [] {
      assert [c][1..] == [] && log + [c] == [c];
    } else {
      assert (log + [c])[1..] == log[1..] + [c];
      ApplyLogSnoc(env, Evaluate(env, s, log[0].cmd, log[0].logId).state, log[1..], c);
    }
  }

  lemma {:induction false} ApplyLogConcat(env: Env, s: MetaState, a: seq<Committed>, b: seq<Committed>)
    ensures ApplyLog(env, s, a + b) == ApplyLog(env, ApplyLog(env, s, a), b)
    decreases |a|
  {
    if a == [] {
      assert a + b == b;
    } else {
      assert (a + b)[1..] == a[1..] + b;
      ApplyLogConcat(env, Evaluate(env, s, a[0].cmd, a[0].logId).state, a[1..], b);
    }
  }

  /** The commands of a log that took effect, in order. */
  function Effective(env: Env, log: seq<Committed>): seq<MetaCommand> {
    if log == [] then []
    else
      var before := log[..|log| - 1];
      var c := log[|log| - 1];
      var o := Evaluate(env, ApplyLog(env, EMPTY_META, before), c.cmd, c.logId);
      Effective(env, before) + (if o.result.MetaApplied? then [c.cmd] else [])
  }

  lemma EffectiveSnoc(env: Env, before: seq<Committed>, c: Committed, o: Outcome)
    requires o == Evaluate(env, ApplyLog(env, EMPTY_META, before), c.cmd, c.logId)
    ensures Effective(env, before + [c]) == Effective(env, before) + (if o.result.MetaApplied? then [c.cmd] else [])
  {
    assert (before + [c])[..|before|] == before;
  }

  /** While an operation is active nothing but its own commands gets past the gate. */
  lemma GateHolds(env: Env, s: MetaState, cmd: MetaCommand, logId: LogId)
    requires MaintenanceIsActive(s) && !IsMaintenanceCommand(cmd)
    ensures Evaluate(env, s, cmd, logId).state == s
  {
  }

  /** A command that is not Applied leaves the state as it was. */
  lemma OnlyAppliedWrites(env: Env, s: MetaState, cmd: MetaCommand, logId: LogId)
    ensures !Evaluate(env, s, cmd, logId).result.MetaApplied? ==> Evaluate(env, s, cmd, logId).state == s
  {
  }

  /** The replicated meta store: decide, then commit the mutations and the log id in one atomic write. */
  class MetaStore {
    const env: Env
    var state: MetaState
    var lastApplied: Option<LogId>
    ghost var log: seq<Committed>

    /** The store holds what its whole committed log leads to, and knows where that log ends. */
    ghost predicate Valid()
      reads this
    {
      && state == ApplyLog(env, EMPTY_META, log)
      && lastApplied == (if log == [] then None else Some(log[|log| - 1].logId))
    }

    constructor (env: Env)
      ensures this.env == env && log == [] && Valid()
    {
      this.env, state, lastApplied, log := env, EMPTY_META, None, [];
    }

    method Apply(cmd: MetaCommand, logId: LogId) returns (result: MetaResult)
      modifies this
      ensures Outcome(result, state) == Evaluate(env, old(state), cmd, logId)
      ensures lastApplied == Some(logId) && log == old(log) + [Committed(cmd, logId)]
      ensures old(Valid()) ==> Valid()
    {
      var outcome := Evaluate(env, state, cmd, logId);
      ApplyLogSnoc(env, EMPTY_META, log, Committed(cmd, logId));
      state, lastApplied, log := outcome.state, Some(logId), log + [Committed(cmd, logId)];
      result := outcome.result;
    }
  }
}
