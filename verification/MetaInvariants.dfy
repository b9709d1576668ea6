/** What every committed command sequence keeps true of the cluster record, the directory and the
    placements (src/meta/state_machine.rs). */
module MetaInvariants {
  import opened Types
  import opened Config
  import opened MetaStateMachine
  import opened MetaDecisions

  // -- Directory ---------------------------------------------------------------------------------

  ghost predicate EntryInv(n: NodeId, e: NodeEntry) {
    && e.nodeId == n && n != 0 && 1 <= e.incarnation
    && 1 <= e.controlAddr.bytes <= MAX_ENDPOINT_BYTES
    && 1 <= e.bulkAddr.bytes <= MAX_ENDPOINT_BYTES
    && e.controlAddr != e.bulkAddr
  }

  ghost predicate Separate(a: NodeEntry, b: NodeEntry) {
    !SharesEndpoint(a, b.controlAddr, b.bulkAddr)
  }

  type Directory = map<NodeId, NodeEntry>

  ghost predicate Bounded(nodes: Directory) {
    |nodes.Keys| <= MAX_CLUSTER_NODES
  }

  ghost predicate NoneRetired(nodes: Directory, retired: map<NodeId, u64>) {
    forall n :: n in nodes ==> n !in retired
  }

  ghost predicate EntriesOk(nodes: Directory) {
    forall n :: n in nodes ==> EntryInv(n, nodes[n])
  }

  ghost predicate EndpointsApart(nodes: Directory) {
    forall m, n :: m in nodes && n in nodes && m != n ==> Separate(nodes[m], nodes[n])
  }

  /** Bounded directory, every endpoint owned by one node and one lane, retirement permanent. */
  ghost predicate DirectoryInv(nodes: Directory, retired: map<NodeId, u64>) {
    Bounded(nodes) && NoneRetired(nodes, retired) && EntriesOk(nodes) && EndpointsApart(nodes)
  }

  lemma UpdateBounded(nodes: Directory, n: NodeId, e: NodeEntry)
    requires Bounded(nodes) && (n in nodes || |nodes.Keys| < MAX_CLUSTER_NODES)
    ensures Bounded(nodes[n := e])
  {
    assert nodes[n := e].Keys == nodes.Keys + {n};
  }

  lemma UpdateApart(nodes: Directory, n: NodeId, e: NodeEntry)
    requires EndpointsApart(nodes) && forall m :: m in nodes && m != n ==> Separate(nodes[m], e)
    ensures EndpointsApart(nodes[n := e])
  {
  }

  lemma RegisteredApart(s: MetaState, n: NodeId, control: Endpoint, bulk: Endpoint)
    requires EvalRegisterNode(s, n, control, bulk).result.MetaApplied?
    ensures forall m :: m in s.nodes && m != n ==> !SharesEndpoint(s.nodes[m], control, bulk)
    ensures n !in s.retired && (n in s.nodes || |s.nodes| < MAX_CLUSTER_NODES)
  {
  }

  lemma RegisteredEntry(s: MetaState, n: NodeId, control: Endpoint, bulk: Endpoint)
    requires EvalRegisterNode(s, n, control, bulk).result.MetaApplied?
    ensures var t := EvalRegisterNode(s, n, control, bulk).state;
            && n in t.nodes && t.nodes == s.nodes[n := t.nodes[n]]
            && t.nodes[n].controlAddr == control && t.nodes[n].bulkAddr == bulk
            && EntryInv(n, t.nodes[n])
  {
  }

  lemma RegisterDirectory(s: MetaState, n: NodeId, control: Endpoint, bulk: Endpoint)
    requires DirectoryInv(s.nodes, s.retired)
    ensures DirectoryInv(EvalRegisterNode(s, n, control, bulk).state.nodes, s.retired)
  {
    var o := EvalRegisterNode(s, n, control, bulk);
    if o.result.MetaApplied? {
      RegisteredApart(s, n, control, bulk);
      RegisteredEntry(s, n, control, bulk);
      UpdateBounded(s.nodes, n, o.state.nodes[n]) by { assert |s.nodes| == |s.nodes.Keys|; }
      UpdateApart(s.nodes, n, o.state.nodes[n]);
    }
  }

  /** The entry a registration leaves: the first incarnation, or the one after the node's last. */
  function Seat(nodes: Directory, n: NodeId, control: Endpoint, bulk: Endpoint): NodeEntry
    requires n in nodes ==> nodes[n].incarnation < U64_MAX
  {
    NodeEntry(n, control, bulk, Active, if n in nodes then nodes[n].incarnation + 1 else 1)
  }

  /** The node is new, has moved, or comes back from Down. */
  predicate News(nodes: Directory, n: NodeId, control: Endpoint, bulk: Endpoint) {
    n in nodes ==> nodes[n].controlAddr != control || nodes[n].bulkAddr != bulk || nodes[n].state == Down
  }

  lemma SeatedIsApart(nodes: Directory, retired: map<NodeId, u64>, n: NodeId, e: NodeEntry)
    requires DirectoryInv(nodes[n := e], retired)
    ensures EntryInv(n, e) && n !in retired && (n in nodes || |nodes| < MAX_CLUSTER_NODES)
    ensures forall m :: m in nodes && m != n ==> !SharesEndpoint(nodes[m], e.controlAddr, e.bulkAddr)
  {
    var after := nodes[n := e];
    assert after.Keys == nodes.Keys + {n};
    assert n in after && after[n] == e;
    forall m | m in nodes && m != n ensures !SharesEndpoint(nodes[m], e.controlAddr, e.bulkAddr) {
      assert m in after && after[m] == nodes[m] && Separate(after[m], after[n]);
    }
  }

  lemma RegisteredIsNews(s: MetaState, n: NodeId, control: Endpoint, bulk: Endpoint)
    requires EvalRegisterNode(s, n, control, bulk).result.MetaApplied?
    ensures s.cluster.Some? && News(s.nodes, n, control, bulk)
    ensures n in s.nodes ==> s.nodes[n].incarnation < U64_MAX
    ensures EvalRegisterNode(s, n, control, bulk).state.nodes == s.nodes[n := Seat(s.nodes, n, control, bulk)]
  {
  }

  lemma NewsRegisters(s: MetaState, n: NodeId, control: Endpoint, bulk: Endpoint)
    requires s.cluster.Some? && News(s.nodes, n, control, bulk) && n !in s.retired
    requires (n in s.nodes ==> s.nodes[n].incarnation < U64_MAX) && (n in s.nodes || |s.nodes| < MAX_CLUSTER_NODES)
    requires EntryInv(n, Seat(s.nodes, n, control, bulk))
    requires forall m :: m in s.nodes && m != n ==> !SharesEndpoint(s.nodes[m], control, bulk)
    ensures EvalRegisterNode(s, n, control, bulk).result.MetaApplied?
  {
  }

  /** A registration takes effect exactly if it is news and the directory it leaves is in order: bounded, no id
      retired, every endpoint well-sized and owned by one node and one lane. */
  lemma RegistrationExactly(s: MetaState, n: NodeId, control: Endpoint, bulk: Endpoint)
    requires DirectoryInv(s.nodes, s.retired)
    ensures EvalRegisterNode(s, n, control, bulk).result.MetaApplied? <==>
              && s.cluster.Some? && News(s.nodes, n, control, bulk)
              && (n in s.nodes ==> s.nodes[n].incarnation < U64_MAX)
              && DirectoryInv(s.nodes[n := Seat(s.nodes, n, control, bulk)], s.retired)
    ensures EvalRegisterNode(s, n, control, bulk).result.MetaApplied? ==>
              EvalRegisterNode(s, n, control, bulk).state.nodes == s.nodes[n := Seat(s.nodes, n, control, bulk)]
  {
    if EvalRegisterNode(s, n, control, bulk).result.MetaApplied? {
      RegisterDirectory(s, n, control, bulk);
      RegisteredIsNews(s, n, control, bulk);
    } else if s.cluster.Some? && News(s.nodes, n, control, bulk)
              && (n in s.nodes ==> s.nodes[n].incarnation < U64_MAX) {
      if DirectoryInv(s.nodes[n := Seat(s.nodes, n, control, bulk)], s.retired) {
        SeatedIsApart(s.nodes, s.retired, n, Seat(s.nodes, n, control, bulk));
        NewsRegisters(s, n, control, bulk);
      }
    }
  }

  lemma SetStateDirectory(s: MetaState, n: NodeId, state: NodeState, incarnation: nat)
    requires DirectoryInv(s.nodes, s.retired)
    ensures DirectoryInv(EvalSetNodeState(s, n, state, incarnation).state.nodes, s.retired)
    ensures EvalSetNodeState(s, n, state, incarnation).state.nodes.Keys == s.nodes.Keys
  {
    var o := EvalSetNodeState(s, n, state, incarnation);
    if o.result.MetaApplied? {
      var e := o.state.nodes[n];
      assert o.state.nodes == s.nodes[n := e];
      UpdateBounded(s.nodes, n, e);
      UpdateApart(s.nodes, n, e);
    }
  }

  lemma RemoveBounded(nodes: Directory, n: NodeId)
    requires Bounded(nodes)
    ensures Bounded(nodes - {n})
  {
    assert (nodes - {n}).Keys == nodes.Keys - {n};
  }

  lemma RetireDirectory(s: MetaState, n: NodeId, incarnation: nat)
    requires DirectoryInv(s.nodes, s.retired)
    ensures var t := EvalRetireNode(s, n, incarnation).state; DirectoryInv(t.nodes, t.retired)
  {
    if RetireRefusal(s, n, incarnation).None? {
      RemoveBounded(s.nodes, n);
    }
  }

  // -- Placements ----------------------------------------------------------------------------------

  /** `known` are the registered nodes: every voter and every target of a data group has a live directory entry. */
  ghost predicate DataPlacementInv(known: set<NodeId>, r: nat, p: Placement) {
    && |VoterSet(p.voters)| == |p.voters| == r && VoterSet(p.voters) <= known
    && (p.move.Some? ==>
          var target := p.move.value.targetVoters;
          && |VoterSet(target)| == |target| == r && VoterSet(target) <= known
          && OneForOne(VoterSet(p.voters), VoterSet(target)))
  }

  /** `gone` are the retired ids: none of them is a meta voter or target. */
  ghost predicate MetaPlacementInv(gone: set<NodeId>, p: Placement) {
    && |VoterSet(p.voters)| == |p.voters| >= MIN_META_VOTERS && VoterSet(p.voters) !! gone
    && (p.move.Some? ==>
          var target := p.move.value.targetVoters;
          && |VoterSet(target)| == |target| >= MIN_META_VOTERS && VoterSet(target) !! gone
          && |VoterSet(p.voters) - VoterSet(target)| == 1
          && |VoterSet(target) - VoterSet(p.voters)| <= 1)
  }

  ghost predicate GroupInv(config: ClusterConfig, known: set<NodeId>, gone: set<NodeId>, g: GroupId, p: Placement) {
    match g
    case Meta => MetaPlacementInv(gone, p)
    case Data(i) => i < config.p && DataPlacementInv(known, config.r, p)
  }

  ghost predicate PlacementsInv(config: Option<ClusterConfig>, placements: map<GroupId, Placement>,
                                known: set<NodeId>, gone: set<NodeId>) {
    if config.None? then placements == map[]
    else
      && Meta in placements
      && (forall g :: g in placements ==> GroupInv(config.value, known, gone, g, placements[g]))
  }

  lemma SortedVoters(s: set<NodeId>)
    ensures VoterSet(SortedSeq(s)) == s && |SortedSeq(s)| == |s|
  {
    SortedSeqIsVoterSet(s);
  }

  lemma SortedKeepsVoters(voters: seq<NodeId>)
    requires |VoterSet(voters)| == |voters|
    ensures VoterSet(Sorted(voters)) == VoterSet(voters) && |Sorted(voters)| == |voters|
  {
    SortedVoters(VoterSet(voters));
  }

  ghost predicate StatePlacements(s: MetaState) {
    PlacementsInv(s.cluster, s.placements, s.nodes.Keys, s.retired.Keys)
  }

  lemma ClusterInitPlacements(env: Env, s: MetaState, config: ClusterConfig, voters: seq<NodeId>, logId: LogId)
    requires StatePlacements(s) && (s.cluster.None? ==> s.retired == map[])
    ensures StatePlacements(EvalClusterInit(env, s, config, voters, logId).state)
  {
    if EvalClusterInit(env, s, config, voters, logId).result.MetaApplied? {
      GenesisExactly(env, s, config, voters, logId);
      VoterSetSize(voters);
      SortedVoters(VoterSet(voters));
      assert s.cluster.None? && s.placements == map[];
    }
  }

  lemma MoreKnown(config: Option<ClusterConfig>, placements: map<GroupId, Placement>,
                  known: set<NodeId>, more: set<NodeId>, gone: set<NodeId>)
    requires PlacementsInv(config, placements, known, gone) && known <= more
    ensures PlacementsInv(config, placements, more, gone)
  {
    if config.Some? {
      forall g | g in placements ensures GroupInv(config.value, more, gone, g, placements[g]) {
        assert GroupInv(config.value, known, gone, g, placements[g]);
      }
    }
  }

  lemma GroupListed(p: u16, g: GroupId)
    requires g.Data? ==> g.partition < p
    ensures g in Groups(p)
  {
    if g.Data? { assert Groups(p)[g.partition + 1] == g; } else { assert Groups(p)[0] == g; }
  }

  /** A group that does not refer to a node does not miss it. */
  lemma UnreferencedGroup(config: ClusterConfig, known: set<NodeId>, gone: set<NodeId>, n: NodeId, g: GroupId,
                          p: Placement)
    requires GroupInv(config, known, gone, g, p) && !p.ReferencesNode(n)
    ensures GroupInv(config, known - {n}, gone + {n}, g, p)
  {
  }

  lemma RetirePlacements(s: MetaState, n: NodeId, incarnation: nat)
    requires StatePlacements(s)
    ensures StatePlacements(EvalRetireNode(s, n, incarnation).state)
  {
    var o := EvalRetireNode(s, n, incarnation);
    if o.result.MetaApplied? {
      RetirementExactly(s, n, incarnation);
      assert o.state.nodes.Keys == s.nodes.Keys - {n} && o.state.retired.Keys == s.retired.Keys + {n};
      UnreferencedPlacements(s, n);
    }
  }

  lemma UnreferencedPlacements(s: MetaState, n: NodeId)
    requires StatePlacements(s) && s.cluster.Some? && Unreferenced(s, n, s.cluster.value.p)
    ensures PlacementsInv(s.cluster, s.placements, s.nodes.Keys - {n}, s.retired.Keys + {n})
  {
    forall g | g in s.placements
      ensures GroupInv(s.cluster.value, s.nodes.Keys - {n}, s.retired.Keys + {n}, g, s.placements[g])
    {
      assert GroupInv(s.cluster.value, s.nodes.Keys, s.retired.Keys, g, s.placements[g]);
      GroupListed(s.cluster.value.p, g);
      UnreferencedGroup(s.cluster.value, s.nodes.Keys, s.retired.Keys, n, g, s.placements[g]);
    }
  }

  lemma OnePlacement(s: MetaState, t: MetaState, g: GroupId, p: Placement)
    requires StatePlacements(s) && s.cluster.Some?
    requires t == s.(placements := s.placements[g := p])
    requires GroupInv(s.cluster.value, s.nodes.Keys, s.retired.Keys, g, p)
    ensures StatePlacements(t)
  {
  }

  lemma SeedPlacements(s: MetaState, g: GroupId, voters: seq<NodeId>, logId: LogId)
    requires StatePlacements(s)
    ensures StatePlacements(EvalSeedPlacement(s, g, voters, logId).state)
  {
    if EvalSeedPlacement(s, g, voters, logId).result.MetaApplied? {
      SeedExactly(s, g, voters, logId);
      VoterSetSize(voters);
      SortedVoters(VoterSet(voters));
      OnePlacement(s, EvalSeedPlacement(s, g, voters, logId).state, g,
                   Placement(SortedSeq(VoterSet(voters)), logId, None));
    }
  }

  lemma PlanGroup(config: ClusterConfig, known: set<NodeId>, gone: set<NodeId>, g: GroupId, p: Placement,
                  ts: set<NodeId>, plan: MovePlan)
    requires GroupInv(config, known, gone, g, p) && known !! gone
    requires VoterSet(plan.targetVoters) == ts && |plan.targetVoters| == |ts| && ts <= VoterSet(p.voters) + known
    requires g.Data? ==> |ts| == config.r && OneForOne(VoterSet(p.voters), ts)
    requires g.Meta? ==> |ts| >= MIN_META_VOTERS && |VoterSet(p.voters) - ts| == 1 && |ts - VoterSet(p.voters)| <= 1
    ensures GroupInv(config, known, gone, g, p.(move := Some(plan)))
  {
  }

  /** A legal target adds registered nodes only, and swaps or drops a single voter. */
  lemma LegalTargetFacts(s: MetaState, g: GroupId, current: set<NodeId>, target: seq<NodeId>)
    requires s.cluster.Some? && LegalTarget(s, g, current, target)
    ensures |VoterSet(target)| == |target| && VoterSet(target) <= current + s.nodes.Keys
    ensures g.Data? ==> |target| == s.cluster.value.r && OneForOne(current, VoterSet(target))
    ensures g.Meta? ==>
              && |target| >= MIN_META_VOTERS
              && |current - VoterSet(target)| == 1 && |VoterSet(target) - current| <= 1
  {
    VoterSetSize(target);
    forall v | v in VoterSet(target) ensures v in current + s.nodes.Keys {
      if v !in current { assert v in ActiveSet(s); }
    }
  }

  lemma CreatePlanPlacements(s: MetaState, g: GroupId, target: seq<NodeId>, logId: LogId)
    requires StatePlacements(s) && s.nodes.Keys !! s.retired.Keys
    ensures StatePlacements(EvalCreatePlan(s, g, target, logId).state)
  {
    if EvalCreatePlan(s, g, target, logId).result.MetaApplied? {
      PlanExactly(s, g, target, logId);
      PlanWrites(s, g, target, logId);
      var plan := PlanRecord(target, logId);
      LegalTargetFacts(s, g, VoterSet(s.placements[g].voters), target);
      PlanGroup(s.cluster.value, s.nodes.Keys, s.retired.Keys, g, s.placements[g], VoterSet(target), plan);
      OnePlacement(s, EvalCreatePlan(s, g, target, logId).state, g, s.placements[g].(move := Some(plan)));
    }
  }

  lemma MarkAbortingPlacements(s: MetaState, g: GroupId, planId: nat)
    requires StatePlacements(s)
    ensures StatePlacements(EvalMarkAborting(s, g, planId).state)
  {
    var o := EvalMarkAborting(s, g, planId);
    if o.result.MetaApplied? {
      assert GroupInv(s.cluster.value, s.nodes.Keys, s.retired.Keys, g, s.placements[g]);
      OnePlacement(s, o.state, g, o.state.placements[g]);
    }
  }

  lemma ResolvedGroup(config: ClusterConfig, known: set<NodeId>, gone: set<NodeId>, g: GroupId, p: Placement,
                      voters: seq<NodeId>, logId: LogId)
    requires GroupInv(config, known, gone, g, p) && p.move.Some?
    requires voters == p.voters || voters == p.move.value.targetVoters
    ensures GroupInv(config, known, gone, g, Placement(Sorted(voters), logId, None))
  {
    SortedKeepsVoters(voters);
  }

  lemma FinalizePlacements(s: MetaState, g: GroupId, planId: nat, obs: DataConfigObservation, isAbort: bool)
    requires StatePlacements(s)
    ensures StatePlacements(EvalFinalizePlan(s, g, planId, obs, isAbort).state)
  {
    var o := EvalFinalizePlan(s, g, planId, obs, isAbort);
    if o.result.MetaApplied? {
      var p := s.placements[g];
      var voters := ResolvedVoters(p, p.move.value, VoterSet(obs.voterSet), isAbort);
      ResolvedGroup(s.cluster.value, s.nodes.Keys, s.retired.Keys, g, p, voters.value, obs.configLogId);
      OnePlacement(s, o.state, g, o.state.placements[g]);
    }
  }

  // -- Plan identities and the cluster record -----------------------------------------------------------

  /** Every plan id is the nonzero index of a command committed before `bound`. */
  ghost predicate PlanIdsInv(s: MetaState, bound: nat) {
    && (s.cluster.Some? ==> bound >= 1)
    && (forall g :: g in s.placements && s.placements[g].move.Some? ==> 1 <= s.placements[g].move.value.planId < bound)
  }

  ghost predicate ShapeInv(c: ClusterConfig) {
    c.r >= MIN_REPLICATION && c.p != 0 && ValidRoutingShape(c.p, c.r)
  }

  ghost predicate ClusterInv(s: MetaState) {
    && (s.cluster.Some? ==> ShapeInv(s.cluster.value))
    && (s.cluster.None? ==> s.nodes == map[] && s.retired == map[])
  }

  ghost predicate MetaInv(s: MetaState, bound: nat) {
    ClusterInv(s) && DirectoryInv(s.nodes, s.retired) && StatePlacements(s) && PlanIdsInv(s, bound)
  }

  lemma CreatePlanIds(s: MetaState, g: GroupId, target: seq<NodeId>, logId: LogId, bound: nat)
    requires PlanIdsInv(s, bound) && bound <= logId.index
    ensures PlanIdsInv(EvalCreatePlan(s, g, target, logId).state, logId.index + 1)
  {
  }

  lemma FinalizeIds(s: MetaState, g: GroupId, planId: nat, obs: DataConfigObservation, isAbort: bool, bound: nat)
    requires PlanIdsInv(s, bound)
    ensures PlanIdsInv(EvalFinalizePlan(s, g, planId, obs, isAbort).state, bound)
  {
  }

  lemma InitIds(env: Env, s: MetaState, config: ClusterConfig, voters: seq<NodeId>, logId: LogId, bound: nat)
    requires PlanIdsInv(s, bound) && bound <= logId.index
    ensures PlanIdsInv(EvalClusterInit(env, s, config, voters, logId).state, logId.index + 1)
  {
  }

  lemma SeedIds(s: MetaState, g: GroupId, voters: seq<NodeId>, logId: LogId, bound: nat)
    requires PlanIdsInv(s, bound)
    ensures PlanIdsInv(EvalSeedPlacement(s, g, voters, logId).state, bound)
  {
  }

  lemma MarkAbortingIds(s: MetaState, g: GroupId, planId: nat, bound: nat)
    requires PlanIdsInv(s, bound)
    ensures PlanIdsInv(EvalMarkAborting(s, g, planId).state, bound)
  {
  }

  predicate TouchesPlacements(cmd: MetaCommand) {
    cmd.ClusterInit? || cmd.SeedPlacement? || cmd.CreatePlan? || cmd.MarkAborting? || cmd.FinalizePlan?
        || cmd.AbortReport?
  }

  predicate TouchesNodes(cmd: MetaCommand) {
    cmd.RegisterNode? || cmd.SetNodeState? || cmd.RetireNode?
  }

  /** No other command writes a placement or the cluster record. */
  lemma PlacementsFramed(env: Env, s: MetaState, cmd: MetaCommand, logId: LogId)
    requires !TouchesPlacements(cmd)
    ensures var t := Evaluate(env, s, cmd, logId).state; t.placements == s.placements && t.cluster == s.cluster
  {
  }

  /** No other command writes the directory or a tombstone. */
  lemma NodesFramed(env: Env, s: MetaState, cmd: MetaCommand, logId: LogId)
    requires !TouchesNodes(cmd)
    ensures var t := Evaluate(env, s, cmd, logId).state; t.nodes == s.nodes && t.retired == s.retired
  {
  }

  lemma IdsFramed(s: MetaState, t: MetaState, bound: nat, wider: nat)
    requires PlanIdsInv(s, bound) && bound <= wider && t.placements == s.placements && t.cluster == s.cluster
    ensures PlanIdsInv(t, wider)
  {
  }

  lemma PlacementCommandIds(env: Env, s: MetaState, cmd: MetaCommand, logId: LogId, bound: nat)
    requires PlanIdsInv(s, bound) && bound <= logId.index && TouchesPlacements(cmd) && !MaintenanceIsActive(s)
    ensures PlanIdsInv(Evaluate(env, s, cmd, logId).state, logId.index + 1)
  {
    var next := logId.index + 1;
    IdsFramed(s, s, bound, next);
    match cmd
    case CreatePlan(g, target) => CreatePlanIds(s, g, target, logId, bound);
    case FinalizePlan(g, id, obs) => FinalizeIds(s, g, id, obs, false, next);
    case AbortReport(g, id, obs) => FinalizeIds(s, g, id, obs, true, next);
    case ClusterInit(config, voters) => InitIds(env, s, config, voters, logId, bound);
    case SeedPlacement(g, voters) => SeedIds(s, g, voters, logId, next);
    case MarkAborting(g, id) => MarkAbortingIds(s, g, id, next);
  }

  lemma EvaluateKeepsIds(env: Env, s: MetaState, cmd: MetaCommand, logId: LogId, bound: nat)
    requires PlanIdsInv(s, bound) && bound <= logId.index
    ensures PlanIdsInv(Evaluate(env, s, cmd, logId).state, logId.index + 1)
  {
    var t := Evaluate(env, s, cmd, logId).state;
    if !TouchesPlacements(cmd) {
      PlacementsFramed(env, s, cmd, logId);
      IdsFramed(s, t, bound, logId.index + 1);
    } else if MaintenanceIsActive(s) {
      IdsFramed(s, t, bound, logId.index + 1);
    } else {
      PlacementCommandIds(env, s, cmd, logId, bound);
    }
  }

  lemma InitKeepsCluster(env: Env, s: MetaState, config: ClusterConfig, voters: seq<NodeId>, logId: LogId)
    requires ClusterInv(s)
    ensures ClusterInv(EvalClusterInit(env, s, config, voters, logId).state)
  {
  }

  lemma NodeCommandNeedsCluster(s: MetaState, cmd: MetaCommand)
    requires s.cluster.None? && s.nodes == map[] && s.retired == map[] && TouchesNodes(cmd)
    ensures cmd.RegisterNode? ==> EvalRegisterNode(s, cmd.node, cmd.controlAddr, cmd.bulkAddr).state == s
    ensures cmd.SetNodeState? ==> EvalSetNodeState(s, cmd.node, cmd.state, cmd.incarnation).state == s
    ensures cmd.RetireNode? ==> EvalRetireNode(s, cmd.node, cmd.incarnation).state == s
  {
    if cmd.RetireNode? { RetirementExactly(s, cmd.node, cmd.incarnation); }
  }

  lemma EvaluateKeepsCluster(env: Env, s: MetaState, cmd: MetaCommand, logId: LogId)
    requires ClusterInv(s)
    ensures ClusterInv(Evaluate(env, s, cmd, logId).state)
  {
    if TouchesNodes(cmd) {
      PlacementsFramed(env, s, cmd, logId);
      if s.cluster.None? { NodeCommandNeedsCluster(s, cmd); }
    } else {
      NodesFramed(env, s, cmd, logId);
      if cmd.ClusterInit? {
        InitKeepsCluster(env, s, cmd.config, cmd.metaVoters, logId);
      } else {
        ClusterFramed(env, s, cmd, logId);
      }
    }
  }

  lemma ClusterFramed(env: Env, s: MetaState, cmd: MetaCommand, logId: LogId)
    requires !cmd.ClusterInit?
    ensures Evaluate(env, s, cmd, logId).state.cluster == s.cluster
  {
  }

  lemma EvaluateKeepsDirectory(env: Env, s: MetaState, cmd: MetaCommand, logId: LogId)
    requires DirectoryInv(s.nodes, s.retired)
    ensures var t := Evaluate(env, s, cmd, logId).state; DirectoryInv(t.nodes, t.retired)
  {
    var t := Evaluate(env, s, cmd, logId).state;
    if MaintenanceIsActive(s) && !IsMaintenanceCommand(cmd) {
      assert t == s;
    } else if !TouchesNodes(cmd) {
      NodesFramed(env, s, cmd, logId);
    } else if cmd.RegisterNode? {
      RegisterDirectory(s, cmd.node, cmd.controlAddr, cmd.bulkAddr);
      assert t == EvalRegisterNode(s, cmd.node, cmd.controlAddr, cmd.bulkAddr).state;
    } else if cmd.SetNodeState? {
      SetStateDirectory(s, cmd.node, cmd.state, cmd.incarnation);
      assert t == EvalSetNodeState(s, cmd.node, cmd.state, cmd.incarnation).state;
    } else {
      RetireDirectory(s, cmd.node, cmd.incarnation);
      assert t == EvalRetireNode(s, cmd.node, cmd.incarnation).state;
    }
  }

  /** The placement invariant through the commands that write placements. */
  lemma PlacementCommandKeeps(env: Env, s: MetaState, cmd: MetaCommand, logId: LogId)
    requires ClusterInv(s) && StatePlacements(s) && DirectoryInv(s.nodes, s.retired)
    requires TouchesPlacements(cmd) && !MaintenanceIsActive(s)
    ensures StatePlacements(Evaluate(env, s, cmd, logId).state)
  {
    match cmd
    case ClusterInit(config, voters) => ClusterInitPlacements(env, s, config, voters, logId);
    case SeedPlacement(g, voters) => SeedPlacements(s, g, voters, logId);
    case CreatePlan(g, target) => CreatePlanPlacements(s, g, target, logId);
    case MarkAborting(g, id) => MarkAbortingPlacements(s, g, id);
    case FinalizePlan(g, id, obs) => FinalizePlacements(s, g, id, obs, false);
    case AbortReport(g, id, obs) => FinalizePlacements(s, g, id, obs, true);
  }

  lemma RegisterPlacements(s: MetaState, n: NodeId, control: Endpoint, bulk: Endpoint)
    requires StatePlacements(s)
    ensures StatePlacements(EvalRegisterNode(s, n, control, bulk).state)
  {
    MoreKnown(s.cluster, s.placements, s.nodes.Keys, EvalRegisterNode(s, n, control, bulk).state.nodes.Keys,
              s.retired.Keys);
  }

  lemma SetStatePlacements(s: MetaState, n: NodeId, state: NodeState, incarnation: nat)
    requires StatePlacements(s)
    ensures StatePlacements(EvalSetNodeState(s, n, state, incarnation).state)
  {
    assert EvalSetNodeState(s, n, state, incarnation).state.nodes.Keys == s.nodes.Keys;
  }

  /** The placement invariant through the commands that change which nodes are known or gone. */
  lemma NodeCommandKeeps(env: Env, s: MetaState, cmd: MetaCommand, logId: LogId)
    requires StatePlacements(s) && TouchesNodes(cmd) && !MaintenanceIsActive(s)
    ensures StatePlacements(Evaluate(env, s, cmd, logId).state)
  {
    match cmd
    case RegisterNode(n, control, bulk) => RegisterPlacements(s, n, control, bulk);
    case SetNodeState(n, state, incarnation) => SetStatePlacements(s, n, state, incarnation);
    case RetireNode(n, incarnation) => RetirePlacements(s, n, incarnation);
  }

  lemma EvaluateKeepsPlacements(env: Env, s: MetaState, cmd: MetaCommand, logId: LogId)
    requires ClusterInv(s) && StatePlacements(s) && DirectoryInv(s.nodes, s.retired)
    ensures StatePlacements(Evaluate(env, s, cmd, logId).state)
  {
    var t := Evaluate(env, s, cmd, logId).state;
    if MaintenanceIsActive(s) && !IsMaintenanceCommand(cmd) {
      assert t == s;
    } else if TouchesPlacements(cmd) {
      PlacementCommandKeeps(env, s, cmd, logId);
    } else if TouchesNodes(cmd) {
      NodeCommandKeeps(env, s, cmd, logId);
    } else {
      PlacementsFramed(env, s, cmd, logId);
      NodesFramed(env, s, cmd, logId);
      assert t.nodes.Keys == s.nodes.Keys && t.retired.Keys == s.retired.Keys;
    }
  }

  lemma EvaluateKeeps(env: Env, s: MetaState, cmd: MetaCommand, logId: LogId, bound: nat)
    requires MetaInv(s, bound) && bound <= logId.index
    ensures MetaInv(Evaluate(env, s, cmd, logId).state, logId.index + 1)
  {
    EvaluateKeepsIds(env, s, cmd, logId, bound);
    EvaluateKeepsCluster(env, s, cmd, logId);
    EvaluateKeepsDirectory(env, s, cmd, logId);
    EvaluateKeepsPlacements(env, s, cmd, logId);
  }

  /** A bound above every index the log has used. */
  function Bound(log: seq<Committed>): nat {
    if log == [] then 0 else log[|log| - 1].logId.index + 1
  }

  lemma LogPrefix(env: Env, log: seq<Committed>)
    requires LogOrdered(log) && log != []
    ensures var init, c := log[..|log| - 1], log[|log| - 1];
            && LogOrdered(init) && Bound(init) <= c.logId.index && Bound(log) == c.logId.index + 1
            && ApplyLog(env, EMPTY_META, log) == Evaluate(env, ApplyLog(env, EMPTY_META, init), c.cmd, c.logId).state
  {
    var init, c := log[..|log| - 1], log[|log| - 1];
    assert log == init + [c];
    ApplyLogSnoc(env, EMPTY_META, init, c);
    if init != [] { assert init[|init| - 1] == log[|log| - 2]; }
  }

  /** Every reachable meta state: any ordered command sequence from the empty store. */
  lemma {:induction false} ReachableInv(env: Env, log: seq<Committed>)
    requires LogOrdered(log)
    ensures MetaInv(ApplyLog(env, EMPTY_META, log), Bound(log))
    decreases |log|
  {
    if log != [] {
      var init, c := log[..|log| - 1], log[|log| - 1];
      LogPrefix(env, log);
      ReachableInv(env, init);
      EvaluateKeeps(env, ApplyLog(env, EMPTY_META, init), c.cmd, c.logId, Bound(init));
    }
  }

  // -- Logs with consecutive indices --------------------------------------------------------------

  ghost predicate Numbered(log: seq<Committed>, index: nat) {
    forall i :: 0 <= i < |log| ==> log[i].logId.index == index + i
  }

  lemma NumberedConcat(a: seq<Committed>, b: seq<Committed>, index: nat)
    requires Numbered(a, index) && Numbered(b, index + |a|)
    ensures Numbered(a + b, index)
  {
  }

  lemma NumberedIsOrdered(log: seq<Committed>, more: seq<Committed>)
    requires LogOrdered(log) && Numbered(more, Bound(log))
    ensures LogOrdered(log + more)
  {
    forall i, j | 0 <= i < j < |log + more| ensures (log + more)[i].logId.index < (log + more)[j].logId.index {
      if i < |log| <= j && i < |log| - 1 { assert log[i].logId.index < log[|log| - 1].logId.index; }
    }
  }

  /** A command in front of a log. */
  lemma Prepend(env: Env, s: MetaState, c: Committed, next: MetaState, rest: seq<Committed>, index: nat)
    requires Evaluate(env, s, c.cmd, c.logId).state == next && c.logId.index == index && Numbered(rest, index + 1)
    ensures Numbered([c] + rest, index) && ApplyLog(env, s, [c] + rest) == ApplyLog(env, next, rest)
  {
    assert ([c] + rest)[1..] == rest;
  }

  lemma Chain(env: Env, s: MetaState, a: seq<Committed>, b: seq<Committed>, index: nat)
    requires Numbered(a, index) && Numbered(b, index + |a|)
    ensures Numbered(a + b, index) && ApplyLog(env, s, a + b) == ApplyLog(env, ApplyLog(env, s, a), b)
  {
    NumberedConcat(a, b, index);
    ApplyLogConcat(env, s, a, b);
  }
}
