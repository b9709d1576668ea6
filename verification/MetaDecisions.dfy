/** When each meta command takes effect (src/meta/state_machine.rs): exact conditions in terms of the
    state, free of the order in which a handler happens to check them. */
module MetaDecisions {
  import opened Types
  import opened Config
  import opened MetaStateMachine

  // -- Cluster and directory --------------------------------------------------------------------

  /** A legal genesis: unclaimed store bound to this cluster, supported shape, an odd set of 3 to 8 distinct voters. */
  predicate LegalGenesis(env: Env, s: MetaState, config: ClusterConfig, voters: seq<NodeId>) {
    && s.cluster.None? && env.identity == Some(config.clusterId) && config.protocolVersion == PROTOCOL_VERSION
    && config.r >= MIN_REPLICATION && config.p > 0 && ValidRoutingShape(config.p, config.r)
    && Distinct(voters) && |voters| % 2 == 1 && MIN_META_VOTERS <= |voters| <= MAX_CLUSTER_NODES
  }

  lemma GenesisExactly(env: Env, s: MetaState, config: ClusterConfig, voters: seq<NodeId>, logId: LogId)
    ensures var o := EvalClusterInit(env, s, config, voters, logId);
            && (o.result.MetaApplied? <==> LegalGenesis(env, s, config, voters))
            && (o.result.MetaNoOp? <==> s.cluster == Some(config) && Meta in s.placements
                                        && VoterSet(s.placements[Meta].voters) == VoterSet(voters))
  {
    VoterSetSize(voters);
  }

  predicate Unreferenced(s: MetaState, n: NodeId, p: u16) {
    forall g :: g in Groups(p) ==> g in s.placements && !s.placements[g].ReferencesNode(n)
  }

  lemma {:induction false} IssueExactly(s: MetaState, n: NodeId, groups: seq<GroupId>)
    ensures RetireIssue(s, n, groups).None? <==> forall g :: g in groups ==>
            g in s.placements && !s.placements[g].ReferencesNode(n)
  {
    if groups != [] {
      IssueExactly(s, n, groups[1..]);
      assert groups == [groups[0]] + groups[1..];
    }
  }

  /** A node retires exactly when it is draining at the quoted incarnation and no group needs it. */
  lemma RetirementExactly(s: MetaState, n: NodeId, incarnation: nat)
    ensures var o := EvalRetireNode(s, n, incarnation);
            && (o.result.MetaApplied? <==>
                  && n !in s.retired && n in s.nodes && s.nodes[n].incarnation == incarnation
                     && s.nodes[n].state == Draining
                  && s.cluster.Some? && Unreferenced(s, n, s.cluster.value.p))
            && (o.result.MetaNoOp? <==> n in s.retired && s.retired[n] == incarnation)
            && (o.result.MetaApplied? ==>
                  o.state.retired == s.retired[n := incarnation] && o.state.nodes == s.nodes - {n})
  {
    if s.cluster.Some? { IssueExactly(s, n, Groups(s.cluster.value.p)); }
  }

  // -- Placements and plans --------------------------------------------------------------------------

  lemma AllActive(s: MetaState, voters: seq<NodeId>)
    ensures VoterSet(voters) <= ActiveSet(s) <==> forall v :: v in voters ==> IsActive(s, v)
  {
    if VoterSet(voters) <= ActiveSet(s) {
      forall v | v in voters ensures IsActive(s, v) { assert v in VoterSet(voters); }
    }
  }

  lemma SeedRefusedExactly(s: MetaState, g: GroupId, voters: seq<NodeId>)
    requires s.cluster.Some?
    ensures SeedRefusal(s, g, voters).None? <==>
              && g.Data? && g.partition < s.cluster.value.p && g !in s.placements
              && |VoterSet(voters)| == |voters| && |voters| == s.cluster.value.r
              && forall v :: v in voters ==> IsActive(s, v)
    ensures SeedRefusal(s, g, voters) != Some(MetaApplied)
  {
  }

  lemma SeedExactly(s: MetaState, g: GroupId, voters: seq<NodeId>, logId: LogId)
    ensures EvalSeedPlacement(s, g, voters, logId).result.MetaApplied? <==>
              && s.cluster.Some? && g.Data? && g.partition < s.cluster.value.p && g !in s.placements
              && Distinct(voters) && |voters| == s.cluster.value.r && VoterSet(voters) <= ActiveSet(s)
  {
    VoterSetSize(voters);
    AllActive(s, voters);
    if s.cluster.Some? { SeedRefusedExactly(s, g, voters); }
  }

  /** One voter swapped in a data group that can still be filled; one swapped or removed in the meta group. */
  predicate LegalTarget(s: MetaState, g: GroupId, current: set<NodeId>, target: seq<NodeId>)
    requires s.cluster.Some?
  {
    && Distinct(target) && VoterSet(target) - current <= ActiveSet(s)
    && match g
       case Data(_) =>
         |target| == s.cluster.value.r && OneForOne(current, VoterSet(target)) && |ActiveSet(s)| >= s.cluster.value.r
       case Meta =>
         && |target| >= MIN_META_VOTERS
         && (|| (OneForOne(current, VoterSet(target)) && |target| == |current|)
             || (OneRemoved(current, VoterSet(target)) && |target| + 1 == |current|))
  }

  lemma NewVotersActive(s: MetaState, current: set<NodeId>, target: set<NodeId>)
    ensures target - current <= ActiveSet(s) <==> forall v :: v in target - current ==> IsActive(s, v)
  {
    if target - current <= ActiveSet(s) {
      forall v | v in target - current ensures IsActive(s, v) { assert v in ActiveSet(s); }
    }
  }

  lemma TargetExactly(s: MetaState, g: GroupId, current: set<NodeId>, target: seq<NodeId>)
    requires s.cluster.Some?
    ensures TargetRefusal(s, s.cluster.value.r, g, current, target).None? <==> LegalTarget(s, g, current, target)
  {
    VoterSetSize(target);
    NewVotersActive(s, current, VoterSet(target));
  }

  lemma PlanExactly(s: MetaState, g: GroupId, target: seq<NodeId>, logId: LogId)
    ensures EvalCreatePlan(s, g, target, logId).result.MetaApplied? <==>
              && s.cluster.Some? && g in s.placements && s.placements[g].move.None?
              && LegalTarget(s, g, VoterSet(s.placements[g].voters), target)
  {
    if s.cluster.Some? && g in s.placements {
      TargetExactly(s, g, VoterSet(s.placements[g].voters), target);
    }
  }

  function PlanRecord(target: seq<NodeId>, logId: LogId): (plan: MovePlan)
    ensures VoterSet(plan.targetVoters) == VoterSet(target) && |plan.targetVoters| == |VoterSet(target)|
    ensures plan.planId == logId.index && !plan.aborting
  {
    SortedSeqIsVoterSet(VoterSet(target));
    MovePlan(logId.index, SortedSeq(VoterSet(target)), false)
  }

  /** A plan that takes effect is recorded under its log index; a refused one leaves no trace. */
  ghost predicate PlanWritten(s: MetaState, o: Outcome, g: GroupId, plan: MovePlan) {
    if o.result.MetaApplied? then
      && g in s.placements && s.placements[g].move.None?
      && o.state.placements == s.placements[g := s.placements[g].(move := Some(plan))]
    else o.state == s
  }

  lemma PlanWrites(s: MetaState, g: GroupId, target: seq<NodeId>, logId: LogId)
    ensures PlanWritten(s, EvalCreatePlan(s, g, target, logId), g, PlanRecord(target, logId))
  {
  }

  // -- Maintenance --------------------------------------------------------------------------------------

  /** Nothing is in motion: every group placed on Active nodes without a plan, no index building or retiring. */
  predicate AtRest(s: MetaState, p: u16) {
    && (forall g :: g in Groups(p) ==> SettledOn(s, g, ActiveSet(s)))
    && (forall name :: name in s.search ==> s.search[name].building.None? && s.search[name].retiring == [])
  }

  lemma SortedSeqUnique(a: seq<NodeId>)
    requires Ascending(a)
    ensures SortedSeq(VoterSet(a)) == a
    decreases |a|
  {
    if a == [] {
      assert VoterSet(a) == {};
    } else {
      var rest := a[1..];
      assert a == [a[0]] + rest;
      assert VoterSet(a) == VoterSet(rest) + {a[0]};
      assert forall i :: 0 <= i < |rest| ==> rest[i] == a[i + 1];
      assert a[0] !in VoterSet(rest);
      LeastIs(VoterSet(a), a[0]);
      assert VoterSet(a) - {a[0]} == VoterSet(rest);
      SortedSeqUnique(rest);
    }
  }

  lemma LeastIs(s: set<NodeId>, m: NodeId)
    requires m in s && forall x :: x in s ==> m <= x
    ensures Least(s) == m
  {
  }

  /** The generation an operation must carry: the first, or the successor of a released one. */
  predicate NextOperation(m: Option<MaintenanceRecord>, op: nat, gen: u64) {
    match m
    case None => gen == 1
    case Some(last) => last.stage == Released && last.operationId != op && gen == last.generation + 1
  }

  lemma BeginChecks(s: MetaState, op: nat, gen: u64, participants: seq<NodeId>, active: seq<NodeId>)
    ensures BeginRefusal(s, op, gen, participants, active).None? <==>
              && s.cluster.Some? && AtRest(s, s.cluster.value.p) && op != 0 && NextOperation(s.maintenance, op, gen)
              && participants != [] && Ascending(participants) && participants == active
    ensures BeginRefusal(s, op, gen, participants, active) != Some(MetaApplied)
  {
  }

  /** An operation opens over exactly the Active nodes of a cluster at rest. */
  lemma BeginExactly(s: MetaState, op: nat, gen: u64, participants: seq<NodeId>)
    ensures EvalBegin(s, op, gen, participants).result.MetaApplied? <==>
              && s.cluster.Some? && AtRest(s, s.cluster.value.p) && op != 0 && NextOperation(s.maintenance, op, gen)
              && participants != [] && Ascending(participants) && VoterSet(participants) == ActiveSet(s)
    ensures EvalBegin(s, op, gen, participants).result.MetaApplied? ==>
              EvalBegin(s, op, gen, participants).state.maintenance
              == Some(MaintenanceRecord(op, gen, participants, [], [], [], [], None, None, Preparing))
  {
    SortedSeqIsVoterSet(ActiveSet(s));
    if Ascending(participants) { SortedSeqUnique(participants); }
    BeginChecks(s, op, gen, participants, SortedSeq(ActiveSet(s)));
  }

  /** The node is registered, Active and quotes its committed incarnation. */
  predicate Live(s: MetaState, n: NodeId, incarnation: nat) {
    IsActive(s, n) && s.nodes[n].incarnation == incarnation
  }

  /** Every participant has recovered under this policy and epoch and is still the process that reported. */
  predicate FullyRecovered(env: Env, s: MetaState, r: MaintenanceRecord, processes: seq<(NodeId, u64)>,
                           incarnations: seq<(NodeId, u64)>, policy: nat) {
    && r.recovered == r.participants && PairKeys(r.recoveryProcesses) == r.participants
    && r.verificationPolicyDigest == Some(policy) && r.verificationRecoveryEpoch == Some(env.recoveryEpoch)
    && r.recoveryProcesses == processes && |incarnations| == |r.participants|
    && forall i :: 0 <= i < |incarnations| ==>
         incarnations[i].0 == r.participants[i] && Live(s, r.participants[i], incarnations[i].1)
  }

  /** An operation is abandoned while preparing or released after full verification, and in no other way. */
  lemma ReleaseExactly(env: Env, s: MetaState, op: nat, gen: u64, processes: seq<(NodeId, u64)>,
                       incarnations: seq<(NodeId, u64)>, policy: nat)
    ensures EvalRelease(env, s, op, gen, processes, incarnations, policy).result.MetaApplied? <==>
              && NamesOperation(s, op, gen)
              && (|| s.maintenance.value.stage == Preparing
                  || (s.maintenance.value.stage == Verifying
                      && FullyRecovered(env, s, s.maintenance.value, processes, incarnations, policy)))
  {
    if NamesOperation(s, op, gen) && |incarnations| == |s.maintenance.value.participants| {
      var participants := s.maintenance.value.participants;
      assert forall i :: 0 <= i < |participants| ==>
        (LiveAs(s, participants[i], incarnations[i])
         <==> incarnations[i].0 == participants[i] && Live(s, participants[i], incarnations[i].1));
    }
  }

  /** The scan succeeds exactly on a settled topology and lists exactly the groups the node votes in. */
  lemma {:induction false} ScanExactly(s: MetaState, n: NodeId, groups: seq<GroupId>)
    ensures var scan := ScanTopology(s, n, groups);
            && (scan.Scanned? <==> forall g :: g in groups ==> g in s.placements && s.placements[g].move.None?)
            && (scan.Scanned? ==> forall g, v :: (g, v) in scan.groups <==>
                  g in groups && n in s.placements[g].voters && v == VoterSet(s.placements[g].voters))
  {
    if groups != [] {
      ScanExactly(s, n, groups[1..]);
      assert groups == [groups[0]] + groups[1..];
      var rest := ScanTopology(s, n, groups[1..]);
      if rest.Scanned? && groups[0] in s.placements && s.placements[groups[0]].move.None?
          && n in s.placements[groups[0]].voters {
        var head := (groups[0], VoterSet(s.placements[groups[0]].voters));
        assert forall x :: x in [head] + rest.groups <==> x == head || x in rest.groups;
      }
    }
  }

  // -- Dispatch ---------------------------------------------------------------------------------------

  // Each command reaches its handler; those that are not about maintenance, outside of it.

  lemma ReachesInit(env: Env, s: MetaState, cmd: MetaCommand, logId: LogId)
    requires !MaintenanceIsActive(s) && cmd.ClusterInit?
    ensures Evaluate(env, s, cmd, logId) == EvalClusterInit(env, s, cmd.config, cmd.metaVoters, logId)
  {
  }

  lemma ReachesRegister(env: Env, s: MetaState, cmd: MetaCommand, logId: LogId)
    requires !MaintenanceIsActive(s) && cmd.RegisterNode?
    ensures Evaluate(env, s, cmd, logId) == EvalRegisterNode(s, cmd.node, cmd.controlAddr, cmd.bulkAddr)
  {
  }

  lemma ReachesSeed(env: Env, s: MetaState, cmd: MetaCommand, logId: LogId)
    requires !MaintenanceIsActive(s) && cmd.SeedPlacement?
    ensures Evaluate(env, s, cmd, logId) == EvalSeedPlacement(s, cmd.group, cmd.voters, logId)
  {
  }

  lemma ReachesCreate(env: Env, s: MetaState, cmd: MetaCommand, logId: LogId)
    requires !MaintenanceIsActive(s) && cmd.CreatePlan?
    ensures Evaluate(env, s, cmd, logId) == EvalCreatePlan(s, cmd.group, cmd.targetVoters, logId)
  {
  }

  lemma ReachesMark(env: Env, s: MetaState, cmd: MetaCommand, logId: LogId)
    requires !MaintenanceIsActive(s) && cmd.MarkAborting?
    ensures Evaluate(env, s, cmd, logId) == EvalMarkAborting(s, cmd.group, cmd.planId)
  {
  }

  lemma ReachesResolve(env: Env, s: MetaState, cmd: MetaCommand, logId: LogId)
    requires !MaintenanceIsActive(s) && (cmd.FinalizePlan? || cmd.AbortReport?)
    ensures Evaluate(env, s, cmd, logId)
            == EvalFinalizePlan(s, cmd.group, cmd.planId, cmd.observation, cmd.AbortReport?)
  {
  }

  lemma ReachesBegin(env: Env, s: MetaState, cmd: MetaCommand, logId: LogId)
    requires cmd.BeginMaintenance?
    ensures Evaluate(env, s, cmd, logId) == EvalBegin(s, cmd.operationId, cmd.operationGeneration, cmd.participants)
  {
  }

  lemma ReachesRelease(env: Env, s: MetaState, cmd: MetaCommand, logId: LogId)
    requires cmd.ReleaseMaintenance?
    ensures Evaluate(env, s, cmd, logId) == EvalRelease(env, s, cmd.operationId, cmd.operationGeneration,
                                                        cmd.liveProcesses, cmd.liveIncarnations, cmd.policyDigest)
  {
  }

  lemma ReachesSetState(env: Env, s: MetaState, cmd: MetaCommand, logId: LogId)
    requires !MaintenanceIsActive(s) && cmd.SetNodeState?
    ensures Evaluate(env, s, cmd, logId) == EvalSetNodeState(s, cmd.node, cmd.state, cmd.incarnation)
  {
  }

  lemma ReachesRetire(env: Env, s: MetaState, cmd: MetaCommand, logId: LogId)
    requires !MaintenanceIsActive(s) && cmd.RetireNode?
    ensures Evaluate(env, s, cmd, logId) == EvalRetireNode(s, cmd.node, cmd.incarnation)
  {
  }

  lemma ReachesReport(env: Env, s: MetaState, cmd: MetaCommand, logId: LogId)
    requires !MaintenanceIsActive(s) && cmd.ReportSearchReady?
    ensures Evaluate(env, s, cmd, logId) == EvalReportReady(s, cmd.name, cmd.ready)
  {
  }

  lemma ReachesActivate(env: Env, s: MetaState, cmd: MetaCommand, logId: LogId)
    requires !MaintenanceIsActive(s) && cmd.ActivateSearchGeneration?
    ensures Evaluate(env, s, cmd, logId) == EvalActivate(s, cmd.name, cmd.generation)
  {
  }

  lemma ReachesCreateIndex(env: Env, s: MetaState, cmd: MetaCommand, logId: LogId)
    requires !MaintenanceIsActive(s) && cmd.CreateSearchIndex?
    ensures Evaluate(env, s, cmd, logId)
            == EvalCreateSearch(s, cmd.name, cmd.definition, cmd.engineRevision, logId, false)
  {
  }

  lemma ReachesCreateGeneration(env: Env, s: MetaState, cmd: MetaCommand, logId: LogId)
    requires !MaintenanceIsActive(s) && cmd.CreateSearchGeneration?
    ensures Evaluate(env, s, cmd, logId)
            == EvalCreateSearch(s, cmd.name, cmd.definition, cmd.engineRevision, logId, true)
  {
  }

  lemma ReachesDrop(env: Env, s: MetaState, cmd: MetaCommand, logId: LogId)
    requires !MaintenanceIsActive(s) && cmd.DropSearchIndex?
    ensures Evaluate(env, s, cmd, logId) == EvalDropSearch(s, cmd.name)
  {
  }

  lemma ReachesFinalizeDrop(env: Env, s: MetaState, cmd: MetaCommand, logId: LogId)
    requires !MaintenanceIsActive(s) && cmd.FinalizeSearchDrop?
    ensures Evaluate(env, s, cmd, logId) == EvalFinalizeDrop(s, cmd.name, cmd.generation)
  {
  }
}
