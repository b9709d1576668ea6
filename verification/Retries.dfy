/** Proposing again is harmless (src/meta/state_machine.rs): a command that took effect and is committed once more, at
    whatever later position, changes nothing. */
module Retries {
  import opened Types
  import opened MetaStateMachine
  import opened MetaDecisions
  import opened MetaInvariants
  import opened MaintenanceLifecycle
  import opened SearchReadiness

  // -- One handler at a time ----------------------------------------------------------------------

  lemma InitAgain(env: Env, s: MetaState, config: ClusterConfig, voters: seq<NodeId>, first: LogId, again: LogId)
    requires EvalClusterInit(env, s, config, voters, first).result.MetaApplied?
    ensures var t := EvalClusterInit(env, s, config, voters, first).state;
            EvalClusterInit(env, t, config, voters, again) == Same(t)
  {
    SortedSeqIsVoterSet(VoterSet(voters));
  }

  lemma RegisterAgain(s: MetaState, n: NodeId, control: Endpoint, bulk: Endpoint)
    requires EvalRegisterNode(s, n, control, bulk).result.MetaApplied?
    ensures var t := EvalRegisterNode(s, n, control, bulk).state; EvalRegisterNode(t, n, control, bulk) == Same(t)
  {
    var t := EvalRegisterNode(s, n, control, bulk).state;
    RegisteredApart(s, n, control, bulk);
    RegisteredEntry(s, n, control, bulk);
    RegisteredIsNews(s, n, control, bulk);
    KnownRegisters(t, n, control, bulk);
  }

  lemma KnownRegisters(s: MetaState, n: NodeId, control: Endpoint, bulk: Endpoint)
    requires s.cluster.Some? && n in s.nodes && n !in s.retired && EntryInv(n, s.nodes[n])
    requires s.nodes[n].controlAddr == control && s.nodes[n].bulkAddr == bulk && s.nodes[n].state != Down
    requires forall m :: m in s.nodes && m != n ==> !SharesEndpoint(s.nodes[m], control, bulk)
    ensures EvalRegisterNode(s, n, control, bulk) == Same(s)
  {
  }

  lemma SetStateAgain(s: MetaState, n: NodeId, state: NodeState, incarnation: nat)
    requires EvalSetNodeState(s, n, state, incarnation).result.MetaApplied?
    ensures var t := EvalSetNodeState(s, n, state, incarnation).state;
            EvalSetNodeState(t, n, state, incarnation) == Same(t)
  {
  }

  lemma RetireAgain(s: MetaState, n: NodeId, incarnation: nat)
    requires EvalRetireNode(s, n, incarnation).result.MetaApplied?
    ensures var t := EvalRetireNode(s, n, incarnation).state; EvalRetireNode(t, n, incarnation) == Same(t)
  {
    RetirementExactly(s, n, incarnation);
  }

  lemma SeedAgain(s: MetaState, g: GroupId, voters: seq<NodeId>, first: LogId, again: LogId)
    requires EvalSeedPlacement(s, g, voters, first).result.MetaApplied?
    ensures var t := EvalSeedPlacement(s, g, voters, first).state; EvalSeedPlacement(t, g, voters, again) == Same(t)
  {
    var t := EvalSeedPlacement(s, g, voters, first).state;
    SeedExactly(s, g, voters, first);
    SeedPlaced(s, g, voters, first);
    SeedFound(t, g, voters, again);
  }

  lemma SeedPlaced(s: MetaState, g: GroupId, voters: seq<NodeId>, logId: LogId)
    requires EvalSeedPlacement(s, g, voters, logId).result.MetaApplied?
    ensures var t := EvalSeedPlacement(s, g, voters, logId).state;
            && t == s.(placements := t.placements) && g in t.placements && t.placements[g].move.None?
            && VoterSet(t.placements[g].voters) == VoterSet(voters)
  {
    SortedSeqIsVoterSet(VoterSet(voters));
  }

  lemma SeedFound(s: MetaState, g: GroupId, voters: seq<NodeId>, logId: LogId)
    requires s.cluster.Some? && g.Data? && g.partition < s.cluster.value.p && g in s.placements
    requires Distinct(voters) && |voters| == s.cluster.value.r && VoterSet(voters) <= ActiveSet(s)
    requires s.placements[g].move.None? && VoterSet(s.placements[g].voters) == VoterSet(voters)
    ensures EvalSeedPlacement(s, g, voters, logId) == Same(s)
  {
    VoterSetSize(voters);
    AllActive(s, voters);
  }

  lemma MarkAgain(s: MetaState, g: GroupId, planId: nat)
    requires EvalMarkAborting(s, g, planId).result.MetaApplied?
    ensures var t := EvalMarkAborting(s, g, planId).state; EvalMarkAborting(t, g, planId) == Same(t)
  {
  }

  lemma CreateSearchAgain(s: MetaState, name: Bytes, def: SearchDefinition, revision: nat, first: LogId, again: LogId,
                          update: bool)
    requires EvalCreateSearch(s, name, def, revision, first, update).result.MetaApplied? && again.index != 0
    requires name in s.search ==> s.search[name].name == name
    ensures var t := EvalCreateSearch(s, name, def, revision, first, update).state;
            EvalCreateSearch(t, name, def, revision, again, update) == Same(t)
  {
  }

  lemma ReportAgain(s: MetaState, name: Bytes, obs: SearchReady)
    requires EvalReportReady(s, name, obs).result.MetaApplied?
    ensures var t := EvalReportReady(s, name, obs).state; EvalReportReady(t, name, obs) == Same(t)
  {
  }

  lemma ActivateAgain(s: MetaState, name: Bytes, generation: nat)
    requires EvalActivate(s, name, generation).result.MetaApplied?
    ensures var t := EvalActivate(s, name, generation).state; EvalActivate(t, name, generation) == Same(t)
  {
  }

  lemma DropAgain(s: MetaState, name: Bytes)
    requires EvalDropSearch(s, name).result.MetaApplied?
    ensures var t := EvalDropSearch(s, name).state; EvalDropSearch(t, name) == Same(t)
  {
  }

  lemma {:induction false} WithoutTwice(ids: seq<nat>, id: nat)
    ensures Without(Without(ids, id), id) == Without(ids, id)
  {
    if ids != [] {
      WithoutTwice(ids[1..], id);
      if ids[0] != id { assert Without(ids, id)[1..] == Without(ids[1..], id); }
    }
  }

  lemma FinalizeDropAgain(s: MetaState, name: Bytes, generation: nat)
    requires EvalFinalizeDrop(s, name, generation).result.MetaApplied?
    ensures var t := EvalFinalizeDrop(s, name, generation).state; EvalFinalizeDrop(t, name, generation) == Same(t)
  {
    WithoutTwice(s.search[name].retiring, generation);
  }

  lemma BeginAgain(s: MetaState, op: nat, gen: u64, participants: seq<NodeId>)
    requires EvalBegin(s, op, gen, participants).result.MetaApplied?
    ensures var t := EvalBegin(s, op, gen, participants).state; EvalBegin(t, op, gen, participants) == Same(t)
  {
  }

  lemma ReleaseAgain(env: Env, s: MetaState, op: nat, gen: u64, processes: seq<(NodeId, u64)>,
                     incarnations: seq<(NodeId, u64)>, digest: nat)
    requires EvalRelease(env, s, op, gen, processes, incarnations, digest).result.MetaApplied?
    ensures var t := EvalRelease(env, s, op, gen, processes, incarnations, digest).state;
            EvalRelease(env, t, op, gen, processes, incarnations, digest) == Same(t)
  {
  }

  lemma {:induction false} InsertHolds(ids: seq<NodeId>, n: NodeId)
    ensures n in InsertSorted(ids, n)
  {
    if ids != [] && n > ids[0] { InsertHolds(ids[1..], n); }
  }

  lemma AcknowledgeAgain(s: MetaState, op: nat, gen: u64, n: NodeId, incarnation: nat)
    requires EvalAcknowledge(s, op, gen, n, incarnation).result.MetaApplied?
    ensures var t := EvalAcknowledge(s, op, gen, n, incarnation).state;
            EvalAcknowledge(t, op, gen, n, incarnation) == Same(t)
  {
    InsertHolds(s.maintenance.value.acknowledged, n);
  }

  lemma StageAgain(s: MetaState, op: nat, gen: u64)
    ensures EvalQuiesce(s, op, gen).result.MetaApplied? ==>
              EvalQuiesce(EvalQuiesce(s, op, gen).state, op, gen) == Same(EvalQuiesce(s, op, gen).state)
    ensures EvalEnterVerification(s, op, gen).result.MetaApplied? ==>
              EvalEnterVerification(EvalEnterVerification(s, op, gen).state, op, gen)
              == Same(EvalEnterVerification(s, op, gen).state)
  {
  }

  lemma RecoveryAgain(env: Env, s: MetaState, cmd: MetaCommand, o: Outcome)
    requires cmd.AcknowledgeMaintenanceRecovery? && o == RecoveryOutcome(env, s, cmd) && o.result.MetaApplied?
    ensures RecoveryOutcome(env, o.state, cmd) == Same(o.state)
  {
    var r := s.maintenance.value;
    InsertHolds(r.recovered, cmd.node);
    UpsertLookup(r.recoveryProcesses, cmd.node, cmd.processIncarnation, cmd.node);
  }

  /** A plan stands in its own way, and a resolved one is gone. */
  lemma PlanAgain(s: MetaState, g: GroupId, target: seq<NodeId>, first: LogId, again: LogId)
    requires EvalCreatePlan(s, g, target, first).result.MetaApplied?
    ensures var t := EvalCreatePlan(s, g, target, first).state;
            EvalCreatePlan(t, g, target, again) == Reject(t, PlanExists)
  {
  }

  lemma ResolveAgain(s: MetaState, g: GroupId, planId: nat, obs: DataConfigObservation, isAbort: bool)
    requires EvalFinalizePlan(s, g, planId, obs, isAbort).result.MetaApplied?
    ensures var t := EvalFinalizePlan(s, g, planId, obs, isAbort).state;
            EvalFinalizePlan(t, g, planId, obs, isAbort) == Reject(t, NoPlan)
  {
  }

  // -- Every command ------------------------------------------------------------------------------

  /** The same command once more, at `again`: refused if it is about a plan, and otherwise a no-op. */
  ghost predicate Settled(env: Env, o: Outcome, cmd: MetaCommand, again: LogId) {
    Evaluate(env, o.state, cmd, again)
    == if cmd.CreatePlan? then Reject(o.state, PlanExists)
       else if cmd.FinalizePlan? || cmd.AbortReport? then Reject(o.state, NoPlan)
       else Same(o.state)
  }

  lemma TopologyAgain(env: Env, s: MetaState, cmd: MetaCommand, first: LogId, again: LogId, o: Outcome)
    requires !MaintenanceIsActive(s) && o == Evaluate(env, s, cmd, first) && o.result.MetaApplied?
    requires cmd.ClusterInit? || cmd.RegisterNode? || cmd.SetNodeState? || cmd.RetireNode? || cmd.SeedPlacement?
    ensures Settled(env, o, cmd, again)
  {
    if cmd.ClusterInit? {
      ReachesInit(env, s, cmd, first);
      ReachesInit(env, o.state, cmd, again);
      InitAgain(env, s, cmd.config, cmd.metaVoters, first, again);
    } else if cmd.RegisterNode? {
      ReachesRegister(env, s, cmd, first);
      ReachesRegister(env, o.state, cmd, again);
      RegisterAgain(s, cmd.node, cmd.controlAddr, cmd.bulkAddr);
    } else if cmd.SetNodeState? {
      ReachesSetState(env, s, cmd, first);
      ReachesSetState(env, o.state, cmd, again);
      SetStateAgain(s, cmd.node, cmd.state, cmd.incarnation);
    } else if cmd.RetireNode? {
      ReachesRetire(env, s, cmd, first);
      ReachesRetire(env, o.state, cmd, again);
      RetireAgain(s, cmd.node, cmd.incarnation);
    } else {
      ReachesSeed(env, s, cmd, first);
      ReachesSeed(env, o.state, cmd, again);
      SeedAgain(s, cmd.group, cmd.voters, first, again);
    }
  }

  lemma PlansAgain(env: Env, s: MetaState, cmd: MetaCommand, first: LogId, again: LogId, o: Outcome)
    requires !MaintenanceIsActive(s) && o == Evaluate(env, s, cmd, first) && o.result.MetaApplied?
    requires cmd.CreatePlan? || cmd.MarkAborting? || cmd.FinalizePlan? || cmd.AbortReport?
    ensures Settled(env, o, cmd, again)
  {
    if cmd.CreatePlan? {
      ReachesCreate(env, s, cmd, first);
      ReachesCreate(env, o.state, cmd, again);
      PlanAgain(s, cmd.group, cmd.targetVoters, first, again);
    } else if cmd.MarkAborting? {
      ReachesMark(env, s, cmd, first);
      ReachesMark(env, o.state, cmd, again);
      MarkAgain(s, cmd.group, cmd.planId);
    } else {
      ReachesResolve(env, s, cmd, first);
      ReachesResolve(env, o.state, cmd, again);
      ResolveAgain(s, cmd.group, cmd.planId, cmd.observation, cmd.AbortReport?);
    }
  }

  lemma BuildsAgain(env: Env, s: MetaState, cmd: MetaCommand, first: LogId, again: LogId, o: Outcome)
    requires SearchInv(s) && !MaintenanceIsActive(s) && o == Evaluate(env, s, cmd, first) && o.result.MetaApplied?
    requires (cmd.CreateSearchIndex? || cmd.CreateSearchGeneration? || cmd.ReportSearchReady?) && again.index != 0
    ensures Settled(env, o, cmd, again)
  {
    if !cmd.ReportSearchReady? && cmd.name in s.search { assert RecordOk(cmd.name, s.search[cmd.name]); }
    if cmd.CreateSearchIndex? {
      ReachesCreateIndex(env, s, cmd, first);
      ReachesCreateIndex(env, o.state, cmd, again);
      CreateSearchAgain(s, cmd.name, cmd.definition, cmd.engineRevision, first, again, false);
    } else if cmd.CreateSearchGeneration? {
      ReachesCreateGeneration(env, s, cmd, first);
      ReachesCreateGeneration(env, o.state, cmd, again);
      CreateSearchAgain(s, cmd.name, cmd.definition, cmd.engineRevision, first, again, true);
    } else {
      ReachesReport(env, s, cmd, first);
      ReachesReport(env, o.state, cmd, again);
      ReportAgain(s, cmd.name, cmd.ready);
    }
  }

  lemma DropsAgain(env: Env, s: MetaState, cmd: MetaCommand, first: LogId, again: LogId, o: Outcome)
    requires !MaintenanceIsActive(s) && o == Evaluate(env, s, cmd, first) && o.result.MetaApplied?
    requires cmd.ActivateSearchGeneration? || cmd.DropSearchIndex? || cmd.FinalizeSearchDrop?
    ensures Settled(env, o, cmd, again)
  {
    if cmd.ActivateSearchGeneration? {
      ReachesActivate(env, s, cmd, first);
      ReachesActivate(env, o.state, cmd, again);
      ActivateAgain(s, cmd.name, cmd.generation);
    } else if cmd.DropSearchIndex? {
      ReachesDrop(env, s, cmd, first);
      ReachesDrop(env, o.state, cmd, again);
      DropAgain(s, cmd.name);
    } else {
      ReachesFinalizeDrop(env, s, cmd, first);
      ReachesFinalizeDrop(env, o.state, cmd, again);
      FinalizeDropAgain(s, cmd.name, cmd.generation);
    }
  }

  lemma MaintenanceAgain(env: Env, s: MetaState, cmd: MetaCommand, first: LogId, again: LogId, o: Outcome)
    requires IsMaintenanceCommand(cmd) && o == Evaluate(env, s, cmd, first) && o.result.MetaApplied?
    ensures Settled(env, o, cmd, again)
  {
    if cmd.BeginMaintenance? {
      ReachesBegin(env, s, cmd, first);
      ReachesBegin(env, o.state, cmd, again);
      BeginAgain(s, cmd.operationId, cmd.operationGeneration, cmd.participants);
    } else if cmd.ReleaseMaintenance? {
      ReachesRelease(env, s, cmd, first);
      ReachesRelease(env, o.state, cmd, again);
      ReleaseAgain(env, s, cmd.operationId, cmd.operationGeneration, cmd.liveProcesses, cmd.liveIncarnations,
                   cmd.policyDigest);
    } else if cmd.AcknowledgeMaintenance? {
      ReachesAcknowledge(env, s, cmd, first);
      ReachesAcknowledge(env, o.state, cmd, again);
      AcknowledgeAgain(s, cmd.operationId, cmd.operationGeneration, cmd.node, cmd.incarnation);
    } else if cmd.AcknowledgeMaintenanceRecovery? {
      ReachesRecovery(env, s, cmd, first);
      ReachesRecovery(env, o.state, cmd, again);
      RecoveryAgain(env, s, cmd, o);
    } else {
      ReachesStage(env, s, cmd, first);
      ReachesStage(env, o.state, cmd, again);
      StageAgain(s, cmd.operationId, cmd.operationGeneration);
    }
  }

  lemma GateRefuses(env: Env, s: MetaState, cmd: MetaCommand, logId: LogId)
    requires !IsMaintenanceCommand(cmd) && Evaluate(env, s, cmd, logId).result.MetaApplied?
    ensures !MaintenanceIsActive(s)
  {
  }

  lemma RetriedOutside(env: Env, s: MetaState, cmd: MetaCommand, first: LogId, again: LogId, o: Outcome)
    requires SearchInv(s) && !MaintenanceIsActive(s) && !IsMaintenanceCommand(cmd) && again.index != 0
    requires o == Evaluate(env, s, cmd, first) && o.result.MetaApplied?
    ensures Settled(env, o, cmd, again)
  {
    if cmd.CreatePlan? || cmd.MarkAborting? || cmd.FinalizePlan? || cmd.AbortReport? {
      PlansAgain(env, s, cmd, first, again, o);
    } else if cmd.CreateSearchIndex? || cmd.CreateSearchGeneration? || cmd.ReportSearchReady? {
      BuildsAgain(env, s, cmd, first, again, o);
    } else if cmd.ActivateSearchGeneration? || cmd.DropSearchIndex? || cmd.FinalizeSearchDrop? {
      DropsAgain(env, s, cmd, first, again, o);
    } else {
      TopologyAgain(env, s, cmd, first, again, o);
    }
  }

  /** Whatever was committed before, a command that took effect and is committed again, right away and at whatever
      index, changes nothing: it is a no-op, except that a plan is refused because it stands and its resolution because
      it is gone. */
  lemma RetriesAreHarmless(env: Env, log: seq<Committed>, cmd: MetaCommand, first: LogId, again: LogId)
    requires Indexed64(log) && again.index != 0
    requires Evaluate(env, ApplyLog(env, EMPTY_META, log), cmd, first).result.MetaApplied?
    ensures Settled(env, Evaluate(env, ApplyLog(env, EMPTY_META, log), cmd, first), cmd, again)
  {
    var s := ApplyLog(env, EMPTY_META, log);
    var o := Evaluate(env, s, cmd, first);
    if IsMaintenanceCommand(cmd) {
      MaintenanceAgain(env, s, cmd, first, again, o);
    } else {
      GateRefuses(env, s, cmd, first);
      RunKeeps(env, EMPTY_META, log);
      RetriedOutside(env, s, cmd, first, again, o);
    }
  }
}
