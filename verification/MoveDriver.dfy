/** The move and abort drivers run without interruption (src/meta/rebalancer.rs): from every state a
    crash can leave behind, one pass resolves the plan. */
module MoveDriver {
  import opened Types
  import opened MetaStateMachine
  import opened MetaInvariants
  import opened Reconcile
  import opened MaintenanceLifecycle
  import opened PlanHistory
  import Drain
  import opened MoveProtocol

  /** How far a voter change gets before its leader hears back. */
  datatype Fate = Refused | LeftJoint | Completed

  function Changed(committed: set<NodeId>, target: set<NodeId>, fate: Fate): set<NodeId> {
    match fate
    case Refused => committed
    case LeftJoint => committed + target
    case Completed => target
  }

  /** The learners after admitting the target's newcomers and changing to it. */
  function Joined(learners: set<NodeId>, current: set<NodeId>, target: set<NodeId>, fate: Fate): set<NodeId> {
    if fate == Refused then learners + (target - current) else learners - target
  }

  /** The configuration entries a change commits. */
  function Entries(fate: Fate): nat {
    match fate
    case Refused => 0
    case LeftJoint => 1
    case Completed => 2
  }

  /** The data group as its leader sees it: committed voters (the union while joint) and learners. */
  class DataGroup {
    var committed: set<NodeId>
    var learners: set<NodeId>
    var configLogId: LogId

    constructor (voters: set<NodeId>, logId: LogId)
      ensures committed == voters && learners == {} && configLogId == logId
    {
      committed, learners, configLogId := voters, {}, logId;
    }

    method AddLearner(n: NodeId)
      modifies this
      ensures committed == old(committed) && learners == old(learners) + {n}
    {
      learners := learners + {n};
      configLogId := configLogId.(index := configLogId.index + 1);
    }

    method RemoveLearner(n: NodeId)
      modifies this
      ensures committed == old(committed) && learners == old(learners) - {n}
    {
      if n in learners {
        learners := learners - {n};
        configLogId := configLogId.(index := configLogId.index + 1);
      }
    }

    /** Joint consensus: first both configurations, then the target alone. A change that fails may already have
        committed its joint configuration. */
    method ChangeVoters(target: set<NodeId>, fate: Fate) returns (done: bool)
      modifies this
      ensures done <==> fate == Completed
      ensures committed == Changed(old(committed), target, fate)
      ensures learners == if fate == Refused then old(learners) else old(learners) - target
      ensures configLogId == old(configLogId).(index := old(configLogId).index + Entries(fate))
    {
      if fate == Refused {
        return false;
      }
      committed := committed + target;
      learners := learners - target;
      configLogId := configLogId.(index := configLogId.index + 1);
      if fate == LeftJoint {
        return false;
      }
      committed := target;
      configLogId := configLogId.(index := configLogId.index + 1);
      return true;
    }
  }

  /** The meta state with the group's plan resolved to `voters`, committed by the data log entry `logId`. */
  ghost predicate Resolved(s: MetaState, t: MetaState, g: GroupId, voters: set<NodeId>, logId: LogId) {
    && g in t.placements && t == s.(placements := s.placements[g := t.placements[g]])
    && t.placements[g].move.None? && Current(t.placements[g]) == voters && t.placements[g].votersLogId == logId
  }

  /** When a report about `cmd.group` resolves the recorded plan. */
  predicate Accepted(s: MetaState, cmd: MetaCommand)
    requires cmd.FinalizePlan? || cmd.AbortReport?
  {
    && !MaintenanceIsActive(s) && cmd.group in s.placements
    && HasPlan(s.placements[cmd.group], cmd.planId)
    && cmd.observation.group == cmd.group && cmd.observation.planId == cmd.planId
    && s.placements[cmd.group].move.value.aborting == cmd.AbortReport?
    && (|| VoterSet(cmd.observation.voterSet) == Target(s.placements[cmd.group])
        || (cmd.AbortReport? && VoterSet(cmd.observation.voterSet) == Current(s.placements[cmd.group])))
  }

  lemma AcceptedExactly(s: MetaState, cmd: MetaCommand)
    requires (cmd.FinalizePlan? || cmd.AbortReport?) && !MaintenanceIsActive(s)
    ensures EvalFinalizePlan(s, cmd.group, cmd.planId, cmd.observation, cmd.AbortReport?).result.MetaApplied? <==>
            Accepted(s, cmd)
  {
  }

  lemma ReportHandled(s: MetaState, cmd: MetaCommand)
    requires (cmd.FinalizePlan? || cmd.AbortReport?) && !MaintenanceIsActive(s)
    ensures var o := EvalFinalizePlan(s, cmd.group, cmd.planId, cmd.observation, cmd.AbortReport?);
            && (o.result.MetaApplied? <==> Accepted(s, cmd))
            && (Accepted(s, cmd) ==>
                  Resolved(s, o.state, cmd.group, VoterSet(cmd.observation.voterSet), cmd.observation.configLogId))
  {
    AcceptedExactly(s, cmd);
    if Accepted(s, cmd) { ResolveFacts(s, cmd); }
  }

  lemma ReportReaches(env: Env, s: MetaState, cmd: MetaCommand, logId: LogId)
    requires cmd.FinalizePlan? || cmd.AbortReport?
    ensures Evaluate(env, s, cmd, logId) ==
              if MaintenanceIsActive(s) then Reject(s, MaintenanceActive)
              else EvalFinalizePlan(s, cmd.group, cmd.planId, cmd.observation, cmd.AbortReport?)
  {
  }

  lemma ReportResolves(env: Env, s: MetaState, cmd: MetaCommand, logId: LogId)
    requires cmd.FinalizePlan? || cmd.AbortReport?
    ensures Evaluate(env, s, cmd, logId).result.MetaApplied? <==> Accepted(s, cmd)
    ensures Accepted(s, cmd) ==>
              Resolved(s, Evaluate(env, s, cmd, logId).state, cmd.group, VoterSet(cmd.observation.voterSet),
                       cmd.observation.configLogId)
  {
    ReportReaches(env, s, cmd, logId);
    if !MaintenanceIsActive(s) { ReportHandled(s, cmd); }
  }

  /** What the drivers are entitled to: a reachable record and a committed set that is one of its phases. */
  ghost predicate Ready(s: MetaState, bound: nat, g: GroupId, committed: set<NodeId>) {
    && MetaInv(s, bound) && Drain.Covered(s) && g.Data?
    && (g in s.placements ==> DataInv(s.placements[g], committed, None))
  }

  /** Succeeds exactly when the target is committed and the healthy plan named by `planId` is recorded. */
  method FinalizeMove(meta: MetaStore, data: DataGroup, g: GroupId, planId: nat, target: seq<NodeId>, logId: LogId)
    returns (ok: bool)
    modifies meta
    ensures var report := FinalizePlan(g, planId, DataConfigObservation(g, planId, target, data.configLogId));
            ok <==> data.committed == VoterSet(target) && Accepted(old(meta.state), report)
    ensures ok ==> Resolved(old(meta.state), meta.state, g, data.committed, data.configLogId)
    ensures !ok ==> meta.state == old(meta.state)
  {
    if data.committed != VoterSet(target) {
      return false;
    }
    var cmd := FinalizePlan(g, planId, DataConfigObservation(g, planId, target, data.configLogId));
    ReportResolves(meta.env, meta.state, cmd, logId);
    var result := meta.Apply(cmd, logId);
    ok := result.MetaApplied?;
  }

  /** The gate decides whether the data group changes at all; the plan id decides whether the record is resolved. */
  method ExecuteMove(meta: MetaStore, data: DataGroup, g: GroupId, planId: nat, logId: LogId, fate: Fate)
    returns (ok: bool)
    modifies meta, data
    ensures g !in old(meta.state.placements) || Gate(old(meta.state.placements[g]), old(data.committed)) != Accept ==>
              !ok && meta.state == old(meta.state) && data.committed == old(data.committed)
                  && data.learners == old(data.learners)
    ensures g in old(meta.state.placements) && Gate(old(meta.state.placements[g]), old(data.committed)) == Accept ==>
              && data.committed == Changed(old(data.committed), Target(old(meta.state.placements[g])), fate)
              && data.learners == Joined(old(data.learners), old(data.committed), Target(old(meta.state.placements[g])),
                                         fate)
              && (ok <==> && fate == Completed
                          && HasPlan(old(meta.state.placements[g]), planId) && !MaintenanceIsActive(old(meta.state)))
    ensures ok ==> Resolved(old(meta.state), meta.state, g, data.committed, data.configLogId)
    ensures !ok ==> meta.state == old(meta.state)
  {
    if g !in meta.state.placements || Gate(meta.state.placements[g], data.committed) != Accept {
      return false;
    }
    var placement := meta.state.placements[g];
    var target := placement.move.value.targetVoters;
    ghost var added := Target(placement) - Current(placement);
    assert |added| == 1;
    var learner :| learner in Target(placement) - Current(placement);
    SingletonIs(added, learner);
    data.AddLearner(learner);
    var done := data.ChangeVoters(VoterSet(target), fate);
    if !done {
      return false;
    }
    ok := FinalizeMove(meta, data, g, planId, target, logId);
  }

  lemma SingletonIs(s: set<NodeId>, x: NodeId)
    requires |s| == 1 && x in s
    ensures s == {x}
  {
    assert |s - {x}| == 0;
  }

  /** Never changes the committed voters; resolves an aborting plan to whichever end is committed and
      refuses while the change is joint. A rollback also removes the planned learner. */
  method ExecuteAbort(meta: MetaStore, data: DataGroup, g: GroupId, planId: nat, logId: LogId) returns (ok: bool)
    modifies meta, data
    ensures ok <==> && g in old(meta.state.placements) && !MaintenanceIsActive(old(meta.state))
                    && HasPlan(old(meta.state.placements[g]), planId)
                       && old(meta.state.placements[g]).move.value.aborting
                    && (|| data.committed == Current(old(meta.state.placements[g]))
                        || data.committed == Target(old(meta.state.placements[g])))
    ensures data.committed == old(data.committed)
    ensures ok ==> Resolved(old(meta.state), meta.state, g, data.committed, old(data.configLogId))
    ensures ok && data.committed == Current(old(meta.state.placements[g])) ==>
              data.learners == old(data.learners) - (Target(old(meta.state.placements[g])) - data.committed)
    ensures ok && data.committed != Current(old(meta.state.placements[g])) ==> data.configLogId == old(data.configLogId)
    ensures !ok ==> meta.state == old(meta.state)
  {
    if g !in meta.state.placements || meta.state.placements[g].move.None? {
      return false;
    }
    var placement := meta.state.placements[g];
    var plan := placement.move.value;
    if !plan.aborting {
      return false;
    }
    var configLogId := data.configLogId;
    var report: seq<NodeId>;
    if data.committed == Current(placement) {
      report := placement.voters;
      RemoveLearners(data, Target(placement) - Current(placement));
    } else if data.committed == Target(placement) {
      report := plan.targetVoters;
    } else {
      return false;
    }
    var cmd := AbortReport(g, planId, DataConfigObservation(g, planId, report, configLogId));
    ReportResolves(meta.env, meta.state, cmd, logId);
    var result := meta.Apply(cmd, logId);
    ok := result.MetaApplied?;
  }

  method RemoveLearners(data: DataGroup, removed: set<NodeId>)
    modifies data
    ensures data.committed == old(data.committed) && data.learners == old(data.learners) - removed
  {
    var pending := removed;
    while pending != {}
      invariant pending <= removed
      invariant data.committed == old(data.committed) && data.learners == old(data.learners) - (removed - pending)
      decreases |pending|
    {
      var learner :| learner in pending;
      data.RemoveLearner(learner);
      pending := pending - {learner};
    }
  }

  /** The pass rolls back: the plan is aborting and its change had not begun. */
  predicate RollsBack(p: Placement, committed: set<NodeId>) {
    p.move.Some? && p.move.value.aborting && committed == Current(p)
  }

  /** The pass has to change the data group's voters. */
  predicate NeedsChange(p: Placement, committed: set<NodeId>) {
    p.move.Some? && !RollsBack(p, committed) && committed != Target(p)
  }

  function Outcome(p: Placement, committed: set<NodeId>, fate: Fate): set<NodeId> {
    if NeedsChange(p, committed) then Changed(committed, Target(p), fate) else committed
  }

  lemma ResumeFacts(s: MetaState, bound: nat, g: GroupId, committed: set<NodeId>)
    requires Ready(s, bound, g, committed) && Planned(s, g)
    ensures !MaintenanceIsActive(s) && LegalPlan(s.placements[g])
    ensures var p := s.placements[g];
            && Current(p) != Target(p) && Current(p) + Target(p) != Target(p) && Current(p) + Target(p) != Current(p)
            && (match ReconcilePlan(p, committed)
                case ResumePlan => committed == Current(p)
                case Finalize => committed == Target(p)
                case CompleteJoint => committed == Current(p) + Target(p)
                case _ => false)
            && (committed == Current(p) && !p.move.value.aborting ==> Gate(p, committed) == Accept)
  {
    if MaintenanceIsActive(s) { MaintenanceMeansNoPlan(s, bound, g); }
    PhasesRecognised(s.placements[g], committed);
    PhasesDiffer(Current(s.placements[g]), Target(s.placements[g]));
  }

  /** From whatever durable point a crash left behind, one pass clears the plan with the meta voters equal to the
      data group's committed set: rolled back only if the plan was aborting and its change had not begun, completed
      otherwise. It fails exactly if the voter change it needs fails, and then another pass can follow. Without a
      plan it does nothing. */
  method ResumeMove(meta: MetaStore, data: DataGroup, g: GroupId, ghost bound: nat, logId: LogId, fate: Fate)
    returns (ok: bool)
    requires Ready(meta.state, bound, g, data.committed)
    modifies meta, data
    ensures old(Planned(meta.state, g)) ==>
              var p, was := old(meta.state.placements[g]), old(data.committed);
              && (ok <==> (NeedsChange(p, was) ==> fate == Completed))
              && data.committed == Outcome(p, was, fate)
              && (ok ==> Resolved(old(meta.state), meta.state, g, data.committed,
                                  if RollsBack(p, was) then old(data.configLogId) else data.configLogId))
              && (!ok ==> meta.state == old(meta.state) && Ready(meta.state, bound, g, data.committed))
    ensures !old(Planned(meta.state, g)) ==>
              ok && meta.state == old(meta.state) && data.committed == old(data.committed)
  {
    if g !in meta.state.placements || meta.state.placements[g].move.None? {
      return true;
    }
    var placement := meta.state.placements[g];
    var plan := placement.move.value;
    ResumeFacts(meta.state, bound, g, data.committed);
    match ReconcilePlan(placement, data.committed)
    case ResumePlan =>
      if plan.aborting {
        ok := ExecuteAbort(meta, data, g, plan.planId, logId);
      } else {
        ok := ExecuteMove(meta, data, g, plan.planId, logId, fate);
      }
    case CompleteJoint =>
      var done := data.ChangeVoters(VoterSet(plan.targetVoters), fate);
      if !done {
        return false;
      }
      ok := ResolveCompleted(meta, data, g, plan, logId);
    case Finalize =>
      ok := ResolveCompleted(meta, data, g, plan, logId);
    case _ =>
      assert false;
  }

  /** The change is committed: report it, as a late completion if the plan was aborting. */
  method ResolveCompleted(meta: MetaStore, data: DataGroup, g: GroupId, plan: MovePlan, logId: LogId) returns (ok: bool)
    requires !MaintenanceIsActive(meta.state) && Planned(meta.state, g) && PlanOf(meta.state, g) == plan
    requires LegalPlan(meta.state.placements[g]) && data.committed == Target(meta.state.placements[g])
    modifies meta, data
    ensures ok && data.committed == old(data.committed) && data.configLogId == old(data.configLogId)
    ensures Resolved(old(meta.state), meta.state, g, data.committed, data.configLogId)
  {
    PhasesDiffer(Current(meta.state.placements[g]), Target(meta.state.placements[g]));
    if plan.aborting {
      ok := ExecuteAbort(meta, data, g, plan.planId, logId);
    } else {
      ok := FinalizeMove(meta, data, g, plan.planId, plan.targetVoters, logId);
    }
  }

  lemma {:induction false} RunStaysCovered(env: Env, sys: System, g: GroupId, events: seq<Event>, end: System)
    requires MaintenanceInv(env, sys.meta) && Drain.Covered(sys.meta) && Runs(env, sys, g, events, end)
    ensures Drain.Covered(end.meta)
    decreases |events|
  {
    if events != [] {
      var e := events[0];
      if e.CommitMeta? {
        CommandStep(env, sys.meta, e.cmd, e.logId);
        Drain.StaysCovered(env, sys.meta, e.cmd, e.logId);
      }
      RunStaysCovered(env, Next(env, sys, g, e), g, events[1..], end);
    }
  }

  /** Every state a crash can leave is one `ResumeMove` accepts, once the change in flight has landed or is lost. */
  lemma CrashedMovesAreResumable(env: Env, start: System, g: GroupId, events: seq<Event>, sys: System)
    requires AtRest(start, g) && MaintenanceInv(env, start.meta) && Drain.Covered(start.meta)
    requires Runs(env, start, g, events, sys) && sys.change.None?
    ensures Ready(sys.meta, sys.bound, g, sys.committed)
  {
    RunKeeps(env, start, g, events, sys);
    RunStaysCovered(env, start, g, events, sys);
  }

  /** In particular for a cluster whose meta state is any committed log's and whose data group sits on the recorded
      voters: no further assumption is left. */
  lemma ReachableMovesAreResumable(env: Env, log: seq<Committed>, start: System, g: GroupId, events: seq<Event>,
                                   sys: System)
    requires LogOrdered(log) && start.meta == ApplyLog(env, EMPTY_META, log) && start.bound == Bound(log)
    requires g.Data? && g in start.meta.placements && start.meta.placements[g].move.None?
    requires start.committed == Current(start.meta.placements[g]) && start.change.None? && start.reports == {}
             && start.pc == Idle
    requires Runs(env, start, g, events, sys) && sys.change.None?
    ensures Ready(sys.meta, sys.bound, g, sys.committed)
  {
    ReachableInv(env, log);
    ReachableMaintenance(env, log);
    Drain.ReachableCovered(env, log);
    CrashedMovesAreResumable(env, start, g, events, sys);
  }
}
