/** Move plans read back from the committed log (src/meta/state_machine.rs): which command a recorded plan
    came from, and what its abort mark means. */
module PlanHistory {
  import opened Types
  import opened MetaStateMachine
  import opened MetaDecisions
  import opened MetaInvariants
  import Drain

  predicate Planned(s: MetaState, g: GroupId) {
    g in s.placements && s.placements[g].move.Some?
  }

  function PlanOf(s: MetaState, g: GroupId): MovePlan
    requires Planned(s, g)
  {
    s.placements[g].move.value
  }

  /** An active maintenance operation excludes plans, so no command about a plan meets the maintenance gate. */
  lemma MaintenanceMeansNoPlan(s: MetaState, bound: nat, g: GroupId)
    requires MetaInv(s, bound) && Drain.Covered(s) && g in s.placements && MaintenanceIsActive(s)
    ensures s.placements[g].move.None?
  {
    PlacedGroup(s, bound, g);
    assert SettledOn(s, g, VoterSet(s.maintenance.value.participants));
  }

  lemma PlacedGroup(s: MetaState, bound: nat, g: GroupId)
    requires MetaInv(s, bound) && g in s.placements
    ensures s.cluster.Some? && g in Groups(s.cluster.value.p)
  {
    assert GroupInv(s.cluster.value, s.nodes.Keys, s.retired.Keys, g, s.placements[g]);
    GroupListed(s.cluster.value.p, g);
  }

  // -- One command --------------------------------------------------------------------------------

  /** Where a plan on `g` that stands after `cmd` comes from: it is new, or it stood before and is marked now if
      it was marked before or `cmd` marks it. */
  ghost predicate Origin(s: MetaState, t: MetaState, cmd: MetaCommand, logId: LogId, g: GroupId) {
    Planned(t, g) ==>
      var plan := PlanOf(t, g);
      if Planned(s, g) then
        && plan.planId == PlanOf(s, g).planId && plan.targetVoters == PlanOf(s, g).targetVoters
        && plan.aborting == (PlanOf(s, g).aborting || cmd == MarkAborting(g, plan.planId))
      else
        && cmd.CreatePlan? && cmd.group == g && plan.planId == logId.index && !plan.aborting
        && VoterSet(plan.targetVoters) == VoterSet(cmd.targetVoters)
  }

  lemma CreateOrigin(s: MetaState, cmd: MetaCommand, logId: LogId, g: GroupId, o: Outcome, plan: MovePlan)
    requires cmd.CreatePlan? && PlanWritten(s, o, cmd.group, plan)
    requires plan.planId == logId.index && !plan.aborting && VoterSet(plan.targetVoters) == VoterSet(cmd.targetVoters)
    ensures Origin(s, o.state, cmd, logId, g)
  {
  }

  lemma MarkOrigin(s: MetaState, cmd: MetaCommand, logId: LogId, g: GroupId)
    requires cmd.MarkAborting?
    ensures Origin(s, EvalMarkAborting(s, cmd.group, cmd.planId).state, cmd, logId, g)
  {
  }

  lemma ResolveOrigin(s: MetaState, cmd: MetaCommand, logId: LogId, g: GroupId)
    requires cmd.FinalizePlan? || cmd.AbortReport?
    ensures Origin(s, EvalFinalizePlan(s, cmd.group, cmd.planId, cmd.observation, cmd.AbortReport?).state, cmd, logId,
                   g)
  {
  }

  lemma SeedOrigin(s: MetaState, cmd: MetaCommand, logId: LogId, g: GroupId)
    requires cmd.SeedPlacement?
    ensures Origin(s, EvalSeedPlacement(s, cmd.group, cmd.voters, logId).state, cmd, logId, g)
  {
  }

  lemma InitOrigin(env: Env, s: MetaState, cmd: MetaCommand, logId: LogId, g: GroupId)
    requires cmd.ClusterInit?
    ensures Origin(s, EvalClusterInit(env, s, cmd.config, cmd.metaVoters, logId).state, cmd, logId, g)
  {
  }

  lemma CreateCommandOrigin(env: Env, s: MetaState, cmd: MetaCommand, logId: LogId, g: GroupId)
    requires cmd.CreatePlan? && !MaintenanceIsActive(s)
    ensures Origin(s, Evaluate(env, s, cmd, logId).state, cmd, logId, g)
  {
    var o := Evaluate(env, s, cmd, logId);
    ReachesCreate(env, s, cmd, logId);
    PlanWrites(s, cmd.group, cmd.targetVoters, logId);
    CreateOrigin(s, cmd, logId, g, o, PlanRecord(cmd.targetVoters, logId));
  }

  lemma MarkCommandOrigin(env: Env, s: MetaState, cmd: MetaCommand, logId: LogId, g: GroupId)
    requires cmd.MarkAborting? && !MaintenanceIsActive(s)
    ensures Origin(s, Evaluate(env, s, cmd, logId).state, cmd, logId, g)
  {
    ReachesMark(env, s, cmd, logId);
    MarkOrigin(s, cmd, logId, g);
  }

  lemma ResolveCommandOrigin(env: Env, s: MetaState, cmd: MetaCommand, logId: LogId, g: GroupId)
    requires (cmd.FinalizePlan? || cmd.AbortReport?) && !MaintenanceIsActive(s)
    ensures Origin(s, Evaluate(env, s, cmd, logId).state, cmd, logId, g)
  {
    ReachesResolve(env, s, cmd, logId);
    ResolveOrigin(s, cmd, logId, g);
  }

  lemma SeedCommandOrigin(env: Env, s: MetaState, cmd: MetaCommand, logId: LogId, g: GroupId)
    requires (cmd.SeedPlacement? || cmd.ClusterInit?) && !MaintenanceIsActive(s)
    ensures Origin(s, Evaluate(env, s, cmd, logId).state, cmd, logId, g)
  {
    if cmd.SeedPlacement? {
      ReachesSeed(env, s, cmd, logId);
      SeedOrigin(s, cmd, logId, g);
    } else {
      ReachesInit(env, s, cmd, logId);
      InitOrigin(env, s, cmd, logId, g);
    }
  }

  lemma PlacementOrigin(env: Env, s: MetaState, cmd: MetaCommand, logId: LogId, g: GroupId)
    requires TouchesPlacements(cmd) && !MaintenanceIsActive(s)
    ensures Origin(s, Evaluate(env, s, cmd, logId).state, cmd, logId, g)
  {
    if cmd.CreatePlan? {
      CreateCommandOrigin(env, s, cmd, logId, g);
    } else if cmd.MarkAborting? {
      MarkCommandOrigin(env, s, cmd, logId, g);
    } else if cmd.FinalizePlan? || cmd.AbortReport? {
      ResolveCommandOrigin(env, s, cmd, logId, g);
    } else {
      SeedCommandOrigin(env, s, cmd, logId, g);
    }
  }

  lemma OriginStep(env: Env, s: MetaState, cmd: MetaCommand, logId: LogId, g: GroupId)
    requires Planned(s, g) ==> !MaintenanceIsActive(s)
    ensures Origin(s, Evaluate(env, s, cmd, logId).state, cmd, logId, g)
  {
    if !TouchesPlacements(cmd) {
      PlacementsFramed(env, s, cmd, logId);
    } else if MaintenanceIsActive(s) {
      GateHolds(env, s, cmd, logId);
    } else {
      PlacementOrigin(env, s, cmd, logId, g);
    }
  }

  // -- Every log ----------------------------------------------------------------------------------

  ghost predicate MarkedSince(log: seq<Committed>, i: nat, g: GroupId, planId: nat) {
    exists j :: i < j < |log| && log[j].cmd == MarkAborting(g, planId)
  }

  /** Entry `i` planned the move that is recorded, and the move is aborting exactly if a later entry said so. */
  ghost predicate PlannedBy(log: seq<Committed>, i: nat, g: GroupId, plan: MovePlan) {
    && i < |log| && log[i].logId.index == plan.planId
    && log[i].cmd.CreatePlan? && log[i].cmd.group == g
       && VoterSet(log[i].cmd.targetVoters) == VoterSet(plan.targetVoters)
    && (plan.aborting <==> MarkedSince(log, i, g, plan.planId))
  }

  lemma PlannedByStep(log: seq<Committed>, c: Committed, i: nat, g: GroupId, was: MovePlan, now: MovePlan)
    requires PlannedBy(log, i, g, was)
    requires now.planId == was.planId && now.targetVoters == was.targetVoters
    requires now.aborting == (was.aborting || c.cmd == MarkAborting(g, was.planId))
    ensures PlannedBy(log + [c], i, g, now)
  {
    var longer := log + [c];
    if now.aborting {
      if was.aborting {
        var j :| i < j < |log| && log[j].cmd == MarkAborting(g, was.planId);
        assert longer[j] == log[j];
      } else {
        assert longer[|log|] == c;
      }
    }
    if MarkedSince(longer, i, g, was.planId) {
      var j :| i < j < |longer| && longer[j].cmd == MarkAborting(g, was.planId);
      if j < |log| { assert log[j] == longer[j]; }
    }
  }

  /** Whatever was committed, a recorded plan carries the index of the entry that planned it and that entry's target,
      and it is aborting exactly if a mark quoting that index was committed since: a mark for an earlier or another
      group's plan never aborts it, and a mark for it is never lost. */
  lemma {:induction false} PlanIsItsHistory(env: Env, log: seq<Committed>, g: GroupId) returns (i: nat)
    requires LogOrdered(log)
    ensures var s := ApplyLog(env, EMPTY_META, log); Planned(s, g) ==> PlannedBy(log, i, g, PlanOf(s, g))
  {
    i := 0;
    if log != [] {
      var before, c := log[..|log| - 1], log[|log| - 1];
      var s := ApplyLog(env, EMPTY_META, before);
      i := PlanIsItsHistory(env, before, g);
      Ungated(env, before, g);
      OriginStep(env, s, c.cmd, c.logId, g);
      assert log == before + [c];
      ApplyLogSnoc(env, EMPTY_META, before, c);
      i := HistoryStep(before, c, s, ApplyLog(env, EMPTY_META, log), g, i);
    }
  }

  lemma Ungated(env: Env, log: seq<Committed>, g: GroupId)
    requires LogOrdered(log)
    ensures var s := ApplyLog(env, EMPTY_META, log); Planned(s, g) ==> !MaintenanceIsActive(s)
  {
    var s := ApplyLog(env, EMPTY_META, log);
    ReachableInv(env, log);
    Drain.ReachableCovered(env, log);
    if g in s.placements && MaintenanceIsActive(s) {
      MaintenanceMeansNoPlan(s, Bound(log), g);
    }
  }

  lemma HistoryStep(log: seq<Committed>, c: Committed, s: MetaState, t: MetaState, g: GroupId, i: nat) returns (i': nat)
    requires Planned(s, g) ==> PlannedBy(log, i, g, PlanOf(s, g))
    requires Origin(s, t, c.cmd, c.logId, g)
    ensures Planned(t, g) ==> PlannedBy(log + [c], i', g, PlanOf(t, g))
  {
    i' := i;
    if Planned(t, g) {
      if Planned(s, g) {
        PlannedByStep(log, c, i, g, PlanOf(s, g), PlanOf(t, g));
      } else {
        i' := |log|;
      }
    }
  }
}
