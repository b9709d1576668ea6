/** Moves never wedge (src/meta/rebalancer.rs, src/meta/reconcile.rs): from whatever the driver, the operator and the
    network have left behind, protocol steps exist that resolve the recorded plan. */
module MoveProgress {
  import opened Types
  import opened MetaStateMachine
  import opened MetaInvariants
  import opened Reconcile
  import opened MaintenanceLifecycle
  import opened MoveProtocol
  import opened MoveDriver
  import Drain
  import PlanHistory

  /** A recorded legal plan `q` that no maintenance operation holds up. */
  ghost predicate Standing(sys: System, g: GroupId, q: Placement) {
    && g.Data? && g in sys.meta.placements && sys.meta.placements[g] == q && LegalPlan(q)
    && !MaintenanceIsActive(sys.meta)
  }

  /** From `sys` to `end` the plan of `g` was resolved to `voters`, which the data group has committed; the meta state
      is otherwise as it was. */
  ghost predicate Concluded(sys: System, end: System, g: GroupId, voters: set<NodeId>) {
    && g in sys.meta.placements && g in end.meta.placements
    && end.meta == sys.meta.(placements := sys.meta.placements[g := end.meta.placements[g]])
    && end.meta.placements[g].move.None? && Current(end.meta.placements[g]) == voters == end.committed
  }

  /** A local step in front of a run. */
  lemma StepThen(env: Env, sys: System, g: GroupId, e: Event, next: System, rest: seq<Event>, end: System)
    requires g in sys.meta.placements && !e.CommitMeta? && Enabled(sys, g, e)
    requires next == LocalNext(sys, g, sys.meta.placements[g], e) && Runs(env, next, g, rest, end)
    ensures Runs(env, sys, g, [e] + rest, end)
  {
    assert ([e] + rest)[1..] == rest;
  }

  lemma CommitLast(env: Env, sys: System, g: GroupId, e: Event, next: System)
    requires g in sys.meta.placements && e.CommitMeta? && Enabled(sys, g, e)
    requires next == Next(env, sys, g, e) && g in next.meta.placements
    ensures Runs(env, sys, g, [e], next)
  {
    assert [e][1..] == [];
  }

  /** The report is proposed and committed. */
  lemma FromReady(env: Env, sys: System, g: GroupId, q: Placement) returns (events: seq<Event>, end: System)
    requires Standing(sys, g, q) && (sys.pc.FinalizeReady? || sys.pc.AbortReady?)
    requires Accepted(sys.meta, ReportOf(sys.pc, g))
    requires sys.committed == VoterSet(ReportOf(sys.pc, g).observation.voterSet)
    ensures Runs(env, sys, g, events, end) && Concluded(sys, end, g, sys.committed)
  {
    var report := ReportOf(sys.pc, g);
    var proposed := LocalNext(sys, g, q, Propose);
    var commit := CommitMeta(report, LogId(0, sys.bound));
    ReportResolves(env, proposed.meta, report, LogId(0, sys.bound));
    end := Next(env, proposed, g, commit);
    CommitLast(env, proposed, g, commit, end);
    StepThen(env, sys, g, Propose, proposed, [commit], end);
    events := [Propose] + [commit];
  }

  lemma FromFinalizeStart(env: Env, sys: System, g: GroupId, q: Placement) returns (events: seq<Event>, end: System)
    requires Standing(sys, g, q) && !q.move.value.aborting && sys.change.None? && sys.committed == Target(q)
    requires sys.pc == FinalizeStart(q.move.value.planId, q.move.value.targetVoters)
    ensures Runs(env, sys, g, events, end) && Concluded(sys, end, g, Target(q))
  {
    var confirm := Confirm(LogId(0, 0));
    var next := LocalNext(sys, g, q, confirm);
    var rest, last := FromReady(env, next, g, q);
    StepThen(env, sys, g, confirm, next, rest, last);
    events, end := [confirm] + rest, last;
  }

  lemma FromAbortStart(env: Env, sys: System, g: GroupId, q: Placement) returns (events: seq<Event>, end: System)
    requires Standing(sys, g, q) && q.move.value.aborting && sys.change.None?
    requires sys.committed == Current(q) || sys.committed == Target(q)
    requires sys.pc == AbortStart(q.move.value.planId)
    ensures Runs(env, sys, g, events, end) && Concluded(sys, end, g, sys.committed)
  {
    var read := LocalNext(sys, g, q, ReadRecord);
    var confirm := Confirm(LogId(0, 0));
    var next := LocalNext(read, g, q, confirm);
    var rest, last := FromReady(env, next, g, q);
    StepThen(env, read, g, confirm, next, rest, last);
    StepThen(env, sys, g, ReadRecord, read, [confirm] + rest, last);
    events, end := [ReadRecord] + ([confirm] + rest), last;
  }

  /** The joint configuration is committed and its change under way: it finishes, and is reported. */
  lemma FromChanging(env: Env, sys: System, g: GroupId, q: Placement) returns (events: seq<Event>, end: System)
    requires Standing(sys, g, q) && sys.committed == Current(q) + Target(q) && sys.change == Some(Target(q))
    requires sys.pc == Changing(q.move.value.planId, q, if q.move.value.aborting then ThenAbort else ThenFinalize)
    ensures Runs(env, sys, g, events, end) && Concluded(sys, end, g, Target(q))
  {
    PhasesDiffer(Current(q), Target(q));
    var done := LocalNext(sys, g, q, FinalCommits);
    var back := LocalNext(done, g, q, ChangeReturns);
    var rest, last;
    if q.move.value.aborting {
      rest, last := FromAbortStart(env, back, g, q);
    } else {
      rest, last := FromFinalizeStart(env, back, g, q);
    }
    StepThen(env, done, g, ChangeReturns, back, rest, last);
    StepThen(env, sys, g, FinalCommits, done, [ChangeReturns] + rest, last);
    events, end := [FinalCommits] + ([ChangeReturns] + rest), last;
  }

  lemma FromJoint(env: Env, sys: System, g: GroupId, q: Placement) returns (events: seq<Event>, end: System)
    requires Standing(sys, g, q) && sys.committed == Current(q) + Target(q) && sys.change.None?
    requires sys.pc == JointRead(q)
    ensures Runs(env, sys, g, events, end) && Concluded(sys, end, g, Target(q))
  {
    var next := LocalNext(sys, g, q, SubmitChange);
    var rest, last := FromChanging(env, next, g, q);
    StepThen(env, sys, g, SubmitChange, next, rest, last);
    events, end := [SubmitChange] + rest, last;
  }

  lemma FromGated(env: Env, sys: System, g: GroupId, q: Placement) returns (events: seq<Event>, end: System)
    requires Standing(sys, g, q) && !q.move.value.aborting && sys.committed == Current(q) && sys.change.None?
    requires sys.pc == Gated(q.move.value.planId, q)
    ensures Runs(env, sys, g, events, end) && Concluded(sys, end, g, Target(q))
  {
    var next := LocalNext(sys, g, q, SubmitChange);
    var joint := LocalNext(next, g, q, JointCommits);
    var rest, last := FromChanging(env, joint, g, q);
    StepThen(env, next, g, JointCommits, joint, rest, last);
    StepThen(env, sys, g, SubmitChange, next, [JointCommits] + rest, last);
    events, end := [SubmitChange] + ([JointCommits] + rest), last;
  }

  lemma FromMoveStart(env: Env, sys: System, g: GroupId, q: Placement) returns (events: seq<Event>, end: System)
    requires Standing(sys, g, q) && !q.move.value.aborting && sys.committed == Current(q) && sys.change.None?
    requires sys.pc == MoveStart(q.move.value.planId)
    ensures Runs(env, sys, g, events, end) && Concluded(sys, end, g, Target(q))
  {
    PhasesRecognised(q, sys.committed);
    var read := LocalNext(sys, g, q, ReadRecord);
    var confirm := Confirm(LogId(0, 0));
    var next := LocalNext(read, g, q, confirm);
    var rest, last := FromGated(env, next, g, q);
    StepThen(env, read, g, confirm, next, rest, last);
    StepThen(env, sys, g, ReadRecord, read, [confirm] + rest, last);
    events, end := [ReadRecord] + ([confirm] + rest), last;
  }

  /** Where a plan ends: rolled back if it is aborting and its change had not begun, at its target otherwise. */
  function EndOf(q: Placement, committed: set<NodeId>): set<NodeId>
    requires q.move.Some?
  {
    if RollsBack(q, committed) then Current(q) else Target(q)
  }

  /** Reconciliation picks the step that leads on. */
  lemma FromReconciled(env: Env, sys: System, g: GroupId, q: Placement) returns (events: seq<Event>, end: System)
    requires Standing(sys, g, q) && DataInv(q, sys.committed, None) && sys.change.None?
    requires sys.pc == AfterReconcile(q, sys.committed)
    ensures Runs(env, sys, g, events, end) && Concluded(sys, end, g, EndOf(q, sys.committed))
  {
    PhasesDiffer(Current(q), Target(q));
    PhasesRecognised(q, sys.committed);
    if sys.committed == Current(q) + Target(q) {
      events, end := FromJoint(env, sys, g, q);
    } else if q.move.value.aborting {
      events, end := FromAbortStart(env, sys, g, q);
    } else if sys.committed == Target(q) {
      events, end := FromFinalizeStart(env, sys, g, q);
    } else {
      events, end := FromMoveStart(env, sys, g, q);
    }
  }

  lemma FromIdle(env: Env, sys: System, g: GroupId, q: Placement) returns (events: seq<Event>, end: System)
    requires Standing(sys, g, q) && DataInv(q, sys.committed, None) && sys.change.None? && sys.pc == Idle
    ensures Runs(env, sys, g, events, end) && Concluded(sys, end, g, EndOf(q, sys.committed))
  {
    var read := LocalNext(sys, g, q, StartResume);
    var confirm := Confirm(LogId(0, 0));
    var next := LocalNext(read, g, q, confirm);
    var rest, last := FromReconciled(env, next, g, q);
    StepThen(env, read, g, confirm, next, rest, last);
    StepThen(env, sys, g, StartResume, read, [confirm] + rest, last);
    events, end := [StartResume] + ([confirm] + rest), last;
  }

  /** A crash, and a change left in flight that is lost. */
  lemma FromAnywhere(env: Env, sys: System, g: GroupId, q: Placement) returns (events: seq<Event>, end: System)
    requires Standing(sys, g, q) && DataInv(q, sys.committed, sys.change)
    ensures Runs(env, sys, g, events, end) && Concluded(sys, end, g, EndOf(q, sys.committed))
  {
    var idle := LocalNext(sys, g, q, Crash);
    var rest, last;
    if sys.change.None? {
      rest, last := FromIdle(env, idle, g, q);
    } else {
      var lost := LocalNext(idle, g, q, ChangeLost);
      var more, done := FromIdle(env, lost, g, q);
      StepThen(env, idle, g, ChangeLost, lost, more, done);
      rest, last := [ChangeLost] + more, done;
    }
    StepThen(env, sys, g, Crash, idle, rest, last);
    events, end := [Crash] + rest, last;
  }

  lemma {:induction false} RunsConcat(env: Env, sys: System, g: GroupId, a: seq<Event>, mid: System, b: seq<Event>,
                                      end: System)
    requires Runs(env, sys, g, a, mid) && Runs(env, mid, g, b, end)
    ensures Runs(env, sys, g, a + b, end)
    decreases |a|
  {
    if a == [] {
      assert a + b == b;
    } else {
      assert (a + b)[1..] == a[1..] + b;
      RunsConcat(env, Next(env, sys, g, a[0]), g, a[1..], mid, b, end);
    }
  }

  /** Whatever the driver, the operator and the network do, a recorded plan can still be resolved, by a crash and a
      fresh start of the driver if by nothing else: it is rolled back if it is aborting and its change had not begun,
      and otherwise completed, with the recorded voters equal to the committed ones and the rest of the meta state as
      it was. */
  lemma MovesNeverWedge(env: Env, log: seq<Committed>, start: System, g: GroupId, events: seq<Event>, sys: System)
    returns (more: seq<Event>, end: System)
    requires LogOrdered(log) && start.meta == ApplyLog(env, EMPTY_META, log) && start.bound == Bound(log)
    requires AtRest(start, g) && Runs(env, start, g, events, sys) && PlanHistory.Planned(sys.meta, g)
    ensures Runs(env, start, g, events + more, end)
    ensures Concluded(sys, end, g, EndOf(sys.meta.placements[g], sys.committed))
  {
    ReachableMaintenance(env, log);
    Drain.ReachableCovered(env, log);
    RunKeeps(env, start, g, events, sys);
    RunStaysCovered(env, start, g, events, sys);
    if MaintenanceIsActive(sys.meta) { PlanHistory.MaintenanceMeansNoPlan(sys.meta, sys.bound, g); }
    more, end := FromAnywhere(env, sys, g, sys.meta.placements[g]);
    RunsConcat(env, start, g, events, sys, more, end);
  }
}
