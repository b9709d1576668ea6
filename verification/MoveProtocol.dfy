/** Crash-safe moves of one data group (src/meta/rebalancer.rs, src/meta/reconcile.rs) over the real
    meta state machine: the driver may stop between any two steps, its data-group change may land or be
    lost, and its reports may commit arbitrarily late. */
module MoveProtocol {
  import opened Types
  import opened MetaStateMachine
  import opened MetaDecisions
  import opened MetaInvariants
  import opened Reconcile

  datatype After = ThenFinalize | ThenAbort

  /** Where the driver stands. `id` is the plan id it was called with, `p` the record it last read. */
  datatype Driver =
    | Idle
    | ResumeRead(p: Placement)
    | MoveStart(id: nat)
    | MoveRead(id: nat, p: Placement)
    | Gated(id: nat, p: Placement)
    | JointRead(p: Placement)
    | Changing(id: nat, p: Placement, after: After)
    | FinalizeStart(id: nat, target: seq<NodeId>)
    | FinalizeReady(id: nat, target: seq<NodeId>, configLogId: LogId)
    | AbortStart(id: nat)
    | AbortRead(id: nat, p: Placement)
    | AbortReady(id: nat, report: seq<NodeId>, configLogId: LogId)

  /** `committed` is the data group's committed voter set (the union while joint), `change` a submitted
      voter change that has neither finished nor been lost, `reports` every report ever proposed. */
  datatype System = System(
    meta: MetaState,
    bound: nat,
    committed: set<NodeId>,
    change: Option<set<NodeId>>,
    pc: Driver,
    reports: set<MetaCommand>)

  datatype Event =
    | CommitMeta(cmd: MetaCommand, logId: LogId)
    | StartResume
    | StartMove(id: nat)
    | StartAbort(id: nat)
    | ReadRecord
    | Confirm(configLogId: LogId)   // a quorum-confirmed read of the data group's configuration
    | SubmitChange
    | JointCommits
    | FinalCommits
    | ChangeLost
    | ChangeReturns
    | Propose
    | Crash

  predicate IsReport(cmd: MetaCommand, g: GroupId) {
    (cmd.FinalizePlan? || cmd.AbortReport?) && cmd.group == g
  }

  function Record(sys: System, g: GroupId): Placement
    requires g in sys.meta.placements
  {
    sys.meta.placements[g]
  }

  predicate Enabled(sys: System, g: GroupId, e: Event)
    requires g in sys.meta.placements
  {
    match e
    case CommitMeta(cmd, logId) => sys.bound <= logId.index && (IsReport(cmd, g) ==> cmd in sys.reports)
    case StartResume => sys.pc.Idle?
    case StartMove(id) => sys.pc.Idle? && id < sys.bound
    case StartAbort(id) => sys.pc.Idle? && id < sys.bound
    case ReadRecord => sys.pc.MoveStart? || sys.pc.AbortStart?
    // An earlier change has landed or is lost by the time a confirmed read returns.
    case Confirm(_) =>
      && sys.change.None?
      && (|| sys.pc.ResumeRead? || sys.pc.MoveRead? || sys.pc.AbortRead?
          || (sys.pc.FinalizeStart? && sys.committed == VoterSet(sys.pc.target)))
    case SubmitChange => sys.pc.Gated? || sys.pc.JointRead?
    case JointCommits => sys.change.Some? && sys.committed == Current(Record(sys, g))
    case FinalCommits => sys.change.Some? && sys.committed != Current(Record(sys, g))
    case ChangeLost => sys.change.Some?
    case ChangeReturns => sys.pc.Changing? && sys.change.None?
    case Propose => sys.pc.FinalizeReady? || sys.pc.AbortReady?
    case Crash => true
  }

  function AfterReconcile(p: Placement, committed: set<NodeId>): Driver {
    match ReconcilePlan(p, committed)
    case NothingToDo => Idle
    case ResumePlan => if p.move.value.aborting then AbortStart(p.move.value.planId) else MoveStart(p.move.value.planId)
    case CompleteJoint => JointRead(p)
    case Finalize =>
      if p.move.value.aborting then AbortStart(p.move.value.planId)
      else FinalizeStart(p.move.value.planId, p.move.value.targetVoters)
    case Error => Idle
  }

  function AfterAbortRead(id: nat, p: Placement, committed: set<NodeId>, configLogId: LogId): Driver
    requires p.move.Some?
  {
    if committed == Current(p) then AbortReady(id, p.voters, configLogId)
    else if committed == Target(p) then AbortReady(id, p.move.value.targetVoters, configLogId)
    else Idle
  }

  /** The driver after a confirmed read. */
  function Confirmed(pc: Driver, committed: set<NodeId>, configLogId: LogId): Driver {
    match pc
    case ResumeRead(p) => AfterReconcile(p, committed)
    case MoveRead(id, p) => if Gate(p, committed) == Accept then Gated(id, p) else Idle
    case AbortRead(id, p) => if p.move.None? then Idle else AfterAbortRead(id, p, committed, configLogId)
    case FinalizeStart(id, target) => FinalizeReady(id, target, configLogId)
    case _ => pc
  }

  function AfterRecord(pc: Driver, q: Placement): Driver {
    match pc
    case MoveStart(id) => if q.move.None? then Idle else MoveRead(id, q)
    case AbortStart(id) => if q.move.None? || !q.move.value.aborting then Idle else AbortRead(id, q)
    case _ => pc
  }

  function Submitted(pc: Driver): Driver {
    match pc
    case Gated(id, p) => Changing(id, p, ThenFinalize)
    case JointRead(p) =>
      if p.move.None? then Idle
      else Changing(p.move.value.planId, p, if p.move.value.aborting then ThenAbort else ThenFinalize)
    case _ => pc
  }

  function AfterChange(pc: Driver): Driver
    requires pc.Changing? && pc.p.move.Some?
  {
    if pc.after == ThenAbort then AbortStart(pc.id) else FinalizeStart(pc.id, pc.p.move.value.targetVoters)
  }

  function ReportOf(pc: Driver, g: GroupId): MetaCommand
    requires pc.FinalizeReady? || pc.AbortReady?
  {
    match pc
    case FinalizeReady(id, target, logId) => FinalizePlan(g, id, DataConfigObservation(g, id, target, logId))
    case AbortReady(id, report, logId) => AbortReport(g, id, DataConfigObservation(g, id, report, logId))
  }

  /** Every step but a meta commit; `q` is the recorded placement. */
  function LocalNext(sys: System, g: GroupId, q: Placement, e: Event): System
    requires e.SubmitChange? ==> sys.pc.Gated? || sys.pc.JointRead?
    requires e.JointCommits? || e.FinalCommits? ==> sys.change.Some?
    requires e.ChangeReturns? ==> sys.pc.Changing?
    requires e.Propose? ==> sys.pc.FinalizeReady? || sys.pc.AbortReady?
  {
    match e
    case CommitMeta(_, _) => sys
    case StartResume => if q.move.None? then sys else sys.(pc := ResumeRead(q))
    case StartMove(id) => sys.(pc := MoveStart(id))
    case StartAbort(id) => sys.(pc := AbortStart(id))
    case ReadRecord => sys.(pc := AfterRecord(sys.pc, q))
    case Confirm(configLogId) => sys.(pc := Confirmed(sys.pc, sys.committed, configLogId))
    case SubmitChange =>
      if sys.pc.p.move.None? then sys
      else sys.(pc := Submitted(sys.pc), change := Some(Target(sys.pc.p)))
    case JointCommits => sys.(committed := sys.committed + sys.change.value)
    case FinalCommits => sys.(committed := sys.change.value, change := None)
    case ChangeLost => sys.(change := None, pc := if sys.pc.Changing? then Idle else sys.pc)
    case ChangeReturns => if sys.pc.p.move.None? then sys else sys.(pc := AfterChange(sys.pc))
    case Propose => sys.(reports := sys.reports + {ReportOf(sys.pc, g)}, pc := Idle)
    case Crash => sys.(pc := Idle)
  }

  function CommitNext(sys: System, meta: MetaState, logId: LogId): System {
    sys.(meta := meta, bound := logId.index + 1)
  }

  function Next(env: Env, sys: System, g: GroupId, e: Event): System
    requires g in sys.meta.placements && Enabled(sys, g, e)
  {
    if e.CommitMeta? then CommitNext(sys, Evaluate(env, sys.meta, e.cmd, e.logId).state, e.logId)
    else LocalNext(sys, g, sys.meta.placements[g], e)
  }

  // -- Invariant --------------------------------------------------------------------------------------

  ghost predicate LegalPlan(p: Placement) {
    p.move.Some? && OneForOne(Current(p), Target(p))
  }

  /** The committed voter set is a phase of the recorded plan, and exactly the recorded voters without one. */
  ghost predicate DataInv(q: Placement, committed: set<NodeId>, change: Option<set<NodeId>>) {
    if q.move.None? then committed == Current(q) && change.None?
    else
      && LegalPlan(q)
      && (committed == Current(q) || committed == Target(q) || committed == Current(q) + Target(q))
      && (change.Some? ==> change.value == Target(q) && committed != Target(q))
  }

  predicate HasPlan(q: Placement, id: nat) {
    q.move.Some? && q.move.value.planId == id
  }

  /** A report that still names the recorded plan tells the truth about the committed set. */
  ghost predicate ReportInv(cmd: MetaCommand, q: Placement, committed: set<NodeId>, change: Option<set<NodeId>>) {
    (cmd.FinalizePlan? || cmd.AbortReport?) && HasPlan(q, cmd.planId) ==>
      && change.None?
      && committed == VoterSet(cmd.observation.voterSet)
      && (if cmd.FinalizePlan? then committed == Target(q)
          else q.move.value.aborting && (committed == Current(q) || committed == Target(q)))
  }

  ghost predicate ReportsInv(sys: System, g: GroupId, q: Placement) {
    forall cmd :: cmd in sys.reports ==>
      IsReport(cmd, g) && cmd.planId < sys.bound && ReportInv(cmd, q, sys.committed, sys.change)
  }

  /** The driver's copy of a record agrees with the recorded plan while that plan is the recorded one. */
  ghost predicate Matches(p: Placement, q: Placement, bound: nat) {
    && LegalPlan(p) && p.move.value.planId < bound
    && (HasPlan(q, p.move.value.planId) ==>
          && Current(q) == Current(p) && Target(q) == Target(p)
          && (p.move.value.aborting ==> q.move.value.aborting))
  }

  ghost predicate NoAbortReports(p: Placement, reports: set<MetaCommand>)
    requires p.move.Some?
  {
    !p.move.value.aborting ==>
      forall cmd :: cmd in reports && cmd.AbortReport? ==> cmd.planId != p.move.value.planId
  }

  ghost predicate Same(p: Placement, q: Placement)
    requires p.move.Some?
  {
    HasPlan(q, p.move.value.planId)
  }

  ghost predicate PcInv(pc: Driver, q: Placement, bound: nat, committed: set<NodeId>, change: Option<set<NodeId>>,
                        reports: set<MetaCommand>) {
    match pc
    case Idle => true
    case ResumeRead(p) =>
      Matches(p, q, bound) && (Same(p, q) || (change.None? && (committed == Current(p) || committed == Target(p))))
    case MoveStart(id) => id < bound
    case MoveRead(id, p) =>
      && id < bound && Matches(p, q, bound) && NoAbortReports(p, reports)
      && (HasPlan(q, id) ==> p.move.value.planId == id)
      && (Same(p, q) || p.move.value.aborting || (change.None? && committed == Target(p)))
    case Gated(id, p) =>
      && id < bound && Matches(p, q, bound) && NoAbortReports(p, reports) && !p.move.value.aborting
      && (HasPlan(q, id) ==> p.move.value.planId == id)
      && Same(p, q) && change.None? && committed == Current(p)
    case JointRead(p) =>
      Matches(p, q, bound) && Same(p, q) && change.None? && committed == Current(p) + Target(p)
    case Changing(id, p, _) =>
      && id < bound && Matches(p, q, bound)
      && (HasPlan(q, id) ==> p.move.value.planId == id)
      && (if change.Some? then Same(p, q) else committed == Target(p))
    case FinalizeStart(id, target) => id < bound && (HasPlan(q, id) ==> VoterSet(target) == Target(q))
    case FinalizeReady(id, target, _) =>
      && id < bound
      && (HasPlan(q, id) ==> change.None? && committed == VoterSet(target) == Target(q))
    case AbortStart(id) => id < bound
    case AbortRead(id, p) =>
      id < bound && Matches(p, q, bound) && p.move.value.aborting && (HasPlan(q, id) ==> p.move.value.planId == id)
    case AbortReady(id, report, _) =>
      && id < bound
      && (HasPlan(q, id) ==>
            && change.None? && committed == VoterSet(report) && q.move.value.aborting
            && (committed == Current(q) || committed == Target(q)))
  }

  ghost predicate Protocol(sys: System, g: GroupId, q: Placement) {
    && DataInv(q, sys.committed, sys.change)
    && (q.move.Some? ==> q.move.value.planId < sys.bound)
    && ReportsInv(sys, g, q)
    && PcInv(sys.pc, q, sys.bound, sys.committed, sys.change, sys.reports)
  }

  ghost predicate Inv(sys: System, g: GroupId) {
    && g.Data? && g in sys.meta.placements
    && MetaInv(sys.meta, sys.bound)
    && Protocol(sys, g, sys.meta.placements[g])
  }

  // -- Local steps ----------------------------------------------------------------------------------------

  lemma RecordReads(sys: System, g: GroupId, q: Placement, e: Event)
    requires Protocol(sys, g, q)
    requires e.StartResume? || e.ReadRecord? || e.Crash? || ((e.StartMove? || e.StartAbort?) && e.id < sys.bound)
    ensures Protocol(LocalNext(sys, g, q, e), g, q)
  {
  }

  /** Only the driver's position changes. */
  lemma PcMoves(sys: System, g: GroupId, q: Placement, pc: Driver)
    requires Protocol(sys, g, q) && PcInv(pc, q, sys.bound, sys.committed, sys.change, sys.reports)
    ensures Protocol(sys.(pc := pc), g, q)
  {
  }

  lemma ResumeConfirmed(sys: System, g: GroupId, q: Placement)
    requires Protocol(sys, g, q) && sys.change.None? && sys.pc.ResumeRead?
    ensures PcInv(AfterReconcile(sys.pc.p, sys.committed), q, sys.bound, sys.committed, sys.change, sys.reports)
  {
    PhasesRecognised(sys.pc.p, sys.committed);
  }

  lemma MoveConfirmed(sys: System, g: GroupId, q: Placement)
    requires Protocol(sys, g, q) && sys.change.None? && sys.pc.MoveRead? && Gate(sys.pc.p, sys.committed) == Accept
    ensures PcInv(Gated(sys.pc.id, sys.pc.p), q, sys.bound, sys.committed, sys.change, sys.reports)
  {
    PhasesRecognised(sys.pc.p, sys.committed);
    PhasesDiffer(Current(sys.pc.p), Target(sys.pc.p));
  }

  lemma AbortConfirmed(sys: System, g: GroupId, q: Placement, configLogId: LogId)
    requires Protocol(sys, g, q) && sys.change.None? && sys.pc.AbortRead? && sys.pc.p.move.Some?
    ensures PcInv(AfterAbortRead(sys.pc.id, sys.pc.p, sys.committed, configLogId), q, sys.bound, sys.committed,
                  sys.change, sys.reports)
  {
  }

  lemma ConfirmedReads(sys: System, g: GroupId, q: Placement, e: Event)
    requires Protocol(sys, g, q) && e.Confirm? && sys.change.None?
    requires sys.pc.ResumeRead? || sys.pc.MoveRead? || sys.pc.AbortRead?
             || (sys.pc.FinalizeStart? && sys.committed == VoterSet(sys.pc.target))
    ensures Protocol(LocalNext(sys, g, q, e), g, q)
  {
    match sys.pc
    case ResumeRead(p) => ResumeConfirmed(sys, g, q);
    case MoveRead(id, p) => if Gate(p, sys.committed) == Accept { MoveConfirmed(sys, g, q); }
    case AbortRead(id, p) => if p.move.Some? { AbortConfirmed(sys, g, q, e.configLogId); }
    case FinalizeStart(id, target) =>
    PcMoves(sys, g, q, Confirmed(sys.pc, sys.committed, e.configLogId));
  }

  lemma SubmitStep(sys: System, g: GroupId, q: Placement)
    requires Protocol(sys, g, q) && (sys.pc.Gated? || sys.pc.JointRead?)
    ensures Protocol(LocalNext(sys, g, q, SubmitChange), g, q)
  {
    PhasesDiffer(Current(q), Target(q));
  }

  lemma ChangeStep(sys: System, g: GroupId, q: Placement, e: Event)
    requires Protocol(sys, g, q) && sys.change.Some?
    requires e.ChangeLost? || (e.JointCommits? && sys.committed == Current(q))
             || (e.FinalCommits? && sys.committed != Current(q))
    ensures Protocol(LocalNext(sys, g, q, e), g, q)
  {
    PhasesDiffer(Current(q), Target(q));
  }

  lemma ReturnStep(sys: System, g: GroupId, q: Placement)
    requires Protocol(sys, g, q) && sys.pc.Changing? && sys.change.None?
    ensures Protocol(LocalNext(sys, g, q, ChangeReturns), g, q)
  {
  }

  lemma ProposeStep(sys: System, g: GroupId, q: Placement)
    requires Protocol(sys, g, q) && (sys.pc.FinalizeReady? || sys.pc.AbortReady?)
    ensures Protocol(LocalNext(sys, g, q, Propose), g, q)
  {
    assert ReportInv(ReportOf(sys.pc, g), q, sys.committed, sys.change);
  }

  // -- Meta commits -------------------------------------------------------------------------------------------

  /** What one committed command can do to a data group's placement. */
  ghost predicate Effect(p: Placement, q: Placement, cmd: MetaCommand, logId: LogId, g: GroupId) {
    || q == p
    || (p.move.None? && q.move.Some? && q.voters == p.voters && q.move.value.planId == logId.index)
    || (p.move.Some? && q == p.(move := Some(p.move.value.(aborting := true))))
    || (&& p.move.Some? && q.move.None? && IsReport(cmd, g) && cmd.planId == p.move.value.planId
        && Current(q) == VoterSet(cmd.observation.voterSet))
  }

  lemma ResolveFacts(s: MetaState, cmd: MetaCommand)
    requires cmd.FinalizePlan? || cmd.AbortReport?
    requires EvalFinalizePlan(s, cmd.group, cmd.planId, cmd.observation, cmd.AbortReport?).result.MetaApplied?
    ensures cmd.group in s.placements && HasPlan(s.placements[cmd.group], cmd.planId)
    ensures var t := EvalFinalizePlan(s, cmd.group, cmd.planId, cmd.observation, cmd.AbortReport?).state;
            && cmd.group in t.placements && t.placements == s.placements[cmd.group := t.placements[cmd.group]]
            && t.placements[cmd.group].move.None?
            && Current(t.placements[cmd.group]) == VoterSet(cmd.observation.voterSet)
            && t.placements[cmd.group].votersLogId == cmd.observation.configLogId
  {
    var p := s.placements[cmd.group];
    var voters := ResolvedVoters(p, p.move.value, VoterSet(cmd.observation.voterSet), cmd.AbortReport?).value;
    SortedSeqIsVoterSet(VoterSet(voters));
  }

  lemma ResolveEffect(s: MetaState, g: GroupId, cmd: MetaCommand, logId: LogId)
    requires g in s.placements && (cmd.FinalizePlan? || cmd.AbortReport?)
    ensures var t := EvalFinalizePlan(s, cmd.group, cmd.planId, cmd.observation, cmd.AbortReport?).state;
            g in t.placements && Effect(s.placements[g], t.placements[g], cmd, logId, g)
  {
    if EvalFinalizePlan(s, cmd.group, cmd.planId, cmd.observation, cmd.AbortReport?).result.MetaApplied? {
      ResolveFacts(s, cmd);
    }
  }

  lemma CreateEffect(s: MetaState, g: GroupId, cmd: MetaCommand, logId: LogId)
    requires g in s.placements && cmd.CreatePlan?
    ensures var t := EvalCreatePlan(s, cmd.group, cmd.targetVoters, logId).state;
            g in t.placements && Effect(s.placements[g], t.placements[g], cmd, logId, g)
  {
    PlanExactly(s, cmd.group, cmd.targetVoters, logId);
  }

  lemma MarkEffect(s: MetaState, g: GroupId, cmd: MetaCommand, logId: LogId)
    requires g in s.placements && cmd.MarkAborting?
    ensures var t := EvalMarkAborting(s, cmd.group, cmd.planId).state;
            g in t.placements && Effect(s.placements[g], t.placements[g], cmd, logId, g)
  {
  }

  lemma SeedEffect(env: Env, s: MetaState, g: GroupId, cmd: MetaCommand, logId: LogId)
    requires g in s.placements && s.cluster.Some? && (cmd.SeedPlacement? || cmd.ClusterInit?)
    ensures var t := if cmd.SeedPlacement? then EvalSeedPlacement(s, cmd.group, cmd.voters, logId).state
                     else EvalClusterInit(env, s, cmd.config, cmd.metaVoters, logId).state;
            g in t.placements && t.placements[g] == s.placements[g]
  {
    if cmd.SeedPlacement? { SeedExactly(s, cmd.group, cmd.voters, logId); }
  }

  lemma CreateCommand(env: Env, s: MetaState, cmd: MetaCommand, logId: LogId, g: GroupId)
    requires g in s.placements && !MaintenanceIsActive(s) && cmd.CreatePlan?
    ensures var t := Evaluate(env, s, cmd, logId).state;
            g in t.placements && Effect(s.placements[g], t.placements[g], cmd, logId, g)
  {
    ReachesCreate(env, s, cmd, logId);
    CreateEffect(s, g, cmd, logId);
  }

  lemma MarkCommand(env: Env, s: MetaState, cmd: MetaCommand, logId: LogId, g: GroupId)
    requires g in s.placements && !MaintenanceIsActive(s) && cmd.MarkAborting?
    ensures var t := Evaluate(env, s, cmd, logId).state;
            g in t.placements && Effect(s.placements[g], t.placements[g], cmd, logId, g)
  {
    ReachesMark(env, s, cmd, logId);
    MarkEffect(s, g, cmd, logId);
  }

  lemma SeedCommand(env: Env, s: MetaState, cmd: MetaCommand, logId: LogId, g: GroupId)
    requires g in s.placements && s.cluster.Some? && !MaintenanceIsActive(s) && (cmd.ClusterInit? || cmd.SeedPlacement?)
    ensures var t := Evaluate(env, s, cmd, logId).state;
            g in t.placements && Effect(s.placements[g], t.placements[g], cmd, logId, g)
  {
    if cmd.ClusterInit? {
      ReachesInit(env, s, cmd, logId);
    } else {
      ReachesSeed(env, s, cmd, logId);
    }
    SeedEffect(env, s, g, cmd, logId);
  }

  lemma ResolveCommand(env: Env, s: MetaState, cmd: MetaCommand, logId: LogId, g: GroupId)
    requires g in s.placements && !MaintenanceIsActive(s) && (cmd.FinalizePlan? || cmd.AbortReport?)
    ensures var t := Evaluate(env, s, cmd, logId).state;
            g in t.placements && Effect(s.placements[g], t.placements[g], cmd, logId, g)
  {
    ReachesResolve(env, s, cmd, logId);
    ResolveEffect(s, g, cmd, logId);
  }

  lemma PlacementEffect(env: Env, s: MetaState, cmd: MetaCommand, logId: LogId, g: GroupId)
    requires g.Data? && g in s.placements && s.cluster.Some?
    ensures var t := Evaluate(env, s, cmd, logId).state;
            g in t.placements && Effect(s.placements[g], t.placements[g], cmd, logId, g)
  {
    var t := Evaluate(env, s, cmd, logId).state;
    if MaintenanceIsActive(s) && !IsMaintenanceCommand(cmd) {
      assert t == s;
    } else if !TouchesPlacements(cmd) {
      PlacementsFramed(env, s, cmd, logId);
    } else if cmd.FinalizePlan? || cmd.AbortReport? {
      ResolveCommand(env, s, cmd, logId, g);
    } else if cmd.CreatePlan? {
      CreateCommand(env, s, cmd, logId, g);
    } else if cmd.MarkAborting? {
      MarkCommand(env, s, cmd, logId, g);
    } else {
      SeedCommand(env, s, cmd, logId, g);
    }
  }

  lemma CommitKeepsData(sys: System, g: GroupId, q: Placement, q': Placement, cmd: MetaCommand, logId: LogId)
    requires Protocol(sys, g, q) && Effect(q, q', cmd, logId, g) && (IsReport(cmd, g) ==> cmd in sys.reports)
    requires q'.move.Some? ==> LegalPlan(q')
    ensures DataInv(q', sys.committed, sys.change)
  {
    if q.move.Some? { PhasesDiffer(Current(q), Target(q)); }
  }

  /** A report stays truthful: about the same plan, or about one that is gone. */
  lemma CommitKeepsReport(sys: System, g: GroupId, q: Placement, q': Placement, cmd: MetaCommand, logId: LogId,
                          report: MetaCommand)
    requires Protocol(sys, g, q) && sys.bound <= logId.index && Effect(q, q', cmd, logId, g) && report in sys.reports
    ensures IsReport(report, g) && report.planId < logId.index + 1 && ReportInv(report, q', sys.committed, sys.change)
  {
  }

  /** The driver's position survives a record that keeps its plan, marked or not. */
  lemma PcKeeps(pc: Driver, q: Placement, q': Placement, bound: nat, later: nat, committed: set<NodeId>,
                change: Option<set<NodeId>>, reports: set<MetaCommand>)
    requires PcInv(pc, q, bound, committed, change, reports) && bound <= later
    requires q' == q || (q.move.Some? && q' == q.(move := Some(q.move.value.(aborting := true))))
    ensures PcInv(pc, q', later, committed, change, reports)
  {
  }

  lemma CommitKeepsPc(sys: System, g: GroupId, q: Placement, q': Placement, cmd: MetaCommand, logId: LogId)
    requires Protocol(sys, g, q) && sys.bound <= logId.index && Effect(q, q', cmd, logId, g)
    requires IsReport(cmd, g) ==> cmd in sys.reports
    ensures PcInv(sys.pc, q', logId.index + 1, sys.committed, sys.change, sys.reports)
  {
    if q' == q || (q.move.Some? && q'.move.Some?) {
      PcKeeps(sys.pc, q, q', sys.bound, logId.index + 1, sys.committed, sys.change, sys.reports);
    } else if q.move.Some? {
      PhasesDiffer(Current(q), Target(q));
    }
  }

  lemma CommitKeepsProtocol(sys: System, next: System, g: GroupId, q: Placement, q': Placement, cmd: MetaCommand,
                            logId: LogId)
    requires Protocol(sys, g, q) && sys.bound <= logId.index && Effect(q, q', cmd, logId, g)
    requires IsReport(cmd, g) ==> cmd in sys.reports
    requires q'.move.Some? ==> LegalPlan(q')
    requires next == sys.(meta := next.meta, bound := logId.index + 1)
    ensures Protocol(next, g, q')
  {
    CommitKeepsData(sys, g, q, q', cmd, logId);
    forall report | report in sys.reports
      ensures IsReport(report, g) && report.planId < next.bound && ReportInv(report, q', next.committed, next.change)
    {
      CommitKeepsReport(sys, g, q, q', cmd, logId, report);
    }
    CommitKeepsPc(sys, g, q, q', cmd, logId);
  }

  /** What a commit does to the record of `g`, from the meta invariant alone. */
  lemma CommitFacts(env: Env, s: MetaState, bound: nat, cmd: MetaCommand, logId: LogId, g: GroupId)
    requires MetaInv(s, bound) && bound <= logId.index && g.Data? && g in s.placements
    ensures var t := Evaluate(env, s, cmd, logId).state;
            && MetaInv(t, logId.index + 1) && g in t.placements
            && Effect(s.placements[g], t.placements[g], cmd, logId, g)
            && (t.placements[g].move.Some? ==> LegalPlan(t.placements[g]))
  {
    EvaluateKeeps(env, s, cmd, logId, bound);
    PlacementEffect(env, s, cmd, logId, g);
    var t := Evaluate(env, s, cmd, logId).state;
    if t.placements[g].move.Some? { RecordedPlanIsLegal(t, logId.index + 1, g); }
  }

  lemma CommitLands(sys: System, t: MetaState, g: GroupId, q: Placement, cmd: MetaCommand, logId: LogId)
    requires Protocol(sys, g, q) && sys.bound <= logId.index && (IsReport(cmd, g) ==> cmd in sys.reports)
    requires g in t.placements && Effect(q, t.placements[g], cmd, logId, g)
    requires t.placements[g].move.Some? ==> LegalPlan(t.placements[g])
    ensures Protocol(CommitNext(sys, t, logId), g, t.placements[g])
  {
    CommitKeepsProtocol(sys, CommitNext(sys, t, logId), g, q, t.placements[g], cmd, logId);
  }

  lemma CommitKeeps(env: Env, sys: System, g: GroupId, cmd: MetaCommand, logId: LogId)
    requires Inv(sys, g) && sys.bound <= logId.index && (IsReport(cmd, g) ==> cmd in sys.reports)
    ensures Inv(CommitNext(sys, Evaluate(env, sys.meta, cmd, logId).state, logId), g)
  {
    CommitFacts(env, sys.meta, sys.bound, cmd, logId, g);
    CommitLands(sys, Evaluate(env, sys.meta, cmd, logId).state, g, sys.meta.placements[g], cmd, logId);
  }

  lemma RecordedPlanIsLegal(s: MetaState, bound: nat, g: GroupId)
    requires MetaInv(s, bound) && g.Data? && g in s.placements && s.placements[g].move.Some?
    ensures LegalPlan(s.placements[g])
  {
    assert GroupInv(s.cluster.value, s.nodes.Keys, s.retired.Keys, g, s.placements[g]);
  }

  lemma LocalKeepsProtocol(sys: System, g: GroupId, e: Event)
    requires g in sys.meta.placements && Protocol(sys, g, sys.meta.placements[g]) && !e.CommitMeta?
             && Enabled(sys, g, e)
    ensures Protocol(LocalNext(sys, g, sys.meta.placements[g], e), g, sys.meta.placements[g])
  {
    var q := sys.meta.placements[g];
    if e.Confirm? { ConfirmedReads(sys, g, q, e); }
    else if e.SubmitChange? { SubmitStep(sys, g, q); }
    else if e.JointCommits? || e.FinalCommits? || e.ChangeLost? { ChangeStep(sys, g, q, e); }
    else if e.ChangeReturns? { ReturnStep(sys, g, q); }
    else if e.Propose? { ProposeStep(sys, g, q); }
    else { RecordReads(sys, g, q, e); }
  }

  lemma LocalLeavesMeta(sys: System, g: GroupId, e: Event)
    requires g in sys.meta.placements && !e.CommitMeta? && Enabled(sys, g, e)
    ensures var next := LocalNext(sys, g, sys.meta.placements[g], e); next.meta == sys.meta && next.bound == sys.bound
  {
  }

  lemma SameMeta(sys: System, next: System, g: GroupId)
    requires Inv(sys, g) && next.meta == sys.meta && next.bound == sys.bound
             && Protocol(next, g, sys.meta.placements[g])
    ensures Inv(next, g)
  {
  }

  lemma LocalKeeps(sys: System, g: GroupId, e: Event, next: System)
    requires g in sys.meta.placements && !e.CommitMeta? && Enabled(sys, g, e)
    requires next == LocalNext(sys, g, sys.meta.placements[g], e)
    requires Inv(sys, g)
    ensures Inv(next, g)
  {
    LocalKeepsProtocol(sys, g, e);
    LocalLeavesMeta(sys, g, e);
    SameMeta(sys, next, g);
  }

  lemma StepKeeps(env: Env, sys: System, g: GroupId, e: Event)
    requires Inv(sys, g) && Enabled(sys, g, e)
    ensures Inv(Next(env, sys, g, e), g)
  {
    if e.CommitMeta? { CommitKeeps(env, sys, g, e.cmd, e.logId); } else { LocalKeeps(sys, g, e, Next(env, sys, g, e)); }
  }

  // -- Runs ---------------------------------------------------------------------------------------------------------

  ghost predicate Runs(env: Env, sys: System, g: GroupId, events: seq<Event>, end: System)
    decreases |events|
  {
    g in sys.meta.placements &&
    if events == [] then end == sys
    else Enabled(sys, g, events[0]) && Runs(env, Next(env, sys, g, events[0]), g, events[1..], end)
  }

  lemma {:induction false} RunKeeps(env: Env, sys: System, g: GroupId, events: seq<Event>, end: System)
    requires Inv(sys, g) && Runs(env, sys, g, events, end)
    ensures Inv(end, g)
    decreases |events|
  {
    if events != [] {
      StepKeeps(env, sys, g, events[0]);
      RunKeeps(env, Next(env, sys, g, events[0]), g, events[1..], end);
    }
  }

  /** A group at rest: reachable meta state, recorded voters committed, no plan, nothing in flight. */
  ghost predicate AtRest(sys: System, g: GroupId) {
    && g.Data? && g in sys.meta.placements && MetaInv(sys.meta, sys.bound)
    && sys.meta.placements[g].move.None? && sys.committed == Current(sys.meta.placements[g])
    && sys.change.None? && sys.pc.Idle? && sys.reports == {}
  }

  lemma ProtocolIsSafe(sys: System, g: GroupId, q: Placement)
    requires Protocol(sys, g, q)
    ensures q.move.None? ==> sys.committed == Current(q)
    ensures q.move.Some? ==> sys.committed == Current(q) || sys.committed == Target(q)
                             || sys.committed == Current(q) + Target(q)
    ensures ReconcilePlan(q, sys.committed) != Error
    ensures sys.pc.ResumeRead? ==> ReconcilePlan(sys.pc.p, sys.committed) != Error
  {
  }

  /** Whatever the driver, the operator and the network do, the committed voter set is a phase of the
      recorded plan and equals the recorded voters when there is none, so reconciliation never errors,
      neither on the recorded placement nor on the copy a driver is about to act on. */
  lemma MovesAreCrashSafe(env: Env, start: System, g: GroupId, events: seq<Event>, sys: System)
    requires AtRest(start, g) && Runs(env, start, g, events, sys)
    ensures g in sys.meta.placements
    ensures var q := sys.meta.placements[g];
            && (q.move.None? ==> sys.committed == Current(q))
            && (q.move.Some? ==> sys.committed == Current(q) || sys.committed == Target(q)
                                 || sys.committed == Current(q) + Target(q))
            && ReconcilePlan(q, sys.committed) != Error
    ensures sys.pc.ResumeRead? ==> ReconcilePlan(sys.pc.p, sys.committed) != Error
  {
    RunKeeps(env, start, g, events, sys);
    ProtocolIsSafe(sys, g, sys.meta.placements[g]);
  }

  /** A report that lands late either names the recorded plan and leaves meta voters equal to the
      committed set, or changes nothing. */
  lemma LateReportsAreHarmless(env: Env, start: System, g: GroupId, events: seq<Event>, sys: System, cmd: MetaCommand,
                               logId: LogId)
    requires AtRest(start, g) && Runs(env, start, g, events, sys)
    requires cmd in sys.reports && sys.bound <= logId.index
    ensures g in sys.meta.placements
    ensures (cmd.FinalizePlan? || cmd.AbortReport?) && cmd.group == g
    ensures !HasPlan(sys.meta.placements[g], cmd.planId) ==> Evaluate(env, sys.meta, cmd, logId).state == sys.meta
    ensures var t := Evaluate(env, sys.meta, cmd, logId).state;
            t != sys.meta ==>
              g in t.placements && t.placements[g].move.None? && Current(t.placements[g]) == sys.committed
  {
    RunKeeps(env, start, g, events, sys);
    StaleReport(env, sys.meta, cmd, logId);
    var t := Evaluate(env, sys.meta, cmd, logId).state;
    if t != sys.meta {
      StepKeeps(env, sys, g, CommitMeta(cmd, logId));
    }
  }

  lemma StaleReport(env: Env, s: MetaState, cmd: MetaCommand, logId: LogId)
    requires cmd.FinalizePlan? || cmd.AbortReport?
    ensures var t := Evaluate(env, s, cmd, logId).state;
            if cmd.group !in s.placements || !HasPlan(s.placements[cmd.group], cmd.planId) then t == s
            else t == s || (cmd.group in t.placements && t.placements[cmd.group].move.None?)
  {
  }
}
