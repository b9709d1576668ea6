/** The cluster-wide drain: node gates (src/runtime/maintenance.rs) composed with the replicated
    maintenance record (src/meta/state_machine.rs) under arbitrary interleaving. */
module Drain {
  import opened Types
  import opened MetaStateMachine
  import opened MetaDecisions
  import opened MaintenanceLifecycle
  import opened Admission

  /** `views` are all records a confirmed read may have returned so far, however late it is delivered;
      `acks` are the acknowledgements nodes have sent, however late they commit. */
  datatype System = System(
    meta: MetaState,
    views: set<Fence>,
    gates: map<NodeId, Gate>,
    acks: set<(nat, u64, NodeId)>)

  const START: System := System(EMPTY_META, {None}, map[], {})

  datatype Event =
    | Boot(n: NodeId)                               // a node's first start
    | Commit(cmd: MetaCommand, logId: LogId)        // the meta group commits a command
    | Local(n: NodeId, step: GateEvent)             // one atomic step at a node

  /** Views come from committed records; a node acknowledges only what its reconcile returned Ok for. */
  predicate Enabled(sys: System, e: Event) {
    match e
    case Boot(n) => n !in sys.gates
    case Commit(cmd, _) =>
      cmd.AcknowledgeMaintenance? ==> (cmd.operationId, cmd.operationGeneration, cmd.node) in sys.acks
    case Local(n, step) => n in sys.gates && GateEnabled(sys.gates[n], step) && (step.Begin? ==> step.view in sys.views)
  }

  function Acked(n: NodeId, ok: Option<Fence>): set<(nat, u64, NodeId)> {
    if ok.Some? && ok.value.Some? && ok.value.value.stage == Preparing
    then {(ok.value.value.operationId, ok.value.value.generation, n)}
    else {}
  }

  function Booted(sys: System, n: NodeId): System {
    sys.(gates := sys.gates[n := FRESH_GATE])
  }

  function Stepped(sys: System, n: NodeId, step: GateEvent): System
    requires Enabled(sys, Local(n, step))
  {
    var gate := sys.gates[n];
    sys.(gates := sys.gates[n := GateNext(gate, step)], acks := sys.acks + Acked(n, ReturnsOk(gate, step)))
  }

  function Next(env: Env, sys: System, e: Event): System
    requires Enabled(sys, e)
  {
    match e
    case Boot(n) => Booted(sys, n)
    case Commit(cmd, logId) =>
      var meta := Evaluate(env, sys.meta, cmd, logId).state;
      sys.(meta := meta, views := sys.views + {meta.maintenance})
    case Local(n, step) => Stepped(sys, n, step)
  }

  // -- Invariant --------------------------------------------------------------------------------

  function Top(sys: System): (int, int) {
    Progress(sys.meta.maintenance)
  }

  ghost predicate ViewsInv(views: set<Fence>, top: (int, int)) {
    forall v :: v in views ==> Genuine(v, top)
  }

  ghost predicate GatesInv(gates: map<NodeId, Gate>, top: (int, int)) {
    forall n :: n in gates ==> GateInv(gates[n], top)
  }

  /** Whoever acknowledged a generation still remembers it. */
  ghost predicate AcksInv(gates: map<NodeId, Gate>, acks: set<(nat, u64, NodeId)>) {
    forall a :: a in acks ==> a.2 in gates && Progress(gates[a.2].memory).0 >= a.1
  }

  ghost predicate RecordedInv(m: Option<MaintenanceRecord>, acks: set<(nat, u64, NodeId)>) {
    m.Some? ==> forall n :: n in m.value.acknowledged ==> (m.value.operationId, m.value.generation, n) in acks
  }

  /** While an operation is active every voter of every group is a participant. */
  ghost predicate Covered(s: MetaState) {
    MaintenanceIsActive(s) ==>
      && s.cluster.Some?
      && forall g :: g in Groups(s.cluster.value.p) ==> SettledOn(s, g, VoterSet(s.maintenance.value.participants))
  }

  ghost predicate Inv(env: Env, sys: System) {
    && MaintenanceInv(env, sys.meta)
    && ViewsInv(sys.views, Top(sys))
    && GatesInv(sys.gates, Top(sys))
    && AcksInv(sys.gates, sys.acks)
    && RecordedInv(sys.meta.maintenance, sys.acks)
    && Covered(sys.meta)
  }

  // -- Commits ----------------------------------------------------------------------------------------

  /** A newly recorded acknowledgement comes from an acknowledgement command for this operation. */
  ghost predicate AckOrigin(m: Option<MaintenanceRecord>, n: Option<MaintenanceRecord>, cmd: MetaCommand) {
    n.Some? ==> forall x :: x in n.value.acknowledged ==>
      || (m.Some? && m.value.operationId == n.value.operationId && m.value.generation == n.value.generation
          && x in m.value.acknowledged)
      || (cmd.AcknowledgeMaintenance? && cmd.node == x
          && cmd.operationId == n.value.operationId && cmd.operationGeneration == n.value.generation)
  }

  lemma AckStep(s: MetaState, cmd: MetaCommand)
    requires cmd.AcknowledgeMaintenance?
    requires s.maintenance.Some? ==> Ascending(s.maintenance.value.acknowledged)
    ensures var t := EvalAcknowledge(s, cmd.operationId, cmd.operationGeneration, cmd.node, cmd.incarnation).state;
            AckOrigin(s.maintenance, t.maintenance, cmd)
  {
    if s.maintenance.Some? {
      InsertKeepsAscending(s.maintenance.value.acknowledged, cmd.node);
    }
  }

  lemma AcksComeFromCommands(env: Env, s: MetaState, cmd: MetaCommand, logId: LogId)
    requires MaintenanceInv(env, s)
    ensures AckOrigin(s.maintenance, Evaluate(env, s, cmd, logId).state.maintenance, cmd)
  {
    if !IsMaintenanceCommand(cmd) {
      OtherStep(env, s, cmd, logId);
    } else if cmd.AcknowledgeMaintenance? {
      AckStep(s, cmd);
    } else {
      OthersKeepAcks(env, s, cmd, logId);
    }
  }

  ghost predicate KeepsAcks(m: Option<MaintenanceRecord>, n: Option<MaintenanceRecord>) {
    n.Some? ==>
      || n.value.acknowledged == []
      || (m.Some? && m.value.operationId == n.value.operationId && m.value.generation == n.value.generation
          && n.value.acknowledged == m.value.acknowledged)
  }

  lemma BeginKeepsAcks(s: MetaState, op: nat, gen: u64, participants: seq<NodeId>)
    ensures KeepsAcks(s.maintenance, EvalBegin(s, op, gen, participants).state.maintenance)
  {
    if EvalBegin(s, op, gen, participants).result.MetaApplied? { BeginExactly(s, op, gen, participants); }
  }

  lemma StageKeepsAcks(s: MetaState, op: nat, gen: u64)
    ensures KeepsAcks(s.maintenance, EvalQuiesce(s, op, gen).state.maintenance)
    ensures KeepsAcks(s.maintenance, EvalEnterVerification(s, op, gen).state.maintenance)
  {
  }

  lemma ReleaseKeepsAcks(env: Env, s: MetaState, cmd: MetaCommand)
    requires cmd.ReleaseMaintenance?
    ensures KeepsAcks(s.maintenance, EvalRelease(env, s, cmd.operationId, cmd.operationGeneration, cmd.liveProcesses,
                                                 cmd.liveIncarnations, cmd.policyDigest).state.maintenance)
  {
  }

  lemma RecoveryKeepsAcks(env: Env, s: MetaState, cmd: MetaCommand)
    requires cmd.AcknowledgeMaintenanceRecovery?
    ensures KeepsAcks(s.maintenance, RecoveryOutcome(env, s, cmd).state.maintenance)
  {
  }

  lemma OthersKeepAcks(env: Env, s: MetaState, cmd: MetaCommand, logId: LogId)
    requires IsMaintenanceCommand(cmd) && !cmd.AcknowledgeMaintenance?
    ensures KeepsAcks(s.maintenance, Evaluate(env, s, cmd, logId).state.maintenance)
  {
    match cmd
    case BeginMaintenance(op, gen, participants) => BeginKeepsAcks(s, op, gen, participants);
    case QuiesceMaintenance(op, gen) => StageKeepsAcks(s, op, gen);
    case EnterMaintenanceVerification(op, gen) => StageKeepsAcks(s, op, gen);
    case ReleaseMaintenance(_, _, _, _, _) => ReleaseKeepsAcks(env, s, cmd);
    case AcknowledgeMaintenanceRecovery(_, _, _, _, _, _, _, _) => RecoveryKeepsAcks(env, s, cmd);
  }

  lemma BeginCovers(s: MetaState, op: nat, gen: u64, participants: seq<NodeId>)
    requires Covered(s)
    ensures Covered(EvalBegin(s, op, gen, participants).state)
  {
    if EvalBegin(s, op, gen, participants).result.MetaApplied? {
      BeginExactly(s, op, gen, participants);
      SortedSeqIsVoterSet(ActiveSet(s));
    }
  }

  lemma OnlyBeginActivates(env: Env, s: MetaState, cmd: MetaCommand, logId: LogId)
    requires !cmd.BeginMaintenance? && MaintenanceIsActive(Evaluate(env, s, cmd, logId).state)
    ensures MaintenanceIsActive(s)
    ensures Evaluate(env, s, cmd, logId).state.maintenance.value.participants == s.maintenance.value.participants
  {
    if !IsMaintenanceCommand(cmd) {
      OtherStep(env, s, cmd, logId);
    }
  }

  lemma StaysCovered(env: Env, s: MetaState, cmd: MetaCommand, logId: LogId)
    requires MaintenanceInv(env, s) && Covered(s)
    ensures Covered(Evaluate(env, s, cmd, logId).state)
  {
    var t := Evaluate(env, s, cmd, logId).state;
    if cmd.BeginMaintenance? {
      BeginCovers(s, cmd.operationId, cmd.operationGeneration, cmd.participants);
    } else if MaintenanceIsActive(t) {
      OnlyBeginActivates(env, s, cmd, logId);
      CommandStep(env, s, cmd, logId);
      CoveredFrame(s, t);
    }
  }

  lemma CoveredFrame(s: MetaState, t: MetaState)
    requires Covered(s) && MaintenanceIsActive(s) && MaintenanceIsActive(t)
    requires t == s.(maintenance := t.maintenance)
    requires t.maintenance.value.participants == s.maintenance.value.participants
    ensures Covered(t)
  {
    forall g | g in Groups(t.cluster.value.p)
      ensures SettledOn(t, g, VoterSet(t.maintenance.value.participants))
    {
      assert SettledOn(s, g, VoterSet(s.maintenance.value.participants));
    }
  }

  lemma {:induction false} ReachableCovered(env: Env, log: seq<Committed>)
    ensures Covered(ApplyLog(env, EMPTY_META, log))
  {
    if log != [] {
      var before, c := log[..|log| - 1], log[|log| - 1];
      ReachableCovered(env, before);
      ReachableMaintenance(env, before);
      StaysCovered(env, ApplyLog(env, EMPTY_META, before), c.cmd, c.logId);
      assert log == before + [c];
      ApplyLogSnoc(env, EMPTY_META, before, c);
    }
  }

  lemma GatesGrow(gates: map<NodeId, Gate>, top: (int, int), higher: (int, int))
    requires GatesInv(gates, top) && NoLater(top, higher)
    ensures GatesInv(gates, higher)
  {
    forall n | n in gates ensures GateInv(gates[n], higher) {
      GateInvGrows(gates[n], top, higher);
    }
  }

  lemma RecordMoves(env: Env, sys: System, t: MetaState, cmd: MetaCommand, logId: LogId)
    requires Inv(env, sys) && Enabled(sys, Commit(cmd, logId))
    requires MaintenanceInv(env, t) && NoLater(Top(sys), Progress(t.maintenance)) && Covered(t)
    requires AckOrigin(sys.meta.maintenance, t.maintenance, cmd)
    ensures Inv(env, sys.(meta := t, views := sys.views + {t.maintenance}))
  {
    GatesGrow(sys.gates, Top(sys), Progress(t.maintenance));
  }

  lemma CommitKeeps(env: Env, sys: System, cmd: MetaCommand, logId: LogId)
    requires Inv(env, sys) && Enabled(sys, Commit(cmd, logId))
    ensures Inv(env, Next(env, sys, Commit(cmd, logId)))
  {
    var s := sys.meta;
    var t := Evaluate(env, s, cmd, logId).state;
    CommandStep(env, s, cmd, logId);
    LegalAdvances(s.maintenance, t.maintenance);
    AcksComeFromCommands(env, s, cmd, logId);
    StaysCovered(env, s, cmd, logId);
    RecordMoves(env, sys, t, cmd, logId);
  }

  // -- Local steps ------------------------------------------------------------------------------------------

  lemma AcksRemembered(gates: map<NodeId, Gate>, acks: set<(nat, u64, NodeId)>, n: NodeId, after: Gate,
                       ok: Option<Fence>)
    requires AcksInv(gates, acks) && n in gates
    requires NoLater(Progress(gates[n].memory), Progress(after.memory))
    requires ok.Some? ==> Progress(after.memory) == Progress(ok.value)
    ensures AcksInv(gates[n := after], acks + Acked(n, ok))
  {
  }

  lemma GateMoves(env: Env, sys: System, n: NodeId, after: Gate, more: set<(nat, u64, NodeId)>)
    requires Inv(env, sys) && GateInv(after, Top(sys)) && AcksInv(sys.gates[n := after], sys.acks + more)
    ensures Inv(env, sys.(gates := sys.gates[n := after], acks := sys.acks + more))
  {
  }

  lemma LocalKeeps(env: Env, sys: System, n: NodeId, step: GateEvent)
    requires Inv(env, sys) && Enabled(sys, Local(n, step))
    ensures Inv(env, Stepped(sys, n, step))
  {
    var before := sys.gates[n];
    GateStep(before, step, Top(sys));
    AcksRemembered(sys.gates, sys.acks, n, GateNext(before, step), ReturnsOk(before, step));
    GateMoves(env, sys, n, GateNext(before, step), Acked(n, ReturnsOk(before, step)));
  }

  lemma BootKeeps(env: Env, sys: System, n: NodeId)
    requires Inv(env, sys) && Enabled(sys, Boot(n))
    ensures Inv(env, Booted(sys, n))
  {
    var next := Booted(sys, n);
    assert GateInv(FRESH_GATE, Top(sys)) by { TopIsGenuine(env, sys.meta); }
    assert AcksInv(next.gates, next.acks);
  }

  lemma TopIsGenuine(env: Env, s: MetaState)
    requires MaintenanceInv(env, s)
    ensures Genuine(None, Progress(s.maintenance))
  {
  }

  lemma StepKeeps(env: Env, sys: System, e: Event)
    requires Inv(env, sys) && Enabled(sys, e)
    ensures Inv(env, Next(env, sys, e))
  {
    match e
    case Boot(n) => BootKeeps(env, sys, n);
    case Commit(cmd, logId) => CommitKeeps(env, sys, cmd, logId);
    case Local(n, step) => LocalKeeps(env, sys, n, step);
  }

  // -- Runs -----------------------------------------------------------------------------------------------------

  ghost predicate Runs(env: Env, sys: System, events: seq<Event>, end: System)
    decreases |events|
  {
    if events == [] then end == sys
    else Enabled(sys, events[0]) && Runs(env, Next(env, sys, events[0]), events[1..], end)
  }

  lemma {:induction false} RunKeeps(env: Env, sys: System, events: seq<Event>, end: System)
    requires Inv(env, sys) && Runs(env, sys, events, end)
    ensures Inv(env, end)
    decreases |events|
  {
    if events != [] {
      StepKeeps(env, sys, events[0]);
      RunKeeps(env, Next(env, sys, events[0]), events[1..], end);
    }
  }

  lemma DrainedNode(env: Env, sys: System, n: NodeId)
    requires Inv(env, sys) && sys.meta.maintenance.Some?
    requires sys.meta.maintenance.value.stage == Quiesced || sys.meta.maintenance.value.stage == Verifying
    requires n in sys.meta.maintenance.value.participants
    ensures n in sys.gates && sys.gates[n].permits == 0 && !sys.gates[n].open
    ensures sys.gates[n].durable.Some? && sys.gates[n].durable.value.generation == sys.meta.maintenance.value.generation
  {
    var r := sys.meta.maintenance.value;
    assert n in r.acknowledged;
    assert (r.operationId, r.generation, n) in sys.acks;
    var g := sys.gates[n];
    assert Progress(g.memory).0 >= r.generation;
    assert GateInv(g, Top(sys));
  }

  predicate VotesIn(s: MetaState, i: u16, n: NodeId) {
    && s.cluster.Some? && i < s.cluster.value.p
    && Data(i) in s.placements && n in s.placements[Data(i)].voters
  }

  /** While the committed stage is Quiesced or Verifying no participant admits or still serves a client
      write, and every voter of every data partition is a participant: whatever interleaving of
      admissions, reconciles with delayed views, failed writes, cancellations, restarts, late
      acknowledgements and unrelated commands led there. */
  lemma ClusterWideDrain(env: Env, events: seq<Event>, sys: System, n: NodeId)
    requires Runs(env, START, events, sys) && sys.meta.maintenance.Some?
    requires sys.meta.maintenance.value.stage == Quiesced || sys.meta.maintenance.value.stage == Verifying
    requires n in sys.meta.maintenance.value.participants
             || (exists i: u16 :: VotesIn(sys.meta, i, n))
    ensures n in sys.meta.maintenance.value.participants
    ensures n in sys.gates && sys.gates[n].permits == 0 && !sys.gates[n].open
  {
    StartInv(env);
    RunKeeps(env, START, events, sys);
    var r := sys.meta.maintenance.value;
    if n !in r.participants {
      var i: u16 :| VotesIn(sys.meta, i, n);
      VoterIsParticipant(sys.meta, i, n);
    }
    DrainedNode(env, sys, n);
  }

  lemma VoterIsParticipant(s: MetaState, i: u16, n: NodeId)
    requires Covered(s) && MaintenanceIsActive(s)
    requires Data(i) in s.placements && i < s.cluster.value.p && n in s.placements[Data(i)].voters
    ensures n in s.maintenance.value.participants
  {
    assert Groups(s.cluster.value.p)[i + 1] == Data(i);
    assert SettledOn(s, Data(i), VoterSet(s.maintenance.value.participants));
  }

  lemma StartInv(env: Env)
    ensures Inv(env, START)
  {
  }
}
