/** What must have been committed for a maintenance operation to be where it is (src/meta/state_machine.rs):
    the stages of the record, read back as a protocol over the whole log. */
module MaintenanceHistory {
  import opened Types
  import opened MetaStateMachine
  import opened MetaDecisions
  import opened MaintenanceLifecycle

  // -- What a log shows ---------------------------------------------------------------------------

  /** Between positions `lo` and `hi` node `n`, then at `incarnation`, acknowledged this operation. */
  ghost predicate AckCommitted(log: seq<Committed>, lo: int, hi: int, op: nat, gen: u64, n: NodeId, incarnation: nat) {
    exists i :: lo < i < hi && 0 <= i < |log| && log[i].cmd == AcknowledgeMaintenance(op, gen, n, incarnation)
  }

  /** Every one of `ids` is Active and acknowledged at the incarnation it still has. */
  ghost predicate AllAcked(log: seq<Committed>, lo: int, hi: int, op: nat, gen: u64, s: MetaState, ids: seq<NodeId>) {
    forall n :: n in ids ==> IsActive(s, n) && AckCommitted(log, lo, hi, op, gen, n, s.nodes[n].incarnation)
  }

  /** `hosted` lists exactly the settled groups `n` votes in, with their voters. */
  ghost predicate Hosts(s: MetaState, n: NodeId, hosted: seq<(GroupId, set<NodeId>)>) {
    && s.cluster.Some?
    && (forall g :: g in Groups(s.cluster.value.p) ==> g in s.placements && s.placements[g].move.None?)
    && (forall g, v :: (g, v) in hosted <==>
          g in Groups(s.cluster.value.p) && n in s.placements[g].voters && v == VoterSet(s.placements[g].voters))
  }

  /** A recovery report of `n` at its present incarnation, under this leader's epoch, naming exactly the voter
      configurations that `n` hosts. */
  ghost predicate Reports(env: Env, s: MetaState, op: nat, gen: u64, cmd: MetaCommand, n: NodeId, process: u64,
                          policy: nat) {
    && cmd.AcknowledgeMaintenanceRecovery? && cmd.operationId == op && cmd.operationGeneration == gen && cmd.node == n
    && Live(s, n, cmd.incarnation) && Hosts(s, n, cmd.topologyDigest.groups)
    && cmd.processIncarnation == process != 0 && cmd.policyDigest == policy != 0
    && cmd.recoveryEpoch == env.recoveryEpoch
  }

  ghost predicate ReportCommitted(env: Env, log: seq<Committed>, lo: int, op: nat, gen: u64, s: MetaState, n: NodeId,
                                  process: u64, policy: nat) {
    exists i :: lo < i && 0 <= i < |log| && Reports(env, s, op, gen, log[i].cmd, n, process, policy)
  }

  /** Every recovered participant filed the report whose process and policy the record holds. */
  ghost predicate AllReported(env: Env, log: seq<Committed>, lo: int, r: MaintenanceRecord, s: MetaState) {
    forall n :: n in r.recovered ==>
      && ProcessOf(r, n).Some? && PolicyOf(r, n).Some?
      && ReportCommitted(env, log, lo, r.operationId, r.generation, s, n,
                         ProcessOf(r, n).value, PolicyOf(r, n).value)
  }

  /** Where in the log the operation began, was quiesced and entered verification. */
  datatype Marks = Marks(begun: nat, quiesced: nat, verifying: nat)

  ghost predicate BegunAt(log: seq<Committed>, i: nat, r: MaintenanceRecord) {
    i < |log| && log[i].cmd == BeginMaintenance(r.operationId, r.generation, r.participants)
  }

  ghost predicate QuiescedAt(log: seq<Committed>, m: Marks, r: MaintenanceRecord, s: MetaState) {
    && m.begun < m.quiesced < |log| && log[m.quiesced].cmd == QuiesceMaintenance(r.operationId, r.generation)
    && AllAcked(log, m.begun, m.quiesced, r.operationId, r.generation, s, r.participants)
  }

  ghost predicate VerifyingSince(env: Env, log: seq<Committed>, m: Marks, r: MaintenanceRecord, s: MetaState) {
    && m.quiesced < m.verifying < |log|
    && log[m.verifying].cmd == EnterMaintenanceVerification(r.operationId, r.generation)
    && AllReported(env, log, m.verifying, r, s)
  }

  /** The active operation's record, explained by the log. */
  ghost predicate Explained(env: Env, log: seq<Committed>, s: MetaState, m: Marks) {
    MaintenanceIsActive(s) ==>
      var r := s.maintenance.value;
      && BegunAt(log, m.begun, r)
      && AllAcked(log, m.begun, |log|, r.operationId, r.generation, s, r.acknowledged)
      && (r.stage != Preparing ==> QuiescedAt(log, m, r, s))
      && (r.stage == Verifying ==> VerifyingSince(env, log, m, r, s))
  }

  // -- Logs grow ----------------------------------------------------------------------------------

  lemma AcksRemain(log: seq<Committed>, c: Committed, lo: int, hi: int, later: int, op: nat, gen: u64, s: MetaState,
                   t: MetaState, ids: seq<NodeId>)
    requires AllAcked(log, lo, hi, op, gen, s, ids) && hi <= later && t.nodes == s.nodes
    ensures AllAcked(log + [c], lo, later, op, gen, t, ids)
  {
    forall n | n in ids ensures AckCommitted(log + [c], lo, later, op, gen, n, s.nodes[n].incarnation) {
      var ack := AcknowledgeMaintenance(op, gen, n, s.nodes[n].incarnation);
      var i :| lo < i < hi && 0 <= i < |log| && log[i].cmd == ack;
      assert (log + [c])[i] == log[i];
    }
  }

  lemma ReportRemains(env: Env, log: seq<Committed>, c: Committed, lo: int, op: nat, gen: u64, s: MetaState,
                      t: MetaState, n: NodeId, process: u64, policy: nat)
    requires ReportCommitted(env, log, lo, op, gen, s, n, process, policy)
    requires t == s.(maintenance := t.maintenance)
    ensures ReportCommitted(env, log + [c], lo, op, gen, t, n, process, policy)
  {
    var i :| lo < i && 0 <= i < |log| && Reports(env, s, op, gen, log[i].cmd, n, process, policy);
    assert (log + [c])[i] == log[i];
  }

  lemma ReportsRemain(env: Env, log: seq<Committed>, c: Committed, lo: int, r: MaintenanceRecord, s: MetaState,
                      t: MetaState)
    requires AllReported(env, log, lo, r, s) && t == s.(maintenance := t.maintenance)
    ensures AllReported(env, log + [c], lo, r, t)
  {
    forall n | n in r.recovered
      ensures ReportCommitted(env, log + [c], lo, r.operationId, r.generation, t, n,
                              ProcessOf(r, n).value, PolicyOf(r, n).value)
    {
      ReportRemains(env, log, c, lo, r.operationId, r.generation, s, t, n,
                    ProcessOf(r, n).value, PolicyOf(r, n).value);
    }
  }

  /** A command that leaves the record alone. */
  lemma KeepExplained(env: Env, log: seq<Committed>, c: Committed, s: MetaState, m: Marks)
    requires Explained(env, log, s, m)
    ensures Explained(env, log + [c], s, m)
  {
    if MaintenanceIsActive(s) {
      var r := s.maintenance.value;
      AcksRemain(log, c, m.begun, |log|, |log| + 1, r.operationId, r.generation, s, s, r.acknowledged);
      if r.stage != Preparing {
        AcksRemain(log, c, m.begun, m.quiesced, m.quiesced, r.operationId, r.generation, s, s, r.participants);
      }
      if r.stage == Verifying {
        ReportsRemain(env, log, c, m.verifying, r, s, s);
      }
    }
  }

  // -- One command --------------------------------------------------------------------------------

  lemma BeginExplains(env: Env, log: seq<Committed>, c: Committed, s: MetaState, m: Marks) returns (m': Marks)
    requires c.cmd.BeginMaintenance? && Explained(env, log, s, m)
    ensures var o := EvalBegin(s, c.cmd.operationId, c.cmd.operationGeneration, c.cmd.participants);
            Explained(env, log + [c], o.state, m')
  {
    var o := EvalBegin(s, c.cmd.operationId, c.cmd.operationGeneration, c.cmd.participants);
    if o.result.MetaApplied? {
      BeginExactly(s, c.cmd.operationId, c.cmd.operationGeneration, c.cmd.participants);
      m' := Marks(|log|, 0, 0);
    } else {
      KeepExplained(env, log, c, s, m);
      m' := m;
    }
  }

  lemma AcknowledgeExplains(env: Env, log: seq<Committed>, c: Committed, s: MetaState, m: Marks)
    requires c.cmd.AcknowledgeMaintenance? && MaintenanceInv(env, s) && Explained(env, log, s, m)
    ensures var o := EvalAcknowledge(s, c.cmd.operationId, c.cmd.operationGeneration, c.cmd.node, c.cmd.incarnation);
            Explained(env, log + [c], o.state, m)
  {
    var o := EvalAcknowledge(s, c.cmd.operationId, c.cmd.operationGeneration, c.cmd.node, c.cmd.incarnation);
    KeepExplained(env, log, c, s, m);
    if o.result.MetaApplied? {
      var r, n := s.maintenance.value, c.cmd.node;
      InsertKeepsAscending(r.acknowledged, n);
      assert (log + [c])[|log|] == c;
      assert AckCommitted(log + [c], m.begun, |log| + 1, r.operationId, r.generation, n, s.nodes[n].incarnation);
      assert o.state.nodes == s.nodes;
    }
  }

  lemma QuiesceExplains(env: Env, log: seq<Committed>, c: Committed, s: MetaState, m: Marks) returns (m': Marks)
    requires c.cmd.QuiesceMaintenance? && Explained(env, log, s, m)
    ensures Explained(env, log + [c], EvalQuiesce(s, c.cmd.operationId, c.cmd.operationGeneration).state, m')
  {
    var o := EvalQuiesce(s, c.cmd.operationId, c.cmd.operationGeneration);
    KeepExplained(env, log, c, s, m);
    m' := m;
    if o.result.MetaApplied? {
      var r := s.maintenance.value;
      m' := m.(quiesced := |log|);
      AcksRemain(log, c, m.begun, |log|, |log|, r.operationId, r.generation, s, o.state, r.participants);
      AcksRemain(log, c, m.begun, |log|, |log| + 1, r.operationId, r.generation, s, o.state, r.acknowledged);
    }
  }

  lemma VerificationExplains(env: Env, log: seq<Committed>, c: Committed, s: MetaState, m: Marks) returns (m': Marks)
    requires c.cmd.EnterMaintenanceVerification? && Explained(env, log, s, m)
    ensures Explained(env, log + [c], EvalEnterVerification(s, c.cmd.operationId, c.cmd.operationGeneration).state, m')
  {
    var o := EvalEnterVerification(s, c.cmd.operationId, c.cmd.operationGeneration);
    KeepExplained(env, log, c, s, m);
    m' := m;
    if o.result.MetaApplied? {
      var r := s.maintenance.value;
      m' := m.(verifying := |log|);
      AcksRemain(log, c, m.begun, m.quiesced, m.quiesced, r.operationId, r.generation, s, o.state, r.participants);
      AcksRemain(log, c, m.begun, |log|, |log| + 1, r.operationId, r.generation, s, o.state, r.acknowledged);
    }
  }

  /** An applied report joins the record, and the others stay. */
  lemma RecoverReports(env: Env, log: seq<Committed>, c: Committed, lo: int, r: MaintenanceRecord, s: MetaState,
                       t: MetaState, n: NodeId, process: u64, policy: nat)
    requires RecordInv(env, r) && AllReported(env, log, lo, r, s) && lo < |log| && t == s.(maintenance := t.maintenance)
    requires Reports(env, s, r.operationId, r.generation, c.cmd, n, process, policy)
    ensures AllReported(env, log + [c], lo, Recover(r, n, process, policy, env.recoveryEpoch), t)
  {
    var r' := Recover(r, n, process, policy, env.recoveryEpoch);
    InsertKeepsAscending(r.recovered, n);
    ReportsRemain(env, log, c, lo, r, s, t);
    forall x | x in r'.recovered
      ensures ProcessOf(r', x).Some? && PolicyOf(r', x).Some?
      ensures ReportCommitted(env, log + [c], lo, r.operationId, r.generation, t, x,
                              ProcessOf(r', x).value, PolicyOf(r', x).value)
    {
      UpsertLookup(r.recoveryProcesses, n, process, x);
      UpsertLookup(r.recoveryPolicyDigests, n, policy, x);
      if x == n {
        assert (log + [c])[|log|] == c;
      }
    }
  }

  lemma RecoveryFacts(env: Env, s: MetaState, cmd: MetaCommand, o: Outcome)
    requires cmd.AcknowledgeMaintenanceRecovery?
    requires o == RecoveryOutcome(env, s, cmd)
    requires o.result.MetaApplied?
    ensures NamesOperation(s, cmd.operationId, cmd.operationGeneration) && s.maintenance.value.stage == Verifying
    ensures Reports(env, s, cmd.operationId, cmd.operationGeneration, cmd, cmd.node, cmd.processIncarnation,
                    cmd.policyDigest)
    ensures var r := Recover(s.maintenance.value, cmd.node, cmd.processIncarnation, cmd.policyDigest,
                             env.recoveryEpoch);
            o.state == s.(maintenance := Some(r))
  {
    ScanExactly(s, cmd.node, Groups(s.cluster.value.p));
  }

  lemma RecoveryExplains(env: Env, log: seq<Committed>, c: Committed, s: MetaState, m: Marks, o: Outcome)
    requires c.cmd.AcknowledgeMaintenanceRecovery? && MaintenanceInv(env, s) && Explained(env, log, s, m)
    requires o == RecoveryOutcome(env, s, c.cmd)
    ensures Explained(env, log + [c], o.state, m)
  {
    if o.result.MetaApplied? {
      RecoveryFacts(env, s, c.cmd, o);
      ReportExplains(env, log, c, s, m, o.state, c.cmd.node, c.cmd.processIncarnation, c.cmd.policyDigest);
    } else {
      KeepExplained(env, log, c, s, m);
    }
  }

  lemma ReportExplains(env: Env, log: seq<Committed>, c: Committed, s: MetaState, m: Marks, t: MetaState, n: NodeId,
                       process: u64, policy: nat)
    requires MaintenanceInv(env, s) && Explained(env, log, s, m) && s.maintenance.Some?
             && s.maintenance.value.stage == Verifying
    requires var r := s.maintenance.value;
             && Reports(env, s, r.operationId, r.generation, c.cmd, n, process, policy)
             && t == s.(maintenance := Some(Recover(r, n, process, policy, env.recoveryEpoch)))
    ensures Explained(env, log + [c], t, m)
  {
    var r := s.maintenance.value;
    AcksRemain(log, c, m.begun, m.quiesced, m.quiesced, r.operationId, r.generation, s, t, r.participants);
    AcksRemain(log, c, m.begun, |log|, |log| + 1, r.operationId, r.generation, s, t, r.acknowledged);
    RecoverReports(env, log, c, m.verifying, r, s, t, n, process, policy);
  }

  lemma ReleaseExplains(env: Env, log: seq<Committed>, c: Committed, s: MetaState, m: Marks)
    requires c.cmd.ReleaseMaintenance? && Explained(env, log, s, m)
    ensures var o := EvalRelease(env, s, c.cmd.operationId, c.cmd.operationGeneration, c.cmd.liveProcesses,
                                 c.cmd.liveIncarnations, c.cmd.policyDigest);
            Explained(env, log + [c], o.state, m)
  {
    KeepExplained(env, log, c, s, m);
  }

  lemma OtherExplains(env: Env, log: seq<Committed>, c: Committed, s: MetaState, m: Marks)
    requires !IsMaintenanceCommand(c.cmd) && Explained(env, log, s, m)
    ensures Explained(env, log + [c], Evaluate(env, s, c.cmd, c.logId).state, m)
  {
    OtherStep(env, s, c.cmd, c.logId);
    if MaintenanceIsActive(s) {
      KeepExplained(env, log, c, s, m);
    }
  }

  lemma PreparationExplains(env: Env, log: seq<Committed>, c: Committed, s: MetaState, m: Marks) returns (m': Marks)
    requires c.cmd.AcknowledgeMaintenance? || c.cmd.QuiesceMaintenance?
    requires MaintenanceInv(env, s) && Explained(env, log, s, m)
    ensures Explained(env, log + [c], Evaluate(env, s, c.cmd, c.logId).state, m')
  {
    m' := m;
    match c.cmd
    case AcknowledgeMaintenance(_, _, _, _) => AcknowledgeExplains(env, log, c, s, m);
    case QuiesceMaintenance(_, _) => m' := QuiesceExplains(env, log, c, s, m);
  }

  lemma CompletionExplains(env: Env, log: seq<Committed>, c: Committed, s: MetaState, m: Marks) returns (m': Marks)
    requires c.cmd.EnterMaintenanceVerification? || c.cmd.AcknowledgeMaintenanceRecovery? || c.cmd.ReleaseMaintenance?
    requires MaintenanceInv(env, s) && Explained(env, log, s, m)
    ensures Explained(env, log + [c], Evaluate(env, s, c.cmd, c.logId).state, m')
  {
    m' := m;
    match c.cmd
    case EnterMaintenanceVerification(_, _) => m' := VerificationExplains(env, log, c, s, m);
    case AcknowledgeMaintenanceRecovery(_, _, _, _, _, _, _, _) =>
      RecoveryExplains(env, log, c, s, m, Evaluate(env, s, c.cmd, c.logId));
    case ReleaseMaintenance(_, _, _, _, _) => ReleaseExplains(env, log, c, s, m);
  }

  lemma ExplainStep(env: Env, log: seq<Committed>, c: Committed, s: MetaState, m: Marks) returns (m': Marks)
    requires MaintenanceInv(env, s) && Explained(env, log, s, m)
    ensures Explained(env, log + [c], Evaluate(env, s, c.cmd, c.logId).state, m')
  {
    if !IsMaintenanceCommand(c.cmd) {
      OtherExplains(env, log, c, s, m);
      m' := m;
    } else if c.cmd.BeginMaintenance? {
      m' := BeginExplains(env, log, c, s, m);
    } else if c.cmd.AcknowledgeMaintenance? || c.cmd.QuiesceMaintenance? {
      m' := PreparationExplains(env, log, c, s, m);
    } else {
      m' := CompletionExplains(env, log, c, s, m);
    }
  }

  // -- Every log ----------------------------------------------------------------------------------

  /** Whatever was committed, an active operation was begun with exactly its participants. Once it is Quiesced or
      Verifying, every participant acknowledged it between its begin and its quiesce, at the incarnation under
      which it is still Active. While Verifying, everyone counted as recovered has filed, after verification was
      entered, a report with the recorded process and policy that names exactly what the node hosts. */
  lemma {:induction false} OperationIsItsHistory(env: Env, log: seq<Committed>) returns (m: Marks)
    ensures Explained(env, log, ApplyLog(env, EMPTY_META, log), m)
  {
    m := Marks(0, 0, 0);
    if log != [] {
      var before, c := log[..|log| - 1], log[|log| - 1];
      m := OperationIsItsHistory(env, before);
      ReachableMaintenance(env, before);
      m := ExplainStep(env, before, c, ApplyLog(env, EMPTY_META, before), m);
      assert log == before + [c];
      ApplyLogSnoc(env, EMPTY_META, before, c);
    }
  }

  // -- Recovery reports ---------------------------------------------------------------------------

  /** Every report recorded in `r` is recorded in `r'`, or superseded by one of a later process. */
  ghost predicate Supersedes(r': MaintenanceRecord, r: MaintenanceRecord) {
    forall n :: ProcessOf(r, n).Some? ==>
      && ProcessOf(r', n).Some?
      && (|| ProcessOf(r, n).value < ProcessOf(r', n).value
          || (ProcessOf(r', n) == ProcessOf(r, n) && PolicyOf(r', n) == PolicyOf(r, n)))
  }

  /** A report that changes the record is of no older process than the recorded one, and of a later one if the node
      has recovered. */
  lemma ReportIsNewer(env: Env, s: MetaState, cmd: MetaCommand, o: Outcome)
    requires cmd.AcknowledgeMaintenanceRecovery? && o == RecoveryOutcome(env, s, cmd) && o.result.MetaApplied?
    requires s.maintenance.Some?
    ensures var previous := ProcessOf(s.maintenance.value, cmd.node);
            previous.Some? ==> cmd.processIncarnation >= previous.value
    ensures var previous := ProcessOf(s.maintenance.value, cmd.node);
            previous.Some? && cmd.node in s.maintenance.value.recovered ==> cmd.processIncarnation != previous.value
  {
  }

  /** Only the recovered have a process on record. */
  lemma RecordedHasRecovered(env: Env, r: MaintenanceRecord, n: NodeId)
    requires RecordInv(env, r)
    ensures ProcessOf(r, n).Some? <==> n in r.recovered
    ensures PolicyOf(r, n).Some? <==> n in r.recovered
  {
    LookupFinds(r.recoveryProcesses, n);
    LookupFinds(r.recoveryPolicyDigests, n);
  }

  lemma ReportSupersedes(env: Env, s: MetaState, cmd: MetaCommand, o: Outcome)
    requires cmd.AcknowledgeMaintenanceRecovery? && s.maintenance.Some? && MaintenanceInv(env, s)
    requires o == RecoveryOutcome(env, s, cmd)
    ensures o.state.maintenance.Some? && Supersedes(o.state.maintenance.value, s.maintenance.value)
  {
    if o.result.MetaApplied? {
      RecoveryFacts(env, s, cmd, o);
      ReportIsNewer(env, s, cmd, o);
      RecordedHasRecovered(env, s.maintenance.value, cmd.node);
      RecoverKeeps(env, s.maintenance.value, cmd.node, cmd.processIncarnation, cmd.policyDigest);
    }
  }

  /** While Verifying no other operation can begin, and acknowledging or quiescing comes too late. */
  lemma BeginTooLate(s: MetaState, op: nat, gen: u64, participants: seq<NodeId>)
    requires s.maintenance.Some? && s.maintenance.value.stage == Verifying
    ensures EvalBegin(s, op, gen, participants).state == s
  {
    BeginExactly(s, op, gen, participants);
  }

  lemma AcknowledgeTooLate(s: MetaState, op: nat, gen: u64, n: NodeId, incarnation: nat)
    requires s.maintenance.Some? && s.maintenance.value.stage == Verifying
    ensures EvalAcknowledge(s, op, gen, n, incarnation).state == s
  {
  }

  lemma StageTooLate(s: MetaState, op: nat, gen: u64)
    requires s.maintenance.Some? && s.maintenance.value.stage == Verifying
    ensures EvalQuiesce(s, op, gen).state == s && EvalEnterVerification(s, op, gen).state == s
  {
  }

  lemma ReleaseKeepsReports(env: Env, s: MetaState, op: nat, gen: u64, processes: seq<(NodeId, u64)>,
                            incarnations: seq<(NodeId, u64)>, digest: nat)
    requires s.maintenance.Some?
    ensures var t := EvalRelease(env, s, op, gen, processes, incarnations, digest).state;
            && t.maintenance.Some?
            && t.maintenance.value == s.maintenance.value.(stage := t.maintenance.value.stage)
  {
  }

  lemma EarlyStagesAreOver(env: Env, s: MetaState, cmd: MetaCommand, logId: LogId)
    requires s.maintenance.Some? && s.maintenance.value.stage == Verifying
    requires cmd.BeginMaintenance? || cmd.AcknowledgeMaintenance? || cmd.QuiesceMaintenance?
             || cmd.EnterMaintenanceVerification?
    ensures Evaluate(env, s, cmd, logId).state == s
  {
    match cmd
    case BeginMaintenance(op, gen, participants) => BeginTooLate(s, op, gen, participants);
    case AcknowledgeMaintenance(op, gen, n, inc) => AcknowledgeTooLate(s, op, gen, n, inc);
    case QuiesceMaintenance(op, gen) => StageTooLate(s, op, gen);
    case EnterMaintenanceVerification(op, gen) => StageTooLate(s, op, gen);
  }

  lemma SupersedeStep(env: Env, s: MetaState, cmd: MetaCommand, logId: LogId)
    requires MaintenanceInv(env, s) && s.maintenance.Some? && s.maintenance.value.stage == Verifying
    ensures var t := Evaluate(env, s, cmd, logId).state;
            t.maintenance.Some? && Supersedes(t.maintenance.value, s.maintenance.value)
  {
    if !IsMaintenanceCommand(cmd) {
      OtherStep(env, s, cmd, logId);
    } else if cmd.AcknowledgeMaintenanceRecovery? {
      ReportSupersedes(env, s, cmd, Evaluate(env, s, cmd, logId));
    } else if cmd.ReleaseMaintenance? {
      ReleaseKeepsReports(env, s, cmd.operationId, cmd.operationGeneration, cmd.liveProcesses, cmd.liveIncarnations,
                          cmd.policyDigest);
    } else {
      EarlyStagesAreOver(env, s, cmd, logId);
    }
  }

  /** A released record stays as it is until the next generation begins. */
  lemma {:induction false} ReleasedStays(env: Env, s: MetaState, log: seq<Committed>)
    requires MaintenanceInv(env, s) && s.maintenance.Some? && s.maintenance.value.stage == Released
    ensures var t := ApplyLog(env, s, log);
            || t.maintenance == s.maintenance
            || (t.maintenance.Some? && t.maintenance.value.generation > s.maintenance.value.generation)
    decreases |log|
  {
    if log != [] {
      var next := Evaluate(env, s, log[0].cmd, log[0].logId).state;
      CommandStep(env, s, log[0].cmd, log[0].logId);
      if next.maintenance == s.maintenance {
        ReleasedStays(env, next, log[1..]);
      } else {
        RunsForward(env, next, log[1..]);
      }
    }
  }

  /** Within one operation's verification no run replaces a recorded report by one of an older process, or changes its
      policy without a later process. */
  lemma {:induction false} ProcessesNeverGoBack(env: Env, s: MetaState, log: seq<Committed>)
    requires MaintenanceInv(env, s) && s.maintenance.Some? && s.maintenance.value.stage == Verifying
    ensures var t := ApplyLog(env, s, log);
            t.maintenance.Some? && t.maintenance.value.generation == s.maintenance.value.generation
            ==> Supersedes(t.maintenance.value, s.maintenance.value)
    decreases |log|
  {
    if log != [] {
      var next := Evaluate(env, s, log[0].cmd, log[0].logId).state;
      CommandStep(env, s, log[0].cmd, log[0].logId);
      SupersedeStep(env, s, log[0].cmd, log[0].logId);
      if next.maintenance.value.stage == Verifying {
        ProcessesNeverGoBack(env, next, log[1..]);
      } else {
        ReleasedStays(env, next, log[1..]);
      }
    }
  }

  /** A verification that has been released had been completed, under one published policy. */
  lemma {:induction false} ReleasedInFull(env: Env, s: MetaState, log: seq<Committed>)
    requires MaintenanceInv(env, s) && s.maintenance.Some? && s.maintenance.value.stage == Verifying
    ensures var m := ApplyLog(env, s, log).maintenance;
            m.Some? && m.value.generation == s.maintenance.value.generation && m.value.stage == Released
            ==> && m.value.participants == s.maintenance.value.participants
                && m.value.recovered == m.value.participants && m.value.verificationPolicyDigest.Some?
    decreases |log|
  {
    if log != [] {
      var next := Evaluate(env, s, log[0].cmd, log[0].logId).state;
      CommandStep(env, s, log[0].cmd, log[0].logId);
      if next.maintenance.value.stage == Verifying {
        ReleasedInFull(env, next, log[1..]);
      } else {
        ReleasedStays(env, next, log[1..]);
      }
    }
  }

  // -- Recorded policies --------------------------------------------------------------------------

  /** No participant is on record with the zero digest. */
  ghost predicate Vouched(m: Option<MaintenanceRecord>) {
    m.Some? ==> forall n :: Lookup(m.value.recoveryPolicyDigests, n) != Some(0)
  }

  lemma ReportVouches(env: Env, s: MetaState, cmd: MetaCommand, o: Outcome)
    requires cmd.AcknowledgeMaintenanceRecovery? && MaintenanceInv(env, s) && Vouched(s.maintenance)
    requires o == RecoveryOutcome(env, s, cmd)
    ensures Vouched(o.state.maintenance)
  {
    if o.result.MetaApplied? {
      RecoveryFacts(env, s, cmd, o);
      forall n ensures Lookup(o.state.maintenance.value.recoveryPolicyDigests, n) != Some(0) {
        UpsertLookup(s.maintenance.value.recoveryPolicyDigests, cmd.node, cmd.policyDigest, n);
      }
    }
  }

  lemma EarlyStagesVouch(env: Env, s: MetaState, cmd: MetaCommand, logId: LogId)
    requires cmd.BeginMaintenance? || cmd.AcknowledgeMaintenance? || cmd.QuiesceMaintenance?
             || cmd.EnterMaintenanceVerification?
    requires Vouched(s.maintenance)
    ensures Vouched(Evaluate(env, s, cmd, logId).state.maintenance)
  {
  }

  lemma VouchStep(env: Env, s: MetaState, cmd: MetaCommand, logId: LogId)
    requires MaintenanceInv(env, s) && Vouched(s.maintenance)
    ensures Vouched(Evaluate(env, s, cmd, logId).state.maintenance)
  {
    if !IsMaintenanceCommand(cmd) {
      OtherStep(env, s, cmd, logId);
    } else if cmd.AcknowledgeMaintenanceRecovery? {
      ReportVouches(env, s, cmd, Evaluate(env, s, cmd, logId));
    } else if cmd.ReleaseMaintenance? {
      if s.maintenance.Some? {
        ReleaseKeepsReports(env, s, cmd.operationId, cmd.operationGeneration, cmd.liveProcesses, cmd.liveIncarnations,
                            cmd.policyDigest);
      }
    } else {
      EarlyStagesVouch(env, s, cmd, logId);
    }
  }

  lemma {:induction false} ReachableVouched(env: Env, log: seq<Committed>)
    ensures Vouched(ApplyLog(env, EMPTY_META, log).maintenance)
  {
    if log != [] {
      var before, c := log[..|log| - 1], log[|log| - 1];
      ReachableVouched(env, before);
      ReachableMaintenance(env, before);
      VouchStep(env, ApplyLog(env, EMPTY_META, before), c.cmd, c.logId);
      assert log == before + [c];
      ApplyLogSnoc(env, EMPTY_META, before, c);
    }
  }
}
