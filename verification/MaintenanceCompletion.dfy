/** When a maintenance operation can still be completed (src/meta/state_machine.rs): from a reachable state in which one
    is active, commands exist that take it through verification to its release, exactly if no participant is bound to
    another policy by a report of the last process there is. */
module MaintenanceCompletion {
  import opened Types
  import opened MetaStateMachine
  import opened MetaDecisions
  import opened MetaInvariants
  import opened MaintenanceLifecycle
  import opened MaintenanceHistory
  import Drain

  // -- What holds while an operation is active ----------------------------------------------------

  /** Every participant is still Active. */
  ghost predicate Attended(s: MetaState) {
    MaintenanceIsActive(s) ==> forall n :: n in s.maintenance.value.participants ==> IsActive(s, n)
  }

  lemma BeginAttends(s: MetaState, op: nat, gen: u64, participants: seq<NodeId>)
    requires Attended(s)
    ensures Attended(EvalBegin(s, op, gen, participants).state)
  {
    var o := EvalBegin(s, op, gen, participants);
    if o.result.MetaApplied? {
      BeginExactly(s, op, gen, participants);
      forall n | n in participants ensures IsActive(o.state, n) {
        assert n in VoterSet(participants);
      }
    }
  }

  lemma StaysAttended(env: Env, s: MetaState, cmd: MetaCommand, logId: LogId)
    requires MaintenanceInv(env, s) && Attended(s)
    ensures Attended(Evaluate(env, s, cmd, logId).state)
  {
    if cmd.BeginMaintenance? {
      BeginAttends(s, cmd.operationId, cmd.operationGeneration, cmd.participants);
    } else if MaintenanceIsActive(Evaluate(env, s, cmd, logId).state) {
      Drain.OnlyBeginActivates(env, s, cmd, logId);
      CommandStep(env, s, cmd, logId);
    }
  }

  lemma {:induction false} ReachableAttended(env: Env, log: seq<Committed>)
    ensures Attended(ApplyLog(env, EMPTY_META, log))
  {
    if log != [] {
      var before, c := log[..|log| - 1], log[|log| - 1];
      ReachableAttended(env, before);
      ReachableMaintenance(env, before);
      StaysAttended(env, ApplyLog(env, EMPTY_META, before), c.cmd, c.logId);
      assert log == before + [c];
      ApplyLogSnoc(env, EMPTY_META, before, c);
    }
  }

  // -- Acknowledging ------------------------------------------------------------------------------

  /** A sorted part of a sorted list that is not all of it misses something. */
  lemma Missing(part: seq<NodeId>, whole: seq<NodeId>) returns (n: NodeId)
    requires SortedSubset(part, whole) && Ascending(whole) && part != whole
    ensures n in whole && n !in part
  {
    if forall x :: x in whole ==> x in part {
      assert VoterSet(part) == VoterSet(whole);
      SortedSeqUnique(part);
      SortedSeqUnique(whole);
    }
    n :| n in whole && n !in part;
  }

  /** How many participants are still missing from a list. */
  ghost function Left(whole: seq<NodeId>, part: seq<NodeId>): nat {
    |VoterSet(whole) - VoterSet(part)|
  }

  lemma OneFewer(whole: seq<NodeId>, part: seq<NodeId>, n: NodeId)
    requires Ascending(part) && n in whole && n !in part
    ensures Left(whole, InsertSorted(part, n)) < Left(whole, part)
  {
    InsertKeepsAscending(part, n);
    var before, after := VoterSet(whole) - VoterSet(part), VoterSet(whole) - VoterSet(InsertSorted(part, n));
    assert after == before - {n} && n in before;
  }

  function AckOf(s: MetaState, n: NodeId, index: nat): Committed
    requires s.maintenance.Some? && n in s.nodes
  {
    var r := s.maintenance.value;
    Committed(AcknowledgeMaintenance(r.operationId, r.generation, n, s.nodes[n].incarnation), LogId(0, index))
  }

  function WithAcks(s: MetaState, acknowledged: seq<NodeId>): MetaState
    requires s.maintenance.Some?
  {
    s.(maintenance := Some(s.maintenance.value.(acknowledged := acknowledged)))
  }

  lemma AckLands(env: Env, s: MetaState, n: NodeId, index: nat)
    requires s.maintenance.Some? && s.maintenance.value.stage == Preparing
    requires n in s.maintenance.value.participants && n !in s.maintenance.value.acknowledged && IsActive(s, n)
    ensures var c := AckOf(s, n, index);
            Evaluate(env, s, c.cmd, c.logId).state == WithAcks(s, InsertSorted(s.maintenance.value.acknowledged, n))
  {
  }

  lemma AckHelps(env: Env, s: MetaState, n: NodeId, index: nat)
    requires MaintenanceInv(env, s) && Attended(s) && s.maintenance.Some? && s.maintenance.value.stage == Preparing
    requires n in s.maintenance.value.participants && n !in s.maintenance.value.acknowledged
    ensures n in s.nodes
    ensures var r, c := s.maintenance.value, AckOf(s, n, index);
            var next := WithAcks(s, InsertSorted(r.acknowledged, n));
            && Evaluate(env, s, c.cmd, c.logId).state == next && MaintenanceInv(env, next) && Attended(next)
            && Left(r.participants, next.maintenance.value.acknowledged) < Left(r.participants, r.acknowledged)
  {
    AckLands(env, s, n, index);
    CommandStep(env, s, AckOf(s, n, index).cmd, LogId(0, index));
    OneFewer(s.maintenance.value.participants, s.maintenance.value.acknowledged, n);
  }

  /** The missing participants acknowledge, one after the other. */
  lemma {:induction false} AckAll(env: Env, s: MetaState, index: nat) returns (log: seq<Committed>)
    requires MaintenanceInv(env, s) && Attended(s) && s.maintenance.Some? && s.maintenance.value.stage == Preparing
    ensures Numbered(log, index) && ApplyLog(env, s, log) == WithAcks(s, s.maintenance.value.participants)
    decreases Left(s.maintenance.value.participants, s.maintenance.value.acknowledged)
  {
    var r := s.maintenance.value;
    log := [];
    if r.acknowledged != r.participants {
      var n := Missing(r.acknowledged, r.participants);
      AckHelps(env, s, n, index);
      var rest := AckAll(env, WithAcks(s, InsertSorted(r.acknowledged, n)), index + 1);
      Prepend(env, s, AckOf(s, n, index), WithAcks(s, InsertSorted(r.acknowledged, n)), rest, index);
      log := [AckOf(s, n, index)] + rest;
    }
  }

  // -- Quiescing and entering verification --------------------------------------------------------

  function WithStage(s: MetaState, stage: MaintenanceStage): MetaState
    requires s.maintenance.Some?
  {
    s.(maintenance := Some(s.maintenance.value.(stage := stage)))
  }

  lemma QuiesceLands(env: Env, s: MetaState, index: nat) returns (log: seq<Committed>)
    requires s.maintenance.Some? && s.maintenance.value.stage == Preparing
    requires s.maintenance.value.acknowledged == s.maintenance.value.participants
    ensures Numbered(log, index) && ApplyLog(env, s, log) == WithStage(s, Quiesced)
  {
    var r := s.maintenance.value;
    var c := Committed(QuiesceMaintenance(r.operationId, r.generation), LogId(0, index));
    Prepend(env, s, c, WithStage(s, Quiesced), [], index);
    log := [c] + [];
  }

  lemma VerificationLands(env: Env, s: MetaState, index: nat) returns (log: seq<Committed>)
    requires MaintenanceInv(env, s) && s.maintenance.Some? && s.maintenance.value.stage == Quiesced
    ensures Numbered(log, index)
    ensures var t := ApplyLog(env, s, log);
            && t == s.(maintenance := t.maintenance) && MaintenanceInv(env, t) && t.maintenance.Some?
            && Continues(s.maintenance.value, t.maintenance.value)
            && t.maintenance.value.stage == Verifying && t.maintenance.value.recoveryPolicyDigests == []
  {
    var r := s.maintenance.value;
    var c := Committed(EnterMaintenanceVerification(r.operationId, r.generation), LogId(0, index));
    Prepend(env, s, c, Evaluate(env, s, c.cmd, c.logId).state, [], index);
    CommandStep(env, s, c.cmd, c.logId);
    log := [c] + [];
  }

  /** The same operation, over the same participants. */
  ghost predicate Continues(r: MaintenanceRecord, r': MaintenanceRecord) {
    r'.operationId == r.operationId && r'.generation == r.generation && r'.participants == r.participants
  }

  // -- Recovering ---------------------------------------------------------------------------------

  /** The process and the policy each participant is to report. */
  type Wanted = NodeId -> (u64, nat)

  ghost predicate Met(r: MaintenanceRecord, want: Wanted, n: NodeId) {
    ProcessOf(r, n) == Some(want(n).0) && PolicyOf(r, n) == Some(want(n).1)
  }

  /** The wanted report is on record, or would supersede what is. */
  ghost predicate Open(r: MaintenanceRecord, want: Wanted, n: NodeId) {
    || Met(r, want, n)
    || (&& want(n).0 != 0 && want(n).1 != 0
        && (ProcessOf(r, n).Some? ==> ProcessOf(r, n).value < want(n).0))
  }

  ghost function Unmet(r: MaintenanceRecord, want: Wanted): set<NodeId> {
    set n | n in r.participants && !Met(r, want, n)
  }

  /** Verification under way: everyone is attended and the topology is settled. */
  ghost predicate Verifies(env: Env, s: MetaState) {
    && MaintenanceInv(env, s) && Attended(s) && Drain.Covered(s) && s.cluster.Some?
    && s.maintenance.Some? && s.maintenance.value.stage == Verifying
  }

  ghost predicate Collects(env: Env, s: MetaState, want: Wanted) {
    Verifies(env, s) && forall n :: n in s.maintenance.value.participants ==> Open(s.maintenance.value, want, n)
  }

  function ReportOf(env: Env, s: MetaState, n: NodeId, process: u64, d: nat, index: nat): Committed
    requires s.maintenance.Some? && n in s.nodes && s.cluster.Some?
    requires ScanTopology(s, n, Groups(s.cluster.value.p)).Scanned?
  {
    var r, scan := s.maintenance.value, ScanTopology(s, n, Groups(s.cluster.value.p));
    Committed(AcknowledgeMaintenanceRecovery(r.operationId, r.generation, n, s.nodes[n].incarnation, process,
                                             TopologyDigest(scan.groups), d, env.recoveryEpoch), LogId(0, index))
  }

  function Recovered(env: Env, s: MetaState, n: NodeId, process: u64, d: nat): MetaState
    requires s.maintenance.Some?
  {
    s.(maintenance := Some(Recover(s.maintenance.value, n, process, d, env.recoveryEpoch)))
  }

  lemma ScanSucceeds(s: MetaState, n: NodeId)
    requires Drain.Covered(s) && MaintenanceIsActive(s)
    ensures s.cluster.Some? && ScanTopology(s, n, Groups(s.cluster.value.p)).Scanned?
  {
    ScanExactly(s, n, Groups(s.cluster.value.p));
    forall g | g in Groups(s.cluster.value.p) ensures g in s.placements && s.placements[g].move.None? {
      assert SettledOn(s, g, VoterSet(s.maintenance.value.participants));
    }
  }

  /** A report of a later process than the one on record, if there is one, is taken. */
  lemma ReportLands(env: Env, s: MetaState, n: NodeId, process: u64, d: nat, index: nat)
    requires s.maintenance.Some? && s.maintenance.value.stage == Verifying && s.cluster.Some? && d != 0 && process != 0
    requires n in s.maintenance.value.participants && IsActive(s, n)
    requires var previous := ProcessOf(s.maintenance.value, n);
             previous.Some? ==> previous.value < process
    requires ScanTopology(s, n, Groups(s.cluster.value.p)).Scanned?
    ensures RecoveryOutcome(env, s, ReportOf(env, s, n, process, d, index).cmd).state
            == Recovered(env, s, n, process, d)
  {
  }

  lemma ReportReaches(env: Env, s: MetaState, n: NodeId, want: Wanted, index: nat)
    requires Collects(env, s, want) && n in Unmet(s.maintenance.value, want)
    ensures n in s.nodes && ScanTopology(s, n, Groups(s.cluster.value.p)).Scanned?
    ensures var c := ReportOf(env, s, n, want(n).0, want(n).1, index);
            Evaluate(env, s, c.cmd, c.logId).state == Recovered(env, s, n, want(n).0, want(n).1)
  {
    ScanSucceeds(s, n);
    ReportLands(env, s, n, want(n).0, want(n).1, index);
    ReachesRecovery(env, s, ReportOf(env, s, n, want(n).0, want(n).1, index).cmd, LogId(0, index));
  }

  /** The report of `n` leaves every other one as it was. */
  lemma ReportMeets(env: Env, r: MaintenanceRecord, n: NodeId, want: Wanted)
    requires RecordInv(env, r) && r.stage == Verifying && n in Unmet(r, want)
    requires forall m :: m in r.participants ==> Open(r, want, m)
    ensures var t := Recover(r, n, want(n).0, want(n).1, env.recoveryEpoch);
            Unmet(t, want) == Unmet(r, want) - {n} && forall m :: m in t.participants ==> Open(t, want, m)
  {
    RecoverKeeps(env, r, n, want(n).0, want(n).1);
    var t := Recover(r, n, want(n).0, want(n).1, env.recoveryEpoch);
    assert Met(t, want, n);
    forall m | m != n ensures (Met(t, want, m) <==> Met(r, want, m)) && (Open(t, want, m) <==> Open(r, want, m)) {
    }
  }

  /** After one more report verification is still under way, with one report fewer to come. */
  lemma ReportHelps(env: Env, s: MetaState, n: NodeId, want: Wanted)
    requires Collects(env, s, want) && n in Unmet(s.maintenance.value, want)
    ensures var r, next := s.maintenance.value, Recovered(env, s, n, want(n).0, want(n).1);
            && Collects(env, next, want) && Continues(r, next.maintenance.value)
            && Unmet(next.maintenance.value, want) == Unmet(r, want) - {n}
  {
    RecoverKeeps(env, s.maintenance.value, n, want(n).0, want(n).1);
    ReportMeets(env, s.maintenance.value, n, want);
    Drain.CoveredFrame(s, Recovered(env, s, n, want(n).0, want(n).1));
  }

  /** From `s` to `t` only the record changed, and it now holds every wanted report. */
  ghost predicate AllIn(env: Env, s: MetaState, t: MetaState, want: Wanted) {
    && t == s.(maintenance := t.maintenance) && Verifies(env, t) && s.maintenance.Some?
    && Continues(s.maintenance.value, t.maintenance.value)
    && Unmet(t.maintenance.value, want) == {}
  }

  lemma AllInBefore(env: Env, s: MetaState, next: MetaState, t: MetaState, want: Wanted)
    requires AllIn(env, next, t, want) && next == s.(maintenance := next.maintenance)
    requires s.maintenance.Some? && Continues(s.maintenance.value, next.maintenance.value)
    ensures AllIn(env, s, t, want)
  {
  }

  /** The participants whose reports are wanting report, one after the other. */
  lemma {:induction false} ReportAll(env: Env, s: MetaState, want: Wanted, index: nat) returns (log: seq<Committed>)
    requires Collects(env, s, want)
    ensures Numbered(log, index) && AllIn(env, s, ApplyLog(env, s, log), want)
    decreases |Unmet(s.maintenance.value, want)|
  {
    log := [];
    if Unmet(s.maintenance.value, want) == {} {
      assert s == s.(maintenance := s.maintenance);
    } else {
      var n :| n in Unmet(s.maintenance.value, want);
      var next := Recovered(env, s, n, want(n).0, want(n).1);
      ReportReaches(env, s, n, want, index);
      ReportHelps(env, s, n, want);
      var c := ReportOf(env, s, n, want(n).0, want(n).1, index);
      var rest := ReportAll(env, next, want, index + 1);
      Prepend(env, s, c, next, rest, index);
      AllInBefore(env, s, next, ApplyLog(env, next, rest), want);
      log := [c] + rest;
    }
  }

  /** With every wanted report in, everyone has recovered. */
  lemma AllRecovered(env: Env, r: MaintenanceRecord, want: Wanted)
    requires RecordInv(env, r) && Unmet(r, want) == {}
    ensures r.recovered == r.participants
    ensures forall n :: n in r.participants ==> Met(r, want, n)
  {
    forall n | n in r.participants ensures n in r.recovered && Met(r, want, n) {
      assert n !in Unmet(r, want);
      RecordedHasRecovered(env, r, n);
    }
    if r.recovered != r.participants {
      var n := Missing(r.recovered, r.participants);
      assert false;
    }
  }

  /** And under one policy, if one was wanted. */
  lemma AllAgree(env: Env, r: MaintenanceRecord, want: Wanted, d: nat)
    requires RecordInv(env, r) && Unmet(r, want) == {} && forall n :: n in r.participants ==> want(n).1 == d
    ensures r.recovered == r.participants && AllEqual(r.recoveryPolicyDigests, d)
  {
    AllRecovered(env, r, want);
    var pairs := r.recoveryPolicyDigests;
    forall i | 0 <= i < |pairs| ensures pairs[i].1 == d {
      assert pairs[i].0 == PairKeys(pairs)[i] && PairKeys(pairs)[i] in r.participants;
      LookupAt(pairs, i);
      assert Met(r, want, pairs[i].0);
    }
  }

  // -- Releasing ----------------------------------------------------------------------------------

  function LiveIncarnations(s: MetaState, ids: seq<NodeId>): (live: seq<(NodeId, u64)>)
    requires forall n :: n in ids ==> n in s.nodes
    ensures |live| == |ids|
    ensures forall i :: 0 <= i < |ids| ==> live[i] == (ids[i], s.nodes[ids[i]].incarnation)
  {
    seq(|ids|, i requires 0 <= i < |ids| => assert ids[i] in ids; (ids[i], s.nodes[ids[i]].incarnation))
  }

  lemma ReleaseLands(env: Env, s: MetaState, d: nat, index: nat) returns (log: seq<Committed>)
    requires Verifies(env, s) && s.maintenance.value.recovered == s.maintenance.value.participants
    requires AllEqual(s.maintenance.value.recoveryPolicyDigests, d)
    ensures Numbered(log, index) && ApplyLog(env, s, log) == WithStage(s, Released)
  {
    var r := s.maintenance.value;
    var live := LiveIncarnations(s, r.participants);
    var c := Committed(ReleaseMaintenance(r.operationId, r.generation, r.recoveryProcesses, live, d), LogId(0, index));
    ReleaseExactly(env, s, r.operationId, r.generation, r.recoveryProcesses, live, d);
    assert r.verificationPolicyDigest == Some(d);
    Prepend(env, s, c, WithStage(s, Released), [], index);
    log := [c] + [];
  }

  // -- The whole operation ------------------------------------------------------------------------

  /** Nothing later than the last process can replace the report of `n`. */
  ghost predicate Final(r: MaintenanceRecord, n: NodeId) {
    ProcessOf(r, n) == Some(U64_MAX)
  }

  /** Nobody is bound to another policy than `d`. */
  ghost predicate Settleable(r: MaintenanceRecord, d: nat) {
    d != 0 && forall n :: n in r.participants && Final(r, n) ==> PolicyOf(r, n) == Some(d)
  }

  /** Who has reported `d` need not report again; everyone else reports it as the next process, or as `process` if it
      is their first report. */
  function Agreement(r: MaintenanceRecord, process: u64, d: nat): Wanted {
    (n: NodeId) =>
      var previous := ProcessOf(r, n);
      if previous.None? then (process, d)
      else if PolicyOf(r, n) == Some(d) || previous.value == U64_MAX then (previous.value, d)
      else (previous.value + 1, d)
  }

  lemma SettleableCollects(env: Env, s: MetaState, process: u64, d: nat)
    requires Verifies(env, s) && Settleable(s.maintenance.value, d) && process != 0
    ensures Collects(env, s, Agreement(s.maintenance.value, process, d))
  {
    var r, want := s.maintenance.value, Agreement(s.maintenance.value, process, d);
    forall n | n in r.participants ensures Open(r, want, n) {
      assert Final(r, n) ==> PolicyOf(r, n) == Some(d);
    }
  }

  /** Before verification nobody is bound to any policy. */
  lemma EarlySettleable(env: Env, r: MaintenanceRecord, d: nat)
    requires RecordInv(env, r) && (r.stage == Preparing || r.stage == Quiesced)
    ensures Settleable(r, d) <==> d != 0
  {
    forall n ensures !Final(r, n) {
      RecordedHasRecovered(env, r, n);
    }
  }

  /** From `s` to `t` the operation was completed: every participant recovered under policy `d`, and it was released;
      nothing but its record has changed. */
  ghost predicate CompletedAs(s: MetaState, t: MetaState, d: nat) {
    && t == s.(maintenance := t.maintenance) && s.maintenance.Some? && t.maintenance.Some?
    && Continues(s.maintenance.value, t.maintenance.value) && t.maintenance.value.stage == Released
    && t.maintenance.value.recovered == t.maintenance.value.participants
    && AllEqual(t.maintenance.value.recoveryPolicyDigests, d)
  }

  lemma VerifyingCompletes(env: Env, s: MetaState, process: u64, d: nat, index: nat) returns (log: seq<Committed>)
    requires Verifies(env, s) && Settleable(s.maintenance.value, d) && process != 0
    ensures Numbered(log, index) && CompletedAs(s, ApplyLog(env, s, log), d)
  {
    var want := Agreement(s.maintenance.value, process, d);
    SettleableCollects(env, s, process, d);
    var reports := ReportAll(env, s, want, index);
    var t := ApplyLog(env, s, reports);
    AllAgree(env, t.maintenance.value, want, d);
    var release := ReleaseLands(env, t, d, index + |reports|);
    Chain(env, s, reports, release, index);
    log := reports + release;
  }

  lemma CompletedBefore(s: MetaState, next: MetaState, t: MetaState, d: nat)
    requires CompletedAs(next, t, d) && next == s.(maintenance := next.maintenance)
    requires s.maintenance.Some? && Continues(s.maintenance.value, next.maintenance.value)
    ensures CompletedAs(s, t, d)
  {
  }

  /** From `s` to `t` only the record changed, and the same operation has entered verification, with no report yet. */
  ghost predicate Entered(env: Env, s: MetaState, t: MetaState) {
    && t == s.(maintenance := t.maintenance) && Verifies(env, t) && s.maintenance.Some?
    && Continues(s.maintenance.value, t.maintenance.value) && t.maintenance.value.recovered == []
  }

  lemma QuiescedEnters(env: Env, s: MetaState, index: nat) returns (log: seq<Committed>)
    requires MaintenanceInv(env, s) && Attended(s) && Drain.Covered(s)
    requires s.maintenance.Some? && s.maintenance.value.stage == Quiesced
    ensures Numbered(log, index) && Entered(env, s, ApplyLog(env, s, log))
  {
    log := VerificationLands(env, s, index);
    Drain.CoveredFrame(s, ApplyLog(env, s, log));
  }

  lemma PreparingEnters(env: Env, s: MetaState, index: nat) returns (log: seq<Committed>)
    requires MaintenanceInv(env, s) && Attended(s) && Drain.Covered(s)
    requires s.maintenance.Some? && s.maintenance.value.stage == Preparing
    ensures Numbered(log, index) && Entered(env, s, ApplyLog(env, s, log))
  {
    var acks := AckAll(env, s, index);
    var ready := WithAcks(s, s.maintenance.value.participants);
    var quiesce := QuiesceLands(env, ready, index + |acks|);
    Chain(env, s, acks, quiesce, index);
    var t := WithStage(ready, Quiesced);
    RunsForward(env, s, acks + quiesce);
    Drain.CoveredFrame(s, t);
    var rest := QuiescedEnters(env, t, index + |acks + quiesce|);
    Chain(env, s, acks + quiesce, rest, index);
    log := (acks + quiesce) + rest;
  }

  /** An operation that is preparing or quiesced can enter verification. */
  lemma Enters(env: Env, s: MetaState, index: nat) returns (log: seq<Committed>)
    requires MaintenanceInv(env, s) && Attended(s) && Drain.Covered(s) && s.maintenance.Some?
    requires s.maintenance.value.stage == Preparing || s.maintenance.value.stage == Quiesced
    ensures Numbered(log, index) && Entered(env, s, ApplyLog(env, s, log))
  {
    if s.maintenance.value.stage == Preparing {
      log := PreparingEnters(env, s, index);
    } else {
      log := QuiescedEnters(env, s, index);
    }
  }

  lemma EarlyCompletes(env: Env, s: MetaState, process: u64, d: nat, index: nat) returns (log: seq<Committed>)
    requires MaintenanceInv(env, s) && Attended(s) && Drain.Covered(s) && s.maintenance.Some?
    requires s.maintenance.value.stage == Preparing || s.maintenance.value.stage == Quiesced
    requires d != 0 && process != 0
    ensures Numbered(log, index) && CompletedAs(s, ApplyLog(env, s, log), d)
  {
    var enter := Enters(env, s, index);
    var t := ApplyLog(env, s, enter);
    forall n ensures !Final(t.maintenance.value, n) { RecordedHasRecovered(env, t.maintenance.value, n); }
    var rest := VerifyingCompletes(env, t, process, d, index + |enter|);
    Chain(env, s, enter, rest, index);
    CompletedBefore(s, t, ApplyLog(env, t, rest), d);
    log := enter + rest;
  }

  /** Whatever was committed, an active operation with nobody bound to another policy can still be completed under
      policy `d`: some continuation of the log collects every acknowledgement, quiesces, verifies every participant
      under that policy, and releases, and changes nothing but the record on the way. */
  lemma OperationsCanComplete(env: Env, log: seq<Committed>, process: u64, d: nat) returns (more: seq<Committed>)
    requires LogOrdered(log) && process != 0
    requires var s := ApplyLog(env, EMPTY_META, log); MaintenanceIsActive(s) && Settleable(s.maintenance.value, d)
    ensures LogOrdered(log + more)
    ensures CompletedAs(ApplyLog(env, EMPTY_META, log), ApplyLog(env, EMPTY_META, log + more), d)
  {
    var s := ApplyLog(env, EMPTY_META, log);
    ReachableMaintenance(env, log);
    ReachableAttended(env, log);
    Drain.ReachableCovered(env, log);
    if s.maintenance.value.stage == Verifying {
      more := VerifyingCompletes(env, s, process, d, Bound(log));
    } else {
      more := EarlyCompletes(env, s, process, d, Bound(log));
    }
    NumberedIsOrdered(log, more);
    ApplyLogConcat(env, EMPTY_META, log, more);
  }

  // -- When it cannot be completed ----------------------------------------------------------------

  /** A final report is on record, unchanged, for as long as the operation is. */
  lemma FinalStays(env: Env, s: MetaState, log: seq<Committed>, n: NodeId)
    requires MaintenanceInv(env, s) && s.maintenance.Some? && s.maintenance.value.stage == Verifying
    requires Final(s.maintenance.value, n)
    ensures var t := ApplyLog(env, s, log);
            t.maintenance.Some? && t.maintenance.value.generation == s.maintenance.value.generation
            ==> PolicyOf(t.maintenance.value, n) == PolicyOf(s.maintenance.value, n)
  {
    ProcessesNeverGoBack(env, s, log);
  }

  lemma AllEqualLookup(pairs: seq<(NodeId, nat)>, n: NodeId, d: nat)
    requires AllEqual(pairs, d) && Lookup(pairs, n).Some?
    ensures Lookup(pairs, n) == Some(d)
  {
    LookupFinds(pairs, n);
    var i :| 0 <= i < |pairs| && pairs[i] == (n, Lookup(pairs, n).value);
  }

  /** Some continuation of the log completes the operation under policy `d`. */
  ghost predicate Completable(env: Env, log: seq<Committed>, d: nat) {
    exists more :: LogOrdered(log + more)
      && CompletedAs(ApplyLog(env, EMPTY_META, log), ApplyLog(env, EMPTY_META, log + more), d)
  }

  lemma CompletedUnder(env: Env, log: seq<Committed>, d: nat)
    requires var m := ApplyLog(env, EMPTY_META, log).maintenance;
             && m.Some? && m.value.recovered == m.value.participants && AllEqual(m.value.recoveryPolicyDigests, d)
    ensures var r := ApplyLog(env, EMPTY_META, log).maintenance.value;
            d != 0 && forall n :: n in r.participants ==> PolicyOf(r, n) == Some(d)
  {
    var r := ApplyLog(env, EMPTY_META, log).maintenance.value;
    ReachableMaintenance(env, log);
    ReachableVouched(env, log);
    forall n | n in r.participants ensures PolicyOf(r, n) == Some(d) {
      RecordedHasRecovered(env, r, n);
      AllEqualLookup(r.recoveryPolicyDigests, n, d);
    }
    assert r.participants[0] in r.participants;
  }

  lemma CompletedWasSettleable(env: Env, log: seq<Committed>, more: seq<Committed>, d: nat)
    requires MaintenanceIsActive(ApplyLog(env, EMPTY_META, log))
    requires CompletedAs(ApplyLog(env, EMPTY_META, log), ApplyLog(env, EMPTY_META, log + more), d)
    ensures Settleable(ApplyLog(env, EMPTY_META, log).maintenance.value, d)
  {
    var s := ApplyLog(env, EMPTY_META, log);
    var r := s.maintenance.value;
    ReachableMaintenance(env, log);
    ApplyLogConcat(env, EMPTY_META, log, more);
    CompletedUnder(env, log + more, d);
    if r.stage == Verifying {
      forall n | n in r.participants && Final(r, n) ensures PolicyOf(r, n) == Some(d) {
        FinalStays(env, s, more, n);
      }
    } else {
      EarlySettleable(env, r, d);
    }
  }

  /** An active operation can be completed under a policy exactly if no participant is bound to another one. */
  lemma CompletableExactly(env: Env, log: seq<Committed>, d: nat)
    requires LogOrdered(log) && MaintenanceIsActive(ApplyLog(env, EMPTY_META, log))
    ensures Completable(env, log, d) <==> Settleable(ApplyLog(env, EMPTY_META, log).maintenance.value, d)
  {
    var s := ApplyLog(env, EMPTY_META, log);
    if Completable(env, log, d) {
      var more :| LogOrdered(log + more) && CompletedAs(s, ApplyLog(env, EMPTY_META, log + more), d);
      CompletedWasSettleable(env, log, more, d);
    }
    if Settleable(s.maintenance.value, d) {
      var more := OperationsCanComplete(env, log, 1, d);
      assert CompletedAs(s, ApplyLog(env, EMPTY_META, log + more), d);
    }
  }

  // -- Whether it can be released at all ----------------------------------------------------------

  /** From `s` to `t` the operation was released. */
  ghost predicate ReleasedAs(s: MetaState, t: MetaState) {
    && s.maintenance.Some? && t.maintenance.Some? && t.maintenance.value.stage == Released
    && t.maintenance.value.generation == s.maintenance.value.generation
  }

  ghost predicate Releasable(env: Env, log: seq<Committed>) {
    exists more :: LogOrdered(log + more)
      && ReleasedAs(ApplyLog(env, EMPTY_META, log), ApplyLog(env, EMPTY_META, log + more))
  }

  /** No two participants are bound to different policies. */
  ghost predicate Reconcilable(r: MaintenanceRecord) {
    forall m, n :: m in r.participants && n in r.participants && Final(r, m) && Final(r, n) ==>
      PolicyOf(r, m) == PolicyOf(r, n)
  }

  lemma ReleasedWasReconcilable(env: Env, log: seq<Committed>, more: seq<Committed>)
    requires var m := ApplyLog(env, EMPTY_META, log).maintenance; m.Some? && m.value.stage == Verifying
    requires ReleasedAs(ApplyLog(env, EMPTY_META, log), ApplyLog(env, EMPTY_META, log + more))
    ensures Reconcilable(ApplyLog(env, EMPTY_META, log).maintenance.value)
  {
    var s, t := ApplyLog(env, EMPTY_META, log), ApplyLog(env, EMPTY_META, log + more);
    var r := s.maintenance.value;
    ReachableMaintenance(env, log);
    ReachableMaintenance(env, log + more);
    ApplyLogConcat(env, EMPTY_META, log, more);
    ReleasedInFull(env, s, more);
    CompletedUnder(env, log + more, t.maintenance.value.verificationPolicyDigest.value);
    forall n | n in r.participants && Final(r, n)
      ensures PolicyOf(r, n) == t.maintenance.value.verificationPolicyDigest
    {
      FinalStays(env, s, more, n);
    }
  }

  lemma ReconcilableIsSettleable(env: Env, s: MetaState) returns (d: nat)
    requires MaintenanceInv(env, s) && Vouched(s.maintenance) && s.maintenance.Some?
    requires Reconcilable(s.maintenance.value)
    ensures Settleable(s.maintenance.value, d)
  {
    var r := s.maintenance.value;
    d := 1;
    if n :| n in r.participants && Final(r, n) {
      RecordedHasRecovered(env, r, n);
      d := PolicyOf(r, n).value;
    }
  }

  /** An operation under verification can be released exactly if no two participants are bound to different policies. */
  lemma ReleasableExactly(env: Env, log: seq<Committed>)
    requires LogOrdered(log)
    requires var m := ApplyLog(env, EMPTY_META, log).maintenance; m.Some? && m.value.stage == Verifying
    ensures Releasable(env, log) <==> Reconcilable(ApplyLog(env, EMPTY_META, log).maintenance.value)
  {
    var s := ApplyLog(env, EMPTY_META, log);
    if Releasable(env, log) {
      var more :| LogOrdered(log + more) && ReleasedAs(s, ApplyLog(env, EMPTY_META, log + more));
      ReleasedWasReconcilable(env, log, more);
    }
    if Reconcilable(s.maintenance.value) {
      ReachableMaintenance(env, log);
      ReachableVouched(env, log);
      var d := ReconcilableIsSettleable(env, s);
      var more := OperationsCanComplete(env, log, 1, d);
      assert ReleasedAs(s, ApplyLog(env, EMPTY_META, log + more));
    }
  }
}
