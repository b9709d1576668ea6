/** The maintenance operation that nothing can end (src/meta/state_machine.rs): every participant has reported the last
    process there is, and not all of them the same policy. */
module MaintenanceWedge {
  import opened Types
  import opened MetaStateMachine
  import opened MetaDecisions
  import opened MetaInvariants
  import opened MaintenanceLifecycle
  import opened MaintenanceHistory
  import opened MaintenanceCompletion
  import Bootstrap
  import Config
  import Drain
  import Genesis

  // -- Nothing moves it ---------------------------------------------------------------------------

  /** Under verification, with a final report of everyone, not all of one policy. */
  ghost predicate Wedged(m: Option<MaintenanceRecord>) {
    && m.Some? && m.value.stage == Verifying
    && (forall n :: n in m.value.participants ==> Final(m.value, n))
    && !Reconcilable(m.value)
  }

  lemma WedgedReport(env: Env, s: MetaState, cmd: MetaCommand)
    requires cmd.AcknowledgeMaintenanceRecovery? && MaintenanceInv(env, s) && Wedged(s.maintenance)
    ensures RecoveryOutcome(env, s, cmd).state == s
  {
    var o := RecoveryOutcome(env, s, cmd);
    if cmd.node in s.maintenance.value.participants && o.result.MetaApplied? {
      RecordedHasRecovered(env, s.maintenance.value, cmd.node);
      ReportIsNewer(env, s, cmd, o);
      assert false;
    }
  }

  lemma WedgedRelease(env: Env, s: MetaState, op: nat, gen: u64, processes: seq<(NodeId, u64)>,
                      incarnations: seq<(NodeId, u64)>, d: nat)
    requires MaintenanceInv(env, s) && Wedged(s.maintenance)
    ensures EvalRelease(env, s, op, gen, processes, incarnations, d).state == s
  {
    var r := s.maintenance.value;
    ReleaseExactly(env, s, op, gen, processes, incarnations, d);
    if r.recovered == r.participants && AllEqual(r.recoveryPolicyDigests, d) {
      forall n | n in r.participants ensures PolicyOf(r, n) == Some(d) {
        RecordedHasRecovered(env, r, n);
        AllEqualLookup(r.recoveryPolicyDigests, n, d);
      }
      assert Reconcilable(r);
      assert false;
    }
  }

  lemma WedgedStep(env: Env, s: MetaState, cmd: MetaCommand, logId: LogId)
    requires MaintenanceInv(env, s) && Wedged(s.maintenance)
    ensures Evaluate(env, s, cmd, logId).state == s
  {
    if !IsMaintenanceCommand(cmd) {
      OtherStep(env, s, cmd, logId);
    } else if cmd.AcknowledgeMaintenanceRecovery? {
      ReachesRecovery(env, s, cmd, logId);
      WedgedReport(env, s, cmd);
    } else if cmd.ReleaseMaintenance? {
      ReachesRelease(env, s, cmd, logId);
      WedgedRelease(env, s, cmd.operationId, cmd.operationGeneration, cmd.liveProcesses, cmd.liveIncarnations,
                    cmd.policyDigest);
    } else {
      EarlyStagesAreOver(env, s, cmd, logId);
    }
  }

  /** Nothing that is committed ever changes a wedged operation, or anything else of the cluster. */
  lemma {:induction false} WedgedForever(env: Env, s: MetaState, log: seq<Committed>)
    requires MaintenanceInv(env, s) && Wedged(s.maintenance)
    ensures ApplyLog(env, s, log) == s
    decreases |log|
  {
    if log != [] {
      WedgedStep(env, s, log[0].cmd, log[0].logId);
      WedgedForever(env, s, log[1..]);
    }
  }

  // -- How it comes about -------------------------------------------------------------------------

  /** With no report yet, any report can be wanted. */
  lemma FreshCollects(env: Env, s: MetaState, want: Wanted)
    requires Verifies(env, s) && s.maintenance.value.recovered == []
    requires forall n :: want(n).0 != 0 && want(n).1 != 0
    ensures Collects(env, s, want)
  {
    forall n ensures Open(s.maintenance.value, want, n) {
      RecordedHasRecovered(env, s.maintenance.value, n);
    }
  }

  lemma DifferentPoliciesWedge(env: Env, s: MetaState, t: MetaState, want: Wanted)
    requires AllIn(env, s, t, want) && |t.maintenance.value.participants| >= 2
    requires var ids := t.maintenance.value.participants; want(ids[0]).1 != want(ids[1]).1
    requires forall n :: want(n).0 == U64_MAX
    ensures Wedged(t.maintenance)
  {
    var r := t.maintenance.value;
    AllRecovered(env, r, want);
    var m, n := r.participants[0], r.participants[1];
    assert m in r.participants && n in r.participants && Met(r, want, m) && Met(r, want, n);
    assert Final(r, m) && Final(r, n) && PolicyOf(r, m) != PolicyOf(r, n);
  }

  /** The log leaves a wedged operation, and whatever it is continued with is of no effect. */
  ghost predicate WedgedBy(env: Env, log: seq<Committed>) {
    && Wedged(ApplyLog(env, EMPTY_META, log).maintenance)
    && forall rest :: ApplyLog(env, EMPTY_META, log + rest) == ApplyLog(env, EMPTY_META, log)
  }

  /** Whatever was committed, an operation over two participants or more that is preparing or quiesced can be wedged: it
      enters verification, and everyone reports the last process, the first participant policy `d`, the others `e`. */
  lemma OperationsCanWedge(env: Env, log: seq<Committed>, d: nat, e: nat) returns (more: seq<Committed>)
    requires LogOrdered(log) && d != 0 && e != 0 && d != e
    requires var m := ApplyLog(env, EMPTY_META, log).maintenance;
             && m.Some? && (m.value.stage == Preparing || m.value.stage == Quiesced) && |m.value.participants| >= 2
    ensures LogOrdered(log + more) && WedgedBy(env, log + more)
  {
    var s := ApplyLog(env, EMPTY_META, log);
    ReachableMaintenance(env, log);
    ReachableAttended(env, log);
    Drain.ReachableCovered(env, log);
    var first := s.maintenance.value.participants[0];
    var want: Wanted := n => (U64_MAX, if n == first then d else e);
    var enter := Enters(env, s, Bound(log));
    var u := ApplyLog(env, s, enter);
    FreshCollects(env, u, want);
    var reports := ReportAll(env, u, want, Bound(log) + |enter|);
    Chain(env, s, enter, reports, Bound(log));
    more := enter + reports;
    var t := ApplyLog(env, s, more);
    DifferentPoliciesWedge(env, u, t, want);
    NumberedIsOrdered(log, more);
    ApplyLogConcat(env, EMPTY_META, log, more);
    forall rest ensures ApplyLog(env, EMPTY_META, log + more + rest) == t {
      ApplyLogConcat(env, EMPTY_META, log + more, rest);
      WedgedForever(env, t, rest);
    }
  }

  lemma FirstBegins(s: MetaState, op: nat, participants: seq<NodeId>)
    requires s.cluster.Some? && AtRest(s, s.cluster.value.p) && s.maintenance.None? && op != 0
    requires participants != [] && Ascending(participants) && VoterSet(participants) == ActiveSet(s)
    ensures EvalBegin(s, op, 1, participants).state.maintenance
            == Some(MaintenanceRecord(op, 1, participants, [], [], [], [], None, None, Preparing))
  {
    BeginExactly(s, op, 1, participants);
  }

  lemma BeginLands(env: Env, s: MetaState, op: nat, index: nat) returns (log: seq<Committed>)
    requires s.cluster.Some? && AtRest(s, s.cluster.value.p) && s.maintenance.None? && op != 0 && ActiveSet(s) != {}
    ensures Numbered(log, index)
    ensures var m := ApplyLog(env, s, log).maintenance;
            m.Some? && m.value.stage == Preparing && |m.value.participants| == |ActiveSet(s)|
  {
    var participants := SortedSeq(ActiveSet(s));
    SortedSeqIsVoterSet(ActiveSet(s));
    FirstBegins(s, op, participants);
    var c := Committed(BeginMaintenance(op, 1, participants), LogId(0, index));
    ReachesBegin(env, s, c.cmd, c.logId);
    Prepend(env, s, c, EvalBegin(s, op, 1, participants).state, [], index);
    log := [c] + [];
  }

  lemma Regroup(a: seq<Committed>, b: seq<Committed>, c: seq<Committed>)
    ensures a + b + c == a + (b + c)
  {
  }

  lemma AtRestCanWedge(env: Env, log: seq<Committed>, op: nat, d: nat, e: nat) returns (more: seq<Committed>)
    requires LogOrdered(log) && op != 0 && d != 0 && e != 0 && d != e
    requires var s := ApplyLog(env, EMPTY_META, log);
             s.cluster.Some? && AtRest(s, s.cluster.value.p) && s.maintenance.None? && |ActiveSet(s)| >= 2
    ensures LogOrdered(log + more) && WedgedBy(env, log + more)
  {
    var s := ApplyLog(env, EMPTY_META, log);
    var begin := BeginLands(env, s, op, Bound(log));
    NumberedIsOrdered(log, begin);
    ApplyLogConcat(env, EMPTY_META, log, begin);
    var rest := OperationsCanWedge(env, log + begin, d, e);
    more := begin + rest;
    Regroup(log, begin, rest);
  }

  /** So can the first operation of every new cluster: of any init file, however its seeding runs interleaved. */
  lemma NewClustersCanWedge(env: Env, clusterId: nat, c: Config.InitConfig, directory: seq<Bootstrap.DirEntry>,
                            ps: seq<Bootstrap.Proposal>, run: nat, op: nat, d: nat, e: nat)
    returns (more: seq<Committed>)
    requires Genesis.Loads(env, clusterId, c, directory) && |directory| > 0 && op != 0 && d != 0 && e != 0 && d != e
    requires var dsc := Genesis.MakeDescriptor(clusterId, c, directory);
             && Bootstrap.InOrder(dsc, ps) && Bootstrap.Progress(ps, run) == Bootstrap.CommandCount(dsc)
             && LogOrdered(Bootstrap.LogOf(dsc, ps))
    ensures var seeding := Bootstrap.LogOf(Genesis.MakeDescriptor(clusterId, c, directory), ps);
            LogOrdered(seeding + more) && WedgedBy(env, seeding + more)
  {
    var dsc := Genesis.MakeDescriptor(clusterId, c, directory);
    Genesis.LoadedDescriptorIsValid(env, clusterId, c, directory);
    var s := Bootstrap.CompletedRun(env, dsc, ps, run);
    Genesis.SeededIsAtRest(env, clusterId, c, directory, s);
    more := AtRestCanWedge(env, Bootstrap.LogOf(dsc, ps), op, d, e);
  }
}
