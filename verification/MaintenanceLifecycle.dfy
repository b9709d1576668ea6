/** The replicated maintenance record over every run (src/meta/state_machine.rs): one-way stages,
    fenced generations, membership bookkeeping, and a frozen topology while an operation is active. */
module MaintenanceLifecycle {
  import opened Types
  import opened MetaStateMachine
  import opened MetaDecisions

  // -- Sorted bookkeeping ---------------------------------------------------------------------

  lemma ConsAscending(x: NodeId, ids: seq<NodeId>)
    requires Ascending(ids) && forall y :: y in ids ==> x < y
    ensures Ascending([x] + ids)
  {
    var r := [x] + ids;
    forall i, j | 0 <= i < j < |r| ensures r[i] < r[j] {
      assert r[j] == ids[j - 1] && ids[j - 1] in ids;
    }
  }

  lemma TailAscending(ids: seq<NodeId>)
    requires Ascending(ids) && ids != []
    ensures Ascending(ids[1..]) && forall y :: y in ids[1..] ==> ids[0] < y
  {
  }

  lemma {:induction false} InsertKeepsAscending(ids: seq<NodeId>, n: NodeId)
    requires Ascending(ids)
    ensures Ascending(InsertSorted(ids, n))
    ensures forall x :: x in InsertSorted(ids, n) <==> x in ids || x == n
  {
    if ids == [] {
    } else if n < ids[0] {
      TailAscending(ids);
      assert ids == [ids[0]] + ids[1..];
      ConsAscending(n, ids);
    } else if n > ids[0] {
      TailAscending(ids);
      assert ids == [ids[0]] + ids[1..];
      InsertKeepsAscending(ids[1..], n);
      ConsAscending(ids[0], InsertSorted(ids[1..], n));
    }
  }

  lemma {:induction false} UpsertKeys<V>(pairs: seq<(NodeId, V)>, n: NodeId, v: V)
    ensures PairKeys(UpsertSorted(pairs, n, v)) == InsertSorted(PairKeys(pairs), n)
  {
    var keys := PairKeys(pairs);
    if pairs == [] {
    } else if n < pairs[0].0 {
      assert PairKeys([(n, v)] + pairs) == [n] + keys;
    } else if n == pairs[0].0 {
      assert PairKeys([(n, v)] + pairs[1..]) == keys;
    } else {
      UpsertKeys(pairs[1..], n, v);
      assert keys[1..] == PairKeys(pairs[1..]);
      var tail := UpsertSorted(pairs[1..], n, v);
      assert PairKeys([pairs[0]] + tail) == [keys[0]] + PairKeys(tail);
    }
  }

  lemma {:induction false} UpsertStores<V>(pairs: seq<(NodeId, V)>, n: NodeId, v: V)
    ensures (n, v) in UpsertSorted(pairs, n, v)
  {
    if pairs != [] && n > pairs[0].0 {
      UpsertStores(pairs[1..], n, v);
    }
  }

  lemma {:induction false} UpsertLookup<V>(pairs: seq<(NodeId, V)>, n: NodeId, v: V, m: NodeId)
    ensures Lookup(UpsertSorted(pairs, n, v), m) == if m == n then Some(v) else Lookup(pairs, m)
  {
    if pairs == [] {
      assert [(n, v)][1..] == [];
    } else if n < pairs[0].0 {
      assert ([(n, v)] + pairs)[1..] == pairs;
    } else if n == pairs[0].0 {
      assert ([(n, v)] + pairs[1..])[1..] == pairs[1..];
    } else {
      UpsertLookup(pairs[1..], n, v, m);
      assert ([pairs[0]] + UpsertSorted(pairs[1..], n, v))[1..] == UpsertSorted(pairs[1..], n, v);
    }
  }

  /** A lookup finds exactly the listed keys, with a listed value. */
  lemma {:induction false} LookupFinds<V>(pairs: seq<(NodeId, V)>, n: NodeId)
    ensures Lookup(pairs, n).Some? <==> n in PairKeys(pairs)
    ensures Lookup(pairs, n).Some? ==> (n, Lookup(pairs, n).value) in pairs
  {
    if pairs != [] {
      LookupFinds(pairs[1..], n);
      assert PairKeys(pairs) == [pairs[0].0] + PairKeys(pairs[1..]);
    }
  }

  /** Under ascending keys a lookup finds every pair. */
  lemma {:induction false} LookupAt<V>(pairs: seq<(NodeId, V)>, i: nat)
    requires Ascending(PairKeys(pairs)) && i < |pairs|
    ensures Lookup(pairs, pairs[i].0) == Some(pairs[i].1)
  {
    if i > 0 {
      var keys := PairKeys(pairs);
      assert keys[0] < keys[i];
      assert PairKeys(pairs[1..]) == keys[1..];
      LookupAt(pairs[1..], i - 1);
    }
  }

  /** `binary_search` on a sorted list: where `n` is, or where it belongs. */
  method BinarySearch(ids: seq<NodeId>, n: NodeId) returns (found: bool, at: nat)
    requires Ascending(ids)
    ensures at <= |ids| && (found <==> n in ids) && (found ==> at < |ids| && ids[at] == n)
    ensures (forall i :: 0 <= i < at ==> ids[i] < n) && (forall i :: at <= i < |ids| ==> n <= ids[i])
  {
    var low, high := 0, |ids|;
    while low < high
      invariant 0 <= low <= high <= |ids|
      invariant forall i :: 0 <= i < low ==> ids[i] < n
      invariant forall i :: high <= i < |ids| ==> n <= ids[i]
    {
      var mid := (low + high) / 2;
      if ids[mid] < n {
        low := mid + 1;
      } else {
        high := mid;
      }
    }
    at := low;
    found := low < |ids| && ids[low] == n;
  }

  lemma InsertBehindHead(ids: seq<NodeId>, n: NodeId, at: nat)
    requires 0 < at <= |ids|
    ensures ids[..at] + [n] + ids[at..] == [ids[0]] + (ids[1..][..at - 1] + [n] + ids[1..][at - 1..])
  {
  }

  lemma {:induction false} InsertSortedAt(ids: seq<NodeId>, n: NodeId, at: nat)
    requires at <= |ids| && n !in ids
    requires (forall i :: 0 <= i < at ==> ids[i] < n) && (forall i :: at <= i < |ids| ==> n <= ids[i])
    ensures InsertSorted(ids, n) == ids[..at] + [n] + ids[at..]
  {
    if at == 0 {
      assert ids[..0] + [n] + ids[0..] == [n] + ids;
    } else {
      var rest := ids[1..];
      assert forall i :: 0 <= i < |rest| ==> rest[i] == ids[i + 1];
      InsertSortedAt(rest, n, at - 1);
      InsertBehindHead(ids, n, at);
    }
  }

  /** The handler's in-place insertion of an acknowledging node. */
  method InsertNode(ids: seq<NodeId>, n: NodeId) returns (r: seq<NodeId>)
    requires Ascending(ids)
    ensures r == (if n in ids then ids else InsertSorted(ids, n))
  {
    var found, at := BinarySearch(ids, n);
    if found {
      return ids;
    }
    InsertSortedAt(ids, n, at);
    r := ids[..at] + [n] + ids[at..];
  }

  // -- The record invariant ----------------------------------------------------------------------

  ghost predicate SortedSubset(part: seq<NodeId>, whole: seq<NodeId>) {
    Ascending(part) && forall x :: x in part ==> x in whole
  }

  ghost predicate AllEqual(pairs: seq<(NodeId, nat)>, d: nat) {
    forall i :: 0 <= i < |pairs| ==> pairs[i].1 == d
  }

  ghost predicate Membership(r: MaintenanceRecord) {
    && r.generation >= 1 && r.operationId != 0 && r.participants != [] && Ascending(r.participants)
    && SortedSubset(r.acknowledged, r.participants)
    && (r.stage == Quiesced || r.stage == Verifying ==> r.acknowledged == r.participants)
  }

  ghost predicate Recovery(env: Env, r: MaintenanceRecord) {
    && SortedSubset(r.recovered, r.participants)
    && PairKeys(r.recoveryProcesses) == r.recovered
    && PairKeys(r.recoveryPolicyDigests) == r.recovered
    && (r.stage == Preparing || r.stage == Quiesced ==> r.recovered == [])
    && (r.recovered == r.participants <==> r.verificationRecoveryEpoch == Some(env.recoveryEpoch))
    && (r.recovered != r.participants <==> r.verificationRecoveryEpoch == None)
  }

  /** A digest is published exactly when every participant recovered and reported that digest. */
  ghost predicate Published(r: MaintenanceRecord) {
    forall d: nat :: r.verificationPolicyDigest == Some(d)
           <==> r.recovered == r.participants && AllEqual(r.recoveryPolicyDigests, d)
  }

  ghost predicate RecordInv(env: Env, r: MaintenanceRecord) {
    Membership(r) && Recovery(env, r) && Published(r)
  }

  ghost predicate MaintenanceInv(env: Env, s: MetaState) {
    s.maintenance.Some? ==> RecordInv(env, s.maintenance.value)
  }

  lemma NotAllEqual(pairs: seq<(NodeId, nat)>, n: NodeId, v: nat, d: nat)
    requires (n, v) in pairs && d != v
    ensures !AllEqual(pairs, d)
  {
    var i :| 0 <= i < |pairs| && pairs[i] == (n, v);
    assert pairs[i].1 != d;
  }

  /** The process `n` is on record with, and the policy it named. */
  function ProcessOf(r: MaintenanceRecord, n: NodeId): Option<u64> { Lookup(r.recoveryProcesses, n) }

  function PolicyOf(r: MaintenanceRecord, n: NodeId): Option<nat> { Lookup(r.recoveryPolicyDigests, n) }

  lemma RecoverKeeps(env: Env, r: MaintenanceRecord, n: NodeId, process: u64, policy: nat)
    requires RecordInv(env, r) && r.stage == Verifying && n in r.participants
    ensures RecordInv(env, Recover(r, n, process, policy, env.recoveryEpoch))
    ensures n in Recover(r, n, process, policy, env.recoveryEpoch).recovered
    ensures forall m :: var t := Recover(r, n, process, policy, env.recoveryEpoch);
              && ProcessOf(t, m) == (if m == n then Some(process) else ProcessOf(r, m))
              && PolicyOf(t, m) == (if m == n then Some(policy) else PolicyOf(r, m))
  {
    var t := Recover(r, n, process, policy, env.recoveryEpoch);
    InsertKeepsAscending(r.recovered, n);
    UpsertKeys(r.recoveryProcesses, n, process);
    UpsertKeys(r.recoveryPolicyDigests, n, policy);
    UpsertStores(r.recoveryPolicyDigests, n, policy);
    assert Recovery(env, t);
    forall m
      ensures ProcessOf(t, m) == (if m == n then Some(process) else ProcessOf(r, m))
      ensures PolicyOf(t, m) == (if m == n then Some(policy) else PolicyOf(r, m))
    {
      UpsertLookup(r.recoveryProcesses, n, process, m);
      UpsertLookup(r.recoveryPolicyDigests, n, policy, m);
    }
    forall d: nat
      ensures t.verificationPolicyDigest == Some(d)
         <==> t.recovered == t.participants && AllEqual(t.recoveryPolicyDigests, d)
    {
      if d != policy { NotAllEqual(t.recoveryPolicyDigests, n, policy, d); }
    }
  }

  // -- Progress --------------------------------------------------------------------------------------

  function Progress(m: Option<MaintenanceRecord>): (int, int) {
    if m.None? then (0, 3) else (m.value.generation, StageRank(m.value.stage))
  }

  predicate NoLater(a: (int, int), b: (int, int)) {
    a.0 < b.0 || (a.0 == b.0 && a.1 <= b.1)
  }

  /** What one command may do to the record: nothing, open the next generation after a release, or
      move forward inside the generation, one legal stage at a time. */
  ghost predicate Legal(m: Option<MaintenanceRecord>, n: Option<MaintenanceRecord>) {
    || n == m
    || (&& n.Some? && (m.None? || m.value.stage == Released)
        && n.value.stage == Preparing && n.value.acknowledged == []
        && n.value.generation == (if m.None? then 1 else m.value.generation + 1)
        && (m.Some? ==> n.value.operationId != m.value.operationId))
    || (&& m.Some? && n.Some?
        && n.value.generation == m.value.generation
        && n.value.operationId == m.value.operationId
        && n.value.participants == m.value.participants
        && (match (m.value.stage, n.value.stage)
            case (Preparing, Preparing) => n.value.(acknowledged := m.value.acknowledged) == m.value
            case (Preparing, Quiesced) => m.value.acknowledged == m.value.participants
            case (Preparing, Released) => true
            case (Quiesced, Verifying) => n.value.recovered == []
            case (Verifying, Verifying) => true
            case (Verifying, Released) =>
              && m.value.recovered == m.value.participants && m.value.verificationPolicyDigest.Some?
              && n.value == m.value.(stage := Released)
            case _ => false))
  }

  lemma LegalAdvances(m: Option<MaintenanceRecord>, n: Option<MaintenanceRecord>)
    requires Legal(m, n)
    ensures NoLater(Progress(m), Progress(n))
    ensures Progress(n).0 <= Progress(m).0 + 1
  {
  }

  lemma BeginStep(env: Env, s: MetaState, op: nat, gen: u64, participants: seq<NodeId>)
    requires MaintenanceInv(env, s)
    ensures var t := EvalBegin(s, op, gen, participants).state;
            MaintenanceInv(env, t) && Legal(s.maintenance, t.maintenance)
  {
    if EvalBegin(s, op, gen, participants).result.MetaApplied? {
      BeginExactly(s, op, gen, participants);
      var r := MaintenanceRecord(op, gen, participants, [], [], [], [], None, None, Preparing);
      assert PairKeys(r.recoveryProcesses) == [] && PairKeys(r.recoveryPolicyDigests) == [];
      assert RecordInv(env, r);
    }
  }

  lemma ReleaseStep(env: Env, s: MetaState, op: nat, gen: u64, processes: seq<(NodeId, u64)>,
                    incarnations: seq<(NodeId, u64)>, digest: nat)
    requires MaintenanceInv(env, s)
    ensures var t := EvalRelease(env, s, op, gen, processes, incarnations, digest).state;
            MaintenanceInv(env, t) && Legal(s.maintenance, t.maintenance)
  {
    var t := EvalRelease(env, s, op, gen, processes, incarnations, digest).state;
    if t != s {
      assert t.maintenance == Some(s.maintenance.value.(stage := Released));
      assert Published(t.maintenance.value);
    }
  }

  lemma AcknowledgeStep(env: Env, s: MetaState, op: nat, gen: u64, n: NodeId, incarnation: nat)
    requires MaintenanceInv(env, s)
    ensures var t := EvalAcknowledge(s, op, gen, n, incarnation).state;
            MaintenanceInv(env, t) && Legal(s.maintenance, t.maintenance)
  {
    var t := EvalAcknowledge(s, op, gen, n, incarnation).state;
    if t != s {
      var r := s.maintenance.value;
      InsertKeepsAscending(r.acknowledged, n);
      assert t.maintenance == Some(r.(acknowledged := InsertSorted(r.acknowledged, n)));
      assert Published(t.maintenance.value);
    }
  }

  lemma QuiesceStep(env: Env, s: MetaState, op: nat, gen: u64)
    requires MaintenanceInv(env, s)
    ensures var t := EvalQuiesce(s, op, gen).state;
            MaintenanceInv(env, t) && Legal(s.maintenance, t.maintenance)
  {
    var t := EvalQuiesce(s, op, gen).state;
    if t != s {
      assert t.maintenance == Some(s.maintenance.value.(stage := Quiesced));
      assert Published(t.maintenance.value);
    }
  }

  lemma VerifyStep(env: Env, s: MetaState, op: nat, gen: u64)
    requires MaintenanceInv(env, s)
    ensures var t := EvalEnterVerification(s, op, gen).state;
            MaintenanceInv(env, t) && Legal(s.maintenance, t.maintenance)
  {
    var t := EvalEnterVerification(s, op, gen).state;
    if t != s {
      var r := t.maintenance.value;
      assert PairKeys(r.recoveryProcesses) == [] && PairKeys(r.recoveryPolicyDigests) == [];
      assert RecordInv(env, r);
    }
  }

  /** What a recovery acknowledgement does. */
  function RecoveryOutcome(env: Env, s: MetaState, cmd: MetaCommand): Outcome
    requires cmd.AcknowledgeMaintenanceRecovery?
  {
    EvalAcknowledgeRecovery(env, s, cmd.operationId, cmd.operationGeneration, cmd.node, cmd.incarnation,
                            cmd.processIncarnation, cmd.topologyDigest, cmd.policyDigest, cmd.recoveryEpoch)
  }

  lemma RecoveryStep(env: Env, s: MetaState, op: nat, gen: u64, n: NodeId, incarnation: nat, process: u64,
                     topology: TopologyDigest, policy: nat, epoch: nat)
    requires MaintenanceInv(env, s)
    ensures var t := EvalAcknowledgeRecovery(env, s, op, gen, n, incarnation, process, topology, policy, epoch).state;
            MaintenanceInv(env, t) && Legal(s.maintenance, t.maintenance)
  {
    var t := EvalAcknowledgeRecovery(env, s, op, gen, n, incarnation, process, topology, policy, epoch).state;
    if t != s {
      RecoverKeeps(env, s.maintenance.value, n, process, policy);
      assert t.maintenance == Some(Recover(s.maintenance.value, n, process, policy, env.recoveryEpoch));
    }
  }

  lemma ReachesAcknowledge(env: Env, s: MetaState, cmd: MetaCommand, logId: LogId)
    requires cmd.AcknowledgeMaintenance?
    ensures Evaluate(env, s, cmd, logId)
            == EvalAcknowledge(s, cmd.operationId, cmd.operationGeneration, cmd.node, cmd.incarnation)
  {
  }

  lemma ReachesStage(env: Env, s: MetaState, cmd: MetaCommand, logId: LogId)
    ensures cmd.QuiesceMaintenance? ==>
              Evaluate(env, s, cmd, logId) == EvalQuiesce(s, cmd.operationId, cmd.operationGeneration)
    ensures cmd.EnterMaintenanceVerification? ==>
              Evaluate(env, s, cmd, logId) == EvalEnterVerification(s, cmd.operationId, cmd.operationGeneration)
  {
  }

  lemma ReachesRecovery(env: Env, s: MetaState, cmd: MetaCommand, logId: LogId)
    requires cmd.AcknowledgeMaintenanceRecovery?
    ensures Evaluate(env, s, cmd, logId) == RecoveryOutcome(env, s, cmd)
  {
  }

  lemma OtherStep(env: Env, s: MetaState, cmd: MetaCommand, logId: LogId)
    requires !IsMaintenanceCommand(cmd)
    ensures Evaluate(env, s, cmd, logId).state.maintenance == s.maintenance
    ensures MaintenanceIsActive(s) ==> Evaluate(env, s, cmd, logId).state == s
  {
  }

  lemma MaintenanceFramed(env: Env, s: MetaState, cmd: MetaCommand, logId: LogId)
    requires IsMaintenanceCommand(cmd)
    ensures var t := Evaluate(env, s, cmd, logId).state; t == s.(maintenance := t.maintenance)
  {
  }

  /** One committed command, whatever it is: the record stays coherent and only moves forward, and
      while an operation is active nothing but the record changes. */
  lemma CommandStep(env: Env, s: MetaState, cmd: MetaCommand, logId: LogId)
    requires MaintenanceInv(env, s)
    ensures var t := Evaluate(env, s, cmd, logId).state;
            && MaintenanceInv(env, t)
            && Legal(s.maintenance, t.maintenance)
            && (MaintenanceIsActive(s) ==> t == s.(maintenance := t.maintenance))
  {
    if !IsMaintenanceCommand(cmd) {
      OtherStep(env, s, cmd, logId);
    } else {
      MaintenanceFramed(env, s, cmd, logId);
      MaintenanceStep(env, s, cmd, logId);
    }
  }

  lemma PreparationStep(env: Env, s: MetaState, cmd: MetaCommand, logId: LogId)
    requires MaintenanceInv(env, s) && (cmd.BeginMaintenance? || cmd.AcknowledgeMaintenance? || cmd.QuiesceMaintenance?)
    ensures var t := Evaluate(env, s, cmd, logId).state;
            MaintenanceInv(env, t) && Legal(s.maintenance, t.maintenance)
  {
    match cmd
    case BeginMaintenance(op, gen, participants) => BeginStep(env, s, op, gen, participants);
    case AcknowledgeMaintenance(op, gen, n, inc) => AcknowledgeStep(env, s, op, gen, n, inc);
    case QuiesceMaintenance(op, gen) => QuiesceStep(env, s, op, gen);
  }

  lemma VerificationStep(env: Env, s: MetaState, cmd: MetaCommand, logId: LogId)
    requires MaintenanceInv(env, s) && (cmd.EnterMaintenanceVerification? || cmd.AcknowledgeMaintenanceRecovery?)
    ensures var t := Evaluate(env, s, cmd, logId).state;
            MaintenanceInv(env, t) && Legal(s.maintenance, t.maintenance)
  {
    match cmd
    case EnterMaintenanceVerification(op, gen) => VerifyStep(env, s, op, gen);
    case AcknowledgeMaintenanceRecovery(op, gen, n, inc, proc, topology, policy, epoch) =>
      RecoveryStep(env, s, op, gen, n, inc, proc, topology, policy, epoch);
  }

  lemma MaintenanceStep(env: Env, s: MetaState, cmd: MetaCommand, logId: LogId)
    requires MaintenanceInv(env, s) && IsMaintenanceCommand(cmd)
    ensures var t := Evaluate(env, s, cmd, logId).state;
            MaintenanceInv(env, t) && Legal(s.maintenance, t.maintenance)
  {
    if cmd.BeginMaintenance? || cmd.AcknowledgeMaintenance? || cmd.QuiesceMaintenance? {
      PreparationStep(env, s, cmd, logId);
    } else if cmd.ReleaseMaintenance? {
      ReleaseStep(env, s, cmd.operationId, cmd.operationGeneration, cmd.liveProcesses, cmd.liveIncarnations,
                  cmd.policyDigest);
    } else {
      VerificationStep(env, s, cmd, logId);
    }
  }

  // -- Runs ---------------------------------------------------------------------------------------------

  /** Over any run from any coherent state the record stays coherent, (generation, stage) never goes
      back, and a run that ends inside the generation it started in, still active, changed nothing
      but the record: cluster, directory, placements, plans and search catalog are frozen. */
  lemma {:induction false} RunsForward(env: Env, s: MetaState, log: seq<Committed>)
    requires MaintenanceInv(env, s)
    ensures var t := ApplyLog(env, s, log);
            && MaintenanceInv(env, t)
            && NoLater(Progress(s.maintenance), Progress(t.maintenance))
            && (MaintenanceIsActive(s) && MaintenanceIsActive(t)
                && Progress(s.maintenance).0 == Progress(t.maintenance).0
                ==> t == s.(maintenance := t.maintenance)
                    && t.maintenance.value.participants == s.maintenance.value.participants)
    decreases |log|
  {
    if log == [] {
      assert s == s.(maintenance := s.maintenance);
    } else {
      var next := Evaluate(env, s, log[0].cmd, log[0].logId).state;
      CommandStep(env, s, log[0].cmd, log[0].logId);
      LegalAdvances(s.maintenance, next.maintenance);
      RunsForward(env, next, log[1..]);
      RunJoins(s, next, ApplyLog(env, next, log[1..]));
    }
  }

  lemma RunJoins(s: MetaState, next: MetaState, t: MetaState)
    requires Legal(s.maintenance, next.maintenance)
    requires MaintenanceIsActive(s) ==> next == s.(maintenance := next.maintenance)
    requires NoLater(Progress(next.maintenance), Progress(t.maintenance))
    requires MaintenanceIsActive(next) && MaintenanceIsActive(t)
             && Progress(next.maintenance).0 == Progress(t.maintenance).0
             ==> t == next.(maintenance := t.maintenance)
                 && t.maintenance.value.participants == next.maintenance.value.participants
    ensures NoLater(Progress(s.maintenance), Progress(t.maintenance))
    ensures MaintenanceIsActive(s) && MaintenanceIsActive(t) && Progress(s.maintenance).0 == Progress(t.maintenance).0
            ==> t == s.(maintenance := t.maintenance)
                && t.maintenance.value.participants == s.maintenance.value.participants
  {
  }

  /** Every reachable record is coherent. */
  lemma ReachableMaintenance(env: Env, log: seq<Committed>)
    ensures MaintenanceInv(env, ApplyLog(env, EMPTY_META, log))
  {
    RunsForward(env, EMPTY_META, log);
  }

  /** An applied release of a verified operation saw every participant recovered under the releasing
      leader's policy and epoch, with the process and incarnation that are live now. */
  lemma VerifiedRelease(env: Env, s: MetaState, op: nat, gen: u64, processes: seq<(NodeId, u64)>,
                        incarnations: seq<(NodeId, u64)>, digest: nat, n: NodeId)
    requires MaintenanceInv(env, s) && s.maintenance.Some? && s.maintenance.value.stage == Verifying
    requires EvalRelease(env, s, op, gen, processes, incarnations, digest).result.MetaApplied?
    requires n in s.maintenance.value.participants
    ensures n in s.maintenance.value.recovered && IsActive(s, n) && (n, s.nodes[n].incarnation) in incarnations
    ensures (n, digest) in s.maintenance.value.recoveryPolicyDigests
    ensures n in PairKeys(processes)
  {
    var r := s.maintenance.value;
    ReleaseExactly(env, s, op, gen, processes, incarnations, digest);
    assert FullyRecovered(env, s, r, processes, incarnations, digest);
    assert AllEqual(r.recoveryPolicyDigests, digest);
    var i :| 0 <= i < |r.participants| && r.participants[i] == n;
    assert PairKeys(r.recoveryPolicyDigests)[i] == n;
    assert r.recoveryPolicyDigests[i] == (n, digest);
    assert incarnations[i] == (n, s.nodes[n].incarnation);
  }
}
