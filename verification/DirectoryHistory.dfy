/** The node directory as a function of the committed log (src/meta/state_machine.rs): whatever was
    committed, a node's record is the one its last effective command left. */
module DirectoryHistory {
  import opened Types
  import opened MetaStateMachine
  import opened MetaDecisions
  import opened MetaInvariants

  /** A registration, state change or retirement of `n`. */
  predicate About(cmd: MetaCommand, n: NodeId) {
    TouchesNodes(cmd) && cmd.node == n
  }

  /** What a directory knows about one id. */
  datatype Record = Unknown | Registered(entry: NodeEntry) | Retired(incarnation: u64)

  function RecordOf(s: MetaState, n: NodeId): Record {
    if n in s.retired then Retired(s.retired[n])
    else if n in s.nodes then Registered(s.nodes[n])
    else Unknown
  }

  // -- One command --------------------------------------------------------------------------------

  /** The record an effective command leaves, given the one it found. */
  ghost predicate Leaves(was: Record, cmd: MetaCommand, now: Record)
    requires TouchesNodes(cmd)
  {
    match cmd
    case RegisterNode(n, control, bulk) =>
      && !was.Retired? && now.Registered?
      && now.entry.incarnation == (if was.Unknown? then 1 else was.entry.incarnation + 1)
      && now.entry == NodeEntry(n, control, bulk, Active, now.entry.incarnation)
    case SetNodeState(_, state, incarnation) =>
      was.Registered? && was.entry.incarnation == incarnation && now == Registered(was.entry.(state := state))
    case RetireNode(_, incarnation) =>
      && was.Registered? && was.entry.incarnation == incarnation && was.entry.state == Draining
      && now == Retired(incarnation)
  }

  lemma RegisterLeaves(s: MetaState, cmd: MetaCommand, n: NodeId)
    requires cmd.RegisterNode? && NoneRetired(s.nodes, s.retired)
    ensures var o := EvalRegisterNode(s, cmd.node, cmd.controlAddr, cmd.bulkAddr);
            if o.result.MetaApplied? && cmd.node == n then Leaves(RecordOf(s, n), cmd, RecordOf(o.state, n))
            else RecordOf(o.state, n) == RecordOf(s, n)
  {
  }

  lemma SetStateLeaves(s: MetaState, cmd: MetaCommand, n: NodeId)
    requires cmd.SetNodeState? && NoneRetired(s.nodes, s.retired)
    ensures var o := EvalSetNodeState(s, cmd.node, cmd.state, cmd.incarnation);
            if o.result.MetaApplied? && cmd.node == n then Leaves(RecordOf(s, n), cmd, RecordOf(o.state, n))
            else RecordOf(o.state, n) == RecordOf(s, n)
  {
  }

  lemma RetireLeaves(s: MetaState, cmd: MetaCommand, n: NodeId)
    requires cmd.RetireNode?
    ensures var o := EvalRetireNode(s, cmd.node, cmd.incarnation);
            if o.result.MetaApplied? && cmd.node == n then Leaves(RecordOf(s, n), cmd, RecordOf(o.state, n))
            else RecordOf(o.state, n) == RecordOf(s, n)
  {
    RetirementExactly(s, cmd.node, cmd.incarnation);
  }

  lemma CommandLeaves(env: Env, s: MetaState, cmd: MetaCommand, logId: LogId, n: NodeId)
    requires NoneRetired(s.nodes, s.retired)
    ensures var o := Evaluate(env, s, cmd, logId);
            if o.result.MetaApplied? && About(cmd, n) then Leaves(RecordOf(s, n), cmd, RecordOf(o.state, n))
            else RecordOf(o.state, n) == RecordOf(s, n)
  {
    var o := Evaluate(env, s, cmd, logId);
    if !TouchesNodes(cmd) {
      NodesFramed(env, s, cmd, logId);
    } else if MaintenanceIsActive(s) {
      assert o == Reject(s, MaintenanceActive);
    } else if cmd.RegisterNode? {
      RegisterLeaves(s, cmd, n);
      assert o == EvalRegisterNode(s, cmd.node, cmd.controlAddr, cmd.bulkAddr);
    } else if cmd.SetNodeState? {
      SetStateLeaves(s, cmd, n);
      assert o == EvalSetNodeState(s, cmd.node, cmd.state, cmd.incarnation);
    } else {
      RetireLeaves(s, cmd, n);
      assert o == EvalRetireNode(s, cmd.node, cmd.incarnation);
    }
  }

  // -- Every log ----------------------------------------------------------------------------------

  /** The last command about `n`. */
  function LastAbout(cmds: seq<MetaCommand>, n: NodeId): (c: Option<MetaCommand>)
    ensures c.Some? ==> c.value in cmds && About(c.value, n)
    ensures c.None? ==> forall d :: d in cmds ==> !About(d, n)
  {
    if cmds == [] then None
    else
      var c := cmds[|cmds| - 1];
      if About(c, n) then Some(c) else LastAbout(cmds[..|cmds| - 1], n)
  }

  /** The last registration of `n`. */
  function LastRegistration(cmds: seq<MetaCommand>, n: NodeId): (c: Option<MetaCommand>)
    ensures c.Some? ==> c.value in cmds && c.value.RegisterNode? && c.value.node == n
  {
    if cmds == [] then None
    else
      var c := cmds[|cmds| - 1];
      if c.RegisterNode? && c.node == n then Some(c) else LastRegistration(cmds[..|cmds| - 1], n)
  }

  /** How often `n` was registered. */
  function Registrations(cmds: seq<MetaCommand>, n: NodeId): nat {
    if cmds == [] then 0
    else
      var c := cmds[|cmds| - 1];
      Registrations(cmds[..|cmds| - 1], n) + (if c.RegisterNode? && c.node == n then 1 else 0)
  }

  /** The record the effective commands prescribe: the incarnation counts registrations, the endpoints are those
      of the last one, the state is Active until a verdict quoting that incarnation changed it, and a tombstone
      keeps the incarnation that was retired. */
  ghost predicate Prescribed(cmds: seq<MetaCommand>, n: NodeId, r: Record) {
    var last, reg, incarnation := LastAbout(cmds, n), LastRegistration(cmds, n), Registrations(cmds, n);
    if last.None? then r.Unknown?
    else if last.value.RetireNode? then r.Retired? && r.incarnation == last.value.incarnation == incarnation
    else
      && r.Registered? && reg.Some? && r.entry.incarnation == incarnation
      && r.entry.nodeId == n && r.entry.controlAddr == reg.value.controlAddr && r.entry.bulkAddr == reg.value.bulkAddr
      && r.entry.state == (if last.value.SetNodeState? then last.value.state else Active)
      && (last.value.SetNodeState? ==> last.value.incarnation == incarnation)
  }

  lemma AppendAbout(cmds: seq<MetaCommand>, c: MetaCommand, n: NodeId)
    ensures LastAbout(cmds + [c], n) == if About(c, n) then Some(c) else LastAbout(cmds, n)
    ensures LastRegistration(cmds + [c], n) == if c.RegisterNode? && c.node == n then Some(c)
            else LastRegistration(cmds, n)
    ensures Registrations(cmds + [c], n) == Registrations(cmds, n) + (if c.RegisterNode? && c.node == n then 1 else 0)
  {
    assert (cmds + [c])[..|cmds|] == cmds;
  }

  lemma {:induction false} UnknownMeansNone(cmds: seq<MetaCommand>, n: NodeId)
    requires LastAbout(cmds, n).None?
    ensures Registrations(cmds, n) == 0
  {
    if cmds != [] {
      UnknownMeansNone(cmds[..|cmds| - 1], n);
    }
  }

  lemma PrescribedStep(cmds: seq<MetaCommand>, c: MetaCommand, n: NodeId, was: Record, now: Record)
    requires Prescribed(cmds, n, was)
    requires if About(c, n) then Leaves(was, c, now) else now == was
    ensures Prescribed(cmds + [c], n, now)
  {
    AppendAbout(cmds, c, n);
    if LastAbout(cmds, n).None? {
      UnknownMeansNone(cmds, n);
    }
  }

  lemma NobodyIsBoth(env: Env, log: seq<Committed>)
    requires LogOrdered(log)
    ensures var s := ApplyLog(env, EMPTY_META, log); NoneRetired(s.nodes, s.retired)
  {
    ReachableInv(env, log);
  }

  lemma HistoryStep(env: Env, cmds: seq<MetaCommand>, s: MetaState, c: Committed, o: Outcome, n: NodeId)
    requires o == Evaluate(env, s, c.cmd, c.logId) && NoneRetired(s.nodes, s.retired)
    requires Prescribed(cmds, n, RecordOf(s, n))
    ensures Prescribed(cmds + (if o.result.MetaApplied? then [c.cmd] else []), n, RecordOf(o.state, n))
  {
    CommandLeaves(env, s, c.cmd, c.logId, n);
    if o.result.MetaApplied? {
      PrescribedStep(cmds, c.cmd, n, RecordOf(s, n), RecordOf(o.state, n));
    } else {
      assert cmds + [] == cmds;
    }
  }

  lemma OneMoreCommand(env: Env, before: seq<Committed>, c: Committed, n: NodeId)
    requires LogOrdered(before) && Prescribed(Effective(env, before), n, RecordOf(ApplyLog(env, EMPTY_META, before), n))
    ensures Prescribed(Effective(env, before + [c]), n, RecordOf(ApplyLog(env, EMPTY_META, before + [c]), n))
  {
    var s := ApplyLog(env, EMPTY_META, before);
    var o := Evaluate(env, s, c.cmd, c.logId);
    NobodyIsBoth(env, before);
    ApplyLogSnoc(env, EMPTY_META, before, c);
    EffectiveSnoc(env, before, c, o);
    HistoryStep(env, Effective(env, before), s, c, o, n);
  }

  /** After every ordered log, each node's record is exactly what its own effective commands prescribe: commands about
      other nodes, refusals and repeats leave no trace in it. */
  lemma {:induction false} DirectoryIsItsHistory(env: Env, log: seq<Committed>, n: NodeId)
    requires LogOrdered(log)
    ensures Prescribed(Effective(env, log), n, RecordOf(ApplyLog(env, EMPTY_META, log), n))
  {
    if log == [] {
      assert RecordOf(EMPTY_META, n) == Unknown;
    } else {
      var before, c := log[..|log| - 1], log[|log| - 1];
      DirectoryIsItsHistory(env, before, n);
      OneMoreCommand(env, before, c, n);
      assert log == before + [c];
    }
  }
}
