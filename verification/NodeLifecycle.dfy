/** No revival without a new incarnation (src/meta/state_machine.rs, src/meta/failure.rs), over every run. */
module NodeLifecycle {
  import opened Types
  import opened MetaStateMachine
  import opened MetaDecisions
  import opened MetaInvariants
  import Failure

  /** Live nodes may go Down, and Live or Down nodes may drain; nothing goes back at one incarnation. */
  function Decline(state: NodeState): nat {
    match state
    case Active => 0
    case Suspect => 0
    case Down => 1
    case Draining => 2
  }

  /** `b` is a later record of the node `a` records: a higher incarnation, or the same registration further declined. */
  ghost predicate Succeeds(a: NodeEntry, b: NodeEntry) {
    || a.incarnation < b.incarnation
    || (a.incarnation == b.incarnation && a.controlAddr == b.controlAddr && a.bulkAddr == b.bulkAddr
        && Decline(a.state) <= Decline(b.state))
  }

  /** What has become of a registered node: still registered, later; or retired for good. */
  ghost predicate Follows(nodes: map<NodeId, NodeEntry>, t: MetaState, n: NodeId)
    requires n in nodes
  {
    if n in t.nodes then Succeeds(nodes[n], t.nodes[n]) else n in t.retired
  }

  /** The only command that raises an incarnation: by one, back to Active. */
  ghost predicate Rejoins(cmd: MetaCommand, n: NodeId, a: NodeEntry, b: NodeEntry) {
    a.incarnation < b.incarnation ==>
      cmd.RegisterNode? && cmd.node == n && b.incarnation == a.incarnation + 1 && b.state == Active
  }

  /** A state is set exactly at the current incarnation, and only further down: a live node to any other state, a Down
      one to Draining, a Draining one to nothing else. */
  lemma StateExactly(s: MetaState, n: NodeId, state: NodeState, incarnation: nat)
    ensures var o := EvalSetNodeState(s, n, state, incarnation);
            && (o.result.MetaApplied? <==>
                  && n in s.nodes && s.nodes[n].incarnation == incarnation
                  && s.nodes[n].state != state && Decline(s.nodes[n].state) <= Decline(state))
            && (o.result.MetaNoOp? <==>
                  n in s.nodes && s.nodes[n].incarnation == incarnation && s.nodes[n].state == state)
            && (o.result.MetaApplied? ==> o.state.nodes == s.nodes[n := s.nodes[n].(state := state)])
  {
  }

  lemma RegisterStep(s: MetaState, cmd: MetaCommand, n: NodeId)
    requires cmd.RegisterNode? && n in s.nodes
    ensures var t := EvalRegisterNode(s, cmd.node, cmd.controlAddr, cmd.bulkAddr).state;
            Follows(s.nodes, t, n) && n in t.nodes && Rejoins(cmd, n, s.nodes[n], t.nodes[n])
  {
  }

  lemma SetStateStep(s: MetaState, cmd: MetaCommand, n: NodeId)
    requires cmd.SetNodeState? && n in s.nodes
    ensures var t := EvalSetNodeState(s, cmd.node, cmd.state, cmd.incarnation).state;
            Follows(s.nodes, t, n) && n in t.nodes && Rejoins(cmd, n, s.nodes[n], t.nodes[n])
  {
  }

  lemma RetireStep(s: MetaState, cmd: MetaCommand, n: NodeId)
    requires cmd.RetireNode? && n in s.nodes
    ensures var t := EvalRetireNode(s, cmd.node, cmd.incarnation).state;
            Follows(s.nodes, t, n) && (n in t.nodes ==> t.nodes[n] == s.nodes[n])
  {
  }

  lemma CommandStep(env: Env, s: MetaState, cmd: MetaCommand, logId: LogId, n: NodeId)
    requires n in s.nodes
    ensures var t := Evaluate(env, s, cmd, logId).state;
            Follows(s.nodes, t, n) && (n in t.nodes ==> Rejoins(cmd, n, s.nodes[n], t.nodes[n]))
  {
    var t := Evaluate(env, s, cmd, logId).state;
    if MaintenanceIsActive(s) && !IsMaintenanceCommand(cmd) {
      assert t == s;
    } else if !TouchesNodes(cmd) {
      NodesFramed(env, s, cmd, logId);
    } else if cmd.RegisterNode? {
      RegisterStep(s, cmd, n);
    } else if cmd.SetNodeState? {
      SetStateStep(s, cmd, n);
    } else {
      RetireStep(s, cmd, n);
    }
  }

  ghost predicate StaysRetired(s: MetaState, t: MetaState, n: NodeId)
    requires n in s.retired
  {
    n in t.retired && t.retired[n] == s.retired[n] && (n !in s.nodes ==> n !in t.nodes)
  }

  lemma RetiredIsRefused(s: MetaState, cmd: MetaCommand, n: NodeId)
    requires n in s.retired && TouchesNodes(cmd)
    ensures cmd.RegisterNode? ==> StaysRetired(s, EvalRegisterNode(s, cmd.node, cmd.controlAddr, cmd.bulkAddr).state, n)
    ensures cmd.SetNodeState? ==> StaysRetired(s, EvalSetNodeState(s, cmd.node, cmd.state, cmd.incarnation).state, n)
    ensures cmd.RetireNode? ==> StaysRetired(s, EvalRetireNode(s, cmd.node, cmd.incarnation).state, n)
  {
    if cmd.RetireNode? { RetirementExactly(s, cmd.node, cmd.incarnation); }
  }

  lemma RetiredStep(env: Env, s: MetaState, cmd: MetaCommand, logId: LogId, n: NodeId)
    requires n in s.retired
    ensures StaysRetired(s, Evaluate(env, s, cmd, logId).state, n)
  {
    if TouchesNodes(cmd) {
      RetiredIsRefused(s, cmd, n);
    } else {
      NodesFramed(env, s, cmd, logId);
    }
  }

  /** Once retired, retired for good, under the incarnation that was retired: no later log registers the id again. */
  lemma {:induction false} RetiredForGood(env: Env, s: MetaState, log: seq<Committed>, n: NodeId)
    requires n in s.retired
    ensures StaysRetired(s, ApplyLog(env, s, log), n)
    decreases |log|
  {
    if log != [] {
      RetiredStep(env, s, log[0].cmd, log[0].logId, n);
      RetiredForGood(env, Evaluate(env, s, log[0].cmd, log[0].logId).state, log[1..], n);
    }
  }

  lemma SucceedsTransitive(a: NodeEntry, b: NodeEntry, c: NodeEntry)
    requires Succeeds(a, b) && Succeeds(b, c)
    ensures Succeeds(a, c)
  {
  }

  /** Over every run: a registered node's incarnation never falls, at one incarnation its endpoints are
      fixed and its state only declines, and once it is gone it is retired and stays gone. So nothing,
      and no heartbeat, brings a Down or Draining node back without a higher incarnation. */
  lemma {:induction false} NoRevival(env: Env, s: MetaState, log: seq<Committed>, n: NodeId)
    requires n in s.nodes
    ensures Follows(s.nodes, ApplyLog(env, s, log), n)
    decreases |log|
  {
    if log == [] {
      assert Succeeds(s.nodes[n], s.nodes[n]);
    } else {
      var next := Evaluate(env, s, log[0].cmd, log[0].logId).state;
      CommandStep(env, s, log[0].cmd, log[0].logId, n);
      if n in next.nodes {
        NoRevival(env, next, log[1..], n);
        var t := ApplyLog(env, next, log[1..]);
        if n in t.nodes { SucceedsTransitive(s.nodes[n], next.nodes[n], t.nodes[n]); }
      } else {
        RetiredForGood(env, next, log[1..], n);
      }
    }
  }

  lemma {:induction false} FindRejoin(env: Env, s: MetaState, log: seq<Committed>, n: NodeId, t: MetaState)
    returns (i: nat)
    requires n in s.nodes && n in t.nodes && t == ApplyLog(env, s, log)
    requires s.nodes[n].incarnation < t.nodes[n].incarnation
    ensures i < |log| && log[i].cmd.RegisterNode? && log[i].cmd.node == n
    decreases |log|
  {
    var next := Evaluate(env, s, log[0].cmd, log[0].logId).state;
    CommandStep(env, s, log[0].cmd, log[0].logId, n);
    i := 0;
    if n !in next.nodes {
      RetiredForGood(env, next, log[1..], n);
    } else if next.nodes[n].incarnation == s.nodes[n].incarnation {
      var k := FindRejoin(env, next, log[1..], n, t);
      i := k + 1;
    }
  }

  /** A node that was Down or Draining and is live again was re-registered in between: some command in
      the run is its RegisterNode, and its incarnation is strictly higher. */
  lemma LiveAgainMeansRejoined(env: Env, s: MetaState, log: seq<Committed>, n: NodeId) returns (i: nat)
    requires n in s.nodes && Decline(s.nodes[n].state) > 0
    requires n in ApplyLog(env, s, log).nodes && Decline(ApplyLog(env, s, log).nodes[n].state) == 0
    ensures i < |log| && log[i].cmd.RegisterNode? && log[i].cmd.node == n
    ensures s.nodes[n].incarnation < ApplyLog(env, s, log).nodes[n].incarnation
  {
    NoRevival(env, s, log, n);
    i := FindRejoin(env, s, log, n, ApplyLog(env, s, log));
  }

  /** A verdict quoting an incarnation the node has left behind never takes effect, however late it commits. */
  lemma OldVerdictsAreDead(env: Env, s: MetaState, log: seq<Committed>, cmd: MetaCommand, logId: LogId)
    requires cmd.SetNodeState? && cmd.node in s.nodes && cmd.incarnation < s.nodes[cmd.node].incarnation
    ensures var t := ApplyLog(env, s, log); Evaluate(env, t, cmd, logId).state == t
  {
    var t := ApplyLog(env, s, log);
    NoRevival(env, s, log, cmd.node);
    VerdictNeedsIncarnation(env, t, cmd, logId);
  }

  lemma VerdictNeedsIncarnation(env: Env, s: MetaState, cmd: MetaCommand, logId: LogId)
    requires cmd.SetNodeState? && (cmd.node in s.nodes ==> s.nodes[cmd.node].incarnation != cmd.incarnation)
    ensures Evaluate(env, s, cmd, logId).state == s
  {
  }

  /** Nobody else uses a registered node's endpoints, and they are endpoints it may register again. */
  ghost predicate OwnsEndpoints(nodes: map<NodeId, NodeEntry>, n: NodeId)
    requires n in nodes
  {
    && EntryInv(n, nodes[n])
    && forall m :: m in nodes && m != n ==> !SharesEndpoint(nodes[m], nodes[n].controlAddr, nodes[n].bulkAddr)
  }

  lemma EndpointsAreOwned(nodes: map<NodeId, NodeEntry>, n: NodeId)
    requires n in nodes && EntriesOk(nodes) && EndpointsApart(nodes)
    ensures OwnsEndpoints(nodes, n)
  {
    forall m | m in nodes && m != n ensures !SharesEndpoint(nodes[m], nodes[n].controlAddr, nodes[n].bulkAddr) {
      assert Separate(nodes[m], nodes[n]);
    }
  }

  lemma RejoinAccepted(s: MetaState, n: NodeId)
    requires s.cluster.Some? && n in s.nodes && n !in s.retired && OwnsEndpoints(s.nodes, n)
    requires s.nodes[n].state == Down && s.nodes[n].incarnation < U64_MAX
    ensures var e := s.nodes[n];
            EvalRegisterNode(s, n, e.controlAddr, e.bulkAddr)
            == Outcome(MetaApplied, s.(nodes := s.nodes[n := e.(state := Active, incarnation := e.incarnation + 1)]))
  {
  }

  lemma ReachableOwner(env: Env, log: seq<Committed>, n: NodeId)
    requires LogOrdered(log) && n in ApplyLog(env, EMPTY_META, log).nodes
    ensures var s := ApplyLog(env, EMPTY_META, log);
            s.cluster.Some? && n !in s.retired && OwnsEndpoints(s.nodes, n)
  {
    ReachableInv(env, log);
    EndpointsAreOwned(ApplyLog(env, EMPTY_META, log).nodes, n);
  }

  /** A Down node that registers again, from where it was, is Active at its next incarnation: in every reachable state
      nobody else has taken its endpoints, and nothing else is changed. */
  lemma RejoinLands(env: Env, log: seq<Committed>, s: MetaState, n: NodeId, logId: LogId)
    requires LogOrdered(log) && s == ApplyLog(env, EMPTY_META, log) && !MaintenanceIsActive(s)
    requires n in s.nodes && s.nodes[n].state == Down && s.nodes[n].incarnation < U64_MAX
    ensures var e := s.nodes[n];
            Evaluate(env, s, RegisterNode(n, e.controlAddr, e.bulkAddr), logId)
            == Outcome(MetaApplied, s.(nodes := s.nodes[n := e.(state := Active, incarnation := e.incarnation + 1)]))
  {
    ReachableOwner(env, log, n);
    RejoinAccepted(s, n);
  }

  /** Whatever transition the detector proposes for a node's committed state and incarnation is one the state machine
      performs: committed before anything else happens to the node, it changes that node's state and nothing else. */
  lemma VerdictsLand(env: Env, s: MetaState, n: NodeId, slot: Failure.Slot, now: nat, timeouts: Failure.Timeouts,
                     logId: LogId)
    requires n in s.nodes && !MaintenanceIsActive(s)
    requires Failure.Decide(slot, s.nodes[n].state, s.nodes[n].incarnation, now, timeouts).next.Some?
    ensures var next := Failure.Decide(slot, s.nodes[n].state, s.nodes[n].incarnation, now, timeouts).next.value;
            Evaluate(env, s, SetNodeState(n, next, s.nodes[n].incarnation), logId)
            == Outcome(MetaApplied, s.(nodes := s.nodes[n := s.nodes[n].(state := next)]))
  {
  }
}
