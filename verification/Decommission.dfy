/** Taking a node out of service for good (src/meta/rebalancer.rs, src/placement.rs): marking it Draining, letting the
    balancer move its replicas away and retiring it succeed one after the other. */
module Decommission {
  import opened Types
  import opened Balancer
  import opened Convergence
  import opened MetaStateMachine
  import opened MetaDecisions
  import opened MetaInvariants
  import opened NodeLifecycle

  /** The directory scan, in node order. */
  function Listed(nodes: map<NodeId, NodeEntry>, ids: seq<NodeId>): (directory: seq<NodeEntry>)
    requires forall n :: n in ids ==> n in nodes
    ensures |directory| == |ids| && forall i :: 0 <= i < |ids| ==> directory[i] == nodes[ids[i]]
  {
    seq(|ids|, i requires 0 <= i < |ids| => assert ids[i] in ids; nodes[ids[i]])
  }

  lemma ListedLists(nodes: map<NodeId, NodeEntry>, ids: seq<NodeId>)
    requires EntriesOk(nodes) && Ascending(ids) && VoterSet(ids) == nodes.Keys
    ensures (forall n :: n in ids ==> n in nodes) && Lists(Listed(nodes, ids), nodes)
  {
    forall n | n in ids ensures n in nodes { assert n in VoterSet(ids); }
    var directory := Listed(nodes, ids);
    forall i | 0 <= i < |ids| ensures directory[i].nodeId == ids[i] {
      assert ids[i] in ids;
      assert EntryInv(ids[i], nodes[ids[i]]);
    }
    forall n | n in nodes ensures exists i :: 0 <= i < |directory| && directory[i].nodeId == n {
      assert n in VoterSet(ids);
      var i :| 0 <= i < |ids| && ids[i] == n;
      assert directory[i].nodeId == n;
    }
  }

  function Drained(s: MetaState, n: NodeId): MetaState
    requires n in s.nodes
  {
    s.(nodes := s.nodes[n := s.nodes[n].(state := Draining)])
  }

  /** Draining is always the next state, unless the node is there already. */
  lemma DrainLands(s: MetaState, n: NodeId)
    requires n in s.nodes
    ensures EvalSetNodeState(s, n, Draining, s.nodes[n].incarnation).state == Drained(s, n)
    ensures ActiveSet(Drained(s, n)) == ActiveSet(s) - {n}
  {
    StateExactly(s, n, Draining, s.nodes[n].incarnation);
    if s.nodes[n].state == Draining { assert s.nodes[n := s.nodes[n].(state := Draining)] == s.nodes; }
  }

  lemma DrainKeepsCalm(env: Env, s: MetaState, n: NodeId, bound: nat, logId: LogId)
    requires Calm(s, bound) && n in s.nodes && bound <= logId.index
    ensures Evaluate(env, s, SetNodeState(n, Draining, s.nodes[n].incarnation), logId).state == Drained(s, n)
    ensures Calm(Drained(s, n), logId.index + 1)
  {
    var cmd := SetNodeState(n, Draining, s.nodes[n].incarnation);
    ReachesSetState(env, s, cmd, logId);
    DrainLands(s, n);
    EvaluateKeeps(env, s, cmd, logId, bound);
  }

  /** Every group of the cluster has its placement, and the meta group does without `n`. */
  ghost predicate Dispensable(s: MetaState, n: NodeId) {
    && s.cluster.Some? && (forall g :: g in Groups(s.cluster.value.p) ==> g in s.placements)
    && Meta in s.placements && !s.placements[Meta].ReferencesNode(n)
  }

  lemma NobodyNeeds(s: MetaState, bound: nat, n: NodeId)
    requires Calm(s, bound) && AllServed(s) && Dispensable(s, n) && n in s.nodes && s.nodes[n].state == Draining
    ensures Unreferenced(s, n, s.cluster.value.p)
  {
    forall g | g in Groups(s.cluster.value.p) ensures !s.placements[g].ReferencesNode(n) {
      if g.Data? {
        var i := RowOf(s, bound, g);
        assert Rows(s)[i].1.move.None?;
        assert n in s.placements[g].voters ==> Serving(s, n);
      }
    }
  }

  lemma RetireLands(env: Env, s: MetaState, bound: nat, n: NodeId, logId: LogId)
    requires Calm(s, bound) && AllServed(s) && Dispensable(s, n) && n in s.nodes && s.nodes[n].state == Draining
    ensures var t := Evaluate(env, s, RetireNode(n, s.nodes[n].incarnation), logId).state;
            t == s.(nodes := s.nodes - {n}, retired := s.retired[n := s.nodes[n].incarnation])
  {
    ReachesRetire(env, s, RetireNode(n, s.nodes[n].incarnation), logId);
    NobodyNeeds(s, bound, n);
    assert n !in s.retired;
    RetirementExactly(s, n, s.nodes[n].incarnation);
  }

  lemma StaysDispensable(s: MetaState, t: MetaState, n: NodeId)
    requires Dispensable(s, n) && OnlyMoved(s, t)
    ensures Dispensable(t, n)
  {
  }

  method MarkDraining(meta: MetaStore, n: NodeId, ghost bound: nat, logId: LogId)
    requires Calm(meta.state, bound) && n in meta.state.nodes && bound <= logId.index
    modifies meta
    ensures meta.state == Drained(old(meta.state), n) && Calm(meta.state, logId.index + 1)
  {
    DrainKeepsCalm(meta.env, meta.state, n, bound, logId);
    var result := meta.Apply(SetNodeState(n, Draining, meta.state.nodes[n].incarnation), logId);
  }

  /** The balancer runs over the directory as it stands until it has nothing left to propose. */
  method Evacuate(meta: MetaStore, term: nat, bound: nat, configs: nat -> LogId) returns (index: nat)
    requires Calm(meta.state, bound) && |ActiveSet(meta.state)| >= meta.state.cluster.value.r
    modifies meta
    ensures Calm(meta.state, index) && OnlyMoved(old(meta.state), meta.state) && AllServed(meta.state)
  {
    var ids := SortedSeq(meta.state.nodes.Keys);
    SortedSeqIsVoterSet(meta.state.nodes.Keys);
    ListedLists(meta.state.nodes, ids);
    index := Settle(meta, term, bound, Listed(meta.state.nodes, ids), configs);
  }

  method Retire(meta: MetaStore, n: NodeId, ghost bound: nat, logId: LogId)
    requires Calm(meta.state, bound) && AllServed(meta.state) && Dispensable(meta.state, n)
    requires n in meta.state.nodes && meta.state.nodes[n].state == Draining
    modifies meta
    ensures var s := old(meta.state);
            meta.state == s.(nodes := s.nodes - {n}, retired := s.retired[n := s.nodes[n].incarnation])
  {
    RetireLands(meta.env, meta.state, bound, n, logId);
    var result := meta.Apply(RetireNode(n, meta.state.nodes[n].incarnation), logId);
  }

  /** From `s` to `t` the node was retired, and nothing else of the directory has changed. */
  ghost predicate RetiredFrom(s: MetaState, t: MetaState, n: NodeId) {
    && n in s.nodes && t == s.(nodes := s.nodes - {n}, retired := s.retired[n := s.nodes[n].incarnation],
                               placements := t.placements)
    && forall g: GroupId, v: NodeId :: g.Data? && g in t.placements && v in t.placements[g].voters ==> v != n
  }

  lemma RetiredAtLast(s: MetaState, settled: MetaState, t: MetaState, n: NodeId)
    requires n in s.nodes && OnlyMoved(Drained(s, n), settled) && AllServed(settled)
    requires n in settled.nodes
    requires t == settled.(nodes := settled.nodes - {n},
                           retired := settled.retired[n := settled.nodes[n].incarnation])
    ensures RetiredFrom(s, t, n)
  {
    assert settled.nodes - {n} == s.nodes - {n};
    forall g: GroupId, v: NodeId | g.Data? && g in t.placements && v in t.placements[g].voters ensures v != n {
      assert Serving(settled, v);
    }
  }

  /** From every calm reachable state, a node the meta group does without can be retired, whatever state it is in, if
      enough others are Active to hold the replicas: no partition votes on it any more, and nothing else of the
      directory has changed. */
  method TakeOut(meta: MetaStore, n: NodeId, term: nat, bound: nat, configs: nat -> LogId)
    requires Calm(meta.state, bound) && n in meta.state.nodes && Dispensable(meta.state, n)
    requires |ActiveSet(meta.state) - {n}| >= meta.state.cluster.value.r
    modifies meta
    ensures RetiredFrom(old(meta.state), meta.state, n)
  {
    DrainLands(meta.state, n);
    MarkDraining(meta, n, bound, LogId(term, bound));
    ghost var drained := meta.state;
    var index := Evacuate(meta, term, bound + 1, configs);
    ghost var settled := meta.state;
    StaysDispensable(drained, settled, n);
    Retire(meta, n, index, LogId(term, index));
    RetiredAtLast(old(meta.state), settled, meta.state, n);
  }
}
