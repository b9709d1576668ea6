/** Why the balancer stops (src/placement.rs): every proposal lowers (evacuating slots, sum of squared
    loads), finalizing leaves both alone, and the meta group accepts every proposal, so planning and
    finalizing through the meta log ends, balanced. */
module Convergence {
  import opened Types
  import opened Balancer
  import opened MetaStateMachine
  import opened MetaDecisions
  import opened MetaInvariants
  import MoveDriver

  // -- The measure -------------------------------------------------------------------------------

  ghost function EvacSlots(directory: seq<NodeEntry>, t: Table): nat {
    if t == [] then 0
    else EvacSlots(directory, t[..|t| - 1]) + |Leaving(directory, Anticipated(t[|t| - 1].1))|
  }

  function Squares(t: Table, nodes: seq<NodeId>): nat {
    if nodes == [] then 0
    else Squares(t, nodes[..|nodes| - 1]) + LoadOf(t, nodes[|nodes| - 1]) * LoadOf(t, nodes[|nodes| - 1])
  }

  lemma LoadSnoc(init: Table, last: (u16, Placement), n: NodeId)
    ensures LoadOf(init + [last], n) == LoadOf(init, n) + Share(last.1, n)
  {
    assert (init + [last])[..|init|] == init;
  }

  lemma {:induction false} LoadUpdate(t: Table, i: nat, p: Placement, n: NodeId)
    requires i < |t|
    ensures LoadOf(t[i := (t[i].0, p)], n) == LoadOf(t, n) - Share(t[i].1, n) + Share(p, n)
  {
    var u, init, last := t[i := (t[i].0, p)], t[..|t| - 1], t[|t| - 1];
    assert t == init + [last];
    LoadSnoc(init, last, n);
    if i == |t| - 1 {
      assert u == init + [(last.0, p)];
      LoadSnoc(init, (last.0, p), n);
    } else {
      var changed := init[i := (init[i].0, p)];
      assert u == changed + [last];
      LoadSnoc(changed, last, n);
      LoadUpdate(init, i, p, n);
    }
  }

  lemma {:induction false} EvacUpdate(directory: seq<NodeEntry>, t: Table, i: nat, p: Placement)
    requires i < |t|
    ensures EvacSlots(directory, t[i := (t[i].0, p)])
         == EvacSlots(directory, t) - |Leaving(directory, Anticipated(t[i].1))|
            + |Leaving(directory, Anticipated(p))|
  {
    var u := t[i := (t[i].0, p)];
    if i == |t| - 1 {
      assert u[..i] == t[..i];
    } else {
      var init := t[..|t| - 1];
      assert u[..|t| - 1] == init[i := (init[i].0, p)];
      EvacUpdate(directory, init, i, p);
    }
  }

  /** One slot went from `s` to `d`. */
  ghost predicate Shifted(t: Table, u: Table, s: NodeId, d: NodeId) {
    && s != d && LoadOf(t, s) >= 1
    && LoadOf(u, s) == LoadOf(t, s) - 1 && LoadOf(u, d) == LoadOf(t, d) + 1
    && forall n :: n != s && n != d ==> LoadOf(u, n) == LoadOf(t, n)
  }

  lemma OneDown(x: int, y: int)
    requires y == x - 1
    ensures y * y == x * x + (1 - 2 * x)
  {
  }

  lemma OneUp(x: int, y: int)
    requires y == x + 1
    ensures y * y == x * x + (1 + 2 * x)
  {
  }

  /** How much node `n`'s square changes when one slot goes from `s` to `d`. */
  function Delta(t: Table, s: NodeId, d: NodeId, n: NodeId): int {
    if n == s then 1 - 2 * LoadOf(t, s) else if n == d then 1 + 2 * LoadOf(t, d) else 0
  }

  lemma OneDelta(t: Table, u: Table, s: NodeId, d: NodeId, n: NodeId)
    requires Shifted(t, u, s, d)
    ensures LoadOf(u, n) * LoadOf(u, n) == LoadOf(t, n) * LoadOf(t, n) + Delta(t, s, d, n)
  {
    if n == s {
      OneDown(LoadOf(t, n), LoadOf(u, n));
    } else if n == d {
      OneUp(LoadOf(t, n), LoadOf(u, n));
    }
  }

  lemma {:induction false} SquaresShift(t: Table, u: Table, nodes: seq<NodeId>, s: NodeId, d: NodeId)
    requires Distinct(nodes) && Shifted(t, u, s, d)
    ensures Squares(u, nodes) == Squares(t, nodes) + (if s in nodes then 1 - 2 * LoadOf(t, s) else 0)
                                                   + (if d in nodes then 1 + 2 * LoadOf(t, d) else 0)
  {
    if nodes != [] {
      var init, last := nodes[..|nodes| - 1], nodes[|nodes| - 1];
      assert nodes == init + [last];
      assert last !in init;
      SquaresShift(t, u, init, s, d);
      OneDelta(t, u, s, d, last);
    }
  }

  lemma {:induction false} SquaresSame(t: Table, u: Table, nodes: seq<NodeId>)
    requires forall n :: LoadOf(u, n) == LoadOf(t, n)
    ensures Squares(u, nodes) == Squares(t, nodes)
  {
    if nodes != [] {
      SquaresSame(t, u, nodes[..|nodes| - 1]);
    }
  }

  // -- One proposal ------------------------------------------------------------------------------------

  /** `target` is the swap written in any order. */
  ghost predicate SwapsTo(voters: seq<NodeId>, drop: NodeId, dest: NodeId, target: seq<NodeId>) {
    multiset(target) == multiset(voters) - multiset{drop} + multiset{dest}
  }

  lemma ReplacementSwaps(voters: seq<NodeId>, drop: NodeId, dest: NodeId)
    requires |VoterSet(voters)| == |voters| && drop in voters && dest !in voters
    ensures SwapsTo(voters, drop, dest, Replacement(voters, drop, dest))
  {
    ReplacementCounts(voters, drop, dest);
    DistinctShare(voters, drop);
  }

  lemma SwapMembers(voters: seq<NodeId>, drop: NodeId, dest: NodeId, target: seq<NodeId>)
    requires |VoterSet(voters)| == |voters| && drop in voters && dest !in voters && SwapsTo(voters, drop, dest, target)
    ensures VoterSet(target) == VoterSet(voters) - {drop} + {dest}
    ensures |VoterSet(target)| == |target| == |voters|
    ensures OneForOne(VoterSet(voters), VoterSet(target))
  {
    DistinctShare(voters, drop);
    forall x ensures x in VoterSet(target) <==> x in VoterSet(voters) - {drop} + {dest} {
      DistinctShare(voters, x);
      assert x in target <==> multiset(target)[x] > 0;
      assert x in voters <==> multiset(voters)[x] > 0;
    }
    var v, w := VoterSet(voters), VoterSet(target);
    assert |multiset(target)| == |target| && |multiset(voters)| == |voters|;
    assert w - v == {dest} && v - w == {drop};
  }

  function WithPlan(t: Table, i: nat, plan: MovePlan): Table
    requires i < |t|
  {
    t[i := (t[i].0, t[i].1.(move := Some(plan)))]
  }

  lemma SwapShifts(t: Table, i: nat, drop: NodeId, dest: NodeId, plan: MovePlan)
    requires i < |t| && t[i].1.move.None? && !plan.aborting
    requires |VoterSet(t[i].1.voters)| == |t[i].1.voters| && drop in t[i].1.voters && dest !in t[i].1.voters
    requires SwapsTo(t[i].1.voters, drop, dest, plan.targetVoters)
    ensures Shifted(t, WithPlan(t, i, plan), drop, dest)
  {
    var p := t[i].1.(move := Some(plan));
    forall n
      ensures LoadOf(WithPlan(t, i, plan), n) == LoadOf(t, n) - multiset(t[i].1.voters)[n]
              + multiset(plan.targetVoters)[n]
    {
      LoadUpdate(t, i, p, n);
    }
    DistinctShare(t[i].1.voters, drop);
    DistinctShare(t[i].1.voters, dest);
    ShareBelowLoad(t, i, drop);
  }

  lemma {:induction false} ShareBelowLoad(t: Table, i: nat, n: NodeId)
    requires i < |t|
    ensures Share(t[i].1, n) <= LoadOf(t, n)
  {
    if i < |t| - 1 {
      assert t[..|t| - 1][i] == t[i];
      ShareBelowLoad(t[..|t| - 1], i, n);
    }
  }

  lemma SwapEvacuates(directory: seq<NodeEntry>, voters: seq<NodeId>, drop: NodeId, dest: NodeId, target: seq<NodeId>)
    requires UniqueIds(directory) && dest in Eligible(directory)
    requires |VoterSet(voters)| == |voters| && drop in voters && dest !in voters && SwapsTo(voters, drop, dest, target)
    ensures |Leaving(directory, target)|
         == |Leaving(directory, voters)| - (if InService(directory, drop) then 0 else 1)
  {
    SwapMembers(voters, drop, dest, target);
    EligibleStays(directory, dest);
    var before, after := Leaving(directory, voters), Leaving(directory, target);
    forall x ensures x in after <==> x in before - {drop} {
      assert x in VoterSet(target) <==> x in target;
      assert x in VoterSet(voters) <==> x in voters;
    }
    assert after == before - {drop};
  }

  ghost predicate Below(directory: seq<NodeEntry>, u: Table, t: Table, nodes: seq<NodeId>) {
    || EvacSlots(directory, u) < EvacSlots(directory, t)
    || (EvacSlots(directory, u) == EvacSlots(directory, t) && Squares(u, nodes) < Squares(t, nodes))
  }

  /** Committing the proposed plan strictly lowers the measure, whatever finite set of nodes, the Active
      ones included, the squares are summed over. */
  lemma ProposalDecreases(directory: seq<NodeEntry>, t: Table, i: nat, drop: NodeId, dest: NodeId, plan: MovePlan,
                          nodes: seq<NodeId>)
    requires UniqueIds(directory) && Swap(directory, t, i, drop, dest)
    requires |VoterSet(t[i].1.voters)| == |t[i].1.voters|
    requires SwapsTo(t[i].1.voters, drop, dest, plan.targetVoters) && !plan.aborting
    requires Distinct(nodes) && Eligible(directory) <= VoterSet(nodes)
    ensures Below(directory, WithPlan(t, i, plan), t, nodes)
  {
    var u := WithPlan(t, i, plan);
    SwapEvacuates(directory, t[i].1.voters, drop, dest, plan.targetVoters);
    EvacUpdate(directory, t, i, u[i].1);
    if !Drains(directory, t, i, drop, dest) {
      assert drop in Eligible(directory);
      EligibleStays(directory, drop);
      SwapShifts(t, i, drop, dest, plan);
      SquaresShift(t, u, nodes, drop, dest);
      assert drop in VoterSet(nodes) && dest in VoterSet(nodes);
    }
  }

  /** Finalizing a healthy plan changes neither component. */
  lemma FinalizeKeepsMeasure(directory: seq<NodeEntry>, t: Table, i: nat, p: Placement, nodes: seq<NodeId>)
    requires i < |t| && t[i].1.move.Some? && !t[i].1.move.value.aborting
    requires p.move.None? && multiset(p.voters) == multiset(t[i].1.move.value.targetVoters)
    ensures EvacSlots(directory, t[i := (t[i].0, p)]) == EvacSlots(directory, t)
    ensures Squares(t[i := (t[i].0, p)], nodes) == Squares(t, nodes)
  {
    var u, target := t[i := (t[i].0, p)], t[i].1.move.value.targetVoters;
    forall n ensures LoadOf(u, n) == LoadOf(t, n) { LoadUpdate(t, i, p, n); }
    SquaresSame(t, u, nodes);
    EvacUpdate(directory, t, i, p);
    assert Leaving(directory, p.voters) == Leaving(directory, target) by {
      forall x ensures x in p.voters <==> x in target {
        assert x in p.voters <==> x in multiset(p.voters);
        assert x in target <==> x in multiset(target);
      }
    }
  }

  // -- The balancer reads the meta state ------------------------------------------------------------

  /** The directory scan: every registered node once. */
  ghost predicate Lists(directory: seq<NodeEntry>, nodes: map<NodeId, NodeEntry>) {
    && UniqueIds(directory)
    && (forall i :: 0 <= i < |directory| ==>
          directory[i].nodeId in nodes && directory[i] == nodes[directory[i].nodeId])
    && (forall n :: n in nodes ==> exists i :: 0 <= i < |directory| && directory[i].nodeId == n)
  }

  lemma EligibleIsActive(directory: seq<NodeEntry>, s: MetaState)
    requires Lists(directory, s.nodes)
    ensures Eligible(directory) == ActiveSet(s)
  {
    forall n | n in ActiveSet(s) ensures n in Eligible(directory) {
      var i :| 0 <= i < |directory| && directory[i].nodeId == n;
      assert directory[i] == s.nodes[n];
    }
  }

  /** The placements of the first `p` partitions, in order. */
  function TableOf(placements: map<GroupId, Placement>, p: u16): (t: Table)
    ensures forall i :: 0 <= i < |t| ==> t[i].0 < p && Data(t[i].0) in placements && t[i].1 == placements[Data(t[i].0)]
    ensures KeysAscend(t)
  {
    if p == 0 then []
    else TableOf(placements, p - 1) + (if Data(p - 1) in placements then [(p - 1, placements[Data(p - 1)])] else [])
  }

  /** Rewriting one placement rewrites one row. */
  lemma {:induction false} TableUpdate(placements: map<GroupId, Placement>, p: u16, i: nat, q: Placement)
    requires i < |TableOf(placements, p)|
    ensures var key := TableOf(placements, p)[i].0;
            TableOf(placements[Data(key) := q], p) == TableOf(placements, p)[i := (key, q)]
  {
    var t, init := TableOf(placements, p), TableOf(placements, p - 1);
    var u := placements[Data(t[i].0) := q];
    if i < |init| {
      assert t[i] == init[i];
      TableUpdate(placements, p - 1, i, q);
    } else {
      TableSame(placements, p - 1, t[i].0, q);
    }
  }

  function Rows(s: MetaState): Table
    requires s.cluster.Some?
  {
    TableOf(s.placements, s.cluster.value.p)
  }

  ghost predicate ProposesNow(directory: seq<NodeEntry>, s: MetaState, proposal: Option<PlanProposal>) {
    s.cluster.Some? && Proposes(directory, Rows(s), s.cluster.value.r, proposal)
  }

  lemma {:induction false} TableSame(placements: map<GroupId, Placement>, p: u16, key: u16, q: Placement)
    requires p <= key
    ensures TableOf(placements[Data(key) := q], p) == TableOf(placements, p)
  {
    if p > 0 { TableSame(placements, p - 1, key, q); }
  }

  // -- The meta group accepts every proposal ----------------------------------------------------------

  lemma SwapEnds(directory: seq<NodeEntry>, t: Table, i: nat, drop: NodeId, dest: NodeId)
    requires Swap(directory, t, i, drop, dest)
    ensures i < |t| && t[i].1.move.None? && drop in t[i].1.voters && dest !in t[i].1.voters
            && dest in Eligible(directory)
  {
  }

  lemma PlacedVoters(s: MetaState, bound: nat, g: GroupId)
    requires MetaInv(s, bound) && s.cluster.Some? && g.Data? && g in s.placements
    ensures |VoterSet(s.placements[g].voters)| == |s.placements[g].voters| == s.cluster.value.r
  {
    assert GroupInv(s.cluster.value, s.nodes.Keys, s.retired.Keys, g, s.placements[g]);
  }

  /** Every proposal computed from a reachable state is one CreatePlan accepts on that state. */
  lemma ProposalIsAccepted(s: MetaState, bound: nat, directory: seq<NodeEntry>, t: Table, proposal: PlanProposal)
    requires MetaInv(s, bound) && s.cluster.Some? && Lists(directory, s.nodes)
             && t == TableOf(s.placements, s.cluster.value.p)
    requires Proposes(directory, t, s.cluster.value.r, Some(proposal))
    ensures proposal.group in s.placements && s.placements[proposal.group].move.None? && proposal.group.Data?
    ensures LegalTarget(s, proposal.group, VoterSet(s.placements[proposal.group].voters), proposal.targetVoters)
  {
    var i, drop, dest := SwapOf(directory, t, proposal);
    SwapEnds(directory, t, i, drop, dest);
    EligibleIsActive(directory, s);
    PlacedVoters(s, bound, Data(t[i].0));
    ReplacementSwaps(t[i].1.voters, drop, dest);
    SwapMembers(t[i].1.voters, drop, dest, proposal.targetVoters);
    SwapIsLegal(s, Data(t[i].0), t[i].1.voters, drop, dest, proposal.targetVoters);
  }

  lemma SwapIsLegal(s: MetaState, g: GroupId, voters: seq<NodeId>, drop: NodeId, dest: NodeId, target: seq<NodeId>)
    requires s.cluster.Some? && g.Data? && |voters| == s.cluster.value.r && |ActiveSet(s)| >= s.cluster.value.r
             && dest in ActiveSet(s)
    requires VoterSet(target) == VoterSet(voters) - {drop} + {dest} && |VoterSet(target)| == |target| == |voters|
    requires OneForOne(VoterSet(voters), VoterSet(target))
    ensures LegalTarget(s, g, VoterSet(voters), target)
  {
    VoterSetSize(target);
  }

  // -- One round ------------------------------------------------------------------------------------------

  ghost predicate AtRest(t: Table, r: nat) {
    NoMoves(t) && WellPlaced(t, r) && KeysAscend(t)
  }

  lemma StepLowers(directory: seq<NodeEntry>, t: Table, i: nat, drop: NodeId, dest: NodeId, target: seq<NodeId>,
                   p: Placement, nodes: seq<NodeId>)
    requires UniqueIds(directory) && Swap(directory, t, i, drop, dest)
    requires |VoterSet(t[i].1.voters)| == |t[i].1.voters| && SwapsTo(t[i].1.voters, drop, dest, target)
    requires p.move.None? && multiset(p.voters) == multiset(target)
    requires Distinct(nodes) && Eligible(directory) <= VoterSet(nodes)
    ensures Below(directory, t[i := (t[i].0, p)], t, nodes)
  {
    var plan := MovePlan(0, target, false);
    var planned, done := WithPlan(t, i, plan), t[i := (t[i].0, p)];
    ProposalDecreases(directory, t, i, drop, dest, plan, nodes);
    FinalizeKeepsMeasure(directory, planned, i, p, nodes);
    PlanThenFinish(t, i, plan, p);
    BelowFrames(directory, done, planned, t, nodes);
  }

  lemma PlanThenFinish(t: Table, i: nat, plan: MovePlan, p: Placement)
    requires i < |t|
    ensures WithPlan(t, i, plan)[i := (WithPlan(t, i, plan)[i].0, p)] == t[i := (t[i].0, p)]
  {
  }

  lemma BelowFrames(directory: seq<NodeEntry>, done: Table, planned: Table, t: Table, nodes: seq<NodeId>)
    requires Below(directory, planned, t, nodes)
    requires EvacSlots(directory, done) == EvacSlots(directory, planned)
             && Squares(done, nodes) == Squares(planned, nodes)
    ensures Below(directory, done, t, nodes)
  {
  }

  lemma StepRests(t: Table, r: nat, i: nat, p: Placement)
    requires AtRest(t, r) && i < |t| && p.move.None? && |VoterSet(p.voters)| == |p.voters| == r
    ensures AtRest(t[i := (t[i].0, p)], r)
  {
  }

  lemma SameVoters(a: seq<NodeId>, b: seq<NodeId>)
    requires |VoterSet(a)| == |a| && |VoterSet(b)| == |b| && VoterSet(a) == VoterSet(b)
    ensures multiset(a) == multiset(b)
  {
    forall n ensures multiset(a)[n] == multiset(b)[n] {
      DistinctShare(a, n);
      DistinctShare(b, n);
      assert n in a <==> n in VoterSet(a);
      assert n in b <==> n in VoterSet(b);
    }
  }

  lemma StepOutcome(directory: seq<NodeEntry>, t: Table, r: nat, i: nat, drop: NodeId, dest: NodeId, p: Placement,
                    nodes: seq<NodeId>)
    requires UniqueIds(directory) && AtRest(t, r) && Swap(directory, t, i, drop, dest)
    requires p.move.None? && |VoterSet(p.voters)| == |p.voters|
    requires VoterSet(p.voters) == VoterSet(Replacement(t[i].1.voters, drop, dest))
    requires Distinct(nodes) && Eligible(directory) <= VoterSet(nodes)
    ensures AtRest(t[i := (t[i].0, p)], r) && Below(directory, t[i := (t[i].0, p)], t, nodes)
  {
    var voters := t[i].1.voters;
    var target := Replacement(voters, drop, dest);
    SwapEnds(directory, t, i, drop, dest);
    ReplacementSwaps(voters, drop, dest);
    SwapMembers(voters, drop, dest, target);
    SameVoters(p.voters, target);
    StepRests(t, r, i, p);
    StepLowers(directory, t, i, drop, dest, target, p, nodes);
  }

  /** What the balancer may assume, and what every round restores: a reachable state with no move in flight. */
  ghost predicate Calm(s: MetaState, bound: nat) {
    && MetaInv(s, bound) && s.cluster.Some? && !MaintenanceIsActive(s)
    && NoMoves(TableOf(s.placements, s.cluster.value.p))
  }

  /** Nothing but data placements differ, and every placed group is still placed. */
  ghost predicate OnlyMoved(s: MetaState, t: MetaState) {
    && t == s.(placements := t.placements) && t.placements.Keys == s.placements.Keys
    && (Meta in s.placements ==> t.placements[Meta] == s.placements[Meta])
  }

  lemma CalmRests(s: MetaState, bound: nat)
    requires Calm(s, bound)
    ensures AtRest(TableOf(s.placements, s.cluster.value.p), s.cluster.value.r)
  {
    var t := TableOf(s.placements, s.cluster.value.p);
    forall i | 0 <= i < |t| ensures |VoterSet(t[i].1.voters)| == |t[i].1.voters| == s.cluster.value.r {
      PlacedVoters(s, bound, Data(t[i].0));
    }
  }

  /** Resolving the proposed plan to its target lowers the measure and leaves no move. */
  lemma RoundLowers(placements: map<GroupId, Placement>, p: u16, r: nat, directory: seq<NodeEntry>,
                    proposal: PlanProposal, q: Placement, nodes: seq<NodeId>)
    requires UniqueIds(directory) && AtRest(TableOf(placements, p), r)
    requires Moves(directory, TableOf(placements, p), proposal)
    requires q.move.None? && |VoterSet(q.voters)| == |q.voters| && VoterSet(q.voters) == VoterSet(proposal.targetVoters)
    requires Distinct(nodes) && Eligible(directory) <= VoterSet(nodes)
    ensures var u := TableOf(placements[proposal.group := q], p);
            AtRest(u, r) && Below(directory, u, TableOf(placements, p), nodes)
  {
    var t := TableOf(placements, p);
    var i, drop, dest := SwapOf(directory, t, proposal);
    SwapEnds(directory, t, i, drop, dest);
    TableUpdate(placements, p, i, q);
    StepOutcome(directory, t, r, i, drop, dest, q, nodes);
  }

  /** A legal plan takes effect. */
  lemma PlanLands(s: MetaState, g: GroupId, target: seq<NodeId>, logId: LogId)
    requires s.cluster.Some? && g in s.placements && s.placements[g].move.None?
    requires LegalTarget(s, g, VoterSet(s.placements[g].voters), target)
    ensures EvalCreatePlan(s, g, target, logId).state
         == s.(placements := s.placements[g := s.placements[g].(move := Some(PlanRecord(target, logId)))])
  {
    PlanExactly(s, g, target, logId);
    PlanWrites(s, g, target, logId);
  }

  /** The report of its own target resolves it. */
  lemma ReportFits(planned: MetaState, g: GroupId, target: seq<NodeId>, obs: DataConfigObservation, plan: MovePlan)
    requires !MaintenanceIsActive(planned) && g in planned.placements && planned.placements[g].move == Some(plan)
    requires plan.planId == obs.planId && !plan.aborting && VoterSet(plan.targetVoters) == VoterSet(target)
    requires obs.group == g && obs.voterSet == target
    ensures MoveDriver.Accepted(planned, FinalizePlan(g, obs.planId, obs))
  {
  }

  /** The plan is recorded under `index`, and nothing else has changed. */
  ghost predicate PlannedAs(s: MetaState, planned: MetaState, g: GroupId, target: seq<NodeId>, index: nat) {
    && g in planned.placements && planned == s.(placements := s.placements[g := planned.placements[g]])
    && planned.placements[g].move.Some?
    && var plan := planned.placements[g].move.value;
    && plan.planId == index && !plan.aborting && VoterSet(plan.targetVoters) == VoterSet(target)
  }

  /** The group's voters are the target, and nothing else has changed. */
  ghost predicate MovedTo(s: MetaState, done: MetaState, g: GroupId, target: seq<NodeId>, config: LogId) {
    && g in done.placements && done == s.(placements := s.placements[g := done.placements[g]])
    && done.placements[g].move.None? && VoterSet(done.placements[g].voters) == VoterSet(target)
    && done.placements[g].votersLogId == config
  }

  lemma PlanCommits(env: Env, s: MetaState, g: GroupId, target: seq<NodeId>, term: nat, index: nat)
    requires !MaintenanceIsActive(s) && s.cluster.Some? && g in s.placements && s.placements[g].move.None?
    requires LegalTarget(s, g, VoterSet(s.placements[g].voters), target)
    ensures PlannedAs(s, Evaluate(env, s, CreatePlan(g, target), LogId(term, index)).state, g, target, index)
  {
    ReachesCreate(env, s, CreatePlan(g, target), LogId(term, index));
    PlanLands(s, g, target, LogId(term, index));
  }

  lemma ReportCommits(env: Env, s: MetaState, planned: MetaState, g: GroupId, target: seq<NodeId>, term: nat,
                      index: nat, config: LogId)
    requires !MaintenanceIsActive(s) && PlannedAs(s, planned, g, target, index)
    ensures var obs := DataConfigObservation(g, index, target, config);
            var done := Evaluate(env, planned, FinalizePlan(g, index, obs), LogId(term, index + 1)).state;
            MovedTo(s, done, g, target, config)
  {
    var obs := DataConfigObservation(g, index, target, config);
    ReportFits(planned, g, target, obs, planned.placements[g].move.value);
    MoveDriver.ReportResolves(env, planned, FinalizePlan(g, index, obs), LogId(term, index + 1));
  }

  lemma BothKeep(env: Env, s: MetaState, bound: nat, first: MetaCommand, second: MetaCommand, term: nat, index: nat)
    requires MetaInv(s, bound) && bound <= index
    ensures var t := Evaluate(env, s, first, LogId(term, index)).state;
            MetaInv(Evaluate(env, t, second, LogId(term, index + 1)).state, index + 2)
  {
    EvaluateKeeps(env, s, first, LogId(term, index), bound);
    EvaluateKeeps(env, Evaluate(env, s, first, LogId(term, index)).state, second, LogId(term, index + 1), index + 1);
  }

  lemma RoundCalms(s: MetaState, bound: nat, done: MetaState, next: nat, g: GroupId, target: seq<NodeId>, config: LogId)
    requires Calm(s, bound) && MetaInv(done, next) && g.Data? && g in s.placements
             && MovedTo(s, done, g, target, config)
    requires NoMoves(TableOf(done.placements, s.cluster.value.p))
    ensures Calm(done, next) && OnlyMoved(s, done)
  {
  }

  /** A finished round lowers the measure and leaves no move. */
  lemma RoundLowersAt(s: MetaState, bound: nat, done: MetaState, next: nat, directory: seq<NodeEntry>,
                      proposal: PlanProposal, config: LogId, nodes: seq<NodeId>)
    requires Calm(s, bound) && MetaInv(done, next) && UniqueIds(directory)
    requires Moves(directory, TableOf(s.placements, s.cluster.value.p), proposal) && proposal.group.Data?
             && proposal.group in s.placements
    requires MovedTo(s, done, proposal.group, proposal.targetVoters, config)
    requires Distinct(nodes) && Eligible(directory) <= VoterSet(nodes)
    ensures var p := s.cluster.value.p;
            && NoMoves(TableOf(done.placements, p))
            && Below(directory, TableOf(done.placements, p), TableOf(s.placements, p), nodes)
  {
    CalmRests(s, bound);
    PlacedVoters(done, next, proposal.group);
    RoundLowers(s.placements, s.cluster.value.p, s.cluster.value.r, directory, proposal,
                done.placements[proposal.group], nodes);
  }

  /** Commit the plan and, once the data group has moved, its report. */
  method CommitMove(meta: MetaStore, ghost bound: nat, g: GroupId, target: seq<NodeId>, term: nat, index: nat,
                    config: LogId)
    requires MetaInv(meta.state, bound) && bound <= index && !MaintenanceIsActive(meta.state)
             && meta.state.cluster.Some?
    requires g in meta.state.placements && meta.state.placements[g].move.None?
    requires LegalTarget(meta.state, g, VoterSet(meta.state.placements[g].voters), target)
    modifies meta
    ensures MovedTo(old(meta.state), meta.state, g, target, config) && MetaInv(meta.state, index + 2)
  {
    ghost var s := meta.state;
    var report := FinalizePlan(g, index, DataConfigObservation(g, index, target, config));
    PlanCommits(meta.env, s, g, target, term, index);
    BothKeep(meta.env, s, bound, CreatePlan(g, target), report, term, index);
    var planned := meta.Apply(CreatePlan(g, target), LogId(term, index));
    ReportCommits(meta.env, s, meta.state, g, target, term, index, config);
    var resolved := meta.Apply(report, LogId(term, index + 1));
  }

  /** One round: it moves the proposed group and lowers the measure. */
  method Perform(meta: MetaStore, ghost bound: nat, ghost directory: seq<NodeEntry>, proposal: PlanProposal, term: nat,
                 index: nat, config: LogId, ghost nodes: seq<NodeId>)
    requires Calm(meta.state, bound) && bound <= index && Lists(directory, meta.state.nodes)
    requires ProposesNow(directory, meta.state, Some(proposal))
    requires Distinct(nodes) && Eligible(directory) <= VoterSet(nodes)
    modifies meta
    ensures Calm(meta.state, index + 2) && OnlyMoved(old(meta.state), meta.state)
    ensures Below(directory, Rows(meta.state), Rows(old(meta.state)), nodes)
  {
    ghost var s := meta.state;
    ProposalIsAccepted(s, bound, directory, Rows(s), proposal);
    CommitMove(meta, bound, proposal.group, proposal.targetVoters, term, index, config);
    RoundLowersAt(s, bound, meta.state, index + 2, directory, proposal, config, nodes);
    RoundCalms(s, bound, meta.state, index + 2, proposal.group, proposal.targetVoters, config);
  }

  // -- Convergence ------------------------------------------------------------------------------------------

  /** Between rounds: calm, listed, and the balancer has spoken. */
  ghost predicate Waiting(s: MetaState, bound: nat, directory: seq<NodeEntry>, proposal: Option<PlanProposal>) {
    Calm(s, bound) && Lists(directory, s.nodes) && ProposesNow(directory, s, proposal)
  }

  method NextProposal(meta: MetaStore, directory: seq<NodeEntry>) returns (proposal: Option<PlanProposal>)
    requires meta.state.cluster.Some?
    ensures ProposesNow(directory, meta.state, proposal)
  {
    proposal := Propose(directory, Rows(meta.state), meta.state.cluster.value.r);
  }

  method Round(meta: MetaStore, directory: seq<NodeEntry>, proposal: PlanProposal, term: nat, index: nat, config: LogId,
               ghost nodes: seq<NodeId>)
    returns (next: Option<PlanProposal>)
    requires Waiting(meta.state, index, directory, Some(proposal))
    requires Distinct(nodes) && Eligible(directory) <= VoterSet(nodes)
    modifies meta
    ensures Waiting(meta.state, index + 2, directory, next) && OnlyMoved(old(meta.state), meta.state)
    ensures Below(directory, Rows(meta.state), Rows(old(meta.state)), nodes)
  {
    Perform(meta, index, directory, proposal, term, index, config, nodes);
    next := NextProposal(meta, directory);
  }

  /** Rounds follow each other until nothing is proposed; the measure says that happens. */
  method Rounds(meta: MetaStore, directory: seq<NodeEntry>, first: Option<PlanProposal>, term: nat, bound: nat,
                configs: nat -> LogId, ghost nodes: seq<NodeId>)
    returns (index: nat)
    requires Waiting(meta.state, bound, directory, first)
    requires Distinct(nodes) && Eligible(directory) <= VoterSet(nodes)
    modifies meta
    ensures Waiting(meta.state, index, directory, None) && OnlyMoved(old(meta.state), meta.state)
  {
    var proposal := first;
    index := bound;
    while proposal.Some?
      invariant Waiting(meta.state, index, directory, proposal) && OnlyMoved(old(meta.state), meta.state)
      decreases EvacSlots(directory, Rows(meta.state)), Squares(Rows(meta.state), nodes)
    {
      ghost var s := meta.state;
      proposal := Round(meta, directory, proposal.value, term, index, configs(index), nodes);
      OnlyMovedTransitive(old(meta.state), s, meta.state);
      index := index + 2;
    }
  }

  predicate Serving(s: MetaState, n: NodeId) {
    n in s.nodes && (s.nodes[n].state == Active || s.nodes[n].state == Suspect)
  }

  /** No voter of any partition is Down, Draining or unknown. */
  ghost predicate AllServed(s: MetaState) {
    forall g: GroupId, v: NodeId :: g.Data? && g in s.placements && v in s.placements[g].voters ==> Serving(s, v)
  }

  /** No Active node has two partitions more than another. */
  ghost predicate LoadsEven(s: MetaState)
    requires s.cluster.Some?
  {
    forall a, b :: a in ActiveSet(s) && b in ActiveSet(s) ==> LoadOf(Rows(s), a) <= LoadOf(Rows(s), b) + 1
  }

  /** Proposing, committing the plan and finalizing it in turn ends, with no partition voting on a Down or Draining
      node, even loads on the Active ones, and nothing changed but data placements. `configs` are the data groups'
      configuration entries. */
  method Settle(meta: MetaStore, term: nat, bound: nat, directory: seq<NodeEntry>, configs: nat -> LogId)
    returns (index: nat)
    requires Calm(meta.state, bound) && Lists(directory, meta.state.nodes)
    requires |ActiveSet(meta.state)| >= meta.state.cluster.value.r
    modifies meta
    ensures Calm(meta.state, index) && OnlyMoved(old(meta.state), meta.state)
    ensures AllServed(meta.state) && LoadsEven(meta.state)
  {
    ghost var nodes := AllEligible(directory);
    var proposal := NextProposal(meta, directory);
    index := Rounds(meta, directory, proposal, term, bound, configs, nodes);
    Settled(old(meta.state), meta.state, index, directory);
  }

  lemma SameActive(s: MetaState, t: MetaState)
    requires OnlyMoved(s, t)
    ensures ActiveSet(t) == ActiveSet(s)
  {
  }

  lemma OnlyMovedTransitive(s: MetaState, t: MetaState, u: MetaState)
    requires OnlyMoved(s, t) && OnlyMoved(t, u)
    ensures OnlyMoved(s, u)
  {
  }

  lemma {:induction false} TableHolds(placements: map<GroupId, Placement>, p: u16, x: u16) returns (i: nat)
    requires x < p && Data(x) in placements
    ensures i < |TableOf(placements, p)| && TableOf(placements, p)[i].0 == x
    decreases p
  {
    var init := TableOf(placements, p - 1);
    if x == p - 1 {
      assert TableOf(placements, p) == init + [(x, placements[Data(x)])];
      i := |init|;
    } else {
      assert init <= TableOf(placements, p);
      i := TableHolds(placements, p - 1, x);
    }
  }

  /** Every placed partition is a row. */
  lemma RowOf(s: MetaState, bound: nat, g: GroupId) returns (i: nat)
    requires Calm(s, bound) && g.Data? && g in s.placements
    ensures i < |Rows(s)| && Rows(s)[i].1 == s.placements[g]
  {
    assert GroupInv(s.cluster.value, s.nodes.Keys, s.retired.Keys, g, s.placements[g]);
    i := TableHolds(s.placements, s.cluster.value.p, g.partition);
  }

  lemma ListedServes(directory: seq<NodeEntry>, s: MetaState, n: NodeId)
    requires Lists(directory, s.nodes) && InService(directory, n)
    ensures Serving(s, n)
  {
    var i: nat :| SpeaksFor(directory, i, n) && (directory[i].state == Active || directory[i].state == Suspect);
    assert directory[i] == s.nodes[n];
  }

  lemma StayIsServed(s: MetaState, bound: nat, directory: seq<NodeEntry>)
    requires Calm(s, bound) && Lists(directory, s.nodes) && AllStay(directory, Rows(s))
    ensures AllServed(s)
  {
    forall g: GroupId, v: NodeId | g.Data? && g in s.placements && v in s.placements[g].voters ensures Serving(s, v) {
      var i := RowOf(s, bound, g);
      assert v in Rows(s)[i].1.voters;
      ListedServes(directory, s, v);
    }
  }

  lemma Settled(first: MetaState, s: MetaState, bound: nat, directory: seq<NodeEntry>)
    requires Waiting(s, bound, directory, None) && OnlyMoved(first, s)
    requires |ActiveSet(first)| >= s.cluster.value.r
    ensures AllServed(s) && LoadsEven(s)
  {
    SameActive(first, s);
    EligibleIsActive(directory, s);
    CalmRests(s, bound);
    Fixpoint(directory, Rows(s), s.cluster.value.r, None);
    StayIsServed(s, bound, directory);
  }

  lemma AllEligible(directory: seq<NodeEntry>) returns (nodes: seq<NodeId>)
    ensures Distinct(nodes) && Eligible(directory) <= VoterSet(nodes)
  {
    nodes := SortedSeq(Eligible(directory));
    AscendingIsDistinct(nodes);
    SortedSeqIsVoterSet(Eligible(directory));
  }
}
