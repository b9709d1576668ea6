/** The deterministic placement balancer (src/placement.rs): at most one single-voter replacement,
    draining first, then evening out loads. */
module Balancer {
  import opened Types

  /** A `BTreeMap<u16, Placement>` in iteration order. */
  type Table = seq<(u16, Placement)>

  predicate KeysAscend(t: Table) {
    forall i, j :: 0 <= i < j < |t| ==> t[i].0 < t[j].0
  }

  datatype PlanProposal = PlanProposal(group: GroupId, targetVoters: seq<NodeId>)

  // -- Directory views --------------------------------------------------------------------------

  function Eligible(directory: seq<NodeEntry>): set<NodeId> {
    set i | 0 <= i < |directory| && directory[i].state == Active :: directory[i].nodeId
  }

  /** The state of the first entry with this id. */
  function StateOf(directory: seq<NodeEntry>, n: NodeId): Option<NodeState> {
    if directory == [] then None
    else if directory[0].nodeId == n then Some(directory[0].state)
    else StateOf(directory[1..], n)
  }

  predicate MustLeave(directory: seq<NodeEntry>, n: NodeId) {
    match StateOf(directory, n)
    case None => true
    case Some(state) => state == Down || state == Draining
  }

  function Evacuating(directory: seq<NodeEntry>, voters: seq<NodeId>): set<NodeId> {
    set v | v in voters && MustLeave(directory, v)
  }

  predicate UniqueIds(directory: seq<NodeEntry>) {
    forall i, j :: 0 <= i < j < |directory| ==> directory[i].nodeId != directory[j].nodeId
  }

  /** Entry `i` speaks for `n`: it is the first one with its id. */
  predicate SpeaksFor(directory: seq<NodeEntry>, i: nat, n: NodeId) {
    i < |directory| && directory[i].nodeId == n && forall j :: 0 <= j < i ==> directory[j].nodeId != n
  }

  /** The directory lists `n` as Active or Suspect. */
  ghost predicate InService(directory: seq<NodeEntry>, n: NodeId) {
    exists i: nat :: SpeaksFor(directory, i, n) && (directory[i].state == Active || directory[i].state == Suspect)
  }

  /** The voters that the directory does not list as Active or Suspect. */
  ghost function Leaving(directory: seq<NodeEntry>, voters: seq<NodeId>): set<NodeId> {
    set v | v in voters && !InService(directory, v)
  }

  lemma {:induction false} StateIsListed(directory: seq<NodeEntry>, n: NodeId, i: nat)
    requires SpeaksFor(directory, i, n)
    ensures StateOf(directory, n) == Some(directory[i].state)
  {
    if i > 0 {
      assert directory[0].nodeId != n;
      assert directory[1..][i - 1] == directory[i];
      StateIsListed(directory[1..], n, i - 1);
    }
  }

  lemma {:induction false} ListedSpeaks(directory: seq<NodeEntry>, n: NodeId) returns (i: nat)
    requires StateOf(directory, n).Some?
    ensures SpeaksFor(directory, i, n)
  {
    if directory[0].nodeId == n {
      i := 0;
    } else {
      var j := ListedSpeaks(directory[1..], n);
      i := j + 1;
    }
  }

  /** A voter is evacuated exactly if the directory does not list it as Active or Suspect. */
  lemma EvacuatesExactly(directory: seq<NodeEntry>, voters: seq<NodeId>)
    ensures Evacuating(directory, voters) == Leaving(directory, voters)
  {
    forall n ensures MustLeave(directory, n) <==> !InService(directory, n) {
      if InService(directory, n) {
        var i: nat :| SpeaksFor(directory, i, n) && (directory[i].state == Active || directory[i].state == Suspect);
        StateIsListed(directory, n, i);
      } else if StateOf(directory, n).Some? {
        var i := ListedSpeaks(directory, n);
        StateIsListed(directory, n, i);
      }
    }
  }

  lemma EligibleStays(directory: seq<NodeEntry>, n: NodeId)
    requires UniqueIds(directory) && n in Eligible(directory)
    ensures InService(directory, n)
  {
    var i :| 0 <= i < |directory| && directory[i].state == Active && directory[i].nodeId == n;
    assert SpeaksFor(directory, i, n);
  }

  // -- Anticipated load -----------------------------------------------------------------------------

  /** The voters a placement is heading for: a healthy move already counts at its target. */
  function Anticipated(p: Placement): seq<NodeId> {
    if p.move.Some? && !p.move.value.aborting then p.move.value.targetVoters else p.voters
  }

  function Share(p: Placement, n: NodeId): nat {
    multiset(Anticipated(p))[n]
  }

  function LoadOf(t: Table, n: NodeId): nat {
    if t == [] then 0 else LoadOf(t[..|t| - 1], n) + Share(t[|t| - 1].1, n)
  }

  function LoadIn(load: map<NodeId, nat>, n: NodeId): nat {
    if n in load then load[n] else 0
  }

  ghost predicate Loads(load: map<NodeId, nat>, t: Table) {
    forall n :: LoadIn(load, n) == LoadOf(t, n)
  }

  method LoadMap(t: Table) returns (load: map<NodeId, nat>)
    ensures Loads(load, t)
  {
    load := map[];
    for i := 0 to |t|
      invariant Loads(load, t[..i])
    {
      var voters := Anticipated(t[i].1);
      ghost var before := load;
      for k := 0 to |voters|
        invariant forall n :: LoadIn(load, n) == LoadIn(before, n) + multiset(voters[..k])[n]
      {
        assert voters[..k + 1] == voters[..k] + [voters[k]];
        load := load[voters[k] := LoadIn(load, voters[k]) + 1];
      }
      assert voters[..|voters|] == voters;
      assert t[..i + 1][..i] == t[..i];
    }
    assert t[..|t|] == t;
  }

  // -- Choices --------------------------------------------------------------------------------------------

  ghost predicate IsLeastLoaded(t: Table, pool: set<NodeId>, d: NodeId) {
    d in pool && forall x :: x in pool ==> LoadOf(t, d) < LoadOf(t, x) || (LoadOf(t, d) == LoadOf(t, x) && d <= x)
  }

  ghost predicate IsMostLoaded(t: Table, pool: set<NodeId>, s: NodeId) {
    s in pool && forall x :: x in pool ==> LoadOf(t, x) < LoadOf(t, s) || (LoadOf(t, x) == LoadOf(t, s) && s <= x)
  }

  /** `min_by` load, then id. */
  function LeastLoaded(ids: seq<NodeId>, load: map<NodeId, nat>, ghost t: Table): (d: Option<NodeId>)
    requires Loads(load, t)
    ensures d.None? <==> ids == []
    ensures d.Some? ==> IsLeastLoaded(t, VoterSet(ids), d.value)
  {
    if ids == [] then None
    else
      var rest := LeastLoaded(ids[1..], load, t);
      assert ids == [ids[0]] + ids[1..];
      if rest.Some? && (LoadIn(load, rest.value) < LoadIn(load, ids[0])
                        || (LoadIn(load, rest.value) == LoadIn(load, ids[0]) && rest.value < ids[0])) then rest
      else Some(ids[0])
  }

  /** `max_by` load, ties going to the lower id. */
  function MostLoaded(ids: seq<NodeId>, load: map<NodeId, nat>, ghost t: Table): (s: Option<NodeId>)
    requires Loads(load, t)
    ensures s.None? <==> ids == []
    ensures s.Some? ==> IsMostLoaded(t, VoterSet(ids), s.value)
  {
    if ids == [] then None
    else
      var rest := MostLoaded(ids[1..], load, t);
      assert ids == [ids[0]] + ids[1..];
      if rest.Some? && (LoadIn(load, rest.value) > LoadIn(load, ids[0])
                        || (LoadIn(load, rest.value) == LoadIn(load, ids[0]) && rest.value < ids[0])) then rest
      else Some(ids[0])
  }

  function Keep(ids: seq<NodeId>, pool: set<NodeId>): (r: seq<NodeId>)
    ensures forall x :: x in r <==> x in ids && x in pool
  {
    if ids == [] then []
    else
      assert ids == [ids[0]] + ids[1..];
      if ids[0] in pool then [ids[0]] + Keep(ids[1..], pool) else Keep(ids[1..], pool)
  }

  predicate InOrder(ids: seq<NodeId>) {
    forall i, j :: 0 <= i < j < |ids| ==> ids[i] <= ids[j]
  }

  function InsertId(ids: seq<NodeId>, n: NodeId): (r: seq<NodeId>)
    ensures multiset(r) == multiset(ids) + multiset{n}
  {
    if ids == [] || n <= ids[0] then [n] + ids
    else
      assert ids == [ids[0]] + ids[1..];
      [ids[0]] + InsertId(ids[1..], n)
  }

  /** `sort_unstable` on ids. */
  function SortIds(ids: seq<NodeId>): (r: seq<NodeId>)
    ensures multiset(r) == multiset(ids)
  {
    if ids == [] then []
    else
      assert ids == [ids[0]] + ids[1..];
      InsertId(SortIds(ids[1..]), ids[0])
  }

  lemma ConsInOrder(x: NodeId, ids: seq<NodeId>)
    requires InOrder(ids) && (ids != [] ==> x <= ids[0])
    ensures InOrder([x] + ids)
  {
  }

  lemma {:induction false} InsertInOrder(ids: seq<NodeId>, n: NodeId)
    requires InOrder(ids)
    ensures InOrder(InsertId(ids, n))
    ensures InsertId(ids, n) != [] && (InsertId(ids, n)[0] == n || (ids != [] && InsertId(ids, n)[0] == ids[0]))
  {
    if ids == [] || n <= ids[0] {
      ConsInOrder(n, ids);
    } else {
      InsertInOrder(ids[1..], n);
      ConsInOrder(ids[0], InsertId(ids[1..], n));
    }
  }

  lemma {:induction false} SortInOrder(ids: seq<NodeId>)
    ensures InOrder(SortIds(ids))
  {
    if ids != [] {
      SortInOrder(ids[1..]);
      InsertInOrder(SortIds(ids[1..]), ids[0]);
    }
  }

  function Dropped(voters: seq<NodeId>, drop: NodeId): seq<NodeId> {
    if voters == [] then []
    else if voters[0] == drop then Dropped(voters[1..], drop)
    else [voters[0]] + Dropped(voters[1..], drop)
  }

  lemma {:induction false} DroppedCounts(voters: seq<NodeId>, drop: NodeId)
    ensures multiset(Dropped(voters, drop)) == multiset(voters)[drop := 0]
  {
    if voters == [] {
      assert multiset(Dropped(voters, drop)) == multiset(voters)[drop := 0];
    } else {
      assert voters == [voters[0]] + voters[1..];
      DroppedCounts(voters[1..], drop);
    }
  }

  function Replacement(voters: seq<NodeId>, drop: NodeId, add: NodeId): seq<NodeId> {
    SortIds(Dropped(voters, drop) + [add])
  }

  lemma ReplacementCounts(voters: seq<NodeId>, drop: NodeId, add: NodeId)
    requires drop != add
    ensures multiset(Replacement(voters, drop, add)) == multiset(voters)[drop := 0] + multiset{add}
    ensures InOrder(Replacement(voters, drop, add))
  {
    DroppedCounts(voters, drop);
    SortInOrder(Dropped(voters, drop) + [add]);
  }

  // -- What a proposal is ---------------------------------------------------------------------------------------

  /** Where partition `i` can go: the eligible nodes that are not voters here. */
  function Pool(directory: seq<NodeEntry>, p: Placement): set<NodeId> {
    Eligible(directory) - VoterSet(p.voters)
  }

  ghost predicate Drainable(directory: seq<NodeEntry>, p: Placement) {
    p.move.None? && Leaving(directory, p.voters) != {} && Pool(directory, p) != {}
  }

  /** The one rebalancing candidate a partition offers. */
  ghost predicate Candidate(directory: seq<NodeEntry>, t: Table, i: nat, source: NodeId, dest: NodeId)
    requires i < |t|
  {
    var p := t[i].1;
    && p.move.None?
    && IsMostLoaded(t, VoterSet(p.voters) * Eligible(directory), source)
    && IsLeastLoaded(t, Pool(directory, p), dest)
    && LoadOf(t, source) >= LoadOf(t, dest) + 2
  }

  ghost predicate Blocked(directory: seq<NodeEntry>, t: Table, r: nat) {
    || |Eligible(directory)| < r
    || exists i :: 0 <= i < |t| && t[i].1.move.Some? && t[i].1.move.value.aborting
  }

  ghost predicate NothingToDrain(directory: seq<NodeEntry>, t: Table, upTo: nat) {
    forall i :: 0 <= i < upTo && i < |t| ==> !Drainable(directory, t[i].1)
  }

  ghost predicate NoCandidate(directory: seq<NodeEntry>, t: Table, upTo: nat) {
    forall i: nat, s, d :: i < upTo && i < |t| ==> !Candidate(directory, t, i, s, d)
  }

  /** The first drainable partition sheds its lowest evacuating voter to the least loaded node. */
  ghost predicate Drains(directory: seq<NodeEntry>, t: Table, i: nat, drop: NodeId, dest: NodeId) {
    && i < |t| && NothingToDrain(directory, t, i) && Drainable(directory, t[i].1)
    && IsLeast(drop, Leaving(directory, t[i].1.voters))
    && IsLeastLoaded(t, Pool(directory, t[i].1), dest)
  }

  /** With nothing to drain, the candidate with the most loaded source moves, the lowest partition on a tie. */
  ghost predicate BestUpTo(directory: seq<NodeEntry>, t: Table, i: nat, source: NodeId, dest: NodeId, upTo: nat) {
    && i < |t| && i < upTo && Candidate(directory, t, i, source, dest)
    && forall j: nat, s, d :: j < upTo && j < |t| && Candidate(directory, t, j, s, d) ==>
         LoadOf(t, s) < LoadOf(t, source) || (LoadOf(t, s) == LoadOf(t, source) && i <= j)
  }

  ghost predicate Rebalances(directory: seq<NodeEntry>, t: Table, i: nat, source: NodeId, dest: NodeId) {
    NothingToDrain(directory, t, |t|) && BestUpTo(directory, t, i, source, dest, |t|)
  }

  ghost predicate Swap(directory: seq<NodeEntry>, t: Table, i: nat, drop: NodeId, dest: NodeId) {
    Drains(directory, t, i, drop, dest) || Rebalances(directory, t, i, drop, dest)
  }

  ghost predicate ProposalFor(t: Table, i: nat, drop: NodeId, dest: NodeId, proposal: PlanProposal)
    requires i < |t|
  {
    proposal == PlanProposal(Data(t[i].0), Replacement(t[i].1.voters, drop, dest))
  }

  ghost predicate Moves(directory: seq<NodeEntry>, t: Table, proposal: PlanProposal) {
    exists i, drop, dest :: Swap(directory, t, i, drop, dest) && ProposalFor(t, i, drop, dest, proposal)
  }

  ghost predicate Proposes(directory: seq<NodeEntry>, t: Table, r: nat, result: Option<PlanProposal>) {
    if Blocked(directory, t, r) then result == None
    else if result.None? then NothingToDrain(directory, t, |t|) && NoCandidate(directory, t, |t|)
    else Moves(directory, t, result.value)
  }

  // -- propose -------------------------------------------------------------------------------------------------------

  /** `better_rebalance`: the more loaded source wins, then the lower partition, source and destination. */
  predicate Better(load: map<NodeId, nat>, cand: (NodeId, NodeId, u16), cur: (NodeId, NodeId, u16)) {
    var a, b := LoadIn(load, cand.0), LoadIn(load, cur.0);
    || a > b
    || (a == b && cand.2 < cur.2)
    || (a == b && cand.2 == cur.2 && cand.0 < cur.0)
    || (a == b && cand.2 == cur.2 && cand.0 == cur.0 && cand.1 < cur.1)
  }

  method DrainHere(directory: seq<NodeEntry>, t: Table, load: map<NodeId, nat>, p: Placement)
    returns (found: bool, drop: NodeId, dest: NodeId)
    requires Loads(load, t)
    ensures found <==> Drainable(directory, p)
    ensures found ==> IsLeast(drop, Leaving(directory, p.voters)) && IsLeastLoaded(t, Pool(directory, p), dest)
  {
    found, drop, dest := false, 0, 0;
    if p.move.Some? {
      return;
    }
    var evacuating := Evacuating(directory, p.voters);
    EvacuatesExactly(directory, p.voters);
    var pool := Pool(directory, p);
    SortedSeqIsVoterSet(pool);
    var choice := LeastLoaded(SortedSeq(pool), load, t);
    if evacuating != {} && choice.Some? {
      return true, Least(evacuating), choice.value;
    }
  }

  method FindDrain(directory: seq<NodeEntry>, t: Table, load: map<NodeId, nat>)
    returns (i: nat, drop: NodeId, dest: NodeId)
    requires Loads(load, t)
    ensures i <= |t|
    ensures i == |t| ==> NothingToDrain(directory, t, |t|)
    ensures i < |t| ==> Drains(directory, t, i, drop, dest)
  {
    for k := 0 to |t|
      invariant NothingToDrain(directory, t, k)
    {
      var found, from, to := DrainHere(directory, t, load, t[k].1);
      if found {
        return k, from, to;
      }
    }
    return |t|, 0, 0;
  }

  /** The partition's most loaded eligible voter and least loaded destination, if it has both. */
  method Ends(directory: seq<NodeEntry>, t: Table, load: map<NodeId, nat>, p: Placement)
    returns (from: Option<NodeId>, to: Option<NodeId>)
    requires Loads(load, t)
    ensures from.None? ==> VoterSet(p.voters) * Eligible(directory) == {}
    ensures from.Some? ==> IsMostLoaded(t, VoterSet(p.voters) * Eligible(directory), from.value)
    ensures to.None? ==> Pool(directory, p) == {}
    ensures to.Some? ==> IsLeastLoaded(t, Pool(directory, p), to.value)
  {
    var own, pool := Keep(p.voters, Eligible(directory)), Pool(directory, p);
    assert VoterSet(own) == VoterSet(p.voters) * Eligible(directory);
    SortedSeqIsVoterSet(pool);
    from := MostLoaded(own, load, t);
    to := LeastLoaded(SortedSeq(pool), load, t);
  }

  method Offer(directory: seq<NodeEntry>, t: Table, load: map<NodeId, nat>, k: nat)
    returns (found: bool, source: NodeId, dest: NodeId)
    requires Loads(load, t) && k < |t|
    ensures found ==> Candidate(directory, t, k, source, dest)
    ensures !found ==> forall s, d :: !Candidate(directory, t, k, s, d)
  {
    found, source, dest := false, 0, 0;
    if t[k].1.move.Some? {
      return;
    }
    var from, to := Ends(directory, t, load, t[k].1);
    if from.None? || to.None? {
      return;
    }
    if LoadIn(load, from.value) >= LoadIn(load, to.value) + 2 {
      return true, from.value, to.value;
    }
  }

  /** A partition has at most one candidate move. */
  lemma SameCandidate(directory: seq<NodeEntry>, t: Table, i: nat, s: NodeId, d: NodeId, s': NodeId, d': NodeId)
    requires i < |t| && Candidate(directory, t, i, s, d) && Candidate(directory, t, i, s', d')
    ensures s' == s && d' == d
  {
  }

  lemma OneCandidate(directory: seq<NodeEntry>, t: Table, i: nat, s: NodeId, d: NodeId)
    requires i < |t| && Candidate(directory, t, i, s, d)
    ensures forall s', d' :: Candidate(directory, t, i, s', d') ==> s' == s && d' == d
  {
    forall s', d' | Candidate(directory, t, i, s', d') ensures s' == s && d' == d {
      SameCandidate(directory, t, i, s, d, s', d');
    }
  }

  /** A later partition displaces the best candidate only with a more loaded source. */
  lemma BestDisplaced(directory: seq<NodeEntry>, t: Table, i: nat, source: NodeId, dest: NodeId, k: nat, s: NodeId,
                      d: NodeId)
    requires k < |t| && BestUpTo(directory, t, i, source, dest, k) && Candidate(directory, t, k, s, d)
    requires LoadOf(t, s) > LoadOf(t, source)
    ensures BestUpTo(directory, t, k, s, d, k + 1)
  {
    forall j: nat, x, y | j < k + 1 && Candidate(directory, t, j, x, y)
      ensures LoadOf(t, x) < LoadOf(t, s) || (LoadOf(t, x) == LoadOf(t, s) && k <= j)
    {
      if j == k { SameCandidate(directory, t, k, s, d, x, y); }
    }
  }

  lemma BestKept(directory: seq<NodeEntry>, t: Table, i: nat, source: NodeId, dest: NodeId, k: nat, s: NodeId,
                 d: NodeId)
    requires k < |t| && BestUpTo(directory, t, i, source, dest, k) && Candidate(directory, t, k, s, d)
    requires LoadOf(t, s) <= LoadOf(t, source)
    ensures BestUpTo(directory, t, i, source, dest, k + 1)
  {
    forall j: nat, x, y | j < k + 1 && Candidate(directory, t, j, x, y)
      ensures LoadOf(t, x) < LoadOf(t, source) || (LoadOf(t, x) == LoadOf(t, source) && i <= j)
    {
      if j == k { SameCandidate(directory, t, k, s, d, x, y); }
    }
  }

  lemma BestStep(directory: seq<NodeEntry>, t: Table, i: nat, source: NodeId, dest: NodeId, k: nat, s: NodeId,
                 d: NodeId)
    requires k < |t| && BestUpTo(directory, t, i, source, dest, k) && Candidate(directory, t, k, s, d)
    ensures if LoadOf(t, s) > LoadOf(t, source) then BestUpTo(directory, t, k, s, d, k + 1)
            else BestUpTo(directory, t, i, source, dest, k + 1)
  {
    if LoadOf(t, s) > LoadOf(t, source) {
      BestDisplaced(directory, t, i, source, dest, k, s, d);
    } else {
      BestKept(directory, t, i, source, dest, k, s, d);
    }
  }

  lemma FirstStep(directory: seq<NodeEntry>, t: Table, k: nat, s: NodeId, d: NodeId)
    requires k < |t| && NoCandidate(directory, t, k) && Candidate(directory, t, k, s, d)
    ensures BestUpTo(directory, t, k, s, d, k + 1)
  {
    OneCandidate(directory, t, k, s, d);
  }

  lemma SkipStep(directory: seq<NodeEntry>, t: Table, i: nat, source: NodeId, dest: NodeId, k: nat)
    requires k < |t| && forall s, d :: !Candidate(directory, t, k, s, d)
    ensures NoCandidate(directory, t, k) ==> NoCandidate(directory, t, k + 1)
    ensures BestUpTo(directory, t, i, source, dest, k) ==> BestUpTo(directory, t, i, source, dest, k + 1)
  {
  }

  method FindRebalance(directory: seq<NodeEntry>, t: Table, load: map<NodeId, nat>)
    returns (i: nat, source: NodeId, dest: NodeId)
    requires Loads(load, t) && KeysAscend(t)
    ensures i <= |t|
    ensures i == |t| ==> NoCandidate(directory, t, |t|)
    ensures i < |t| ==> BestUpTo(directory, t, i, source, dest, |t|)
  {
    i, source, dest := |t|, 0, 0;
    for k := 0 to |t|
      invariant i < k || i == |t|
      invariant i == |t| ==> NoCandidate(directory, t, k)
      invariant i < |t| ==> BestUpTo(directory, t, i, source, dest, k)
    {
      var found, s, d := Offer(directory, t, load, k);
      if !found {
        SkipStep(directory, t, i, source, dest, k);
      } else if i == |t| {
        FirstStep(directory, t, k, s, d);
        i, source, dest := k, s, d;
      } else {
        BestStep(directory, t, i, source, dest, k, s, d);
        if Better(load, (s, d, t[k].0), (source, dest, t[i].0)) {
          i, source, dest := k, s, d;
        }
      }
    }
  }

  method Propose(directory: seq<NodeEntry>, t: Table, r: nat) returns (result: Option<PlanProposal>)
    requires KeysAscend(t)
    ensures Proposes(directory, t, r, result)
  {
    if |Eligible(directory)| < r {
      return None;
    }
    if exists i :: 0 <= i < |t| && t[i].1.move.Some? && t[i].1.move.value.aborting {
      return None;
    }
    var load := LoadMap(t);
    var i, drop, dest := FindDrain(directory, t, load);
    if i == |t| {
      i, drop, dest := FindRebalance(directory, t, load);
    }
    if i == |t| {
      return None;
    }
    assert Swap(directory, t, i, drop, dest);
    result := Some(PlanProposal(Data(t[i].0), Replacement(t[i].1.voters, drop, dest)));
  }

  /** The specification leaves no choice: the same directory and placements always yield the same plan. */
  lemma Deterministic(directory: seq<NodeEntry>, t: Table, r: nat, a: Option<PlanProposal>, b: Option<PlanProposal>)
    requires Proposes(directory, t, r, a) && Proposes(directory, t, r, b)
    ensures a == b
  {
    if !Blocked(directory, t, r) {
      if a.Some? { SomeOrNone(directory, t, a.value); }
      if b.Some? { SomeOrNone(directory, t, b.value); }
      if a.Some? && b.Some? {
        SameProposal(directory, t, a.value, b.value);
      }
    }
  }

  lemma SwapIsWork(directory: seq<NodeEntry>, t: Table, i: nat, s: NodeId, d: NodeId)
    requires Swap(directory, t, i, s, d)
    ensures !(NothingToDrain(directory, t, |t|) && NoCandidate(directory, t, |t|))
  {
    if Drains(directory, t, i, s, d) {
      assert Drainable(directory, t[i].1);
    } else {
      assert Candidate(directory, t, i, s, d);
    }
  }

  lemma SwapOf(directory: seq<NodeEntry>, t: Table, proposal: PlanProposal) returns (i: nat, s: NodeId, d: NodeId)
    requires Moves(directory, t, proposal)
    ensures Swap(directory, t, i, s, d) && ProposalFor(t, i, s, d, proposal)
  {
    i, s, d :| Swap(directory, t, i, s, d) && ProposalFor(t, i, s, d, proposal);
  }

  lemma SomeOrNone(directory: seq<NodeEntry>, t: Table, proposal: PlanProposal)
    requires Moves(directory, t, proposal)
    ensures !(NothingToDrain(directory, t, |t|) && NoCandidate(directory, t, |t|))
  {
    var i, s, d := SwapOf(directory, t, proposal);
    SwapIsWork(directory, t, i, s, d);
  }

  lemma SameProposal(directory: seq<NodeEntry>, t: Table, a: PlanProposal, b: PlanProposal)
    requires Moves(directory, t, a) && Moves(directory, t, b)
    ensures a == b
  {
    var i, s, d := SwapOf(directory, t, a);
    var j, s', d' := SwapOf(directory, t, b);
    SwapIsUnique(directory, t, i, s, d, j, s', d');
  }

  lemma SwapIsUnique(directory: seq<NodeEntry>, t: Table, i: nat, s: NodeId, d: NodeId, j: nat, s': NodeId, d': NodeId)
    requires Swap(directory, t, i, s, d) && Swap(directory, t, j, s', d')
    ensures i == j && s == s' && d == d'
  {
    if Rebalances(directory, t, i, s, d) && Rebalances(directory, t, j, s', d') {
      assert i == j;
      OneCandidate(directory, t, i, s, d);
    }
  }

  // -- Fixpoint -----------------------------------------------------------------------------------

  ghost predicate NoMoves(t: Table) {
    forall i :: 0 <= i < |t| ==> t[i].1.move.None?
  }

  /** Every partition has exactly `r` distinct voters. */
  ghost predicate WellPlaced(t: Table, r: nat) {
    forall i :: 0 <= i < |t| ==> |VoterSet(t[i].1.voters)| == |t[i].1.voters| == r
  }

  /** Every voter of every partition is listed as Active or Suspect. */
  ghost predicate AllStay(directory: seq<NodeEntry>, t: Table) {
    forall i, v :: 0 <= i < |t| && v in t[i].1.voters ==> InService(directory, v)
  }

  ghost predicate Balanced(directory: seq<NodeEntry>, t: Table) {
    forall a, b :: a in Eligible(directory) && b in Eligible(directory) ==> LoadOf(t, a) <= LoadOf(t, b) + 1
  }

  lemma {:induction false} Pigeonhole(t: Table, a: NodeId, b: NodeId) returns (i: nat)
    requires LoadOf(t, a) > LoadOf(t, b)
    ensures i < |t| && Share(t[i].1, a) > Share(t[i].1, b)
  {
    if Share(t[|t| - 1].1, a) > Share(t[|t| - 1].1, b) {
      i := |t| - 1;
    } else {
      i := Pigeonhole(t[..|t| - 1], a, b);
    }
  }

  lemma DistinctShare(voters: seq<NodeId>, n: NodeId)
    requires |VoterSet(voters)| == |voters|
    ensures multiset(voters)[n] == if n in voters then 1 else 0
  {
    VoterSetSize(voters);
    if multiset(voters)[n] >= 2 { TwiceMeansRepeat(voters, n); }
  }

  lemma {:induction false} TwiceMeansRepeat(voters: seq<NodeId>, n: NodeId)
    requires multiset(voters)[n] >= 2
    ensures !Distinct(voters)
  {
    var rest := voters[1..];
    assert voters == [voters[0]] + rest;
    if voters[0] == n {
      assert n in multiset(rest);
      var j :| 0 <= j < |rest| && rest[j] == n;
      assert voters[j + 1] == voters[0];
    } else {
      TwiceMeansRepeat(rest, n);
      var i, j :| 0 <= i < j < |rest| && rest[i] == rest[j];
      assert voters[i + 1] == voters[j + 1];
    }
  }

  lemma SmallerSet(a: set<NodeId>, b: set<NodeId>)
    requires a <= b && a != b
    ensures |a| < |b|
  {
    assert b == a + (b - a);
  }

  /** An evacuating voter leaves room: some eligible node is not a voter. */
  lemma RoomToDrain(directory: seq<NodeEntry>, p: Placement)
    requires UniqueIds(directory) && |VoterSet(p.voters)| <= |Eligible(directory)|
    requires Leaving(directory, p.voters) != {}
    ensures Pool(directory, p) != {}
  {
    if Pool(directory, p) == {} {
      var v :| v in Leaving(directory, p.voters);
      forall n | n in Eligible(directory) ensures n in VoterSet(p.voters) && n != v {
        EligibleStays(directory, n);
        assert n !in Pool(directory, p);
      }
      assert v in VoterSet(p.voters) && v !in Eligible(directory);
      SmallerSet(Eligible(directory), VoterSet(p.voters));
    }
  }

  lemma {:induction false} HasLeastLoaded(t: Table, pool: set<NodeId>) returns (d: NodeId)
    requires pool != {}
    ensures IsLeastLoaded(t, pool, d)
  {
    var x :| x in pool;
    d := x;
    if pool != {x} {
      var e := HasLeastLoaded(t, pool - {x});
      if LoadOf(t, e) < LoadOf(t, x) || (LoadOf(t, e) == LoadOf(t, x) && e < x) { d := e; }
    }
    assert forall y :: y in pool ==> y == x || y in pool - {x};
  }

  lemma {:induction false} HasMostLoaded(t: Table, pool: set<NodeId>) returns (s: NodeId)
    requires pool != {}
    ensures IsMostLoaded(t, pool, s)
  {
    var x :| x in pool;
    s := x;
    if pool != {x} {
      var e := HasMostLoaded(t, pool - {x});
      if LoadOf(t, e) > LoadOf(t, x) || (LoadOf(t, e) == LoadOf(t, x) && e < x) { s := e; }
    }
    assert forall y :: y in pool ==> y == x || y in pool - {x};
  }

  /** Two Active nodes two slots apart: the pigeonhole gives a partition that holds one and not the other. */
  lemma GapGivesCandidate(directory: seq<NodeEntry>, t: Table, r: nat, a: NodeId, b: NodeId)
    returns (i: nat, s: NodeId, d: NodeId)
    requires NoMoves(t) && WellPlaced(t, r)
    requires a in Eligible(directory) && b in Eligible(directory) && LoadOf(t, a) >= LoadOf(t, b) + 2
    ensures i < |t| && Candidate(directory, t, i, s, d)
  {
    i := Pigeonhole(t, a, b);
    var p := t[i].1;
    DistinctShare(p.voters, a);
    DistinctShare(p.voters, b);
    assert a in VoterSet(p.voters) * Eligible(directory);
    assert b in Pool(directory, p);
    s := HasMostLoaded(t, VoterSet(p.voters) * Eligible(directory));
    d := HasLeastLoaded(t, Pool(directory, p));
  }

  /** The balancer stops exactly when every voter is listed as Active or Suspect and the loads of any two Active nodes
      differ by at most one. */
  lemma Fixpoint(directory: seq<NodeEntry>, t: Table, r: nat, result: Option<PlanProposal>)
    requires UniqueIds(directory) && NoMoves(t) && WellPlaced(t, r) && |Eligible(directory)| >= r
    requires Proposes(directory, t, r, result)
    ensures result.None? <==> AllStay(directory, t) && Balanced(directory, t)
  {
    assert !Blocked(directory, t, r);
    if result.None? {
      forall i, v | 0 <= i < |t| && v in t[i].1.voters ensures InService(directory, v) {
        if !InService(directory, v) {
          assert v in Leaving(directory, t[i].1.voters);
          RoomToDrain(directory, t[i].1);
        }
      }
      forall a, b | a in Eligible(directory) && b in Eligible(directory) ensures LoadOf(t, a) <= LoadOf(t, b) + 1 {
        if LoadOf(t, a) >= LoadOf(t, b) + 2 {
          var i, s, d := GapGivesCandidate(directory, t, r, a, b);
        }
      }
    }
  }
}
