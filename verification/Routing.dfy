/** Routing snapshots (src/api/ops.rs): validation, candidate lists, and the wire-size bound
    (src/config.rs, src/codec.rs). */
module Routing {
  import opened Types
  import opened Config
  import opened MetaStateMachine
  import opened MetaInvariants

  datatype RoutingInfo = RoutingInfo(
    clusterId: nat,
    recoveryEpoch: nat,
    p: u16,
    hashSeed: nat,
    directory: seq<NodeEntry>,
    placements: seq<(u16, Placement)>)

  function Ids(directory: seq<NodeEntry>): set<NodeId> {
    set i | 0 <= i < |directory| :: directory[i].nodeId
  }

  predicate ValidEndpoint(e: Endpoint) {
    1 <= e.bytes <= MAX_ENDPOINT_BYTES
  }

  /** Nonzero unique ids, well-sized endpoints, no endpoint on two nodes or two lanes. */
  predicate ValidDirectory(directory: seq<NodeEntry>) {
    && (forall i :: 0 <= i < |directory| ==>
          && directory[i].nodeId != 0
          && ValidEndpoint(directory[i].controlAddr) && ValidEndpoint(directory[i].bulkAddr)
          && directory[i].controlAddr != directory[i].bulkAddr)
    && (forall i, j :: 0 <= i < j < |directory| ==>
          && directory[i].nodeId != directory[j].nodeId
          && !SharesEndpoint(directory[i], directory[j].controlAddr, directory[j].bulkAddr))
  }

  predicate ValidPlan(plan: MovePlan, voters: set<NodeId>, nodes: set<NodeId>) {
    var target := VoterSet(plan.targetVoters);
    && plan.planId != 0
    && |target| == |plan.targetVoters|
    && |target| == |voters|
    && target <= nodes
    && OneForOne(voters, target)
  }

  predicate ValidPlacement(placement: Placement, nodes: set<NodeId>) {
    var voters := VoterSet(placement.voters);
    && voters != {}
    && |voters| == |placement.voters|
    && voters <= nodes
    && (placement.move.Some? ==> ValidPlan(placement.move.value, voters, nodes))
  }

  predicate ValidPlacements(p: nat, placements: seq<(u16, Placement)>, nodes: set<NodeId>) {
    && (forall i :: 0 <= i < |placements| ==> placements[i].0 < p && ValidPlacement(placements[i].1, nodes))
    && (forall i, j :: 0 <= i < j < |placements| ==> placements[i].0 != placements[j].0)
  }

  predicate ValidRouting(info: RoutingInfo, expected: nat) {
    && info.clusterId == expected
    && info.p != 0
    && |info.directory| <= MAX_CLUSTER_NODES
    && ValidDirectory(info.directory)
    && ValidPlacements(info.p, info.placements, Ids(info.directory))
  }

  // -- RoutingInfo::validate ---------------------------------------------------------------

  function Addresses(directory: seq<NodeEntry>): set<Endpoint> {
    if directory == [] then {}
    else
      var e := directory[|directory| - 1];
      Addresses(directory[..|directory| - 1]) + {e.controlAddr} + {e.bulkAddr}
  }

  lemma {:induction false} AddressMember(directory: seq<NodeEntry>, x: Endpoint)
    ensures x in Addresses(directory)
       <==> exists j :: 0 <= j < |directory| && (directory[j].controlAddr == x || directory[j].bulkAddr == x)
  {
    if directory != [] {
      var init := directory[..|directory| - 1];
      AddressMember(init, x);
      if x in Addresses(init) {
        var j :| 0 <= j < |init| && (init[j].controlAddr == x || init[j].bulkAddr == x);
        assert directory[j] == init[j];
      } else if j :| 0 <= j < |directory| && (directory[j].controlAddr == x || directory[j].bulkAddr == x) {
        if j < |init| { assert init[j] == directory[j]; }
      }
    }
  }

  /** The per-entry test of the validation loop, against what it has inserted so far. */
  predicate Fits(nodes: set<NodeId>, addresses: set<Endpoint>, e: NodeEntry) {
    && e.nodeId != 0 && e.nodeId !in nodes
    && ValidEndpoint(e.controlAddr) && e.controlAddr !in addresses
    && ValidEndpoint(e.bulkAddr) && e.bulkAddr !in addresses + {e.controlAddr}
  }

  lemma ExtendIds(d: seq<NodeEntry>, e: NodeEntry)
    ensures Ids(d + [e]) == Ids(d) + {e.nodeId}
  {
    var next := d + [e];
    forall n | n in Ids(d) ensures n in Ids(next) {
      var i :| 0 <= i < |d| && d[i].nodeId == n;
      assert next[i].nodeId == n;
    }
    assert next[|d|].nodeId == e.nodeId;
  }

  lemma ExtendDirectory(d: seq<NodeEntry>, e: NodeEntry)
    requires ValidDirectory(d)
    ensures ValidDirectory(d + [e]) <==> Fits(Ids(d), Addresses(d), e)
  {
    var next := d + [e];
    assert forall j :: 0 <= j < |d| ==> next[j] == d[j];
    assert next[|d|] == e;
    AddressMember(d, e.controlAddr);
    AddressMember(d, e.bulkAddr);
    if ValidDirectory(next) {
      forall j | 0 <= j < |d| ensures !SharesEndpoint(d[j], e.controlAddr, e.bulkAddr) {
        assert !SharesEndpoint(next[j], next[|d|].controlAddr, next[|d|].bulkAddr);
      }
    } else if Fits(Ids(d), Addresses(d), e) {
      forall j | 0 <= j < |d| ensures d[j].nodeId != e.nodeId && !SharesEndpoint(d[j], e.controlAddr, e.bulkAddr) {
        assert d[j].nodeId in Ids(d);
      }
      assert ValidDirectory(next);
    }
  }

  lemma DirectoryPrefix(directory: seq<NodeEntry>, i: nat)
    requires i <= |directory| && ValidDirectory(directory)
    ensures ValidDirectory(directory[..i])
  {
  }

  method ValidateDirectory(directory: seq<NodeEntry>) returns (ok: bool, nodes: set<NodeId>)
    ensures ok <==> ValidDirectory(directory)
    ensures ok ==> nodes == Ids(directory)
  {
    nodes := {};
    var addresses: set<Endpoint> := {};
    for i := 0 to |directory|
      invariant ValidDirectory(directory[..i]) && nodes == Ids(directory[..i]) && addresses == Addresses(directory[..i])
    {
      var entry := directory[i];
      assert directory[..i + 1] == directory[..i] + [entry];
      ExtendDirectory(directory[..i], entry);
      ExtendIds(directory[..i], entry);
      if ValidDirectory(directory) { DirectoryPrefix(directory, i + 1); }
      if entry.nodeId == 0 || entry.nodeId in nodes {
        return false, nodes;
      }
      nodes := nodes + {entry.nodeId};
      if !ValidEndpoint(entry.controlAddr) || entry.controlAddr in addresses {
        return false, nodes;
      }
      addresses := addresses + {entry.controlAddr};
      if !ValidEndpoint(entry.bulkAddr) || entry.bulkAddr in addresses {
        return false, nodes;
      }
      addresses := addresses + {entry.bulkAddr};
    }
    assert directory[..|directory|] == directory;
    ok := true;
  }

  method ValidatePlacement(placement: Placement, nodes: set<NodeId>) returns (ok: bool)
    ensures ok <==> ValidPlacement(placement, nodes)
  {
    var voters := VoterSet(placement.voters);
    if voters == {} || |voters| != |placement.voters| || !(voters <= nodes) {
      return false;
    }
    if placement.move.Some? {
      var plan := placement.move.value;
      var target := VoterSet(plan.targetVoters);
      if plan.planId == 0 || |target| != |plan.targetVoters| || |target| != |voters| || !(target <= nodes)
         || |target - voters| != 1 || |voters - target| != 1 {
        return false;
      }
    }
    ok := true;
  }

  function Partitions(placements: seq<(u16, Placement)>): set<u16> {
    set i | 0 <= i < |placements| :: placements[i].0
  }

  lemma ExtendPlacements(p: nat, placements: seq<(u16, Placement)>, i: nat, nodes: set<NodeId>)
    requires i < |placements| && ValidPlacements(p, placements[..i], nodes)
    ensures Partitions(placements[..i + 1]) == Partitions(placements[..i]) + {placements[i].0}
    ensures ValidPlacements(p, placements[..i + 1], nodes)
       <==> placements[i].0 < p && placements[i].0 !in Partitions(placements[..i])
            && ValidPlacement(placements[i].1, nodes)
  {
    var was, next, e := placements[..i], placements[..i + 1], placements[i];
    assert next == was + [e];
    forall q | q in Partitions(was) ensures q in Partitions(next) {
      var j :| 0 <= j < |was| && was[j].0 == q;
      assert next[j].0 == q;
    }
    assert next[i].0 == e.0;
    if ValidPlacements(p, next, nodes) {
      assert next[i] == e;
      forall j | 0 <= j < |was| ensures was[j].0 != e.0 {
        assert next[j].0 != next[i].0;
      }
    }
  }

  method ValidatePlacements(p: u16, placements: seq<(u16, Placement)>, nodes: set<NodeId>) returns (ok: bool)
    ensures ok <==> ValidPlacements(p, placements, nodes)
  {
    var partitions: set<u16> := {};
    for i := 0 to |placements|
      invariant ValidPlacements(p, placements[..i], nodes) && partitions == Partitions(placements[..i])
    {
      ExtendPlacements(p, placements, i, nodes);
      if placements[i].0 >= p || placements[i].0 in partitions {
        assert !ValidPlacements(p, placements[..i + 1], nodes);
        return false;
      }
      partitions := partitions + {placements[i].0};
      var placementOk := ValidatePlacement(placements[i].1, nodes);
      if !placementOk {
        return false;
      }
    }
    assert placements[..|placements|] == placements;
    ok := true;
  }

  method Validate(info: RoutingInfo, expected: nat) returns (ok: bool)
    ensures ok <==> ValidRouting(info, expected)
  {
    if info.clusterId != expected || info.p == 0 || |info.directory| > MAX_CLUSTER_NODES {
      return false;
    }
    var directoryOk, nodes := ValidateDirectory(info.directory);
    if !directoryOk {
      return false;
    }
    ok := ValidatePlacements(info.p, info.placements, nodes);
  }

  // -- Candidates ------------------------------------------------------------------------------

  /** Appends the planned voters that are not candidates yet. */
  method AddTargets(voters: seq<NodeId>, target: seq<NodeId>) returns (out: seq<NodeId>)
    ensures voters <= out && VoterSet(out) == VoterSet(voters) + VoterSet(target)
    ensures Distinct(voters) ==> Distinct(out)
  {
    out := voters;
    for k := 0 to |target|
      invariant voters <= out
      invariant forall n :: n in out <==> n in voters || n in target[..k]
      invariant Distinct(voters) ==> Distinct(out)
    {
      if target[k] !in out {
        out := out + [target[k]];
      }
    }
  }

  ghost predicate FirstFor(info: RoutingInfo, partition: u16, i: nat) {
    && i < |info.placements| && info.placements[i].0 == partition
    && forall j :: 0 <= j < i ==> info.placements[j].0 != partition
  }

  /** The candidates of a partition: its voters first, then the planned ones while a move is
      active, each at most once; none for a partition without a placement. */
  method Candidates(info: RoutingInfo, partition: u16) returns (out: seq<NodeId>)
    ensures partition !in Partitions(info.placements) ==> out == []
    ensures forall i: nat :: FirstFor(info, partition, i) ==>
              var p := info.placements[i].1;
              && p.voters <= out
              && VoterSet(out) == VoterSet(p.voters)
                 + (if p.move.Some? then VoterSet(p.move.value.targetVoters) else {})
              && (Distinct(p.voters) ==> Distinct(out))
  {
    var i := 0;
    while i < |info.placements| && info.placements[i].0 != partition
      invariant 0 <= i <= |info.placements|
      invariant forall j :: 0 <= j < i ==> info.placements[j].0 != partition
    {
      i := i + 1;
    }
    if i == |info.placements| {
      return [];
    }
    assert forall k: nat :: FirstFor(info, partition, k) ==> k == i;
    var placement := info.placements[i].1;
    assert info.placements[i].0 in Partitions(info.placements);
    if placement.move.None? {
      assert VoterSet(placement.voters) + {} == VoterSet(placement.voters);
      return placement.voters;
    }
    out := AddTargets(placement.voters, placement.move.value.targetVoters);
  }

  // -- Every reachable snapshot validates -----------------------------------------------------

  /** A snapshot of state `s`: some enumeration of the directory and of (some of) the data placements. */
  ghost predicate IsSnapshot(s: MetaState, info: RoutingInfo) {
    && s.cluster.Some? && info.clusterId == s.cluster.value.clusterId && info.p == s.cluster.value.p
    && Ids(info.directory) == s.nodes.Keys && |info.directory| == |s.nodes|
    && (forall i :: 0 <= i < |info.directory| ==>
          info.directory[i].nodeId in s.nodes && info.directory[i] == s.nodes[info.directory[i].nodeId])
    && (forall i, j :: 0 <= i < j < |info.directory| ==> info.directory[i].nodeId != info.directory[j].nodeId)
    && (forall i :: 0 <= i < |info.placements| ==>
          Data(info.placements[i].0) in s.placements
              && info.placements[i].1 == s.placements[Data(info.placements[i].0)])
    && (forall i, j :: 0 <= i < j < |info.placements| ==> info.placements[i].0 != info.placements[j].0)
  }

  lemma SnapshotDirectory(s: MetaState, info: RoutingInfo)
    requires DirectoryInv(s.nodes, s.retired) && IsSnapshot(s, info)
    ensures |info.directory| <= MAX_CLUSTER_NODES && ValidDirectory(info.directory)
  {
    var d := info.directory;
    assert |s.nodes| == |s.nodes.Keys|;
    forall i | 0 <= i < |d| ensures EntryInv(d[i].nodeId, d[i]) { }
    forall i, j | 0 <= i < j < |d| ensures !SharesEndpoint(d[i], d[j].controlAddr, d[j].bulkAddr) {
      assert Separate(s.nodes[d[i].nodeId], s.nodes[d[j].nodeId]);
    }
  }

  lemma SnapshotPlacement(s: MetaState, bound: nat, g: GroupId)
    requires MetaInv(s, bound) && s.cluster.Some? && g in s.placements && g.Data?
    ensures g.partition < s.cluster.value.p && ValidPlacement(s.placements[g], s.nodes.Keys)
    ensures |s.placements[g].voters| == s.cluster.value.r
  {
    assert GroupInv(s.cluster.value, s.nodes.Keys, s.retired.Keys, g, s.placements[g]);
    var p := s.placements[g];
    assert |VoterSet(p.voters)| >= 1;
  }

  /** Whatever commands were committed, every routing snapshot of the resulting state passes validation. */
  lemma ReachableSnapshotsValidate(env: Env, log: seq<Committed>, info: RoutingInfo)
    requires LogOrdered(log) && IsSnapshot(ApplyLog(env, EMPTY_META, log), info)
    ensures ValidRouting(info, info.clusterId)
  {
    var s := ApplyLog(env, EMPTY_META, log);
    ReachableInv(env, log);
    SnapshotDirectory(s, info);
    forall i | 0 <= i < |info.placements|
      ensures info.placements[i].0 < info.p && ValidPlacement(info.placements[i].1, Ids(info.directory))
    {
      SnapshotPlacement(s, Bound(log), Data(info.placements[i].0));
    }
  }

  /** A retired id is gone for good: in every reachable state it is absent from the directory, from
      every placement and from every plan. */
  lemma RetiredIdsNeverReappear(env: Env, log: seq<Committed>, n: NodeId, g: GroupId)
    requires LogOrdered(log) && n in ApplyLog(env, EMPTY_META, log).retired
    ensures var s := ApplyLog(env, EMPTY_META, log);
            n !in s.nodes && (g in s.placements ==> !s.placements[g].ReferencesNode(n))
  {
    var s := ApplyLog(env, EMPTY_META, log);
    ReachableInv(env, log);
    if g in s.placements {
      assert GroupInv(s.cluster.value, s.nodes.Keys, s.retired.Keys, g, s.placements[g]);
    }
  }

  // -- Wire size -----------------------------------------------------------------------------------

  // Byte counts of the fixed-width little-endian encoding: 8-byte lengths and integers, 4-byte
  // variant tags, 16-byte ids and log ids, 1-byte option tags and booleans.

  function EntrySize(e: NodeEntry): nat {
    8 + (8 + e.controlAddr.bytes) + (8 + e.bulkAddr.bytes) + 4 + 8
  }

  function MoveSize(move: Option<MovePlan>): nat {
    match move
    case None => 1
    case Some(plan) => 1 + 8 + (8 + 8 * |plan.targetVoters|) + 1
  }

  function PlacementSize(p: Placement): nat {
    (8 + 8 * |p.voters|) + 16 + MoveSize(p.move)
  }

  function DirectorySize(directory: seq<NodeEntry>): nat {
    if directory == [] then 8
    else DirectorySize(directory[..|directory| - 1]) + EntrySize(directory[|directory| - 1])
  }

  function PlacementsSize(placements: seq<(u16, Placement)>): nat {
    if placements == [] then 8
    else PlacementsSize(placements[..|placements| - 1]) + 2 + PlacementSize(placements[|placements| - 1].1)
  }

  function EncodedSize(info: RoutingInfo): nat {
    16 + 16 + 2 + 12 + DirectorySize(info.directory) + PlacementsSize(info.placements)
  }

  lemma {:induction false} DirectorySizeBound(directory: seq<NodeEntry>)
    requires forall i :: 0 <= i < |directory| ==>
               ValidEndpoint(directory[i].controlAddr) && ValidEndpoint(directory[i].bulkAddr)
    ensures DirectorySize(directory) <= 8 + |directory| * DIRECTORY_ENTRY_BUDGET
  {
    if directory != [] {
      DirectorySizeBound(directory[..|directory| - 1]);
    }
  }

  lemma {:induction false} PlacementsSizeBound(placements: seq<(u16, Placement)>, r: nat, budget: nat)
    requires budget == PLACEMENT_FIXED_BUDGET + 2 * r * 8
    requires forall i :: 0 <= i < |placements| ==>
               var p := placements[i].1;
               |p.voters| == r && (p.move.Some? ==> |p.move.value.targetVoters| == r)
    ensures PlacementsSize(placements) <= 8 + |placements| * budget
  {
    if placements != [] {
      PlacementsSizeBound(placements[..|placements| - 1], r, budget);
      assert |placements| * budget == (|placements| - 1) * budget + budget;
    }
  }

  lemma {:induction false} BelowSize(s: set<u16>, n: nat)
    requires forall x :: x in s ==> x < n
    ensures |s| <= n
  {
    if n == 0 {
      assert s == {};
    } else {
      var rest := set y | y in s && y != n - 1;
      BelowSize(rest, n - 1);
      if n - 1 in s {
        assert s == rest + {n - 1};
      } else {
        assert s == rest;
      }
    }
  }

  lemma {:induction false} PartitionsSize(placements: seq<(u16, Placement)>)
    requires forall i, j :: 0 <= i < j < |placements| ==> placements[i].0 != placements[j].0
    ensures |Partitions(placements)| == |placements|
  {
    if placements != [] {
      var init, last := placements[..|placements| - 1], placements[|placements| - 1].0;
      PartitionsSize(init);
      assert last !in Partitions(init);
      assert Partitions(placements) == Partitions(init) + {last} by {
        forall q | q in Partitions(init) ensures q in Partitions(placements) {
          var i :| 0 <= i < |init| && init[i].0 == q;
          assert placements[i].0 == q;
        }
        assert placements[|placements| - 1].0 == last;
      }
    }
  }

  /** Distinct partition numbers below `p`: at most `p` placements. */
  lemma PlacementsFit(p: nat, placements: seq<(u16, Placement)>)
    requires forall i :: 0 <= i < |placements| ==> placements[i].0 < p
    requires forall i, j :: 0 <= i < j < |placements| ==> placements[i].0 != placements[j].0
    ensures |placements| <= p
  {
    PartitionsSize(placements);
    BelowSize(Partitions(placements), p);
  }

  lemma Scale(a: nat, b: nat, c: nat)
    requires a <= b
    ensures a * c <= b * c
  {
  }

  lemma TargetsSized(p: nat, placements: seq<(u16, Placement)>, nodes: set<NodeId>, r: nat)
    requires ValidPlacements(p, placements, nodes)
    requires forall i :: 0 <= i < |placements| ==> |placements[i].1.voters| == r
    ensures forall i :: 0 <= i < |placements| && placements[i].1.move.Some? ==>
            |placements[i].1.move.value.targetVoters| == r
  {
    forall i | 0 <= i < |placements| && placements[i].1.move.Some?
      ensures |placements[i].1.move.value.targetVoters| == r
    {
      assert ValidPlacement(placements[i].1, nodes);
    }
  }

  lemma PlacementsBudget(p: nat, placements: seq<(u16, Placement)>, nodes: set<NodeId>, r: nat, budget: nat)
    requires ValidPlacements(p, placements, nodes) && budget == PLACEMENT_FIXED_BUDGET + 2 * r * 8
    requires forall i :: 0 <= i < |placements| ==> |placements[i].1.voters| == r
    ensures PlacementsSize(placements) <= 8 + p * budget
  {
    TargetsSized(p, placements, nodes, r);
    PlacementsSizeBound(placements, r, budget);
    PlacementsFit(p, placements);
    Scale(|placements|, p, budget);
  }

  lemma EstimateCovers(info: RoutingInfo, r: nat)
    requires |info.directory| <= MAX_CLUSTER_NODES && ValidDirectory(info.directory)
    requires ValidPlacements(info.p, info.placements, Ids(info.directory))
    requires forall i :: 0 <= i < |info.placements| ==> |info.placements[i].1.voters| == r
    ensures EncodedSize(info) <= RoutingEstimate(info.p, r)
  {
    DirectorySizeBound(info.directory);
    PlacementsBudget(info.p, info.placements, Ids(info.directory), r, PLACEMENT_FIXED_BUDGET + 2 * r * 8);
  }

  /** No reachable routing snapshot outgrows one frame, and the admission-time estimate bounds it. */
  lemma ReachableSnapshotsFit(env: Env, log: seq<Committed>, info: RoutingInfo)
    requires LogOrdered(log) && IsSnapshot(ApplyLog(env, EMPTY_META, log), info)
    ensures var r := ApplyLog(env, EMPTY_META, log).cluster.value.r;
            EncodedSize(info) <= RoutingEstimate(info.p, r) <= MAX_ROUTING_PAYLOAD_BYTES
  {
    var s := ApplyLog(env, EMPTY_META, log);
    ReachableInv(env, log);
    ReachableSnapshotsValidate(env, log, info);
    forall i | 0 <= i < |info.placements| ensures |info.placements[i].1.voters| == s.cluster.value.r {
      SnapshotPlacement(s, Bound(log), Data(info.placements[i].0));
    }
    EstimateCovers(info, s.cluster.value.r);
  }
}
