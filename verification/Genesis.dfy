/** Genesis placement (src/runtime/config_file.rs): partition `i` gets `r` consecutive nodes of the
    sorted list, starting at `i % n`. */
module Genesis {
  import opened Types
  import opened Config
  import opened MetaStateMachine
  import opened MetaDecisions
  import opened Bootstrap

  function InitialVoters(i: nat, r: nat, nodes: seq<NodeId>): (voters: seq<NodeId>)
    requires |nodes| > 0
    ensures |voters| == r
  {
    seq(r, k requires 0 <= k < r => nodes[(i + k) % |nodes|])
  }

  function InitialPlacements(p: u16, r: nat, nodes: seq<NodeId>): (placements: seq<(u16, seq<NodeId>)>)
    requires |nodes| > 0
    ensures |placements| == p
  {
    seq(p, i requires 0 <= i < p => (i, InitialVoters(i, r, nodes)))
  }

  // -- Distinct voters ------------------------------------------------------------------------------

  lemma Distribute(n: int, x: int, y: int)
    ensures n * (x + y) == n * x + n * y
  {
  }

  lemma AtLeastOnce(n: nat, k: nat)
    requires k >= 1
    ensures n * k >= n
  {
    Distribute(n, k - 1, 1);
  }

  lemma OneMore(r: nat, x: nat)
    requires r > 0
    ensures r * x == (r - 1) * x + x
  {
  }

  /** Division is the only way to split a number into a multiple of `n` and a residue. */
  lemma Quotient(a: nat, n: nat, q: nat, m: nat)
    requires n > 0 && m < n && a == n * q + m
    ensures a / n == q && a % n == m
  {
    QuotientsAgree(n, a / n, a % n, q, m);
  }

  lemma QuotientsAgree(n: nat, d: nat, e: nat, q: nat, m: nat)
    requires e < n && m < n && n * d + e == n * q + m
    ensures d == q && e == m
  {
    if d > q {
      Distribute(n, q, d - q);
      AtLeastOnce(n, d - q);
    } else if d < q {
      Distribute(n, d, q - d);
      AtLeastOnce(n, q - d);
    }
  }

  lemma CloseResiduesDiffer(a: nat, b: nat, n: nat)
    requires 0 < n && a < b < a + n
    ensures a % n != b % n
  {
    var q, m, step := a / n, a % n, b - a;
    if m + step < n {
      Quotient(b, n, q, m + step);
    } else {
      Distribute(n, q, 1);
      Quotient(b, n, q + 1, m + step - n);
    }
  }

  lemma VotersAreDistinct(i: nat, r: nat, nodes: seq<NodeId>)
    requires Distinct(nodes) && 0 < |nodes| && r <= |nodes|
    ensures Distinct(InitialVoters(i, r, nodes)) && |VoterSet(InitialVoters(i, r, nodes))| == r
    ensures VoterSet(InitialVoters(i, r, nodes)) <= VoterSet(nodes)
  {
    var voters, n := InitialVoters(i, r, nodes), |nodes|;
    forall a, b | 0 <= a < b < r ensures voters[a] != voters[b] {
      CloseResiduesDiffer(i + a, i + b, n);
      var x, y := (i + a) % n, (i + b) % n;
      assert nodes[x] != nodes[y];
    }
    VoterSetSize(voters);
  }

  // -- Loads -------------------------------------------------------------------------------------------

  /** How many initial replicas a node hosts. */
  function Load(placements: seq<(u16, seq<NodeId>)>, node: NodeId): nat {
    if placements == [] then 0
    else Load(placements[..|placements| - 1], node) + multiset(placements[|placements| - 1].1)[node]
  }

  function Hit(i: nat, k: nat, n: nat, x: nat): nat
    requires n > 0
  {
    if (i + k) % n == x then 1 else 0
  }

  /** How often node `x` is among the first `r` voters of partition `i`. */
  function Row(i: nat, r: nat, n: nat, x: nat): nat
    requires n > 0
  {
    if r == 0 then 0 else Row(i, r - 1, n, x) + Hit(i, r - 1, n, x)
  }

  /** How often node `x` is the `k`-th voter of the first `p` partitions. */
  function Column(p: nat, k: nat, n: nat, x: nat): nat
    requires n > 0
  {
    if p == 0 then 0 else Column(p - 1, k, n, x) + Hit(p - 1, k, n, x)
  }

  function Rows(p: nat, r: nat, n: nat, x: nat): nat
    requires n > 0
  {
    if p == 0 then 0 else Rows(p - 1, r, n, x) + Row(p - 1, r, n, x)
  }

  lemma {:induction false} RowsAreColumns(p: nat, r: nat, n: nat, x: nat)
    requires n > 0 && r > 0
    ensures Rows(p, r, n, x) == Rows(p, r - 1, n, x) + Column(p, r - 1, n, x)
  {
    if p > 0 {
      RowsAreColumns(p - 1, r, n, x);
    }
  }

  lemma NextResidue(p: nat, n: nat)
    requires n > 0
    ensures if p % n == n - 1 then (p + 1) % n == 0 && (p + 1) / n == p / n + 1
            else (p + 1) % n == p % n + 1 && (p + 1) / n == p / n
  {
    var q, m := p / n, p % n;
    if m == n - 1 {
      Distribute(n, q, 1);
      Quotient(p + 1, n, q + 1, 0);
    } else {
      Quotient(p + 1, n, q, m + 1);
    }
  }

  /** How many numbers below `a` leave residue `x`. */
  function Through(a: nat, n: nat, x: nat): nat
    requires n > 0
  {
    a / n + (if x < a % n then 1 else 0)
  }

  lemma {:induction false} ColumnExact(p: nat, k: nat, n: nat, x: nat)
    requires x < n
    ensures Column(p, k, n, x) + Through(k, n, x) == Through(k + p, n, x)
  {
    if p > 0 {
      ColumnExact(p - 1, k, n, x);
      NextResidue(p - 1 + k, n);
    }
  }

  function Ceil(p: nat, n: nat): nat
    requires n > 0
  {
    if p % n == 0 then p / n else p / n + 1
  }

  lemma Division(a: nat, n: nat)
    requires n > 0
    ensures a == n * (a / n) + a % n && a % n < n
  {
  }

  lemma SplitSum(k: nat, p: nat, n: nat, a: nat, b: nat, c: nat, d: nat)
    requires b < n && d < n && k == n * a + b && p == n * c + d
    ensures if b + d < n then (k + p) / n == a + c && (k + p) % n == b + d
            else (k + p) / n == a + c + 1 && (k + p) % n == b + d - n
  {
    Distribute(n, a, c);
    if b + d < n {
      Quotient(k + p, n, a + c, b + d);
    } else {
      Distribute(n, a + c, 1);
      Quotient(k + p, n, a + c + 1, b + d - n);
    }
  }

  lemma SumQuotient(k: nat, p: nat, n: nat)
    requires n > 0
    ensures var m := k % n + p % n;
            if m < n then (k + p) / n == k / n + p / n && (k + p) % n == m
            else (k + p) / n == k / n + p / n + 1 && (k + p) % n == m - n
  {
    var a, b, c, d := k / n, k % n, p / n, p % n;
    Division(k, n);
    Division(p, n);
    SplitSum(k, p, n, a, b, c, d);
  }

  lemma ColumnBounds(p: nat, k: nat, n: nat, x: nat)
    requires x < n
    ensures p / n <= Column(p, k, n, x) <= Ceil(p, n)
  {
    ColumnExact(p, k, n, x);
    SumQuotient(k, p, n);
  }

  lemma {:induction false} RowsBounds(p: nat, r: nat, n: nat, x: nat, low: nat, high: nat)
    requires x < n && low == p / n && high == Ceil(p, n)
    ensures r * low <= Rows(p, r, n, x) <= r * high
  {
    if r == 0 {
      NoRows(p, n, x);
    } else {
      RowsBounds(p, r - 1, n, x, low, high);
      RowsAreColumns(p, r, n, x);
      ColumnBounds(p, r - 1, n, x);
      OneMore(r, low);
      OneMore(r, high);
    }
  }

  lemma {:induction false} NoRows(p: nat, n: nat, x: nat)
    requires n > 0
    ensures Rows(p, 0, n, x) == 0
  {
    if p > 0 { NoRows(p - 1, n, x); }
  }

  lemma {:induction false} RowIsShare(i: nat, r: nat, nodes: seq<NodeId>, x: nat)
    requires Distinct(nodes) && x < |nodes|
    ensures multiset(InitialVoters(i, r, nodes))[nodes[x]] == Row(i, r, |nodes|, x)
  {
    var voters := InitialVoters(i, r, nodes);
    if r > 0 {
      var init, y := InitialVoters(i, r - 1, nodes), (i + r - 1) % |nodes|;
      assert voters == init + [nodes[y]];
      RowIsShare(i, r - 1, nodes, x);
      assert nodes[y] == nodes[x] <==> y == x;
    }
  }

  lemma {:induction false} LoadIsRows(p: u16, r: nat, nodes: seq<NodeId>, x: nat)
    requires Distinct(nodes) && x < |nodes|
    ensures Load(InitialPlacements(p, r, nodes), nodes[x]) == Rows(p, r, |nodes|, x)
    decreases p
  {
    if p > 0 {
      var q: u16 := p - 1;
      assert InitialPlacements(p, r, nodes)[..q] == InitialPlacements(q, r, nodes);
      LoadIsRows(q, r, nodes, x);
      RowIsShare(q, r, nodes, x);
    }
  }

  /** Every node starts with between r*floor(p/n) and r*ceil(p/n) replicas. */
  lemma LoadBounds(p: u16, r: nat, nodes: seq<NodeId>, x: nat, floor: nat, ceiling: nat)
    requires Distinct(nodes) && x < |nodes|
    requires floor == p / |nodes| && ceiling == Ceil(p, |nodes|)
    ensures r * floor <= Load(InitialPlacements(p, r, nodes), nodes[x]) <= r * ceiling
  {
    LoadIsRows(p, r, nodes, x);
    RowsBounds(p, r, |nodes|, x, floor, ceiling);
  }

  // -- Conservation ---------------------------------------------------------------------------------------

  /** The loads of the first `x` nodes together. */
  function Total(placements: seq<(u16, seq<NodeId>)>, nodes: seq<NodeId>): nat {
    if nodes == [] then 0
    else Total(placements, nodes[..|nodes| - 1]) + Load(placements, nodes[|nodes| - 1])
  }

  function Shares(voters: seq<NodeId>, nodes: seq<NodeId>): nat {
    if nodes == [] then 0 else Shares(voters, nodes[..|nodes| - 1]) + multiset(voters)[nodes[|nodes| - 1]]
  }

  lemma {:induction false} OneShare(voters: seq<NodeId>, v: NodeId, nodes: seq<NodeId>)
    requires Distinct(nodes)
    ensures Shares(voters + [v], nodes) == Shares(voters, nodes) + (if v in nodes then 1 else 0)
  {
    if nodes != [] {
      var init, last := nodes[..|nodes| - 1], nodes[|nodes| - 1];
      assert nodes == init + [last] && last !in init;
      OneShare(voters, v, init);
    }
  }

  lemma {:induction false} NoShares(nodes: seq<NodeId>)
    ensures Shares([], nodes) == 0
  {
    if nodes != [] { NoShares(nodes[..|nodes| - 1]); }
  }

  lemma {:induction false} AllShares(voters: seq<NodeId>, nodes: seq<NodeId>)
    requires Distinct(nodes) && forall v :: v in voters ==> v in nodes
    ensures Shares(voters, nodes) == |voters|
  {
    if voters == [] {
      NoShares(nodes);
    } else {
      var init, last := voters[..|voters| - 1], voters[|voters| - 1];
      assert voters == init + [last];
      AllShares(init, nodes);
      OneShare(init, last, nodes);
    }
  }

  lemma {:induction false} TotalSnoc(placements: seq<(u16, seq<NodeId>)>, nodes: seq<NodeId>)
    requires placements != []
    ensures Total(placements, nodes)
         == Total(placements[..|placements| - 1], nodes) + Shares(placements[|placements| - 1].1, nodes)
  {
    if nodes != [] { TotalSnoc(placements, nodes[..|nodes| - 1]); }
  }

  lemma {:induction false} NothingPlaced(nodes: seq<NodeId>)
    ensures Total([], nodes) == 0
  {
    if nodes != [] { NothingPlaced(nodes[..|nodes| - 1]); }
  }

  /** No replica is lost or invented: the loads add up to p*r. */
  lemma {:induction false} LoadsAddUp(p: u16, r: nat, nodes: seq<NodeId>)
    requires Distinct(nodes) && |nodes| > 0
    ensures Total(InitialPlacements(p, r, nodes), nodes) == p * r
    decreases p
  {
    var placements := InitialPlacements(p, r, nodes);
    if p == 0 {
      NothingPlaced(nodes);
    } else {
      var q: u16 := p - 1;
      assert placements[..q] == InitialPlacements(q, r, nodes);
      LoadsAddUp(q, r, nodes);
      TotalSnoc(placements, nodes);
      var voters := InitialVoters(q, r, nodes);
      forall v | v in voters ensures v in nodes {
        var k :| 0 <= k < |voters| && voters[k] == v;
        assert v == nodes[(q + k) % |nodes|];
      }
      AllShares(voters, nodes);
      OneMore(p, r);
    }
  }

  // -- The loaded descriptor -----------------------------------------------------------------------------------

  function IdsOf(directory: seq<DirEntry>): (ids: seq<NodeId>)
    ensures |ids| == |directory|
  {
    seq(|directory|, i requires 0 <= i < |directory| => directory[i].nodeId)
  }

  /** `load_init_descriptor`, after its checks on the file. */
  function MakeDescriptor(clusterId: nat, c: InitConfig, directory: seq<DirEntry>): Descriptor
    requires |directory| > 0
  {
    Descriptor(ClusterConfig(clusterId, PROTOCOL_VERSION, c.p, c.r, c.hashSeed),
               Sorted(c.metaVoters), directory, InitialPlacements(c.p, c.r, IdsOf(directory)))
  }

  lemma GenesisIsValid(config: ClusterConfig, directory: seq<DirEntry>)
    requires ValidNodes(directory) && 0 < |directory| && config.r <= |directory|
    ensures ValidGenesis(config, NodeIds(directory), InitialPlacements(config.p, config.r, IdsOf(directory)))
  {
    var ids := IdsOf(directory);
    forall i, j | 0 <= i < j < |ids| ensures ids[i] != ids[j] { assert Apart(directory[i], directory[j]); }
    forall v | v in VoterSet(ids) ensures v in NodeIds(directory) {
      var i :| 0 <= i < |ids| && ids[i] == v;
      assert directory[i].nodeId == v;
    }
    forall i: nat | i < config.p
      ensures |VoterSet(InitialVoters(i, config.r, ids))| == config.r
              && VoterSet(InitialVoters(i, config.r, ids)) <= NodeIds(directory)
    {
      VotersAreDistinct(i, config.r, ids);
    }
  }

  lemma MetaVotersAccepted(env: Env, config: ClusterConfig, voters: seq<NodeId>)
    requires env.identity == Some(config.clusterId) && config.protocolVersion == PROTOCOL_VERSION
    requires config.r >= MIN_REPLICATION && config.p != 0 && ValidRoutingShape(config.p, config.r)
    requires MIN_META_VOTERS <= |VoterSet(voters)| <= MAX_CLUSTER_NODES && |VoterSet(voters)| % 2 == 1
    ensures LegalGenesis(env, EMPTY_META, config, Sorted(voters))
  {
    AscendingIsDistinct(Sorted(voters));
  }

  lemma SubsetSize(a: set<NodeId>, b: set<NodeId>)
    requires a <= b
    ensures |a| <= |b|
  {
    assert b == a + (b - a);
  }

  /** The directory was built for the nodes of an init file of this cluster. */
  predicate Describes(env: Env, clusterId: nat, c: InitConfig, directory: seq<DirEntry>) {
    && ValidNodes(directory) && env.identity == Some(clusterId)
    && |directory| == |c.bootstrapNodes| && NodeIds(directory) == VoterSet(c.bootstrapNodes)
  }

  predicate Loads(env: Env, clusterId: nat, c: InitConfig, directory: seq<DirEntry>) {
    ValidInit(c) && Describes(env, clusterId, c, directory)
  }

  /** What the init file's checks admit is a descriptor every seeding run accepts. */
  lemma LoadedDescriptorIsValid(env: Env, clusterId: nat, c: InitConfig, directory: seq<DirEntry>)
    requires Loads(env, clusterId, c, directory)
    ensures |directory| > 0 && ValidDescriptor(env, MakeDescriptor(clusterId, c, directory))
  {
    var d := MakeDescriptor(clusterId, c, directory);
    SubsetSize(VoterSet(c.metaVoters), VoterSet(c.bootstrapNodes));
    MetaVotersAccepted(env, d.config, c.metaVoters);
    GenesisIsValid(d.config, directory);
  }

  lemma IdsAreDistinct(directory: seq<DirEntry>)
    requires ValidNodes(directory)
    ensures VoterSet(IdsOf(directory)) == NodeIds(directory) && |NodeIds(directory)| == |directory|
    ensures 0 !in NodeIds(directory)
  {
    var ids := IdsOf(directory);
    forall i, j | 0 <= i < j < |ids| ensures ids[i] != ids[j] { assert Apart(directory[i], directory[j]); }
    VoterSetSize(ids);
    forall v ensures v in VoterSet(ids) <==> v in NodeIds(directory) {
      if v in VoterSet(ids) {
        var i :| 0 <= i < |ids| && ids[i] == v;
        assert directory[i].nodeId == v;
      }
      if i :| 0 <= i < |directory| && directory[i].nodeId == v { assert ids[i] == v; }
    }
    forall i | 0 <= i < |directory| ensures directory[i].nodeId != 0 { assert ValidEntry(directory[i]); }
  }

  /** A genesis that gives every partition r distinct voters has as many nodes. */
  lemma EnoughNodes(config: ClusterConfig, directory: seq<DirEntry>)
    requires ValidNodes(directory) && |directory| > 0 && config.p > 0
    requires ValidGenesis(config, NodeIds(directory), InitialPlacements(config.p, config.r, IdsOf(directory)))
    ensures config.r <= |directory|
  {
    var placements := InitialPlacements(config.p, config.r, IdsOf(directory));
    IdsAreDistinct(directory);
    assert VoterSet(placements[0].1) <= NodeIds(directory) && |VoterSet(placements[0].1)| == config.r;
    SubsetSize(VoterSet(placements[0].1), NodeIds(directory));
  }

  /** The init file's checks ask exactly for what seeding needs, and for meta voters that are among the nodes and listed
      once. */
  lemma InitExactly(env: Env, clusterId: nat, c: InitConfig, directory: seq<DirEntry>)
    requires Describes(env, clusterId, c, directory) && |directory| > 0
    ensures ValidInit(c) <==>
              && Distinct(c.metaVoters) && VoterSet(c.metaVoters) <= NodeIds(directory)
              && ValidDescriptor(env, MakeDescriptor(clusterId, c, directory))
  {
    var d := MakeDescriptor(clusterId, c, directory);
    IdsAreDistinct(directory);
    VoterSetSize(c.metaVoters);
    SortedSeqIsVoterSet(VoterSet(c.metaVoters));
    if ValidInit(c) {
      LoadedDescriptorIsValid(env, clusterId, c, directory);
    } else if ValidDescriptor(env, d) {
      EnoughNodes(d.config, directory);
    }
  }

  /** Once every node is registered, exactly the nodes of the directory are Active. */
  lemma DirectoryIsActive(directory: seq<DirEntry>, s: MetaState)
    requires ValidNodes(directory) && s.nodes == NodesOf(directory, |directory|)
    ensures ActiveSet(s) == NodeIds(directory)
  {
    forall n | n in ActiveSet(s) ensures n in NodeIds(directory) {
      var i := NodesOfOrigin(directory, |directory|, n);
    }
    forall n | n in NodeIds(directory) ensures n in ActiveSet(s) {
      var i :| 0 <= i < |directory| && directory[i].nodeId == n;
      NodesOfMember(directory, |directory|, i);
    }
  }

  lemma MetaIsSettled(d: Descriptor, s: MetaState)
    requires Seeded(d, CommandCount(d), s) && VoterSet(Sorted(d.metaVoters)) <= ActiveSet(s)
    ensures SettledOn(s, Meta, ActiveSet(s))
  {
    MetaVotersKept(Sorted(d.metaVoters), Ordered(d.placements), |d.placements|);
    forall v | v in s.placements[Meta].voters ensures v in ActiveSet(s) {
      assert v in VoterSet(Sorted(d.metaVoters));
    }
  }

  lemma PartitionIsSettled(d: Descriptor, s: MetaState, i: nat)
    requires ValidGenesis(d.config, NodeIds(d.directory), d.placements)
    requires Seeded(d, CommandCount(d), s) && NodeIds(d.directory) == ActiveSet(s) && i < |d.placements|
    ensures SettledOn(s, Data(d.placements[i].0), ActiveSet(s))
  {
    var g := Data(d.placements[i].0);
    VotersOfMember(Sorted(d.metaVoters), Ordered(d.placements), |d.placements|, i);
    forall v | v in s.placements[g].voters ensures v in ActiveSet(s) {
      assert v in VoterSet(d.placements[i].1);
    }
  }

  /** Placements in order, one per partition. */
  ghost predicate PlacesAll(d: Descriptor) {
    |d.placements| == d.config.p && forall i :: 0 <= i < |d.placements| ==> d.placements[i].0 == i
  }

  lemma GroupIsSettled(d: Descriptor, s: MetaState, g: GroupId)
    requires ValidGenesis(d.config, NodeIds(d.directory), d.placements) && PlacesAll(d)
    requires Seeded(d, CommandCount(d), s) && NodeIds(d.directory) == ActiveSet(s)
    requires VoterSet(Sorted(d.metaVoters)) <= ActiveSet(s) && (g == Meta || g.partition < d.config.p)
    ensures SettledOn(s, g, ActiveSet(s))
  {
    if g == Meta {
      MetaIsSettled(d, s);
    } else {
      PartitionIsSettled(d, s, g.partition);
    }
  }

  lemma AllActive(d: Descriptor, s: MetaState)
    requires ValidNodes(d.directory) && Seeded(d, CommandCount(d), s)
    ensures ActiveSet(s) == NodeIds(d.directory) && s.cluster == Some(d.config) && s.search == map[]
  {
    DirectoryIsActive(d.directory, s);
  }

  lemma AllSettled(d: Descriptor, s: MetaState)
    requires ValidGenesis(d.config, NodeIds(d.directory), d.placements) && PlacesAll(d)
    requires Seeded(d, CommandCount(d), s) && NodeIds(d.directory) == ActiveSet(s)
    requires VoterSet(Sorted(d.metaVoters)) <= ActiveSet(s)
    ensures forall g :: g in Groups(d.config.p) ==> SettledOn(s, g, ActiveSet(s))
  {
    forall g | g in Groups(d.config.p) ensures SettledOn(s, g, ActiveSet(s)) {
      GroupIsSettled(d, s, g);
    }
  }

  lemma MakesDescriptor(env: Env, clusterId: nat, c: InitConfig, directory: seq<DirEntry>)
    requires Loads(env, clusterId, c, directory) && |directory| > 0
    ensures var d := MakeDescriptor(clusterId, c, directory);
            && ValidGenesis(d.config, NodeIds(directory), d.placements) && PlacesAll(d)
            && VoterSet(Sorted(d.metaVoters)) <= NodeIds(directory)
  {
    LoadedDescriptorIsValid(env, clusterId, c, directory);
  }

  /** A cluster seeded from an init file is at rest, with every node of the file Active. */
  lemma SeededIsAtRest(env: Env, clusterId: nat, c: InitConfig, directory: seq<DirEntry>, s: MetaState)
    requires Loads(env, clusterId, c, directory) && |directory| > 0
    requires var d := MakeDescriptor(clusterId, c, directory); Seeded(d, CommandCount(d), s)
    ensures s.cluster.Some? && AtRest(s, s.cluster.value.p) && ActiveSet(s) == VoterSet(c.bootstrapNodes)
  {
    var d := MakeDescriptor(clusterId, c, directory);
    MakesDescriptor(env, clusterId, c, directory);
    AllActive(d, s);
    AllSettled(d, s);
  }
}
