/** Seeding a cluster (src/meta/bootstrap.rs): why any number of interleaved, partial and repeated
    seeding runs agree. */
module Bootstrap {
  import opened Types
  import opened MetaStateMachine
  import opened MetaDecisions

  datatype DirEntry = DirEntry(nodeId: NodeId, controlAddr: Endpoint, bulkAddr: Endpoint)

  datatype Descriptor = Descriptor(
    config: ClusterConfig,
    metaVoters: seq<NodeId>,
    directory: seq<DirEntry>,
    placements: seq<(u16, seq<NodeId>)>)

  /** The commands one seeding run proposes, in order. */
  function CommandAt(d: Descriptor, j: nat): MetaCommand
    requires j < CommandCount(d)
  {
    if j == 0 then ClusterInit(d.config, d.metaVoters)
    else if j <= |d.directory| then
      var e := d.directory[j - 1];
      RegisterNode(e.nodeId, e.controlAddr, e.bulkAddr)
    else
      var p := d.placements[j - 1 - |d.directory|];
      SeedPlacement(Data(p.0), p.1)
  }

  function CommandCount(d: Descriptor): nat {
    1 + |d.directory| + |d.placements|
  }

  // -- Valid descriptors -----------------------------------------------------------------------------

  predicate ValidEntry(e: DirEntry) {
    && e.nodeId != 0 && e.controlAddr != e.bulkAddr
    && 1 <= e.controlAddr.bytes <= MAX_ENDPOINT_BYTES && 1 <= e.bulkAddr.bytes <= MAX_ENDPOINT_BYTES
  }

  predicate Apart(a: DirEntry, b: DirEntry) {
    && a.nodeId != b.nodeId
    && a.controlAddr != b.controlAddr && a.controlAddr != b.bulkAddr
    && a.bulkAddr != b.controlAddr && a.bulkAddr != b.bulkAddr
  }

  predicate ValidNodes(directory: seq<DirEntry>) {
    && |directory| <= MAX_CLUSTER_NODES
    && (forall i :: 0 <= i < |directory| ==> ValidEntry(directory[i]))
    && (forall i, j :: 0 <= i < j < |directory| ==> Apart(directory[i], directory[j]))
  }

  function NodeIds(directory: seq<DirEntry>): set<NodeId> {
    set i | 0 <= i < |directory| :: directory[i].nodeId
  }

  predicate ValidGenesis(config: ClusterConfig, ids: set<NodeId>, placements: seq<(u16, seq<NodeId>)>) {
    && (forall i :: 0 <= i < |placements| ==>
          && placements[i].0 < config.p
          && |VoterSet(placements[i].1)| == |placements[i].1| == config.r
          && VoterSet(placements[i].1) <= ids)
    && (forall i, j :: 0 <= i < j < |placements| ==> placements[i].0 != placements[j].0)
  }

  predicate ValidDescriptor(env: Env, d: Descriptor) {
    && LegalGenesis(env, EMPTY_META, d.config, d.metaVoters)
    && ValidNodes(d.directory)
    && ValidGenesis(d.config, NodeIds(d.directory), d.placements)
  }

  // -- The state after the first m commands ------------------------------------------------------------

  function Registered(d: Descriptor, m: nat): nat {
    if m == 0 then 0 else if m - 1 <= |d.directory| then m - 1 else |d.directory|
  }

  function Placed(d: Descriptor, m: nat): nat
    requires m <= CommandCount(d)
  {
    if m <= 1 + |d.directory| then 0 else m - 1 - |d.directory|
  }

  function EntryOf(e: DirEntry): NodeEntry {
    NodeEntry(e.nodeId, e.controlAddr, e.bulkAddr, Active, 1)
  }

  /** The directory once the first `k` nodes are registered. */
  function NodesOf(directory: seq<DirEntry>, k: nat): map<NodeId, NodeEntry>
    requires k <= |directory|
  {
    if k == 0 then map[] else NodesOf(directory, k - 1)[directory[k - 1].nodeId := EntryOf(directory[k - 1])]
  }

  /** Every voter list in stored order. */
  function Ordered(placements: seq<(u16, seq<NodeId>)>): (ordered: seq<(u16, seq<NodeId>)>)
    ensures |ordered| == |placements|
    ensures forall i :: 0 <= i < |placements| ==> ordered[i] == (placements[i].0, Sorted(placements[i].1))
  {
    seq(|placements|, i requires 0 <= i < |placements| => (placements[i].0, Sorted(placements[i].1)))
  }

  /** The voters each group has once the first `k` placements are in. */
  function VotersOf(meta: seq<NodeId>, placements: seq<(u16, seq<NodeId>)>, k: nat): map<GroupId, seq<NodeId>>
    requires k <= |placements|
  {
    if k == 0 then map[Meta := meta]
    else VotersOf(meta, placements, k - 1)[Data(placements[k - 1].0) := placements[k - 1].1]
  }

  function VotersAfter(d: Descriptor, k: nat): map<GroupId, seq<NodeId>>
    requires k <= |d.placements|
  {
    VotersOf(Sorted(d.metaVoters), Ordered(d.placements), k)
  }

  /** A placement as seeded with the sorted `voters`, whatever log id committed it. */
  ghost predicate SeededFrom(p: Placement, voters: seq<NodeId>) {
    p.move.None? && p.voters == voters
  }

  ghost predicate PlacementsSeeded(placements: map<GroupId, Placement>, voters: map<GroupId, seq<NodeId>>) {
    placements.Keys == voters.Keys && forall g :: g in voters ==> SeededFrom(placements[g], voters[g])
  }

  ghost predicate Seeded(d: Descriptor, m: nat, s: MetaState) {
    && m <= CommandCount(d)
    && s.cluster == (if m == 0 then None else Some(d.config))
    && s.nodes == NodesOf(d.directory, Registered(d, m))
    && (if m == 0 then s.placements == map[] else PlacementsSeeded(s.placements, VotersAfter(d, Placed(d, m))))
    && s.retired == map[] && s.maintenance == None && s.search == map[] && s.ready == map[]
  }

  /** Equal up to the log ids that committed the seeded placements. */
  ghost predicate SameButLogIds(s: MetaState, t: MetaState) {
    && s == t.(placements := s.placements)
    && s.placements.Keys == t.placements.Keys
    && forall g :: g in s.placements ==> s.placements[g] == t.placements[g].(votersLogId := s.placements[g].votersLogId)
  }

  lemma SeededDetermines(d: Descriptor, m: nat, s: MetaState, t: MetaState)
    requires Seeded(d, m, s) && Seeded(d, m, t)
    ensures SameButLogIds(s, t)
  {
    if m > 0 {
      forall g | g in s.placements
        ensures s.placements[g] == t.placements[g].(votersLogId := s.placements[g].votersLogId)
      {
        assert g in VotersAfter(d, Placed(d, m));
      }
    }
  }

  lemma {:induction false} NodesOfMember(directory: seq<DirEntry>, k: nat, i: nat)
    requires ValidNodes(directory) && k <= |directory| && i < |directory|
    ensures directory[i].nodeId in NodesOf(directory, k) <==> i < k
    ensures i < k ==> NodesOf(directory, k)[directory[i].nodeId] == EntryOf(directory[i])
    ensures |NodesOf(directory, k)| == k
  {
    if k > 0 {
      NodesOfMember(directory, k - 1, i);
      NodesOfMember(directory, k - 1, k - 1);
      var before := NodesOf(directory, k - 1);
      assert NodesOf(directory, k).Keys == before.Keys + {directory[k - 1].nodeId};
      if i < k - 1 { assert Apart(directory[i], directory[k - 1]); }
      if i > k - 1 { assert Apart(directory[k - 1], directory[i]); }
    }
  }

  lemma {:induction false} NodesOfOrigin(directory: seq<DirEntry>, k: nat, n: NodeId) returns (i: nat)
    requires k <= |directory| && n in NodesOf(directory, k)
    ensures i < k && directory[i].nodeId == n && NodesOf(directory, k)[n] == EntryOf(directory[i])
  {
    if n == directory[k - 1].nodeId {
      i := k - 1;
    } else {
      i := NodesOfOrigin(directory, k - 1, n);
    }
  }

  lemma {:induction false} VotersOfMember(meta: seq<NodeId>, placements: seq<(u16, seq<NodeId>)>, k: nat, i: nat)
    requires k <= |placements| && i < |placements|
    requires forall a, b :: 0 <= a < b < |placements| ==> placements[a].0 != placements[b].0
    ensures Data(placements[i].0) in VotersOf(meta, placements, k) <==> i < k
    ensures i < k ==> VotersOf(meta, placements, k)[Data(placements[i].0)] == placements[i].1
  {
    if k > 0 {
      VotersOfMember(meta, placements, k - 1, i);
      if i < k - 1 { assert placements[i].0 != placements[k - 1].0; }
      if i > k - 1 { assert placements[k - 1].0 != placements[i].0; }
    }
  }

  lemma {:induction false} MetaVotersKept(meta: seq<NodeId>, placements: seq<(u16, seq<NodeId>)>, k: nat)
    requires k <= |placements|
    ensures Meta in VotersOf(meta, placements, k) && VotersOf(meta, placements, k)[Meta] == meta
  {
    if k > 0 { MetaVotersKept(meta, placements, k - 1); }
  }

  // -- One command ----------------------------------------------------------------------------------------

  /** Command `j` against the state after the first `m`: a no-op if `j` was applied, else the next state. */
  ghost predicate StepsTo(d: Descriptor, m: nat, j: nat, s: MetaState, o: Outcome) {
    if j < m then o == Same(s) else o.result == MetaApplied && Seeded(d, m + 1, o.state)
  }

  lemma InitAgain(env: Env, d: Descriptor, m: nat, s: MetaState, logId: LogId)
    requires Seeded(d, m, s) && m > 0
    ensures EvalClusterInit(env, s, d.config, d.metaVoters, logId) == Same(s)
  {
    var voters := Sorted(d.metaVoters);
    MetaVotersKept(voters, Ordered(d.placements), Placed(d, m));
    SortedSeqIsVoterSet(VoterSet(d.metaVoters));
    assert SeededFrom(s.placements[Meta], voters);
  }

  lemma InitFirst(env: Env, d: Descriptor, s: MetaState, logId: LogId)
    requires ValidDescriptor(env, d) && Seeded(d, 0, s)
    ensures EvalClusterInit(env, s, d.config, d.metaVoters, logId).result == MetaApplied
    ensures Seeded(d, 1, EvalClusterInit(env, s, d.config, d.metaVoters, logId).state)
  {
    assert s == EMPTY_META;
    GenesisExactly(env, s, d.config, d.metaVoters, logId);
  }

  lemma InitStep(env: Env, d: Descriptor, m: nat, s: MetaState, logId: LogId, o: Outcome)
    requires ValidDescriptor(env, d) && Seeded(d, m, s) && o == EvalClusterInit(env, s, d.config, d.metaVoters, logId)
    ensures StepsTo(d, m, 0, s, o)
  {
    if m > 0 { InitAgain(env, d, m, s, logId); } else { InitFirst(env, d, s, logId); }
  }

  lemma NobodyShares(directory: seq<DirEntry>, k: nat, i: nat)
    requires ValidNodes(directory) && k <= |directory| && i < |directory|
    ensures var nodes := NodesOf(directory, k);
            forall m :: m in nodes && m != directory[i].nodeId ==>
              !SharesEndpoint(nodes[m], directory[i].controlAddr, directory[i].bulkAddr)
  {
    var nodes := NodesOf(directory, k);
    forall m | m in nodes && m != directory[i].nodeId
      ensures !SharesEndpoint(nodes[m], directory[i].controlAddr, directory[i].bulkAddr)
    {
      var a := NodesOfOrigin(directory, k, m);
      if a < i { assert Apart(directory[a], directory[i]); } else { assert Apart(directory[i], directory[a]); }
    }
  }

  /** What registering an entry does when nobody else uses its endpoints. */
  lemma RegisterOutcome(s: MetaState, e: DirEntry)
    requires s.cluster.Some? && s.retired == map[] && ValidEntry(e)
    requires forall m :: m in s.nodes && m != e.nodeId ==> !SharesEndpoint(s.nodes[m], e.controlAddr, e.bulkAddr)
    ensures var o := EvalRegisterNode(s, e.nodeId, e.controlAddr, e.bulkAddr);
            && (e.nodeId in s.nodes && s.nodes[e.nodeId] == EntryOf(e) ==> o == Same(s))
            && (e.nodeId !in s.nodes && |s.nodes| < MAX_CLUSTER_NODES ==>
                  o == Write(s.(nodes := s.nodes[e.nodeId := EntryOf(e)])))
  {
  }

  lemma RegisterStep(d: Descriptor, m: nat, s: MetaState, j: nat, e: DirEntry, o: Outcome)
    requires ValidNodes(d.directory) && Seeded(d, m, s) && 1 <= j <= |d.directory| && j <= m && e == d.directory[j - 1]
    requires o == EvalRegisterNode(s, e.nodeId, e.controlAddr, e.bulkAddr)
    ensures StepsTo(d, m, j, s, o)
  {
    var k := Registered(d, m);
    assert ValidEntry(e);
    NobodyShares(d.directory, k, j - 1);
    NodesOfMember(d.directory, k, j - 1);
    RegisterOutcome(s, e);
    if m == j {
      assert o.state.nodes == NodesOf(d.directory, k + 1);
    }
  }

  lemma VotersActive(directory: seq<DirEntry>, voters: seq<NodeId>, s: MetaState)
    requires ValidNodes(directory) && s.nodes == NodesOf(directory, |directory|)
             && VoterSet(voters) <= NodeIds(directory)
    ensures VoterSet(voters) <= ActiveSet(s)
  {
    forall v | v in VoterSet(voters) ensures v in ActiveSet(s) {
      assert v in NodeIds(directory);
      var a :| 0 <= a < |directory| && directory[a].nodeId == v;
      NodesOfMember(directory, |directory|, a);
    }
  }

  lemma SeedRefused(s: MetaState, g: GroupId, voters: seq<NodeId>)
    requires s.cluster.Some? && g.Data? && g.partition < s.cluster.value.p
    requires |VoterSet(voters)| == |voters| == s.cluster.value.r && VoterSet(voters) <= ActiveSet(s)
    ensures g !in s.placements ==> SeedRefusal(s, g, voters) == None
    ensures g in s.placements && s.placements[g].move.None? && VoterSet(s.placements[g].voters) == VoterSet(voters) ==>
              SeedRefusal(s, g, voters) == Some(MetaNoOp)
  {
    assert forall v :: v in voters ==> v in VoterSet(voters);
  }

  lemma OneMorePlacement(placements: map<GroupId, Placement>, voters: map<GroupId, seq<NodeId>>, g: GroupId,
                         p: Placement, v: seq<NodeId>)
    requires PlacementsSeeded(placements, voters) && SeededFrom(p, v)
    ensures PlacementsSeeded(placements[g := p], voters[g := v])
  {
    assert placements[g := p].Keys == placements.Keys + {g} && voters[g := v].Keys == voters.Keys + {g};
  }

  /** A partition seeded before is seeded again without effect. */
  lemma SeedAgain(s: MetaState, g: GroupId, voters: seq<NodeId>, logId: LogId, ordered: seq<NodeId>)
    requires s.cluster.Some? && g.Data? && g.partition < s.cluster.value.p
    requires |VoterSet(voters)| == |voters| == s.cluster.value.r && VoterSet(voters) <= ActiveSet(s)
    requires g in s.placements && SeededFrom(s.placements[g], ordered) && VoterSet(ordered) == VoterSet(voters)
    ensures EvalSeedPlacement(s, g, voters, logId) == Same(s)
  {
    SeedRefused(s, g, voters);
  }

  lemma SeedFirst(s: MetaState, g: GroupId, voters: seq<NodeId>, logId: LogId)
    requires s.cluster.Some? && g.Data? && g.partition < s.cluster.value.p && g !in s.placements
    requires |VoterSet(voters)| == |voters| == s.cluster.value.r && VoterSet(voters) <= ActiveSet(s)
    ensures EvalSeedPlacement(s, g, voters, logId)
         == Write(s.(placements := s.placements[g := Placement(Sorted(voters), logId, None)]))
  {
    SeedRefused(s, g, voters);
  }

  /** The next partition in order extends the seeded table. */
  lemma SeedExtends(d: Descriptor, m: nat, s: MetaState, i: nat, logId: LogId, ordered: seq<NodeId>)
    requires Seeded(d, m, s) && i < |d.placements| && m == 1 + |d.directory| + i && i == Placed(d, m)
    requires Ordered(d.placements)[i] == (d.placements[i].0, ordered)
    ensures Seeded(d, m + 1, s.(placements := s.placements[Data(d.placements[i].0) := Placement(ordered, logId, None)]))
  {
    var g := Data(d.placements[i].0);
    OneMorePlacement(s.placements, VotersAfter(d, i), g, Placement(ordered, logId, None), ordered);
  }

  lemma SeedStep(d: Descriptor, m: nat, s: MetaState, j: nat, i: nat, logId: LogId, o: Outcome)
    requires ValidNodes(d.directory) && ValidGenesis(d.config, NodeIds(d.directory), d.placements)
    requires Seeded(d, m, s) && i < |d.placements| && j == 1 + |d.directory| + i && j <= m
    requires o == EvalSeedPlacement(s, Data(d.placements[i].0), d.placements[i].1, logId)
    ensures StepsTo(d, m, j, s, o)
  {
    var g, voters, k := Data(d.placements[i].0), d.placements[i].1, Placed(d, m);
    var ordered := Ordered(d.placements);
    VotersActive(d.directory, voters, s);
    VotersOfMember(Sorted(d.metaVoters), ordered, k, i);
    assert ordered[i] == (d.placements[i].0, Sorted(voters));
    if k == i {
      SeedFirst(s, g, voters, logId);
      SeedExtends(d, m, s, i, logId, Sorted(voters));
    } else {
      SortedSeqIsVoterSet(VoterSet(voters));
      assert SeededFrom(s.placements[g], Sorted(voters));
      SeedAgain(s, g, voters, logId, Sorted(voters));
    }
  }

  lemma InitCommand(env: Env, d: Descriptor, m: nat, s: MetaState, logId: LogId)
    requires ValidDescriptor(env, d) && Seeded(d, m, s)
    ensures StepsTo(d, m, 0, s, Evaluate(env, s, CommandAt(d, 0), logId))
  {
    var cmd := CommandAt(d, 0);
    ReachesInit(env, s, cmd, logId);
    InitStep(env, d, m, s, logId, Evaluate(env, s, cmd, logId));
  }

  lemma RegisterCommand(env: Env, d: Descriptor, m: nat, s: MetaState, j: nat, logId: LogId)
    requires ValidNodes(d.directory) && Seeded(d, m, s) && 1 <= j <= |d.directory| && j <= m
    ensures StepsTo(d, m, j, s, Evaluate(env, s, CommandAt(d, j), logId))
  {
    var e, cmd := d.directory[j - 1], CommandAt(d, j);
    assert cmd == RegisterNode(e.nodeId, e.controlAddr, e.bulkAddr);
    ReachesRegister(env, s, cmd, logId);
    RegisterStep(d, m, s, j, e, Evaluate(env, s, cmd, logId));
  }

  lemma ReachesSeedAt(env: Env, d: Descriptor, s: MetaState, j: nat, i: nat, logId: LogId)
    requires s.maintenance == None && i < |d.placements| && j == 1 + |d.directory| + i
    ensures Evaluate(env, s, CommandAt(d, j), logId)
            == EvalSeedPlacement(s, Data(d.placements[i].0), d.placements[i].1, logId)
  {
    var cmd := CommandAt(d, j);
    assert cmd == SeedPlacement(Data(d.placements[i].0), d.placements[i].1);
    ReachesSeed(env, s, cmd, logId);
  }

  lemma SeedCommand(env: Env, d: Descriptor, m: nat, s: MetaState, j: nat, logId: LogId)
    requires ValidNodes(d.directory) && ValidGenesis(d.config, NodeIds(d.directory), d.placements)
    requires Seeded(d, m, s) && |d.directory| < j < CommandCount(d) && j <= m
    ensures StepsTo(d, m, j, s, Evaluate(env, s, CommandAt(d, j), logId))
  {
    var i := j - 1 - |d.directory|;
    ReachesSeedAt(env, d, s, j, i, logId);
    SeedStep(d, m, s, j, i, logId, Evaluate(env, s, CommandAt(d, j), logId));
  }

  lemma CommandStep(env: Env, d: Descriptor, m: nat, j: nat, s: MetaState, logId: LogId)
    requires ValidDescriptor(env, d) && Seeded(d, m, s) && j <= m && j < CommandCount(d)
    ensures StepsTo(d, m, j, s, Evaluate(env, s, CommandAt(d, j), logId))
  {
    if j == 0 {
      InitCommand(env, d, m, s, logId);
    } else if j <= |d.directory| {
      RegisterCommand(env, d, m, s, j, logId);
    } else {
      SeedCommand(env, d, m, s, j, logId);
    }
  }

  // -- Interleaved runs -----------------------------------------------------------------------------------------

  /** Run `run` had command `index` committed at `logId`. */
  datatype Proposal = Proposal(run: nat, index: nat, logId: LogId)

  /** How many commands a run has seen accepted: it proposes the next one or repeats an earlier one. */
  function Progress(ps: seq<Proposal>, run: nat): nat {
    if ps == [] then 0
    else
      var p, before := ps[|ps| - 1], Progress(ps[..|ps| - 1], run);
      if p.run == run && p.index + 1 > before then p.index + 1 else before
  }

  predicate InOrder(d: Descriptor, ps: seq<Proposal>) {
    forall k :: 0 <= k < |ps| ==> ps[k].index <= Progress(ps[..k], ps[k].run) && ps[k].index < CommandCount(d)
  }

  function HighWater(ps: seq<Proposal>): nat {
    if ps == [] then 0
    else
      var p, before := ps[|ps| - 1], HighWater(ps[..|ps| - 1]);
      if p.index + 1 > before then p.index + 1 else before
  }

  lemma {:induction false} ProgressBelowHighWater(ps: seq<Proposal>, run: nat)
    ensures Progress(ps, run) <= HighWater(ps)
  {
    if ps != [] {
      ProgressBelowHighWater(ps[..|ps| - 1], run);
    }
  }

  function LogOf(d: Descriptor, ps: seq<Proposal>): (log: seq<Committed>)
    requires forall k :: 0 <= k < |ps| ==> ps[k].index < CommandCount(d)
    ensures |log| == |ps|
  {
    seq(|ps|, k requires 0 <= k < |ps| => Committed(CommandAt(d, ps[k].index), ps[k].logId))
  }

  function StateAfter(env: Env, d: Descriptor, ps: seq<Proposal>): MetaState
    requires forall k :: 0 <= k < |ps| ==> ps[k].index < CommandCount(d)
  {
    ApplyLog(env, EMPTY_META, LogOf(d, ps))
  }

  lemma StateAfterSnoc(env: Env, d: Descriptor, ps: seq<Proposal>)
    requires ps != [] && forall k :: 0 <= k < |ps| ==> ps[k].index < CommandCount(d)
    ensures var init, p := ps[..|ps| - 1], ps[|ps| - 1];
            StateAfter(env, d, ps) == Evaluate(env, StateAfter(env, d, init), CommandAt(d, p.index), p.logId).state
  {
    var init, p := ps[..|ps| - 1], ps[|ps| - 1];
    var c := Committed(CommandAt(d, p.index), p.logId);
    assert LogOf(d, ps) == LogOf(d, init) + [c];
    ApplyLogSnoc(env, EMPTY_META, LogOf(d, init), c);
  }

  lemma InOrderPrefix(d: Descriptor, ps: seq<Proposal>, n: nat)
    requires InOrder(d, ps) && n <= |ps|
    ensures InOrder(d, ps[..n])
  {
    forall k | 0 <= k < n
      ensures ps[..n][k].index <= Progress(ps[..n][..k], ps[..n][k].run) && ps[..n][k].index < CommandCount(d)
    {
      assert ps[..n][..k] == ps[..k];
    }
  }

  lemma {:induction false} HighWaterBounded(d: Descriptor, ps: seq<Proposal>)
    requires InOrder(d, ps)
    ensures HighWater(ps) <= CommandCount(d)
  {
    if ps != [] {
      InOrderPrefix(d, ps, |ps| - 1);
      HighWaterBounded(d, ps[..|ps| - 1]);
    }
  }

  lemma NothingSeeded(d: Descriptor)
    ensures Seeded(d, 0, EMPTY_META)
  {
  }

  lemma StepSeeds(d: Descriptor, m: nat, j: nat, s: MetaState, o: Outcome)
    requires Seeded(d, m, s) && j <= m && StepsTo(d, m, j, s, o)
    ensures Seeded(d, if j + 1 > m then j + 1 else m, o.state)
    ensures !o.result.MetaRejected?
  {
  }

  lemma {:induction false} RunsAreSeeded(env: Env, d: Descriptor, ps: seq<Proposal>)
    requires ValidDescriptor(env, d) && InOrder(d, ps)
    ensures Seeded(d, HighWater(ps), StateAfter(env, d, ps))
  {
    if ps == [] {
      assert LogOf(d, ps) == [];
      NothingSeeded(d);
    } else {
      var init, p := ps[..|ps| - 1], ps[|ps| - 1];
      InOrderPrefix(d, ps, |ps| - 1);
      RunsAreSeeded(env, d, init);
      ProgressBelowHighWater(init, p.run);
      NextIsSeeded(env, d, HighWater(init), p.index, StateAfter(env, d, init), p.logId);
      StateAfterSnoc(env, d, ps);
    }
  }

  lemma NextIsSeeded(env: Env, d: Descriptor, m: nat, j: nat, s: MetaState, logId: LogId)
    requires ValidDescriptor(env, d) && Seeded(d, m, s) && j <= m && j < CommandCount(d)
    ensures var o := Evaluate(env, s, CommandAt(d, j), logId);
            Seeded(d, if j + 1 > m then j + 1 else m, o.state) && !o.result.MetaRejected?
  {
    CommandStep(env, d, m, j, s, logId);
    StepSeeds(d, m, j, s, Evaluate(env, s, CommandAt(d, j), logId));
  }

  /** No interleaving of any number of partial, in-order, repeating runs is ever refused. */
  lemma NeverRejected(env: Env, d: Descriptor, ps: seq<Proposal>, k: nat)
    requires ValidDescriptor(env, d) && InOrder(d, ps) && k < |ps|
    ensures !Evaluate(env, StateAfter(env, d, ps[..k]), CommandAt(d, ps[k].index), ps[k].logId).result.MetaRejected?
  {
    InOrderPrefix(d, ps, k);
    RunsAreSeeded(env, d, ps[..k]);
    ProgressBelowHighWater(ps[..k], ps[k].run);
    NextIsSeeded(env, d, HighWater(ps[..k]), ps[k].index, StateAfter(env, d, ps[..k]), ps[k].logId);
  }

  lemma CompletedRun(env: Env, d: Descriptor, ps: seq<Proposal>, run: nat) returns (s: MetaState)
    requires ValidDescriptor(env, d) && InOrder(d, ps) && Progress(ps, run) == CommandCount(d)
    ensures s == StateAfter(env, d, ps) && Seeded(d, CommandCount(d), s)
  {
    ProgressBelowHighWater(ps, run);
    HighWaterBounded(d, ps);
    assert HighWater(ps) == CommandCount(d);
    RunsAreSeeded(env, d, ps);
    s := StateAfter(env, d, ps);
  }

  /** As soon as one run of each interleaving has completed, the states agree up to `votersLogId`. */
  lemma Confluence(env: Env, d: Descriptor, ps: seq<Proposal>, qs: seq<Proposal>, a: nat, b: nat)
    requires ValidDescriptor(env, d) && InOrder(d, ps) && InOrder(d, qs)
    requires Progress(ps, a) == CommandCount(d) && Progress(qs, b) == CommandCount(d)
    ensures SameButLogIds(StateAfter(env, d, ps), StateAfter(env, d, qs))
  {
    var s := CompletedRun(env, d, ps, a);
    var t := CompletedRun(env, d, qs, b);
    SeededDetermines(d, CommandCount(d), s, t);
  }

  // -- The seeding driver ------------------------------------------------------------------------------------------

  function Later(j: nat, m: nat): nat {
    if j > m then j else m
  }

  /** If the run began on a state its descriptor explains, it is on the state after the furthest command so far. */
  ghost predicate Resumes(env: Env, d: Descriptor, m: nat, j: nat, s: MetaState, valid: bool) {
    valid ==> ValidDescriptor(env, d) && Seeded(d, Later(j, m), s)
  }

  lemma Resumed(env: Env, d: Descriptor, m: nat, j: nat, s: MetaState, logId: LogId, valid: bool)
    requires Resumes(env, d, m, j, s, valid) && j < CommandCount(d)
    ensures var o := Evaluate(env, s, CommandAt(d, j), logId);
            Resumes(env, d, m, j + 1, o.state, valid) && (valid ==> !o.result.MetaRejected?)
  {
    if valid { NextIsSeeded(env, d, Later(j, m), j, s, logId); }
  }

  lemma Finished(env: Env, d: Descriptor, m: nat, s: MetaState, valid: bool)
    requires Resumes(env, d, m, CommandCount(d), s, valid)
    ensures valid ==> Seeded(d, CommandCount(d), s)
  {
  }

  /** From the empty store or whatever an earlier run left, one run of a valid descriptor completes genesis. */
  method SeedCluster(meta: MetaStore, d: Descriptor, term: nat, ghost m: nat) returns (ok: bool)
    modifies meta
    ensures ValidDescriptor(meta.env, d) && old(Seeded(d, m, meta.state)) ==>
            ok && Seeded(d, CommandCount(d), meta.state)
  {
    ghost var valid := ValidDescriptor(meta.env, d) && Seeded(d, m, meta.state);
    for j := 0 to CommandCount(d)
      invariant Resumes(meta.env, d, m, j, meta.state, valid)
    {
      ghost var before := meta.state;
      var result := meta.Apply(CommandAt(d, j), LogId(term, j + 1));
      Resumed(meta.env, d, m, j, before, LogId(term, j + 1), valid);
      if result.MetaRejected? {
        return false;
      }
    }
    Finished(meta.env, d, m, meta.state, valid);
    ok := true;
  }
}
