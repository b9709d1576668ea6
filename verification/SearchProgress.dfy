/** Search generations make progress (src/meta/state_machine.rs): whatever was committed, a build on a settled topology
    can be put into service, an index created, and any index dropped for good. */
module SearchProgress {
  import opened Types
  import opened Keyspace
  import opened MetaStateMachine
  import opened MetaDecisions
  import opened MetaInvariants
  import opened SearchReadiness

  /** Every partition is placed and none is moving, outside of maintenance. */
  ghost predicate Steady(s: MetaState) {
    && s.cluster.Some? && !MaintenanceIsActive(s)
    && forall i: u16 :: i < s.cluster.value.p ==> Data(i) in s.placements && s.placements[Data(i)].move.None?
  }

  ghost predicate Builds(s: MetaState, name: Bytes) {
    SearchInv(s) && Steady(s) && name in s.search && s.search[name].building.Some?
  }

  // -- Reports ------------------------------------------------------------------------------------

  /** The voters whose report of the build is still wanting. */
  ghost function Silent(s: MetaState, name: Bytes): set<(u16, NodeId)>
    requires Builds(s, name)
  {
    set i: u16, n: NodeId | i < s.cluster.value.p && n in s.placements[Data(i)].voters
      && !Reported(s, name, s.search[name].building.value.id, Data(i), n) :: (i, n)
  }

  /** A report of the build, newer than the one on record, if there is one. */
  function ReportFor(s: MetaState, name: Bytes, i: u16, n: NodeId): SearchReady
    requires name in s.search && s.search[name].building.Some? && Data(i) in s.placements
  {
    var b := s.search[name].building.value;
    var key := ReadyKey(name, b.id, Data(i), n);
    SearchReady(b.id, b.definitionHash, b.engineRevision, Data(i), n, s.placements[Data(i)].votersLogId,
                if key in s.ready then s.ready[key].projectionEpoch + 1 else 1, LogId(0, 0))
  }

  function WithReport(s: MetaState, name: Bytes, obs: SearchReady): MetaState {
    s.(ready := s.ready[KeyOf(name, obs) := obs])
  }

  lemma ReportLands(env: Env, s: MetaState, name: Bytes, i: u16, n: NodeId, logId: LogId)
    requires Builds(s, name) && (i, n) in Silent(s, name)
    ensures var obs := ReportFor(s, name, i, n);
            Evaluate(env, s, ReportSearchReady(name, obs), logId).state == WithReport(s, name, obs)
  {
    var obs := ReportFor(s, name, i, n);
    ReachesReport(env, s, ReportSearchReady(name, obs), logId);
    ReportExactly(s, name, obs);
  }

  lemma ReportHelps(s: MetaState, name: Bytes, i: u16, n: NodeId)
    requires Builds(s, name) && (i, n) in Silent(s, name)
    ensures var next := WithReport(s, name, ReportFor(s, name, i, n));
            Builds(next, name) && Silent(next, name) == Silent(s, name) - {(i, n)}
  {
    var obs := ReportFor(s, name, i, n);
    var next, id := WithReport(s, name, obs), s.search[name].building.value.id;
    ReportExactly(s, name, obs);
    ReportStep(s, name, obs);
    assert EvalReportReady(s, name, obs).state == next;
    forall j: u16, m: NodeId | j < s.cluster.value.p
      ensures Reported(next, name, id, Data(j), m) <==> Reported(s, name, id, Data(j), m) || (j == i && m == n)
    {
    }
  }

  /** From `s` to `t` only readiness has changed, and every voter of every partition has reported the build. */
  ghost predicate AllReported(s: MetaState, t: MetaState, name: Bytes) {
    && t == s.(ready := t.ready) && SearchInv(t) && name in s.search && s.search[name].building.Some?
    && s.cluster.Some? && EveryVoterReported(t, name, s.search[name].building.value.id, s.cluster.value.p)
  }

  lemma {:induction false} ReportAll(env: Env, s: MetaState, name: Bytes, index: nat) returns (log: seq<Committed>)
    requires Builds(s, name)
    ensures Numbered(log, index) && AllReported(s, ApplyLog(env, s, log), name)
    decreases |Silent(s, name)|
  {
    log := [];
    if Silent(s, name) == {} {
      NobodySilent(s, name);
    } else {
      var v :| v in Silent(s, name);
      var obs := ReportFor(s, name, v.0, v.1);
      var c := Committed(ReportSearchReady(name, obs), LogId(0, index));
      ReportLands(env, s, name, v.0, v.1, c.logId);
      ReportHelps(s, name, v.0, v.1);
      var rest := ReportAll(env, WithReport(s, name, obs), name, index + 1);
      Prepend(env, s, c, WithReport(s, name, obs), rest, index);
      log := [c] + rest;
    }
  }

  lemma NobodySilent(s: MetaState, name: Bytes)
    requires Builds(s, name) && Silent(s, name) == {}
    ensures AllReported(s, s, name)
  {
    var id := s.search[name].building.value.id;
    forall i: u16, n | i < s.cluster.value.p && n in s.placements[Data(i)].voters
      ensures Reported(s, name, id, Data(i), n)
    {
      assert (i, n) !in Silent(s, name);
    }
  }

  // -- Finalizing ---------------------------------------------------------------------------------

  /** The catalog once all retiring generations of the index are forgotten. */
  function Cleared(s: MetaState, name: Bytes): MetaState
    requires name in s.search
  {
    var r := s.search[name];
    if r.retiring == [] then s
    else if r.active.None? && r.building.None? then s.(search := s.search - {name})
    else s.(search := s.search[name := r.(retiring := [])])
  }

  lemma FinalizeLands(env: Env, s: MetaState, name: Bytes, logId: LogId)
    requires !MaintenanceIsActive(s) && name in s.search && s.search[name].retiring != []
    ensures var r, g := s.search[name], s.search[name].retiring[0];
            var next := Evaluate(env, s, FinalizeSearchDrop(name, g), logId).state;
            && |Without(r.retiring, g)| < |r.retiring| && next == s.(search := next.search)
            && (if name in next.search
                then next.search == s.search[name := r.(retiring := Without(r.retiring, g))]
                     && (Without(r.retiring, g) == [] ==> r.active.Some? || r.building.Some?)
                else next.search == s.search - {name} && Without(r.retiring, g) == []
                     && r.active.None? && r.building.None?)
  {
    var g := s.search[name].retiring[0];
    ReachesFinalizeDrop(env, s, FinalizeSearchDrop(name, g), logId);
    WithoutExactly(s.search[name].retiring, g);
  }

  lemma {:induction false} FinalizeAll(env: Env, s: MetaState, name: Bytes, index: nat) returns (log: seq<Committed>)
    requires !MaintenanceIsActive(s) && name in s.search
    ensures Numbered(log, index) && ApplyLog(env, s, log) == Cleared(s, name)
    decreases |s.search[name].retiring|
  {
    log := [];
    if s.search[name].retiring != [] {
      var c := Committed(FinalizeSearchDrop(name, s.search[name].retiring[0]), LogId(0, index));
      var next := Evaluate(env, s, c.cmd, c.logId).state;
      FinalizeLands(env, s, name, c.logId);
      var rest := [];
      if name in next.search {
        rest := FinalizeAll(env, next, name, index + 1);
        ClearedOn(s, next, name);
      }
      Prepend(env, s, c, next, rest, index);
      log := [c] + rest;
    }
  }

  lemma ClearedOn(s: MetaState, next: MetaState, name: Bytes)
    requires name in s.search && s.search[name].retiring != []
    requires name in next.search && next == s.(search := next.search)
    requires next.search == s.search[name := next.search[name]]
    requires next.search[name] == s.search[name].(retiring := next.search[name].retiring)
    requires next.search[name].retiring == [] ==> s.search[name].active.Some? || s.search[name].building.Some?
    ensures Cleared(next, name) == Cleared(s, name)
  {
    var r := s.search[name];
    assert next.search - {name} == s.search - {name};
    assert next.search[name := r.(retiring := [])] == s.search[name := r.(retiring := [])];
  }

  /** An index with something in service or under way keeps both. */
  lemma ClearedKeeps(s: MetaState, name: Bytes)
    requires SearchInv(s) && name in s.search && (s.search[name].active.Some? || s.search[name].building.Some?)
    ensures var t := Cleared(s, name);
            && SearchInv(t) && name in t.search && t == s.(search := s.search[name := t.search[name]])
            && t.search[name] == s.search[name].(retiring := [])
            && t.search - {name} == s.search - {name}
  {
    var t := Cleared(s, name);
    assert RecordOk(name, s.search[name]);
    assert t.search == s.search[name := s.search[name].(retiring := [])];
    forall k | k in t.ready ensures ReadyFor(t.search, k, t.ready[k]) {
      assert ReadyFor(s.search, k, s.ready[k]);
    }
  }

  lemma StillBuilds(s: MetaState, t: MetaState, name: Bytes)
    requires Builds(s, name) && SearchInv(t) && name in t.search && t == s.(search := t.search)
    requires t.search[name] == s.search[name].(retiring := [])
    ensures Builds(t, name) && CanRetire(t.search[name])
  {
  }

  // -- Into service -------------------------------------------------------------------------------

  /** From `s` to `t` what was being built came into service, what had been in service is retiring, and nothing changed
      but this index and its readiness. */
  ghost predicate InService(s: MetaState, t: MetaState, name: Bytes) {
    && name in s.search && name in t.search && s.search[name].building.Some?
    && t == s.(search := s.search[name := t.search[name]], ready := t.ready)
    && t.search[name].active == s.search[name].building && t.search[name].building.None?
    && (s.search[name].active.Some? ==> s.search[name].active.value.id in t.search[name].retiring)
  }

  lemma ActivateLands(env: Env, s: MetaState, name: Bytes, index: nat) returns (log: seq<Committed>)
    requires SearchInv(s) && Steady(s) && name in s.search && s.search[name].building.Some?
    requires CanRetire(s.search[name])
    requires EveryVoterReported(s, name, s.search[name].building.value.id, s.cluster.value.p)
    ensures Numbered(log, index) && InService(s, ApplyLog(env, s, log), name)
  {
    var id := s.search[name].building.value.id;
    var c := Committed(ActivateSearchGeneration(name, id), LogId(0, index));
    ReachesActivate(env, s, c.cmd, c.logId);
    ActivationExactly(s, name, id);
    ActivateFacts(s, name, id);
    Prepend(env, s, c, EvalActivate(s, name, id).state, [], index);
    log := [c] + [];
  }

  lemma ServiceBefore(s: MetaState, mid: MetaState, t: MetaState, name: Bytes)
    requires InService(mid, t, name) && name in s.search && name in mid.search
    requires mid == s.(search := s.search[name := mid.search[name]], ready := mid.ready)
    requires mid.search[name].building == s.search[name].building && mid.search[name].active == s.search[name].active
    ensures InService(s, t, name)
  {
    assert mid.search[name := t.search[name]] == s.search[name := t.search[name]];
  }

  lemma ClearBuildCompletes(env: Env, s: MetaState, name: Bytes, index: nat) returns (log: seq<Committed>)
    requires Builds(s, name) && CanRetire(s.search[name])
    ensures Numbered(log, index) && InService(s, ApplyLog(env, s, log), name)
  {
    var reports := ReportAll(env, s, name, index);
    var ready := ApplyLog(env, s, reports);
    var activate := ActivateLands(env, ready, name, index + |reports|);
    Chain(env, s, reports, activate, index);
    ServiceBefore(s, ready, ApplyLog(env, ready, activate), name);
    log := reports + activate;
  }

  /** A build on a settled topology can be put into service. */
  lemma BuildCompletes(env: Env, s: MetaState, name: Bytes, index: nat) returns (log: seq<Committed>)
    requires Builds(s, name)
    ensures Numbered(log, index) && InService(s, ApplyLog(env, s, log), name)
  {
    var clear := FinalizeAll(env, s, name, index);
    var cleared := Cleared(s, name);
    ClearedKeeps(s, name);
    StillBuilds(s, cleared, name);
    var rest := ClearBuildCompletes(env, cleared, name, index + |clear|);
    Chain(env, s, clear, rest, index);
    ServiceBefore(s, cleared, ApplyLog(env, cleared, rest), name);
    log := clear + rest;
  }

  /** Whatever was committed, a build can still be put into service once no partition is moving: reports of every voter
      exist that the meta group takes, and the activation that follows is applied. */
  lemma BuildsCanComplete(env: Env, log: seq<Committed>, name: Bytes) returns (more: seq<Committed>)
    requires LogOrdered(log) && Indexed64(log) && Steady(ApplyLog(env, EMPTY_META, log))
    requires var s := ApplyLog(env, EMPTY_META, log); name in s.search && s.search[name].building.Some?
    ensures LogOrdered(log + more)
    ensures InService(ApplyLog(env, EMPTY_META, log), ApplyLog(env, EMPTY_META, log + more), name)
  {
    var s := ApplyLog(env, EMPTY_META, log);
    RunKeeps(env, EMPTY_META, log);
    more := BuildCompletes(env, s, name, Bound(log));
    NumberedIsOrdered(log, more);
    ApplyLogConcat(env, EMPTY_META, log, more);
  }

  // -- Creating and replacing ---------------------------------------------------------------------

  /** The command that starts a build of the index: a new index, or another generation of an old one. */
  function BuildCommand(search: Catalog, name: Bytes, def: SearchDefinition, revision: nat): MetaCommand {
    if name in search then CreateSearchGeneration(name, def, revision) else CreateSearchIndex(name, def, revision)
  }

  /** The index has nothing under way, and there is room for it or for its next generation. */
  predicate MayBuild(search: Catalog, name: Bytes) {
    if name in search
    then search[name].active.Some? && search[name].building.None?
         && |search[name].retiring| < SEARCH_MAX_RETIRING_GENERATIONS
    else |search| < SEARCH_MAX_INDEXES
  }

  function Built(search: Catalog, name: Bytes, def: SearchDefinition, revision: nat, index: nat): SearchRecord {
    RecordOf(search, name).(building := Some(SearchGeneration(index, def.hash, revision, def)))
  }

  lemma CreateReaches(env: Env, s: MetaState, name: Bytes, def: SearchDefinition, revision: nat, logId: LogId)
    requires !MaintenanceIsActive(s)
    ensures Evaluate(env, s, BuildCommand(s.search, name, def, revision), logId)
            == EvalCreateSearch(s, name, def, revision, logId, name in s.search)
  {
    if name in s.search {
      ReachesCreateGeneration(env, s, CreateSearchGeneration(name, def, revision), logId);
    } else {
      ReachesCreateIndex(env, s, CreateSearchIndex(name, def, revision), logId);
    }
  }

  lemma CreateLands(s: MetaState, name: Bytes, def: SearchDefinition, revision: nat, logId: LogId)
    requires SearchInv(s) && Steady(s) && MayBuild(s.search, name) && logId.index <= U64_MAX
    requires ValidSearchRecord(Built(s.search, name, def, revision, logId.index))
    ensures var t := EvalCreateSearch(s, name, def, revision, logId, name in s.search).state;
            && t == s.(search := s.search[name := Built(s.search, name, def, revision, logId.index)])
            && Builds(t, name)
  {
    if name in s.search { assert RecordOk(name, s.search[name]); }
    CreateExactly(s, name, def, revision, logId, name in s.search);
    CreateStep(s, name, def, revision, logId, name in s.search);
    CreateFacts(s, name, def, revision, logId, name in s.search);
  }

  /** From `s` to `t` this generation of the index came into service, in place of the one before it. */
  ghost predicate Serves(s: MetaState, t: MetaState, name: Bytes, g: SearchGeneration) {
    && name in t.search && t == s.(search := s.search[name := t.search[name]], ready := t.ready)
    && t.search[name].active == Some(g) && t.search[name].building.None?
    && (name in s.search && s.search[name].active.Some? ==>
          s.search[name].active.value.id in t.search[name].retiring)
  }

  lemma BuiltServes(s: MetaState, next: MetaState, t: MetaState, name: Bytes, g: SearchGeneration)
    requires name in next.search && next == s.(search := s.search[name := next.search[name]])
    requires next.search[name] == RecordOf(s.search, name).(building := Some(g)) && InService(next, t, name)
    ensures Serves(s, t, name, g)
  {
    assert next.search[name := t.search[name]] == s.search[name := t.search[name]];
  }

  lemma CreationCompletes(env: Env, s: MetaState, name: Bytes, def: SearchDefinition, revision: nat, index: nat)
    returns (log: seq<Committed>)
    requires SearchInv(s) && Steady(s) && MayBuild(s.search, name) && index <= U64_MAX
    requires ValidSearchRecord(Built(s.search, name, def, revision, index))
    ensures Numbered(log, index)
    ensures Serves(s, ApplyLog(env, s, log), name, SearchGeneration(index, def.hash, revision, def))
  {
    var c := Committed(BuildCommand(s.search, name, def, revision), LogId(0, index));
    var next := s.(search := s.search[name := Built(s.search, name, def, revision, index)]);
    CreateReaches(env, s, name, def, revision, LogId(0, index));
    CreateLands(s, name, def, revision, LogId(0, index));
    var rest := BuildCompletes(env, next, name, index + 1);
    Prepend(env, s, c, next, rest, index);
    BuiltServes(s, next, ApplyLog(env, next, rest), name, next.search[name].building.value);
    log := [c] + rest;
  }

  /** Whatever was committed, on a settled topology a valid new index, or a valid new generation of an index with
      nothing under way, can be created and put into service; the generation it replaces is then retiring. */
  lemma IndexesCanBeBuilt(env: Env, log: seq<Committed>, name: Bytes, def: SearchDefinition, revision: nat)
    returns (more: seq<Committed>)
    requires LogOrdered(log) && Indexed64(log) && Bound(log) <= U64_MAX && Steady(ApplyLog(env, EMPTY_META, log))
    requires var search := ApplyLog(env, EMPTY_META, log).search;
             MayBuild(search, name) && ValidSearchRecord(Built(search, name, def, revision, Bound(log)))
    ensures LogOrdered(log + more)
    ensures Serves(ApplyLog(env, EMPTY_META, log), ApplyLog(env, EMPTY_META, log + more), name,
                   SearchGeneration(Bound(log), def.hash, revision, def))
  {
    var s := ApplyLog(env, EMPTY_META, log);
    RunKeeps(env, EMPTY_META, log);
    more := CreationCompletes(env, s, name, def, revision, Bound(log));
    NumberedIsOrdered(log, more);
    ApplyLogConcat(env, EMPTY_META, log, more);
  }

  // -- Dropping -----------------------------------------------------------------------------------

  /** Every index accounts for some generation. */
  ghost predicate NoneEmpty(search: Catalog) {
    forall name :: name in search ==> exists g :: Holds(search[name], g)
  }

  lemma FinalizeLeavesSome(s: MetaState, name: Bytes, generation: nat)
    requires NoneEmpty(s.search)
    ensures NoneEmpty(EvalFinalizeDrop(s, name, generation).state.search)
  {
    var t := EvalFinalizeDrop(s, name, generation).state;
    FinalizeExactly(s, name, generation);
    forall other | other in t.search ensures exists g :: Holds(t.search[other], g) {
      if other != name || t == s {
        assert t.search[other] == s.search[other];
      } else {
        var r := s.search[name];
        WithoutExactly(r.retiring, generation);
        if r.active.Some? {
          assert Holds(t.search[name], r.active.value.id);
        } else if r.building.Some? {
          assert Holds(t.search[name], r.building.value.id);
        } else {
          var x :| x in r.retiring && x != generation;
          assert Holds(t.search[name], x);
        }
      }
    }
  }

  lemma StartLeavesSome(s: MetaState, t: MetaState, cmd: MetaCommand, logId: LogId)
    requires NoneEmpty(s.search) && Started(s, t, cmd, logId)
    ensures NoneEmpty(t.search)
  {
    assert Holds(t.search[cmd.name], logId.index);
    forall name | name in t.search && name != cmd.name ensures exists g :: Holds(t.search[name], g) {
      assert t.search[name] == s.search[name];
    }
  }

  lemma EndLeavesSome(s: MetaState, t: MetaState, cmd: MetaCommand)
    requires NoneEmpty(s.search) && Ended(s, t, cmd)
    ensures NoneEmpty(t.search)
  {
    var g :| Holds(s.search[cmd.name], g);
    assert Holds(t.search[cmd.name], g);
    forall name | name in t.search && name != cmd.name ensures exists g :: Holds(t.search[name], g) {
      assert t.search[name] == s.search[name];
    }
  }

  lemma MovesLeaveSome(s: MetaState, t: MetaState, cmd: MetaCommand, logId: LogId)
    requires NoneEmpty(s.search) && Moves(s, t, cmd, logId) && !cmd.FinalizeSearchDrop?
    ensures NoneEmpty(t.search)
  {
    if t.search != s.search {
      if Started(s, t, cmd, logId) {
        StartLeavesSome(s, t, cmd, logId);
      } else {
        EndLeavesSome(s, t, cmd);
      }
    }
  }

  lemma NoneEmptyStep(env: Env, s: MetaState, cmd: MetaCommand, logId: LogId)
    requires SearchInv(s) && NoneEmpty(s.search)
    ensures NoneEmpty(Evaluate(env, s, cmd, logId).state.search)
  {
    if cmd.FinalizeSearchDrop? && !MaintenanceIsActive(s) {
      ReachesFinalizeDrop(env, s, cmd, logId);
      FinalizeLeavesSome(s, cmd.name, cmd.generation);
    } else if MaintenanceIsActive(s) && TouchesSearch(cmd) {
      GateHolds(env, s, cmd, logId);
    } else {
      CommandMoves(env, s, cmd, logId);
      MovesLeaveSome(s, Evaluate(env, s, cmd, logId).state, cmd, logId);
    }
  }

  lemma {:induction false} ReachableNoneEmpty(env: Env, log: seq<Committed>)
    requires Indexed64(log)
    ensures NoneEmpty(ApplyLog(env, EMPTY_META, log).search) && SearchInv(ApplyLog(env, EMPTY_META, log))
  {
    RunKeeps(env, EMPTY_META, log);
    if log != [] {
      var before, c := log[..|log| - 1], log[|log| - 1];
      ReachableNoneEmpty(env, before);
      NoneEmptyStep(env, ApplyLog(env, EMPTY_META, before), c.cmd, c.logId);
      assert log == before + [c];
      ApplyLogSnoc(env, EMPTY_META, before, c);
    }
  }

  /** From `s` to `t` the index is gone, with all its readiness, and nothing else has changed. */
  ghost predicate Gone(s: MetaState, t: MetaState, name: Bytes) {
    && t == s.(search := s.search - {name}, ready := t.ready)
    && t.ready == map k | k in s.ready && k.name != name :: s.ready[k]
  }

  lemma DropLands(env: Env, s: MetaState, name: Bytes, logId: LogId)
    requires SearchInv(s) && !MaintenanceIsActive(s) && name in s.search && s.search[name].retiring == []
    requires s.search[name].active.Some? || s.search[name].building.Some?
    ensures var t := Evaluate(env, s, DropSearchIndex(name), logId).state;
            && name in t.search && t == s.(search := s.search[name := t.search[name]], ready := t.ready)
            && t.search[name].active.None? && t.search[name].building.None? && t.search[name].retiring != []
            && t.ready == map k | k in s.ready && k.name != name :: s.ready[k]
  {
    ReachesDrop(env, s, DropSearchIndex(name), logId);
    DropExactly(s, name);
    DropFacts(s, name);
    ScanIsTheIndex(s, name);
  }

  lemma NothingReady(s: MetaState, name: Bytes)
    requires SearchInv(s) && name in s.search && s.search[name].building.None?
    ensures s.ready == map k | k in s.ready && k.name != name :: s.ready[k]
  {
    forall k | k in s.ready ensures k.name != name { assert ReadyFor(s.search, k, s.ready[k]); }
  }

  lemma ClearedDropCompletes(env: Env, s: MetaState, name: Bytes, index: nat) returns (log: seq<Committed>)
    requires SearchInv(s) && !MaintenanceIsActive(s) && name in s.search && s.search[name].retiring == []
    requires s.search[name].active.Some? || s.search[name].building.Some?
    ensures Numbered(log, index) && Gone(s, ApplyLog(env, s, log), name)
  {
    var c := Committed(DropSearchIndex(name), LogId(0, index));
    var next := Evaluate(env, s, c.cmd, c.logId).state;
    DropLands(env, s, name, c.logId);
    var rest := FinalizeAll(env, next, name, index + 1);
    Prepend(env, s, c, next, rest, index);
    assert next.search - {name} == s.search - {name};
    log := [c] + rest;
  }

  lemma GoneBefore(s: MetaState, mid: MetaState, t: MetaState, name: Bytes)
    requires Gone(mid, t, name) && mid == s.(search := mid.search) && mid.search - {name} == s.search - {name}
    ensures Gone(s, t, name)
  {
  }

  lemma RetiredIsGone(s: MetaState, name: Bytes)
    requires SearchInv(s) && name in s.search && s.search[name].active.None? && s.search[name].building.None?
    requires s.search[name].retiring != []
    ensures Gone(s, Cleared(s, name), name)
  {
    NothingReady(s, name);
  }

  lemma ServedIsGone(env: Env, s: MetaState, name: Bytes, index: nat) returns (log: seq<Committed>)
    requires SearchInv(s) && !MaintenanceIsActive(s) && name in s.search
    requires s.search[name].active.Some? || s.search[name].building.Some?
    ensures Numbered(log, index) && Gone(s, ApplyLog(env, s, log), name)
  {
    var clear := FinalizeAll(env, s, name, index);
    var cleared := Cleared(s, name);
    ClearedKeeps(s, name);
    var rest := ClearedDropCompletes(env, cleared, name, index + |clear|);
    Chain(env, s, clear, rest, index);
    GoneBefore(s, cleared, ApplyLog(env, cleared, rest), name);
    log := clear + rest;
  }

  lemma DropCompletes(env: Env, s: MetaState, name: Bytes, index: nat) returns (log: seq<Committed>)
    requires SearchInv(s) && NoneEmpty(s.search) && !MaintenanceIsActive(s) && name in s.search
    ensures Numbered(log, index) && Gone(s, ApplyLog(env, s, log), name)
  {
    if s.search[name].active.Some? || s.search[name].building.Some? {
      log := ServedIsGone(env, s, name, index);
    } else {
      var g :| Holds(s.search[name], g);
      log := FinalizeAll(env, s, name, index);
      RetiredIsGone(s, name);
    }
  }

  /** Whatever was committed, outside of maintenance any index can be dropped for good: its generations retire and are
      forgotten, its readiness goes, and nothing else changes. */
  lemma IndexesCanBeDropped(env: Env, log: seq<Committed>, name: Bytes) returns (more: seq<Committed>)
    requires LogOrdered(log) && Indexed64(log)
    requires var s := ApplyLog(env, EMPTY_META, log); !MaintenanceIsActive(s) && name in s.search
    ensures LogOrdered(log + more)
    ensures Gone(ApplyLog(env, EMPTY_META, log), ApplyLog(env, EMPTY_META, log + more), name)
  {
    var s := ApplyLog(env, EMPTY_META, log);
    ReachableNoneEmpty(env, log);
    more := DropCompletes(env, s, name, Bound(log));
    NumberedIsOrdered(log, more);
    ApplyLogConcat(env, EMPTY_META, log, more);
  }
}
