/** Search generations over every run (src/meta/state_machine.rs, src/keyspace.rs): stored records
    always validate, readiness is never orphaned, and activation is exact. */
module SearchReadiness {
  import opened Types
  import opened Keyspace
  import opened MetaStateMachine

  type Catalog = map<Bytes, SearchRecord>
  type Readiness = map<ReadyKey, SearchReady>

  // -- Invariants ---------------------------------------------------------------------------------

  ghost predicate RecordOk(name: Bytes, r: SearchRecord) {
    r.name == name && ValidSearchRecord(r) && (r.building.Some? ==> r.building.value.id <= U64_MAX)
  }

  ghost predicate CatalogInv(search: Catalog) {
    forall name :: name in search ==> RecordOk(name, search[name])
  }

  /** A readiness record belongs to its index's current building generation and says what its key says. */
  ghost predicate ReadyFor(search: Catalog, k: ReadyKey, r: SearchReady) {
    && k.name in search && search[k.name].building.Some?
    && var building := search[k.name].building.value;
    && k.generation == building.id == r.generation
    && r.definitionHash == building.definitionHash && r.engineRevision == building.engineRevision
    && k.group == r.group && k.nodeId == r.nodeId
  }

  ghost predicate ReadyInv(search: Catalog, ready: Readiness) {
    forall k :: k in ready ==> ReadyFor(search, k, ready[k])
  }

  ghost predicate SearchInv(s: MetaState) {
    CatalogInv(s.search) && ReadyInv(s.search, s.ready)
  }

  // -- Scans are exact ---------------------------------------------------------------------------------

  lemma KeyEncodable(s: MetaState, k: ReadyKey)
    requires SearchInv(s) && k in s.ready
    ensures Encodable(k.name, k.generation)
  {
    assert ReadyFor(s.search, k, s.ready[k]);
    assert RecordOk(k.name, s.search[k.name]);
  }

  lemma ScanSelects(s: MetaState, name: Bytes, generation: nat)
    requires SearchInv(s) && Encodable(name, generation)
    ensures forall k :: k in s.ready ==> (k in ReadyScan(s, name, generation) <==>
            k.name == name && k.generation == generation)
  {
    forall k | k in s.ready
      ensures k in ReadyScan(s, name, generation) <==> k.name == name && k.generation == generation
    {
      KeyEncodable(s, k);
      ReadyScanIsExact(name, generation, k);
    }
  }

  // -- One handler at a time ---------------------------------------------------------------------------

  /** Replacing a record that had nothing building strands no readiness. */
  lemma IdleRecordChange(search: Catalog, ready: Readiness, name: Bytes, r: SearchRecord)
    requires CatalogInv(search) && ReadyInv(search, ready) && RecordOk(name, r)
    requires name in search ==> search[name].building.None?
    ensures CatalogInv(search[name := r]) && ReadyInv(search[name := r], ready)
  {
    forall k | k in ready ensures ReadyFor(search[name := r], k, ready[k]) {
      assert ReadyFor(search, k, ready[k]);
    }
  }

  lemma CreateFacts(s: MetaState, name: Bytes, def: SearchDefinition, revision: nat, logId: LogId, update: bool)
    requires EvalCreateSearch(s, name, def, revision, logId, update).result.MetaApplied?
    requires name in s.search ==> s.search[name].name == name
    ensures var t := EvalCreateSearch(s, name, def, revision, logId, update).state;
            && (name in s.search ==> s.search[name].building.None?)
            && name in t.search
            && t.search[name] == (if name in s.search then s.search[name] else SearchRecord(name, None, None, []))
                 .(building := Some(SearchGeneration(logId.index, def.hash, revision, def)))
            && t.search == s.search[t.search[name].name := t.search[name]] && ValidSearchRecord(t.search[name])
  {
  }

  lemma CreateStep(s: MetaState, name: Bytes, def: SearchDefinition, revision: nat, logId: LogId, update: bool)
    requires SearchInv(s) && logId.index <= U64_MAX
    ensures SearchInv(EvalCreateSearch(s, name, def, revision, logId, update).state)
  {
    var o := EvalCreateSearch(s, name, def, revision, logId, update);
    if o.result.MetaApplied? {
      if name in s.search { assert RecordOk(name, s.search[name]); }
      CreateFacts(s, name, def, revision, logId, update);
      IdleRecordChange(s.search, s.ready, name, o.state.search[name]);
    }
  }

  lemma ReportStep(s: MetaState, name: Bytes, obs: SearchReady)
    requires SearchInv(s)
    ensures SearchInv(EvalReportReady(s, name, obs).state)
  {
    var o := EvalReportReady(s, name, obs);
    if o.result.MetaApplied? {
      var key := ReadyKey(name, obs.generation, obs.group, obs.nodeId);
      assert o.state.ready == s.ready[key := obs];
      assert ReadyFor(s.search, key, obs);
    }
  }

  /** The readiness keys of whatever the index is building. */
  function BuildScan(s: MetaState, name: Bytes): set<ReadyKey>
    requires name in s.search
  {
    if s.search[name].building.Some? then ReadyScan(s, name, s.search[name].building.value.id) else {}
  }

  /** Ending a build and deleting its scan leaves no readiness for that index. */
  lemma BuildEnds(s: MetaState, name: Bytes, r: SearchRecord, gone: set<ReadyKey>)
    requires SearchInv(s) && name in s.search && RecordOk(name, r)
    requires gone == BuildScan(s, name)
    ensures CatalogInv(s.search[name := r]) && ReadyInv(s.search[name := r], s.ready - gone)
  {
    var building := s.search[name].building;
    assert RecordOk(name, s.search[name]);
    if building.Some? { ScanSelects(s, name, building.value.id); }
    forall k | k in s.ready - gone ensures ReadyFor(s.search[name := r], k, (s.ready - gone)[k]) {
      assert ReadyFor(s.search, k, s.ready[k]);
    }
  }

  lemma ActivateFacts(s: MetaState, name: Bytes, generation: nat)
    requires EvalActivate(s, name, generation).result.MetaApplied?
    ensures var t := EvalActivate(s, name, generation).state;
            && name in s.search && s.search[name].building.Some? && s.search[name].building.value.id == generation
            && s.cluster.Some? && AllReady(s, name, s.search[name].building.value, s.cluster.value.p)
            && name in t.search && ValidSearchRecord(t.search[name]) && t.search[name].name == s.search[name].name
            && t.search[name].building.None? && t.search[name].active == s.search[name].building
            && t.search[name].retiring == RetireGeneration(s.search[name].retiring, s.search[name].active)
            && t.search == s.search[name := t.search[name]] && t.ready == s.ready - ReadyScan(s, name, generation)
  {
  }

  lemma ActivateStep(s: MetaState, name: Bytes, generation: nat)
    requires SearchInv(s)
    ensures SearchInv(EvalActivate(s, name, generation).state)
  {
    var o := EvalActivate(s, name, generation);
    if o.result.MetaApplied? {
      ActivateFacts(s, name, generation);
      assert RecordOk(name, s.search[name]);
      BuildEnds(s, name, o.state.search[name], ReadyScan(s, name, generation));
    }
  }

  lemma DropFacts(s: MetaState, name: Bytes)
    requires EvalDropSearch(s, name).result.MetaApplied?
    ensures var t := EvalDropSearch(s, name).state;
            && name in s.search && name in t.search && ValidSearchRecord(t.search[name])
            && t.search[name].name == s.search[name].name && t.search[name].building.None?
            && t.search == s.search[name := t.search[name]]
            && t.ready == s.ready - BuildScan(s, name)
  {
  }

  lemma DropStep(s: MetaState, name: Bytes)
    requires SearchInv(s)
    ensures SearchInv(EvalDropSearch(s, name).state)
  {
    var o := EvalDropSearch(s, name);
    if o.result.MetaApplied? {
      DropFacts(s, name);
      assert RecordOk(name, s.search[name]);
      BuildEnds(s, name, o.state.search[name], BuildScan(s, name));
    }
  }

  /** An index with nothing building has no readiness to strand, and forgetting a generation leaves it valid. */
  lemma ForgetKeeps(search: Catalog, ready: Readiness, name: Bytes, generation: nat)
    requires CatalogInv(search) && ReadyInv(search, ready) && name in search
    ensures var r := search[name].(retiring := Without(search[name].retiring, generation));
            CatalogInv(search[name := r]) && ReadyInv(search[name := r], ready)
    ensures search[name].building.None? ==> CatalogInv(search - {name}) && ReadyInv(search - {name}, ready)
  {
    var r := search[name].(retiring := Without(search[name].retiring, generation));
    assert RecordOk(name, search[name]);
    forall k | k in ready
      ensures ReadyFor(search[name := r], k, ready[k])
      ensures search[name].building.None? ==> ReadyFor(search - {name}, k, ready[k])
    {
      assert ReadyFor(search, k, ready[k]);
    }
  }

  lemma FinalizeDropStep(s: MetaState, name: Bytes, generation: nat)
    requires SearchInv(s)
    ensures SearchInv(EvalFinalizeDrop(s, name, generation).state)
  {
    if name in s.search { ForgetKeeps(s.search, s.ready, name, generation); }
  }

  predicate TouchesSearch(cmd: MetaCommand) {
    || cmd.CreateSearchIndex? || cmd.CreateSearchGeneration? || cmd.ReportSearchReady?
    || cmd.ActivateSearchGeneration? || cmd.DropSearchIndex? || cmd.FinalizeSearchDrop?
  }

  lemma SearchFramed(env: Env, s: MetaState, cmd: MetaCommand, logId: LogId)
    requires !TouchesSearch(cmd)
    ensures var t := Evaluate(env, s, cmd, logId).state; t.search == s.search && t.ready == s.ready
  {
  }

  lemma BuildCommandStep(env: Env, s: MetaState, cmd: MetaCommand, logId: LogId)
    requires SearchInv(s) && logId.index <= U64_MAX && !MaintenanceIsActive(s)
    requires cmd.CreateSearchIndex? || cmd.CreateSearchGeneration? || cmd.ReportSearchReady?
    ensures SearchInv(Evaluate(env, s, cmd, logId).state)
  {
    match cmd
    case CreateSearchIndex(name, def, rev) => CreateStep(s, name, def, rev, logId, false);
    case CreateSearchGeneration(name, def, rev) => CreateStep(s, name, def, rev, logId, true);
    case ReportSearchReady(name, ready) => ReportStep(s, name, ready);
  }

  lemma EndCommandStep(env: Env, s: MetaState, cmd: MetaCommand, logId: LogId)
    requires SearchInv(s) && !MaintenanceIsActive(s)
    requires cmd.ActivateSearchGeneration? || cmd.DropSearchIndex? || cmd.FinalizeSearchDrop?
    ensures SearchInv(Evaluate(env, s, cmd, logId).state)
  {
    match cmd
    case ActivateSearchGeneration(name, gen) => ActivateStep(s, name, gen);
    case DropSearchIndex(name) => DropStep(s, name);
    case FinalizeSearchDrop(name, gen) => FinalizeDropStep(s, name, gen);
  }

  lemma CommandStep(env: Env, s: MetaState, cmd: MetaCommand, logId: LogId)
    requires SearchInv(s) && logId.index <= U64_MAX
    ensures SearchInv(Evaluate(env, s, cmd, logId).state)
  {
    if !TouchesSearch(cmd) {
      SearchFramed(env, s, cmd, logId);
    } else if MaintenanceIsActive(s) {
      GateHolds(env, s, cmd, logId);
    } else if cmd.ActivateSearchGeneration? || cmd.DropSearchIndex? || cmd.FinalizeSearchDrop? {
      EndCommandStep(env, s, cmd, logId);
    } else {
      BuildCommandStep(env, s, cmd, logId);
    }
  }

  // -- Runs ----------------------------------------------------------------------------------------------

  predicate Indexed64(log: seq<Committed>) {
    forall i :: 0 <= i < |log| ==> log[i].logId.index <= U64_MAX
  }

  lemma {:induction false} RunKeeps(env: Env, s: MetaState, log: seq<Committed>)
    requires SearchInv(s) && Indexed64(log)
    ensures SearchInv(ApplyLog(env, s, log))
    decreases |log|
  {
    if log != [] {
      CommandStep(env, s, log[0].cmd, log[0].logId);
      RunKeeps(env, Evaluate(env, s, log[0].cmd, log[0].logId).state, log[1..]);
    }
  }

  /** In every reachable state each readiness record is for its index's current building generation, each
      stored index record validates, and a prefix scan finds exactly the records of its generation. */
  lemma ReadinessIsNeverOrphaned(env: Env, log: seq<Committed>, k: ReadyKey, name: Bytes, generation: nat)
    requires Indexed64(log) && k in ApplyLog(env, EMPTY_META, log).ready && Encodable(name, generation)
    ensures var s := ApplyLog(env, EMPTY_META, log);
            && ReadyFor(s.search, k, s.ready[k])
            && RecordOk(k.name, s.search[k.name])
            && (k in ReadyScan(s, name, generation) <==> k.name == name && k.generation == generation)
  {
    var s := ApplyLog(env, EMPTY_META, log);
    RunKeeps(env, EMPTY_META, log);
    OneRecord(s, k, name, generation);
  }

  lemma OneRecord(s: MetaState, k: ReadyKey, name: Bytes, generation: nat)
    requires SearchInv(s) && k in s.ready && Encodable(name, generation)
    ensures ReadyFor(s.search, k, s.ready[k]) && RecordOk(k.name, s.search[k.name])
    ensures k in ReadyScan(s, name, generation) <==> k.name == name && k.generation == generation
  {
    ScanSelects(s, name, generation);
  }

  // -- Activation --------------------------------------------------------------------------------------------

  /** Voter `n` of `g` has reported this very build under the group's current voter configuration. */
  ghost predicate Reported(s: MetaState, name: Bytes, generation: nat, g: GroupId, n: NodeId)
    requires g in s.placements
  {
    var key := ReadyKey(name, generation, g, n);
    key in s.ready && s.ready[key].votersLogId == s.placements[g].votersLogId
  }

  lemma VoterReadyExactly(s: MetaState, name: Bytes, g: GroupId, n: NodeId)
    requires SearchInv(s) && name in s.search && s.search[name].building.Some? && g in s.placements
    ensures VoterReady(s, name, s.search[name].building.value, g, n)
       <==> Reported(s, name, s.search[name].building.value.id, g, n)
  {
    var building := s.search[name].building.value;
    assert RecordOk(name, s.search[name]);
    ScanSelects(s, name, building.id);
    if Reported(s, name, building.id, g, n) {
      assert ReadyFor(s.search, ReadyKey(name, building.id, g, n), s.ready[ReadyKey(name, building.id, g, n)]);
      assert ReadyKey(name, building.id, g, n) in ReadyScan(s, name, building.id);
    }
    if VoterReady(s, name, building, g, n) {
      var k :| k in ReadyScan(s, name, building.id) && s.ready[k].group == g && s.ready[k].nodeId == n
               && s.ready[k].votersLogId == s.placements[g].votersLogId;
      assert ReadyFor(s.search, k, s.ready[k]);
      assert k == ReadyKey(name, building.id, g, n);
    }
  }

  ghost predicate EveryVoterReported(s: MetaState, name: Bytes, generation: nat, p: u16) {
    forall i: u16 :: i < p ==>
      && Data(i) in s.placements && s.placements[Data(i)].move.None?
      && forall n :: n in s.placements[Data(i)].voters ==> Reported(s, name, generation, Data(i), n)
  }

  lemma AllReadyExactly(s: MetaState, name: Bytes, p: u16)
    requires SearchInv(s) && name in s.search && s.search[name].building.Some?
    ensures AllReady(s, name, s.search[name].building.value, p)
       <==> EveryVoterReported(s, name, s.search[name].building.value.id, p)
  {
    var building := s.search[name].building.value;
    forall i: u16, n | i < p && Data(i) in s.placements && n in s.placements[Data(i)].voters
      ensures VoterReady(s, name, building, Data(i), n) <==> Reported(s, name, building.id, Data(i), n)
    {
      VoterReadyExactly(s, name, Data(i), n);
    }
    if EveryVoterReported(s, name, building.id, p) {
      forall i: u16 | i < p ensures GroupReady(s, name, building, Data(i)) { }
    }
    if AllReady(s, name, building, p) {
      forall i: u16 | i < p
        ensures Data(i) in s.placements && s.placements[Data(i)].move.None?
        ensures forall n :: n in s.placements[Data(i)].voters ==> Reported(s, name, building.id, Data(i), n)
      {
        assert GroupReady(s, name, building, Data(i));
      }
    }
  }

  /** The generation in service, if it is not retiring already, finds a place among the retiring ones. */
  predicate CanRetire(r: SearchRecord) {
    r.active.Some? && r.active.value.id !in r.retiring ==> |r.retiring| < SEARCH_MAX_RETIRING_GENERATIONS
  }

  /** Moving the built generation into service keeps a valid record valid: what is dropped makes up for one more
      retiring id. */
  lemma PromotedIsValid(r: SearchRecord, next: SearchRecord)
    requires ValidSearchRecord(r) && r.building.Some? && CanRetire(r)
    requires next == r.(active := r.building, building := None, retiring := RetireGeneration(r.retiring, r.active))
    ensures ValidSearchRecord(next)
  {
  }

  lemma ActivationOutcome(s: MetaState, name: Bytes, generation: nat)
    requires name in s.search && s.search[name].building.Some? && s.search[name].building.value.id == generation
    requires s.cluster.Some? && ValidSearchRecord(s.search[name])
    ensures EvalActivate(s, name, generation).result.MetaApplied? <==>
              AllReady(s, name, s.search[name].building.value, s.cluster.value.p) && CanRetire(s.search[name])
  {
    var r := s.search[name];
    var next := r.(active := r.building, building := None, retiring := RetireGeneration(r.retiring, r.active));
    if CanRetire(r) { PromotedIsValid(r, next); }
  }

  lemma ActivationClears(s: MetaState, name: Bytes, generation: nat)
    requires SearchInv(s) && EvalActivate(s, name, generation).result.MetaApplied?
    ensures forall k :: k in EvalActivate(s, name, generation).state.ready <==> k in s.ready && k.name != name
  {
    ActivateFacts(s, name, generation);
    assert RecordOk(name, s.search[name]);
    ScanSelects(s, name, generation);
    forall k | k in s.ready && k.name == name ensures k.generation == generation {
      assert ReadyFor(s.search, k, s.ready[k]);
    }
  }

  /** A generation is activated exactly when it is the one being built, every voter of every partition has reported it
      under the current voter configuration with no move in flight, and the generation in service can retire;
      activation then clears all its readiness records. */
  lemma ActivationExactly(s: MetaState, name: Bytes, generation: nat)
    requires SearchInv(s)
    ensures EvalActivate(s, name, generation).result.MetaApplied? <==>
              && name in s.search && s.search[name].building.Some? && s.search[name].building.value.id == generation
              && s.cluster.Some? && EveryVoterReported(s, name, generation, s.cluster.value.p)
              && CanRetire(s.search[name])
    ensures EvalActivate(s, name, generation).result.MetaApplied? ==>
              forall k :: k in EvalActivate(s, name, generation).state.ready <==> k in s.ready && k.name != name
  {
    if name in s.search && s.search[name].building.Some? && s.search[name].building.value.id == generation
        && s.cluster.Some? {
      assert RecordOk(name, s.search[name]);
      ActivationOutcome(s, name, generation);
      AllReadyExactly(s, name, s.cluster.value.p);
    }
    if EvalActivate(s, name, generation).result.MetaApplied? {
      ActivationClears(s, name, generation);
    }
  }

  // -- Readiness moves forward ------------------------------------------------------------------------------------

  /** A report from a current voter about the current build, under the current voter configuration. */
  ghost predicate Timely(s: MetaState, name: Bytes, obs: SearchReady) {
    && name in s.search && s.search[name].building.Some?
    && var building := s.search[name].building.value;
    && obs.generation == building.id && obs.definitionHash == building.definitionHash
    && obs.engineRevision == building.engineRevision && obs.projectionEpoch != 0
    && s.cluster.Some? && obs.group.Data? && obs.group.partition < s.cluster.value.p && obs.group in s.placements
    && s.placements[obs.group].move.None? && s.placements[obs.group].votersLogId == obs.votersLogId
    && obs.nodeId in s.placements[obs.group].voters
  }

  function KeyOf(name: Bytes, obs: SearchReady): ReadyKey {
    ReadyKey(name, obs.generation, obs.group, obs.nodeId)
  }

  ghost predicate NoOlder(was: SearchReady, obs: SearchReady) {
    || was.projectionEpoch < obs.projectionEpoch
    || (was.projectionEpoch == obs.projectionEpoch && was.sourceLogId.index <= obs.sourceLogId.index)
  }

  // -- What one command does to the catalog -----------------------------------------------------------

  /** The index accounts for generation `g`: active, building or waiting to be dropped. */
  predicate Holds(r: SearchRecord, g: nat) {
    (r.active.Some? && r.active.value.id == g) || (r.building.Some? && r.building.value.id == g) || g in r.retiring
  }

  ghost predicate Kept(search: Catalog, name: Bytes, g: nat) {
    name in search && Holds(search[name], g)
  }

  // -- What takes effect ----------------------------------------------------------------------------

  /** The record of an index, an empty one if it has none yet. */
  function RecordOf(search: Catalog, name: Bytes): SearchRecord {
    if name in search then search[name] else SearchRecord(name, None, None, [])
  }

  /** A build starts exactly if none is under way, there is room for it, and the record it leaves validates: an index is
      created where there is none, a generation added where one is in service. */
  lemma CreateExactly(s: MetaState, name: Bytes, def: SearchDefinition, revision: nat, logId: LogId, update: bool)
    requires CatalogInv(s.search)
    ensures var was := RecordOf(s.search, name);
            var next := was.(building := Some(SearchGeneration(logId.index, def.hash, revision, def)));
            EvalCreateSearch(s, name, def, revision, logId, update).result.MetaApplied? <==>
              && s.cluster.Some? && was.building.None? && ValidSearchRecord(next)
              && (if update then was.active.Some? && |was.retiring| < SEARCH_MAX_RETIRING_GENERATIONS
                  else name !in s.search && |s.search| < SEARCH_MAX_INDEXES)
  {
    if name in s.search { assert RecordOk(name, s.search[name]); }
  }

  /** A readiness report takes effect exactly if it is timely, and news: of no older state than the one on record. */
  lemma ReportExactly(s: MetaState, name: Bytes, obs: SearchReady)
    ensures EvalReportReady(s, name, obs).result.MetaApplied? <==>
              && Timely(s, name, obs)
              && (KeyOf(name, obs) in s.ready ==>
                    s.ready[KeyOf(name, obs)] != obs && NoOlder(s.ready[KeyOf(name, obs)], obs))
    ensures EvalReportReady(s, name, obs).result.MetaApplied? ==>
              EvalReportReady(s, name, obs).state.ready == s.ready[KeyOf(name, obs) := obs]
  {
  }

  /** The generation's id, unless it is retiring already. */
  function Outgoing(r: SearchRecord, g: Option<SearchGeneration>): seq<nat> {
    if g.Some? && g.value.id !in r.retiring then [g.value.id] else []
  }

  /** How many generations are retiring once the index is dropped. */
  function DroppedCount(r: SearchRecord): nat {
    |r.retiring + Outgoing(r, r.active) + Outgoing(r, r.building)|
  }

  function Dropped(r: SearchRecord): SearchRecord {
    var retiring := RetireGeneration(RetireGeneration(r.retiring, r.active), r.building);
    r.(active := None, building := None, retiring := retiring)
  }

  lemma DroppedIsValid(r: SearchRecord)
    requires ValidSearchRecord(r) && DroppedCount(r) <= SEARCH_MAX_RETIRING_GENERATIONS
    ensures ValidSearchRecord(Dropped(r))
  {
  }

  /** An index is dropped exactly if it has anything to drop and its generations fit among the retiring ones. */
  lemma DropExactly(s: MetaState, name: Bytes)
    requires CatalogInv(s.search)
    ensures EvalDropSearch(s, name).result.MetaApplied? <==>
              && name in s.search && (s.search[name].active.Some? || s.search[name].building.Some?)
              && DroppedCount(s.search[name]) <= SEARCH_MAX_RETIRING_GENERATIONS
    ensures EvalDropSearch(s, name).result.MetaApplied? ==>
              EvalDropSearch(s, name).state.search == s.search[name := Dropped(s.search[name])]
  {
    if name in s.search {
      assert RecordOk(name, s.search[name]);
      if DroppedCount(s.search[name]) <= SEARCH_MAX_RETIRING_GENERATIONS { DroppedIsValid(s.search[name]); }
    }
  }

  lemma {:induction false} WithoutExactly(ids: seq<nat>, id: nat)
    ensures forall x :: x in Without(ids, id) <==> x in ids && x != id
    ensures |Without(ids, id)| == |ids| <==> id !in ids
  {
    if ids != [] {
      WithoutExactly(ids[1..], id);
      assert ids == [ids[0]] + ids[1..];
    }
  }

  /** A drop is finalized exactly for a generation that is retiring; the index goes with the last of them. */
  lemma FinalizeExactly(s: MetaState, name: Bytes, generation: nat)
    ensures EvalFinalizeDrop(s, name, generation).result.MetaApplied? <==>
              name in s.search && generation in s.search[name].retiring
    ensures EvalFinalizeDrop(s, name, generation).result.MetaApplied? ==>
              var r, t := s.search[name], EvalFinalizeDrop(s, name, generation).state;
              && (name !in t.search <==>
                    r.active.None? && r.building.None? && forall x :: x in r.retiring ==> x == generation)
              && (name in t.search ==> t.search[name] == r.(retiring := Without(r.retiring, generation)))
  {
    if name in s.search {
      var r := s.search[name];
      WithoutExactly(r.retiring, generation);
      if Without(r.retiring, generation) != [] {
        assert Without(r.retiring, generation)[0] in Without(r.retiring, generation);
      }
    }
  }

  predicate Creates(cmd: MetaCommand, name: Bytes) {
    (cmd.CreateSearchIndex? || cmd.CreateSearchGeneration?) && cmd.name == name
  }

  /** A build starts where nothing was building, under the index of its own log entry. */
  ghost predicate Started(s: MetaState, t: MetaState, cmd: MetaCommand, logId: LogId) {
    && (cmd.CreateSearchIndex? || cmd.CreateSearchGeneration?) && t.ready == s.ready
    && cmd.name in t.search && t.search == s.search[cmd.name := t.search[cmd.name]]
    && var was := if cmd.name in s.search then s.search[cmd.name] else SearchRecord(cmd.name, None, None, []);
    && was.building.None? && t.search[cmd.name].building.Some? && t.search[cmd.name].building.value.id == logId.index
    && t.search[cmd.name] == was.(building := t.search[cmd.name].building)
  }

  /** A build ends, by activation or drop: its readiness goes, every generation stays accounted for. */
  ghost predicate Ended(s: MetaState, t: MetaState, cmd: MetaCommand) {
    && (cmd.ActivateSearchGeneration? || cmd.DropSearchIndex?)
    && cmd.name in s.search && cmd.name in t.search && t.search == s.search[cmd.name := t.search[cmd.name]]
    && t.search[cmd.name].building.None?
    && (forall g :: Holds(t.search[cmd.name], g) <==> Holds(s.search[cmd.name], g))
    && t.ready == map k | k in s.ready && k.name != cmd.name :: s.ready[k]
  }

  /** One retiring generation is forgotten, and with the last of them perhaps the index. */
  ghost predicate Finalized(s: MetaState, t: MetaState, cmd: MetaCommand) {
    && cmd.FinalizeSearchDrop? && t.ready == s.ready && cmd.name in s.search
    && var r := s.search[cmd.name].(retiring := Without(s.search[cmd.name].retiring, cmd.generation));
    && (|| t.search == s.search[cmd.name := r]
        || (t.search == s.search - {cmd.name} && r.active.None? && r.building.None? && r.retiring == []))
  }

  /** A timely report replaces one that is no newer. */
  ghost predicate Recorded(s: MetaState, t: MetaState, cmd: MetaCommand) {
    && cmd.ReportSearchReady? && t.search == s.search && Timely(s, cmd.name, cmd.ready)
    && var key := KeyOf(cmd.name, cmd.ready);
    && t.ready == s.ready[key := cmd.ready] && (key in s.ready ==> NoOlder(s.ready[key], cmd.ready))
  }

  ghost predicate Moves(s: MetaState, t: MetaState, cmd: MetaCommand, logId: LogId) {
    || (t.search == s.search && t.ready == s.ready)
    || Started(s, t, cmd, logId) || Ended(s, t, cmd) || Finalized(s, t, cmd) || Recorded(s, t, cmd)
  }

  lemma CreateMoves(s: MetaState, cmd: MetaCommand, update: bool, logId: LogId)
    requires SearchInv(s) && (cmd.CreateSearchIndex? || cmd.CreateSearchGeneration?)
    ensures Moves(s, EvalCreateSearch(s, cmd.name, cmd.definition, cmd.engineRevision, logId, update).state, cmd, logId)
  {
    var o := EvalCreateSearch(s, cmd.name, cmd.definition, cmd.engineRevision, logId, update);
    if o.result.MetaApplied? {
      if cmd.name in s.search { assert RecordOk(cmd.name, s.search[cmd.name]); }
      CreateFacts(s, cmd.name, cmd.definition, cmd.engineRevision, logId, update);
      assert Started(s, o.state, cmd, logId);
    }
  }

  /** Deleting a build's scan deletes exactly that index's readiness. */
  lemma ScanIsTheIndex(s: MetaState, name: Bytes)
    requires SearchInv(s) && name in s.search
    ensures s.ready - BuildScan(s, name) == map k | k in s.ready && k.name != name :: s.ready[k]
  {
    assert RecordOk(name, s.search[name]);
    if s.search[name].building.Some? { ScanSelects(s, name, s.search[name].building.value.id); }
    forall k | k in s.ready && k.name == name ensures s.search[name].building == Some(s.search[name].building.value) {
      assert ReadyFor(s.search, k, s.ready[k]);
    }
  }

  lemma ActivateHolds(s: MetaState, name: Bytes, generation: nat, g: nat)
    requires EvalActivate(s, name, generation).result.MetaApplied?
    ensures name in s.search
    ensures var t := EvalActivate(s, name, generation).state;
            name in t.search && (Holds(t.search[name], g) <==> Holds(s.search[name], g))
  {
  }

  lemma ActivateMoves(s: MetaState, cmd: MetaCommand, logId: LogId)
    requires SearchInv(s) && cmd.ActivateSearchGeneration?
    ensures Moves(s, EvalActivate(s, cmd.name, cmd.generation).state, cmd, logId)
  {
    var o := EvalActivate(s, cmd.name, cmd.generation);
    if o.result.MetaApplied? {
      ActivateFacts(s, cmd.name, cmd.generation);
      ScanIsTheIndex(s, cmd.name);
      forall g: nat ensures Holds(o.state.search[cmd.name], g) <==> Holds(s.search[cmd.name], g) {
        ActivateHolds(s, cmd.name, cmd.generation, g);
      }
      assert Ended(s, o.state, cmd);
    }
  }

  lemma DropHolds(s: MetaState, name: Bytes, g: nat)
    requires EvalDropSearch(s, name).result.MetaApplied?
    ensures name in s.search
    ensures var t := EvalDropSearch(s, name).state;
            name in t.search && (Holds(t.search[name], g) <==> Holds(s.search[name], g))
  {
  }

  lemma DropMoves(s: MetaState, cmd: MetaCommand, logId: LogId)
    requires SearchInv(s) && cmd.DropSearchIndex?
    ensures Moves(s, EvalDropSearch(s, cmd.name).state, cmd, logId)
  {
    var o := EvalDropSearch(s, cmd.name);
    if o.result.MetaApplied? {
      DropFacts(s, cmd.name);
      ScanIsTheIndex(s, cmd.name);
      forall g: nat ensures Holds(o.state.search[cmd.name], g) <==> Holds(s.search[cmd.name], g) {
        DropHolds(s, cmd.name, g);
      }
      assert Ended(s, o.state, cmd);
    }
  }

  lemma FinalizeMoves(s: MetaState, cmd: MetaCommand, logId: LogId)
    requires cmd.FinalizeSearchDrop?
    ensures Moves(s, EvalFinalizeDrop(s, cmd.name, cmd.generation).state, cmd, logId)
  {
    var o := EvalFinalizeDrop(s, cmd.name, cmd.generation);
    if o.result.MetaApplied? { assert Finalized(s, o.state, cmd); }
  }

  lemma ReportFacts(s: MetaState, cmd: MetaCommand)
    requires cmd.ReportSearchReady? && EvalReportReady(s, cmd.name, cmd.ready).result.MetaApplied?
    ensures Recorded(s, EvalReportReady(s, cmd.name, cmd.ready).state, cmd)
  {
  }

  lemma ReportMoves(s: MetaState, cmd: MetaCommand, logId: LogId)
    requires cmd.ReportSearchReady?
    ensures Moves(s, EvalReportReady(s, cmd.name, cmd.ready).state, cmd, logId)
  {
    var o := EvalReportReady(s, cmd.name, cmd.ready);
    if o.result.MetaApplied? { ReportFacts(s, cmd); }
  }

  lemma SearchCommandMoves(env: Env, s: MetaState, cmd: MetaCommand, logId: LogId)
    requires SearchInv(s) && TouchesSearch(cmd) && !MaintenanceIsActive(s)
    ensures Moves(s, Evaluate(env, s, cmd, logId).state, cmd, logId)
  {
    match cmd
    case CreateSearchIndex(_, _, _) => CreateMoves(s, cmd, false, logId);
    case CreateSearchGeneration(_, _, _) => CreateMoves(s, cmd, true, logId);
    case ReportSearchReady(_, _) => ReportMoves(s, cmd, logId);
    case ActivateSearchGeneration(_, _) => ActivateMoves(s, cmd, logId);
    case DropSearchIndex(_) => DropMoves(s, cmd, logId);
    case FinalizeSearchDrop(_, _) => FinalizeMoves(s, cmd, logId);
  }

  /** Whatever is committed, the catalog and the readiness table change in one of four ways. */
  lemma CommandMoves(env: Env, s: MetaState, cmd: MetaCommand, logId: LogId)
    requires SearchInv(s)
    ensures Moves(s, Evaluate(env, s, cmd, logId).state, cmd, logId)
  {
    if !TouchesSearch(cmd) {
      SearchFramed(env, s, cmd, logId);
    } else if MaintenanceIsActive(s) {
      GateHolds(env, s, cmd, logId);
    } else {
      SearchCommandMoves(env, s, cmd, logId);
    }
  }

  // -- Generations are never lost -----------------------------------------------------------------------

  lemma {:induction false} WithoutMember(ids: seq<nat>, id: nat, x: nat)
    ensures x in Without(ids, id) <==> x in ids && x != id
  {
    if ids != [] {
      assert ids == [ids[0]] + ids[1..];
      WithoutMember(ids[1..], id, x);
    }
  }

  predicate FinalizesDrop(cmd: MetaCommand, name: Bytes, g: nat) {
    cmd.FinalizeSearchDrop? && cmd.name == name && cmd.generation == g
  }

  lemma StartConserves(s: MetaState, t: MetaState, cmd: MetaCommand, logId: LogId, name: Bytes, g: nat)
    requires Started(s, t, cmd, logId)
    ensures Kept(s.search, name, g) ==> Kept(t.search, name, g)
    ensures Kept(t.search, name, g) ==> Kept(s.search, name, g) || (Creates(cmd, name) && g == logId.index)
  {
  }

  lemma FinalizeConserves(s: MetaState, t: MetaState, cmd: MetaCommand, name: Bytes, g: nat)
    requires Finalized(s, t, cmd)
    ensures Kept(s.search, name, g) && !FinalizesDrop(cmd, name, g) ==> Kept(t.search, name, g)
    ensures Kept(t.search, name, g) ==> Kept(s.search, name, g)
  {
    WithoutMember(s.search[cmd.name].retiring, cmd.generation, g);
  }

  lemma EndConserves(s: MetaState, t: MetaState, cmd: MetaCommand, name: Bytes, g: nat)
    requires Ended(s, t, cmd)
    ensures Kept(t.search, name, g) <==> Kept(s.search, name, g)
  {
    assert Holds(t.search[cmd.name], g) <==> Holds(s.search[cmd.name], g);
  }

  lemma MovesConserve(s: MetaState, t: MetaState, cmd: MetaCommand, logId: LogId, name: Bytes, g: nat)
    requires Moves(s, t, cmd, logId)
    ensures Kept(s.search, name, g) && !FinalizesDrop(cmd, name, g) ==> Kept(t.search, name, g)
    ensures Kept(t.search, name, g) ==> Kept(s.search, name, g) || (Creates(cmd, name) && g == logId.index)
  {
    if Started(s, t, cmd, logId) {
      StartConserves(s, t, cmd, logId, name, g);
    } else if Finalized(s, t, cmd) {
      FinalizeConserves(s, t, cmd, name, g);
    } else if Ended(s, t, cmd) {
      EndConserves(s, t, cmd, name, g);
    }
  }

  /** Whatever is committed, a generation an index holds stays accounted for until its own drop is finalized, and one
      it newly holds was created for it by this command. */
  lemma GenerationsAreConserved(env: Env, s: MetaState, cmd: MetaCommand, logId: LogId, name: Bytes, g: nat)
    requires SearchInv(s)
    ensures var t := Evaluate(env, s, cmd, logId).state;
            && (Kept(s.search, name, g) && !FinalizesDrop(cmd, name, g) ==> Kept(t.search, name, g))
            && (Kept(t.search, name, g) ==> Kept(s.search, name, g) || (Creates(cmd, name) && g == logId.index))
  {
    CommandMoves(env, s, cmd, logId);
    MovesConserve(s, Evaluate(env, s, cmd, logId).state, cmd, logId, name, g);
  }
}
