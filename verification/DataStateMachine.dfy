/** The data-group state machine (src/partition/state_machine.rs): sequence gate,
    compare-and-set, stored results, and the in-memory overlay a chunk is decided against. */
module DataStateMachine {
  import opened Types

  /** The 128-bit command digest, taken to be injective: it is represented by the operation itself. */
  datatype Digest = Digest(op: DataOp)

  datatype KeyRecord = KeyRecord(version: Version, value: Bytes)

  datatype SeqRecord = SeqRecord(highest: Sequence, digest: Digest, result: MutationResult)

  /** A state column-family key; `Keyspace.StateKeyBytes` gives its byte form. */
  datatype StateKey = UserKey(key: Bytes) | SeqKey(client: ClientId) | EpochKey

  datatype StateValue = KeyValue(record: KeyRecord) | SeqValue(stream: SeqRecord) | EpochValue(epoch: nat)

  type StateMap = map<StateKey, StateValue>

  datatype Mutation = PutState(key: StateKey, value: StateValue) | DeleteState(key: StateKey)

  datatype RejectReason =
    | RecoveryEpochMismatch(expected: nat, got: nat)
    | SequenceGap(expectedSequence: Sequence, gotSequence: Sequence)
    | StaleSequence(highest: Sequence, staleSequence: Sequence)
    | SequenceMismatch
    | Malformed
    | SequenceExhausted

  datatype ApplyResult =
    | Decided(decided: MutationResult)
    | Replayed(replayed: MutationResult)
    | Rejected(reason: RejectReason)
    | NoOp

  /** The read seam: the committed column family, or staged writes layered over it. */
  datatype Reader =
    | Committed(state: StateMap)
    | Overlaid(base: StateMap, pending: map<StateKey, Option<StateValue>>)
  {
    function Read(k: StateKey): Option<StateValue> {
      match this
      case Committed(state) => if k in state then Some(state[k]) else None
      case Overlaid(base, pending) =>
        if k in pending then pending[k]
        else if k in base then Some(base[k]) else None
    }
  }

  function KeyRecordAt(reader: Reader, key: Bytes): Option<KeyRecord> {
    match reader.Read(UserKey(key))
    case Some(KeyValue(r)) => Some(r)
    case _ => None
  }

  function SeqRecordAt(reader: Reader, client: ClientId): Option<SeqRecord> {
    match reader.Read(SeqKey(client))
    case Some(SeqValue(r)) => Some(r)
    case _ => None
  }

  function EpochAt(reader: Reader): nat {
    match reader.Read(EpochKey)
    case Some(EpochValue(e)) => e
    case _ => 0
  }

  /** Commands the API layer should have refused. */
  predicate IsMalformed(op: DataOp) {
    || (op.Put? && |op.value| > MAX_VALUE_BYTES)
    || (op.Delete? && op.ifVersion == Some(Absent))
  }

  predicate ConditionHolds(cond: Option<IfVersion>, current: Option<KeyRecord>) {
    match cond
    case None => true
    case Some(Number(v)) => current.Some? && current.value.version == v
    case Some(Absent) => current.None?
  }

  /** Decide a compare-and-set and the key mutation it implies. */
  function Decide(reader: Reader, op: DataOp, index: nat): (MutationResult, Option<Mutation>) {
    var current := KeyRecordAt(reader, op.key);
    var presence := if current.Some? then KeyPresent(current.value.version) else KeyAbsent;
    match op
    case Put(key, value, cond) =>
      if !ConditionHolds(cond, current) then (ConditionFailed(presence), None)
      else (Applied(index), Some(PutState(UserKey(key), KeyValue(KeyRecord(index, value)))))
    case Delete(key, cond) =>
      if cond == Some(Absent) || !ConditionHolds(cond, current) then (ConditionFailed(presence), None)
      else (Applied(index), if current.Some? then Some(DeleteState(UserKey(key))) else None)
  }

  /** Decide one committed entry: its result and the mutations to write, writing nothing. */
  function Evaluate(reader: Reader, req: DataRequest, index: nat): (ApplyResult, seq<Mutation>) {
    var epoch := EpochAt(reader);
    if req.recoveryEpoch != epoch then (Rejected(RecoveryEpochMismatch(epoch, req.recoveryEpoch)), [])
    else if IsMalformed(req.op) then (Rejected(Malformed), [])
    else
      var stream := SeqRecordAt(reader, req.clientId);
      var highest: Sequence := if stream.Some? then stream.value.highest else 0;
      if req.sequence == highest then
        match stream
        case Some(s) =>
          if s.digest == Digest(req.op) then (Replayed(s.result), []) else (Rejected(SequenceMismatch), [])
        case None => (Rejected(StaleSequence(highest, req.sequence)), [])
      else if req.sequence < highest then (Rejected(StaleSequence(highest, req.sequence)), [])
      else if highest == U64_MAX then (Rejected(SequenceExhausted), [])
      else if req.sequence > highest + 1 then (Rejected(SequenceGap(highest + 1, req.sequence)), [])
      else
        var (result, keyMutation) := Decide(reader, req.op, index);
        var record := PutState(SeqKey(req.clientId), SeqValue(SeqRecord(req.sequence, Digest(req.op), result)));
        (Decided(result), (if keyMutation.Some? then [keyMutation.value] else []) + [record])
  }

  /** Two readers that return the same record for every key decide every command alike. */
  lemma EvaluateDependsOnReads(a: Reader, b: Reader, req: DataRequest, index: nat)
    requires forall k :: a.Read(k) == b.Read(k)
    ensures Evaluate(a, req, index) == Evaluate(b, req, index)
  {
    assert a.Read(EpochKey) == b.Read(EpochKey);
    assert a.Read(SeqKey(req.clientId)) == b.Read(SeqKey(req.clientId));
    assert a.Read(UserKey(req.op.key)) == b.Read(UserKey(req.op.key));
  }

  // -- Writing mutations -------------------------------------------------------

  function ApplyOne(state: StateMap, m: Mutation): StateMap {
    match m
    case PutState(k, v) => state[k := v]
    case DeleteState(k) => state - {k}
  }

  function ApplyMutations(state: StateMap, muts: seq<Mutation>): StateMap
    decreases |muts|
  {
    if muts == [] then state else ApplyMutations(ApplyOne(state, muts[0]), muts[1..])
  }

  lemma ApplySingle(state: StateMap, a: Mutation)
    ensures ApplyMutations(state, [a]) == ApplyOne(state, a)
  {
    assert [a][1..] == [];
  }

  lemma ApplyPair(state: StateMap, a: Mutation, b: Mutation)
    ensures ApplyMutations(state, [a, b]) == ApplyOne(ApplyOne(state, a), b)
  {
    assert [a, b][1..] == [b];
    ApplySingle(ApplyOne(state, a), b);
  }

  // -- Overlay -----------------------------------------------------------------

  type Pending = map<StateKey, Option<StateValue>>

  function StageOne(pending: Pending, m: Mutation): Pending {
    match m
    case PutState(k, v) => pending[k := Some(v)]
    case DeleteState(k) => pending[k := None]
  }

  function StageAll(pending: Pending, muts: seq<Mutation>): Pending
    decreases |muts|
  {
    if muts == [] then pending else StageAll(StageOne(pending, muts[0]), muts[1..])
  }

  /** What the column family holds once the staged writes are visible. */
  function Layer(base: StateMap, pending: Pending): StateMap {
    map k | k in base.Keys + pending.Keys && (k in pending ==> pending[k].Some?) ::
      if k in pending then pending[k].value else base[k]
  }

  lemma OverlayReadsItsLayer(base: StateMap, pending: Pending, k: StateKey)
    ensures Overlaid(base, pending).Read(k) == Committed(Layer(base, pending)).Read(k)
  {
  }

  /** Staging is the same as writing: the layer follows every staged mutation. */
  lemma {:induction false} StageTracksWrites(base: StateMap, pending: Pending, muts: seq<Mutation>)
    ensures Layer(base, StageAll(pending, muts)) == ApplyMutations(Layer(base, pending), muts)
    decreases |muts|
  {
    if muts == [] {
    } else {
      var next := StageOne(pending, muts[0]);
      assert Layer(base, next) == ApplyOne(Layer(base, pending), muts[0]);
      StageTracksWrites(base, next, muts[1..]);
    }
  }

  /** `muts` holds exactly one mutation per staged key, in any order. */
  ghost predicate Drains(muts: seq<Mutation>, pending: Pending) {
    && (forall i :: 0 <= i < |muts| ==> muts[i].key in pending && muts[i] == Collapsed(muts[i].key, pending))
    && (forall i, j :: 0 <= i < j < |muts| ==> muts[i].key != muts[j].key)
    && (forall k :: k in pending ==> exists i :: 0 <= i < |muts| && muts[i].key == k)
  }

  function Collapsed(k: StateKey, pending: Pending): Mutation
    requires k in pending
  {
    if pending[k].Some? then PutState(k, pending[k].value) else DeleteState(k)
  }

  lemma DrainTail(muts: seq<Mutation>, pending: Pending)
    requires Drains(muts, pending) && muts != []
    ensures Drains(muts[1..], pending - {muts[0].key})
  {
    var tail, rest := muts[1..], pending - {muts[0].key};
    forall i | 0 <= i < |tail| ensures tail[i].key in rest && tail[i] == Collapsed(tail[i].key, rest) {
      assert tail[i] == muts[i + 1];
    }
    forall q | q in rest ensures exists i :: 0 <= i < |tail| && tail[i].key == q {
      var i :| 0 <= i < |muts| && muts[i].key == q;
      assert tail[i - 1].key == q;
    }
  }

  lemma LayerPeel(base: StateMap, pending: Pending, k: StateKey)
    requires k in pending
    ensures Layer(ApplyOne(base, Collapsed(k, pending)), pending - {k}) == Layer(base, pending)
  {
  }

  /** Whatever order the hash map is iterated in, the collapsed batch writes the layer. */
  lemma {:induction false} DrainWritesLayer(base: StateMap, muts: seq<Mutation>, pending: Pending)
    requires Drains(muts, pending)
    ensures ApplyMutations(base, muts) == Layer(base, pending)
    decreases |muts|
  {
    if muts == [] {
      assert pending == map[];
    } else {
      DrainTail(muts, pending);
      DrainWritesLayer(ApplyOne(base, muts[0]), muts[1..], pending - {muts[0].key});
      LayerPeel(base, pending, muts[0].key);
    }
  }

  /** Writes of earlier entries in the chunk, not yet durable. */
  class StateOverlay {
    var pending: Pending

    constructor ()
      ensures pending == map[]
    {
      pending := map[];
    }

    /** Fold an entry's mutations in; the last write to a key wins. */
    method Stage(muts: seq<Mutation>)
      modifies this
      ensures pending == StageAll(old(pending), muts)
    {
      var i := 0;
      while i < |muts|
        invariant 0 <= i <= |muts|
        invariant StageAll(pending, muts[i..]) == StageAll(old(pending), muts)
      {
        match muts[i] {
          case PutState(k, v) => pending := pending[k := Some(v)];
          case DeleteState(k) => pending := pending[k := None];
        }
        i := i + 1;
      }
    }

    /** Collapse the chunk into one mutation per touched key. */
    method IntoMutations() returns (muts: seq<Mutation>)
      ensures Drains(muts, pending)
    {
      muts := [];
      var todo := pending.Keys;
      while todo != {}
        invariant todo <= pending.Keys
        invariant forall i :: 0 <= i < |muts| ==>
                  muts[i].key in pending && muts[i].key !in todo && muts[i] == Collapsed(muts[i].key, pending)
        invariant forall i, j :: 0 <= i < j < |muts| ==> muts[i].key != muts[j].key
        invariant forall k :: k in pending && k !in todo ==> exists i :: 0 <= i < |muts| && muts[i].key == k
        decreases todo
      {
        var k :| k in todo;
        ghost var before := muts;
        muts := muts + [Collapsed(k, pending)];
        todo := todo - {k};
        forall q | q in pending && q !in todo ensures exists i :: 0 <= i < |muts| && muts[i].key == q {
          if q == k {
            assert muts[|muts| - 1].key == q;
          } else {
            var i :| 0 <= i < |before| && before[i].key == q;
            assert muts[i].key == q;
          }
        }
      }
    }
  }
}
