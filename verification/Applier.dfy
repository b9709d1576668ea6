/** The Raft applier of a data group (src/partition/sm.rs): the per-entry path, and the
    coalesced path that decides bounded chunks against an overlay and writes each chunk once. */
module Applier {
  import opened Types
  import opened DataStateMachine

  datatype Payload = Blank | Normal(request: DataRequest) | Membership(config: seq<set<NodeId>>)

  datatype Entry = Entry(logId: LogId, payload: Payload)

  datatype StoredMembership = StoredMembership(logId: Option<LogId>, config: seq<set<NodeId>>)

  /** What one atomic, durable `apply_raft` batch covers. */
  datatype Store = Store(state: StateMap, lastApplied: Option<LogId>, membership: StoredMembership)

  datatype Outcome = Outcome(results: seq<ApplyResult>, store: Store)

  const APPLY_CHUNK_INPUT_BYTES: nat := 64 * 1024 * 1024 / 2
  const APPLY_CHUNK_ENTRIES: nat := 4096 / 2

  function SaturatingAdd(a: nat, b: nat): nat {
    if a + b > U64_MAX then U64_MAX else a + b
  }

  function WriteBatch(store: Store, muts: seq<Mutation>, logId: LogId, membership: StoredMembership): Store {
    Store(ApplyMutations(store.state, muts), Some(logId), membership)
  }

  function NextMembership(membership: StoredMembership, e: Entry): StoredMembership {
    if e.payload.Membership? then StoredMembership(Some(e.logId), e.payload.config) else membership
  }

  function Decision(reader: Reader, e: Entry): (ApplyResult, seq<Mutation>) {
    if e.payload.Normal? then Evaluate(reader, e.payload.request, e.logId.index) else (NoOp, [])
  }

  // -- The simple path: one entry, one batch -------------------------------------

  function StepEntry(store: Store, e: Entry): (ApplyResult, Store) {
    var (result, muts) := Decision(Committed(store.state), e);
    (result, WriteBatch(store, muts, e.logId, NextMembership(store.membership, e)))
  }

  function PerEntry(store: Store, entries: seq<Entry>): Outcome
    decreases |entries|
  {
    if entries == [] then Outcome([], store)
    else
      var (result, next) := StepEntry(store, entries[0]);
      var rest := PerEntry(next, entries[1..]);
      Outcome([result] + rest.results, rest.store)
  }

  /** Redelivering what a crash left unapplied reaches the state, and yields the results, of one uninterrupted run. */
  lemma {:induction false} PerEntryConcat(store: Store, a: seq<Entry>, b: seq<Entry>)
    ensures var first := PerEntry(store, a);
            var second := PerEntry(first.store, b);
            PerEntry(store, a + b) == Outcome(first.results + second.results, second.store)
    decreases |a|
  {
    if a == [] {
      assert a + b == b;
    } else {
      var (result, next) := StepEntry(store, a[0]);
      PerEntryConcat(next, a[1..], b);
      assert (a + b)[1..] == a[1..] + b;
    }
  }

  lemma {:induction false} PerEntryLength(store: Store, entries: seq<Entry>)
    ensures |PerEntry(store, entries).results| == |entries|
    decreases |entries|
  {
    if entries != [] {
      PerEntryLength(StepEntry(store, entries[0]).1, entries[1..]);
    }
  }

  lemma PerEntrySnoc(store: Store, entries: seq<Entry>, e: Entry)
    ensures var before := PerEntry(store, entries);
            var (result, next) := StepEntry(before.store, e);
            PerEntry(store, entries + [e]) == Outcome(before.results + [result], next)
  {
    PerEntryConcat(store, entries, [e]);
    var before := PerEntry(store, entries);
    assert PerEntry(before.store, [e]) == Outcome([StepEntry(before.store, e).0], StepEntry(before.store, e).1) by {
      assert [e][1..] == [];
    }
  }

  /** The last membership change among the entries, if there is one. */
  function LastChange(entries: seq<Entry>): (w: Option<nat>)
    ensures w.Some? ==> w.value < |entries| && entries[w.value].payload.Membership?
    ensures forall k :: (if w.Some? then w.value < k < |entries| else 0 <= k < |entries|) ==>
              !entries[k].payload.Membership?
  {
    if entries == [] then None
    else if entries[|entries| - 1].payload.Membership? then Some(|entries| - 1)
    else LastChange(entries[..|entries| - 1])
  }

  /** What is recorded beside the state: the log id of the last entry, and the last membership with its log id. */
  lemma {:induction false} MarksAreTheLogs(store: Store, entries: seq<Entry>)
    ensures var end := PerEntry(store, entries).store;
            && end.lastApplied == (if entries == [] then store.lastApplied else Some(entries[|entries| - 1].logId))
            && end.membership == match LastChange(entries)
                                 case None => store.membership
                                 case Some(w) => StoredMembership(Some(entries[w].logId), entries[w].payload.config)
  {
    if entries != [] {
      var init, last := entries[..|entries| - 1], entries[|entries| - 1];
      MarksAreTheLogs(store, init);
      assert entries == init + [last];
      PerEntrySnoc(store, init, last);
    }
  }

  // -- The coalesced path ---------------------------------------------------------

  /** Progress inside a chunk: results so far, staged writes, membership to record. */
  datatype ChunkState = ChunkState(results: seq<ApplyResult>, pending: Pending, membership: StoredMembership)

  /** The chunk after one more entry. */
  function ChunkNext(base: StateMap, c: ChunkState, e: Entry): ChunkState {
    var (result, muts) := Decision(Overlaid(base, c.pending), e);
    ChunkState(c.results + [result], StageAll(c.pending, muts), NextMembership(c.membership, e))
  }

  function ChunkFold(base: StateMap, c: ChunkState, entries: seq<Entry>): ChunkState
    decreases |entries|
  {
    if entries == [] then c else ChunkFold(base, ChunkNext(base, c, entries[0]), entries[1..])
  }

  /** One chunk: decide everything against the overlay, write once, record the last log id. */
  function ChunkStep(store: Store, chunk: seq<Entry>): Outcome {
    if chunk == [] then Outcome([], store)
    else
      var end := ChunkFold(store.state, ChunkState([], map[], store.membership), chunk);
      Outcome(end.results, Store(Layer(store.state, end.pending), Some(chunk[|chunk| - 1].logId), end.membership))
  }

  function RunChunks(store: Store, chunks: seq<seq<Entry>>): Outcome
    decreases |chunks|
  {
    if chunks == [] then Outcome([], store)
    else
      var first := ChunkStep(store, chunks[0]);
      var rest := RunChunks(first.store, chunks[1..]);
      Outcome(first.results + rest.results, rest.store)
  }

  function Flatten(chunks: seq<seq<Entry>>): seq<Entry>
    decreases |chunks|
  {
    if chunks == [] then [] else chunks[0] + Flatten(chunks[1..])
  }

  /** The store an overlay stands for part-way through a chunk. */
  function Materialized(base: StateMap, c: ChunkState, last: Option<LogId>): Store {
    Store(Layer(base, c.pending), last, c.membership)
  }

  /** Deciding one entry against the overlay is deciding it against the store the overlay stands for. */
  lemma ChunkNextIsStep(base: StateMap, c: ChunkState, last: Option<LogId>, e: Entry)
    ensures StepEntry(Materialized(base, c, last), e)
         == (Decision(Overlaid(base, c.pending), e).0, Materialized(base, ChunkNext(base, c, e), Some(e.logId)))
  {
    var here := Materialized(base, c, last);
    forall k ensures Overlaid(base, c.pending).Read(k) == Committed(here.state).Read(k) {
      OverlayReadsItsLayer(base, c.pending, k);
    }
    if e.payload.Normal? {
      EvaluateDependsOnReads(Overlaid(base, c.pending), Committed(here.state), e.payload.request, e.logId.index);
    }
    StageTracksWrites(base, c.pending, Decision(Overlaid(base, c.pending), e).1);
  }

  /** And so entry after entry. */
  lemma {:induction false} ChunkFoldIsPerEntry(base: StateMap, c: ChunkState, last: Option<LogId>, entries: seq<Entry>)
    ensures var end := ChunkFold(base, c, entries);
            var simple := PerEntry(Materialized(base, c, last), entries);
            && end.results == c.results + simple.results
            && simple.store == Materialized(base, end, if entries == [] then last
                                            else Some(entries[|entries| - 1].logId))
    decreases |entries|
  {
    if entries == [] {
    } else {
      ChunkNextIsStep(base, c, last, entries[0]);
      ChunkFoldIsPerEntry(base, ChunkNext(base, c, entries[0]), Some(entries[0].logId), entries[1..]);
    }
  }

  lemma ChunkStepIsPerEntry(store: Store, chunk: seq<Entry>)
    ensures ChunkStep(store, chunk) == PerEntry(store, chunk)
  {
    var start := ChunkState([], map[], store.membership);
    assert Layer(store.state, map[]) == store.state;
    ChunkFoldIsPerEntry(store.state, start, store.lastApplied, chunk);
  }

  /** Every chunking of every entry list has the results and the final store of the per-entry path. */
  lemma {:induction false} CoalescingRefinesPerEntry(store: Store, chunks: seq<seq<Entry>>)
    ensures RunChunks(store, chunks) == PerEntry(store, Flatten(chunks))
    decreases |chunks|
  {
    if chunks == [] {
    } else {
      ChunkStepIsPerEntry(store, chunks[0]);
      CoalescingRefinesPerEntry(ChunkStep(store, chunks[0]).store, chunks[1..]);
      PerEntryConcat(store, chunks[0], Flatten(chunks[1..]));
    }
  }

  lemma {:induction false} FlattenConcat(a: seq<seq<Entry>>, b: seq<seq<Entry>>)
    ensures Flatten(a + b) == Flatten(a) + Flatten(b)
    decreases |a|
  {
    if a == [] {
      assert a + b == b;
    } else {
      FlattenConcat(a[1..], b);
      assert (a + b)[1..] == a[1..] + b;
    }
  }

  /** A crash after any chunk leaves the per-entry store of a prefix; redelivering the remaining
      entries under any other chunking ends in the store, and completes the results, of the whole list. */
  lemma CrashAndRedeliver(store: Store, chunks: seq<seq<Entry>>, k: nat, redelivered: seq<seq<Entry>>)
    requires k <= |chunks|
    requires Flatten(redelivered) == Flatten(chunks[k..])
    ensures var crashed := RunChunks(store, chunks[..k]);
            var resumed := RunChunks(crashed.store, redelivered);
            && crashed == PerEntry(store, Flatten(chunks[..k]))
            && Flatten(chunks[..k]) <= Flatten(chunks)
            && Outcome(crashed.results + resumed.results, resumed.store) == PerEntry(store, Flatten(chunks))
  {
    CoalescingRefinesPerEntry(store, chunks[..k]);
    var crashed := RunChunks(store, chunks[..k]);
    CoalescingRefinesPerEntry(crashed.store, redelivered);
    FlattenConcat(chunks[..k], chunks[k..]);
    assert chunks[..k] + chunks[k..] == chunks;
    PerEntryConcat(store, Flatten(chunks[..k]), Flatten(chunks[k..]));
  }

  // -- The production applier -------------------------------------------------------

  /** `store` is a durable state reached by applying some prefix of `entries` one by one. */
  ghost predicate AtPrefix(start: Store, entries: seq<Entry>, store: Store) {
    exists k :: 0 <= k <= |entries| && store == PerEntry(start, entries[..k]).store
  }

  ghost predicate AllAtPrefixes(start: Store, entries: seq<Entry>, stores: seq<Store>) {
    forall i :: 0 <= i < |stores| ==> AtPrefix(start, entries, stores[i])
  }

  lemma OneMorePrefix(start: Store, entries: seq<Entry>, stores: seq<Store>, k: nat, store: Store)
    requires AllAtPrefixes(start, entries, stores) && k <= |entries| && store == PerEntry(start, entries[..k]).store
    ensures AllAtPrefixes(start, entries, stores + [store])
  {
    assert AtPrefix(start, entries, store);
  }

  // -- Chunk bounds -------------------------------------------------------------------------------

  function TotalLen(chunk: seq<Entry>, encodedLen: Entry -> nat): nat {
    if chunk == [] then 0
    else SaturatingAdd(TotalLen(chunk[..|chunk| - 1], encodedLen), encodedLen(chunk[|chunk| - 1]))
  }

  /** Within both bounds; a single entry always is. */
  predicate Bounded(chunk: seq<Entry>, encodedLen: Entry -> nat) {
    |chunk| > 1 ==> |chunk| <= APPLY_CHUNK_ENTRIES && TotalLen(chunk, encodedLen) <= APPLY_CHUNK_INPUT_BYTES
  }

  /** Every chunk is within the bounds, and none could have taken the entry after it. */
  ghost predicate Cut(chunks: seq<seq<Entry>>, encodedLen: Entry -> nat) {
    && (forall i :: 0 <= i < |chunks| ==> chunks[i] != [] && Bounded(chunks[i], encodedLen))
    && (forall i :: 0 < i < |chunks| ==> !Bounded(chunks[i - 1] + [chunks[i][0]], encodedLen))
  }

  lemma TotalSnoc(chunk: seq<Entry>, e: Entry, encodedLen: Entry -> nat)
    ensures TotalLen(chunk + [e], encodedLen) == SaturatingAdd(TotalLen(chunk, encodedLen), encodedLen(e))
    ensures TotalLen([e], encodedLen) == SaturatingAdd(0, encodedLen(e))
  {
    assert (chunk + [e])[..|chunk|] == chunk;
    assert [e][..0] == [];
  }

  /** The first `i` entries are cut into `chunks`, `done` entries long, and the open `chunk`. */
  ghost predicate Chunking(entries: seq<Entry>, done: nat, i: nat, chunks: seq<seq<Entry>>, chunk: seq<Entry>,
                           encodedLen: Entry -> nat) {
    && done <= i <= |entries| && chunk == entries[done..i] && Flatten(chunks) == entries[..done]
    && (if chunk == [] then i == 0 && chunks == [] else Cut(chunks + [chunk], encodedLen))
  }

  lemma {:induction false} FlattenSnoc(chunks: seq<seq<Entry>>, chunk: seq<Entry>)
    ensures Flatten(chunks + [chunk]) == Flatten(chunks) + chunk
    decreases |chunks|
  {
    if chunks == [] {
      assert (chunks + [chunk])[1..] == [];
    } else {
      assert (chunks + [chunk])[1..] == chunks[1..] + [chunk];
      FlattenSnoc(chunks[1..], chunk);
    }
  }

  /** The open chunk takes the next entry. */
  lemma TakesNext(entries: seq<Entry>, done: nat, i: nat, chunks: seq<seq<Entry>>, chunk: seq<Entry>,
                  encodedLen: Entry -> nat)
    requires Chunking(entries, done, i, chunks, chunk, encodedLen) && i < |entries|
    requires chunk != [] ==> Bounded(chunk + [entries[i]], encodedLen)
    ensures Chunking(entries, done, i + 1, chunks, chunk + [entries[i]], encodedLen)
  {
    var was, now := chunks + [chunk], chunks + [chunk + [entries[i]]];
    assert forall k :: 0 <= k < |chunks| ==> now[k] == was[k];
    assert chunk != [] ==> now[|chunks|][0] == was[|chunks|][0];
  }

  /** The open chunk is full: the next entry opens another. */
  lemma OpensAnother(entries: seq<Entry>, done: nat, i: nat, chunks: seq<seq<Entry>>, chunk: seq<Entry>,
                     encodedLen: Entry -> nat)
    requires Chunking(entries, done, i, chunks, chunk, encodedLen) && i < |entries|
    requires chunk != [] && !Bounded(chunk + [entries[i]], encodedLen)
    ensures Chunking(entries, i, i + 1, chunks + [chunk], [entries[i]], encodedLen)
  {
    var was, now := chunks + [chunk], chunks + [chunk] + [[entries[i]]];
    assert forall k :: 0 <= k < |was| ==> now[k] == was[k];
    FlattenSnoc(chunks, chunk);
    assert entries[..done] + chunk == entries[..i];
  }

  lemma Chunked(entries: seq<Entry>, done: nat, chunks: seq<seq<Entry>>, chunk: seq<Entry>, encodedLen: Entry -> nat)
    requires Chunking(entries, done, |entries|, chunks, chunk, encodedLen)
    ensures chunk == [] ==> entries == [] && chunks == []
    ensures chunk != [] ==> Flatten(chunks + [chunk]) == entries && entries[..done + |chunk|] == entries
                            && Cut(chunks + [chunk], encodedLen)
  {
    FlattenSnoc(chunks, chunk);
    assert entries[..done] + chunk == entries;
  }

  class RocksStateMachine {
    var store: Store
    /** Every store an `apply_raft` batch made durable, in order. */
    ghost var durable: seq<Store>

    constructor (initial: Store)
      ensures store == initial && durable == []
    {
      store := initial;
      durable := [];
    }

    method ApplyRaft(muts: seq<Mutation>, logId: LogId, membership: StoredMembership)
      modifies this
      ensures store == WriteBatch(old(store), muts, logId, membership)
      ensures durable == old(durable) + [store]
    {
      store := WriteBatch(store, muts, logId, membership);
      durable := durable + [store];
    }

    method ApplyCoalescedChunk(entries: seq<Entry>) returns (results: seq<ApplyResult>)
      modifies this
      ensures Outcome(results, store) == PerEntry(old(store), entries)
      ensures durable == if entries == [] then old(durable) else old(durable) + [store]
    {
      var membership := store.membership;
      var overlay := new StateOverlay();
      results := [];
      var lastLogId: Option<LogId> := None;
      ghost var start := ChunkState([], map[], store.membership);
      for i := 0 to |entries|
        invariant store == old(store) && durable == old(durable) && fresh(overlay)
        invariant ChunkFold(store.state, ChunkState(results, overlay.pending, membership), entries[i..])
               == ChunkFold(store.state, start, entries)
        invariant lastLogId == if i == 0 then None else Some(entries[i - 1].logId)
      {
        var e := entries[i];
        var (result, muts) := Decision(Overlaid(store.state, overlay.pending), e);
        if e.payload.Membership? {
          membership := StoredMembership(Some(e.logId), e.payload.config);
        }
        overlay.Stage(muts);
        results := results + [result];
        lastLogId := Some(e.logId);
        assert entries[i..][1..] == entries[i + 1..];
      }
      ChunkStepIsPerEntry(store, entries);
      if lastLogId.Some? {
        var muts := overlay.IntoMutations();
        DrainWritesLayer(store.state, muts, overlay.pending);
        ApplyRaft(muts, lastLogId.value, membership);
      }
    }

    /** The chunk that continues a prefix, applied: a longer prefix, made durable at once. */
    method ApplyNextChunk(ghost start: Store, ghost entries: seq<Entry>, ghost done: nat, chunk: seq<Entry>,
                          results: seq<ApplyResult>, ghost from: nat)
      returns (all: seq<ApplyResult>)
      requires done + |chunk| <= |entries| && chunk == entries[done..done + |chunk|] && chunk != []
      requires Outcome(results, store) == PerEntry(start, entries[..done])
      requires from <= |durable| && AllAtPrefixes(start, entries, durable[from..])
      modifies this
      ensures Outcome(all, store) == PerEntry(start, entries[..done + |chunk|])
      ensures durable == old(durable) + [store] && AllAtPrefixes(start, entries, durable[from..])
    {
      PerEntryConcat(start, entries[..done], chunk);
      assert entries[..done] + chunk == entries[..done + |chunk|];
      var more := ApplyCoalescedChunk(chunk);
      all := results + more;
      OneMorePrefix(start, entries, old(durable)[from..], done + |chunk|, store);
      assert durable[from..] == old(durable)[from..] + [store];
    }

    /** Bounded chunks, as long as the bounds allow, each committed before the next is decided. */
    method ApplyCoalesced(entries: seq<Entry>, encodedLen: Entry -> nat)
      returns (results: seq<ApplyResult>, ghost chunks: seq<seq<Entry>>)
      modifies this
      ensures Outcome(results, store) == PerEntry(old(store), entries)
      ensures old(durable) <= durable && AllAtPrefixes(old(store), entries, durable[|old(durable)|..])
      ensures Flatten(chunks) == entries && |durable| == |old(durable)| + |chunks| && Cut(chunks, encodedLen)
    {
      results, chunks := [], [];
      var chunk: seq<Entry> := [];
      var chunkBytes := 0;
      ghost var done := 0;
      for i := 0 to |entries|
        invariant Chunking(entries, done, i, chunks, chunk, encodedLen)
        invariant chunkBytes == TotalLen(chunk, encodedLen)
        invariant Outcome(results, store) == PerEntry(old(store), entries[..done])
        invariant old(durable) <= durable && AllAtPrefixes(old(store), entries, durable[|old(durable)|..])
        invariant |durable| == |old(durable)| + |chunks|
      {
        var entryBytes := encodedLen(entries[i]);
        var wouldExceed := chunk != []
          && (|chunk| >= APPLY_CHUNK_ENTRIES || SaturatingAdd(chunkBytes, entryBytes) > APPLY_CHUNK_INPUT_BYTES);
        TotalSnoc(chunk, entries[i], encodedLen);
        if wouldExceed {
          results := ApplyNextChunk(old(store), entries, done, chunk, results, |old(durable)|);
          OpensAnother(entries, done, i, chunks, chunk, encodedLen);
          chunks, done := chunks + [chunk], i;
          chunk := [];
          chunkBytes := 0;
        } else {
          TakesNext(entries, done, i, chunks, chunk, encodedLen);
        }
        chunkBytes := SaturatingAdd(chunkBytes, entryBytes);
        chunk := chunk + [entries[i]];
      }
      Chunked(entries, done, chunks, chunk, encodedLen);
      if chunk != [] {
        results := ApplyNextChunk(old(store), entries, done, chunk, results, |old(durable)|);
        chunks := chunks + [chunk];
      }
    }

    /** The original path, kept as the baseline: one batch per entry. */
    method ApplyPerEntry(entries: seq<Entry>) returns (results: seq<ApplyResult>)
      modifies this
      ensures Outcome(results, store) == PerEntry(old(store), entries)
      ensures |durable| == |old(durable)| + |entries|
    {
      var membership := store.membership;
      results := [];
      for i := 0 to |entries|
        invariant Outcome(results, store) == PerEntry(old(store), entries[..i])
        invariant membership == store.membership
        invariant |durable| == |old(durable)| + i
      {
        var e := entries[i];
        var (result, muts) := Decision(Committed(store.state), e);
        if e.payload.Membership? {
          membership := StoredMembership(Some(e.logId), e.payload.config);
        }
        PerEntrySnoc(old(store), entries[..i], e);
        assert entries[..i] + [e] == entries[..i + 1];
        ApplyRaft(muts, e.logId, membership);
        results := results + [result];
      }
      assert entries[..|entries|] == entries;
    }
  }
}
