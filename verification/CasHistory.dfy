/** What versions mean along a whole log (src/partition/state_machine.rs): the stored record of a
    key is determined by the last Applied mutation on it, so a numeric compare-and-set has no ABA. */
module CasHistory {
  import opened Types
  import opened DataStateMachine
  import opened Applier

  ghost predicate NoUserKeys(store: Store) {
    forall key :: UserKey(key) !in store.state
  }

  predicate IndicesIncrease(log: seq<Entry>) {
    forall i, j :: 0 <= i < j < |log| ==> log[i].logId.index < log[j].logId.index
  }

  function StateAt(init: Store, log: seq<Entry>, i: nat): StateMap
    requires i <= |log|
  {
    PerEntry(init, log[..i]).store.state
  }

  function ResultAt(init: Store, log: seq<Entry>, i: nat): ApplyResult
    requires i < |log|
  {
    Decision(Committed(StateAt(init, log, i)), log[i]).0
  }

  lemma StateStep(init: Store, log: seq<Entry>, i: nat)
    requires i < |log|
    ensures StateAt(init, log, i + 1)
         == ApplyMutations(StateAt(init, log, i), Decision(Committed(StateAt(init, log, i)), log[i]).1)
    ensures PerEntry(init, log[..i + 1]).results == PerEntry(init, log[..i]).results + [ResultAt(init, log, i)]
  {
    assert log[..i + 1] == log[..i] + [log[i]];
    PerEntrySnoc(init, log[..i], log[i]);
  }

  /** The applier's result list holds exactly these per-position results. */
  lemma {:induction false} ResultsAreResultAt(init: Store, log: seq<Entry>, n: nat, i: nat)
    requires i < n <= |log|
    ensures |PerEntry(init, log[..n]).results| == n
    ensures PerEntry(init, log[..n]).results[i] == ResultAt(init, log, i)
  {
    PerEntryLength(init, log[..n]);
    PerEntryLength(init, log[..n - 1]);
    StateStep(init, log, n - 1);
    if i < n - 1 {
      ResultsAreResultAt(init, log, n - 1, i);
    }
  }

  /** Entry `i` was freshly decided as Applied and addressed `key`. */
  predicate AppliedAt(init: Store, log: seq<Entry>, i: nat, key: Bytes)
    requires i < |log|
  {
    && log[i].payload.Normal?
    && log[i].payload.request.op.key == key
    && var r := ResultAt(init, log, i); r.Decided? && r.decided.Applied?
  }

  function LastApplied(init: Store, log: seq<Entry>, i: nat, key: Bytes): (w: Option<nat>)
    requires i <= |log|
    ensures w.Some? ==> w.value < i && AppliedAt(init, log, w.value, key)
    ensures forall k :: (if w.Some? then w.value < k < i else 0 <= k < i) ==> !AppliedAt(init, log, k, key)
  {
    if i == 0 then None
    else if AppliedAt(init, log, i - 1, key) then Some(i - 1)
    else LastApplied(init, log, i - 1, key)
  }

  /** The record a put at position `w` leaves: its own index as version, its own value. */
  function Written(log: seq<Entry>, w: Option<nat>): Option<KeyRecord>
    requires w.Some? ==> w.value < |log| && log[w.value].payload.Normal?
  {
    if w.None? then None
    else
      var e := log[w.value];
      if e.payload.request.op.Put? then Some(KeyRecord(e.logId.index, e.payload.request.op.value)) else None
  }

  lemma StepFramesKeys(state: StateMap, e: Entry, key: Bytes)
    ensures var (result, muts) := Decision(Committed(state), e);
            var before := KeyRecordAt(Committed(state), key);
            var after := KeyRecordAt(Committed(ApplyMutations(state, muts)), key);
            if e.payload.Normal? && e.payload.request.op.key == key && result.Decided? && result.decided.Applied? then
              after == if e.payload.request.op.Put? then Some(KeyRecord(e.logId.index, e.payload.request.op.value))
                  else None
            else after == before
  {
    var (result, muts) := Decision(Committed(state), e);
    if |muts| == 1 {
      ApplySingle(state, muts[0]);
      assert muts == [muts[0]];
    } else if |muts| == 2 {
      ApplyPair(state, muts[0], muts[1]);
      assert muts == [muts[0], muts[1]];
    }
  }

  /** At every point of every log the record stored for a key is the one written by the last
      Applied mutation on it, and none if that mutation was a delete or there was none. */
  lemma {:induction false} StoredRecordIsLastApplied(init: Store, log: seq<Entry>, i: nat, key: Bytes)
    requires i <= |log| && NoUserKeys(init)
    ensures KeyRecordAt(Committed(StateAt(init, log, i)), key) == Written(log, LastApplied(init, log, i, key))
  {
    if i > 0 {
      StoredRecordIsLastApplied(init, log, i - 1, key);
      StateStep(init, log, i - 1);
      StepFramesKeys(StateAt(init, log, i - 1), log[i - 1], key);
    }
  }

  /** Fresh Applied versions are the committing indices, so they strictly increase along the log. */
  lemma AppliedVersionsIncrease(init: Store, log: seq<Entry>, i: nat, j: nat, keyI: Bytes, keyJ: Bytes)
    requires IndicesIncrease(log) && i < j < |log|
    requires AppliedAt(init, log, i, keyI) && AppliedAt(init, log, j, keyJ)
    ensures ResultAt(init, log, i).decided.version == log[i].logId.index
    ensures ResultAt(init, log, i).decided.version < ResultAt(init, log, j).decided.version
  {
  }

  /** The put with index `v` wrote `key`, and nothing was Applied to `key` between it and `j`. */
  ghost predicate UntouchedSince(init: Store, log: seq<Entry>, v: nat, j: nat, key: Bytes)
    requires j <= |log|
  {
    exists w :: 0 <= w < j && log[w].logId.index == v && AppliedAt(init, log, w, key)
             && log[w].payload.request.op.Put?
             && forall k :: w < k < j ==> !AppliedAt(init, log, k, key)
  }

  /** A freshly decided numeric compare-and-set on `v` is Applied exactly when the key was last
      written by the put at index `v` and no Applied mutation, delete included, touched it since. */
  lemma NumericCasHasNoAba(init: Store, log: seq<Entry>, j: nat, v: Version)
    requires NoUserKeys(init) && IndicesIncrease(log) && j < |log|
    requires log[j].payload.Normal? && log[j].payload.request.op.ifVersion == Some(Number(v))
    requires ResultAt(init, log, j).Decided?
    ensures ResultAt(init, log, j) == Decided(Applied(log[j].logId.index))
       <==> UntouchedSince(init, log, v, j, log[j].payload.request.op.key)
  {
    var key := log[j].payload.request.op.key;
    StoredRecordIsLastApplied(init, log, j, key);
    var w := LastApplied(init, log, j, key);
    if UntouchedSince(init, log, v, j, key) {
      var u :| 0 <= u < j && log[u].logId.index == v && AppliedAt(init, log, u, key)
            && log[u].payload.request.op.Put? && forall k :: u < k < j ==> !AppliedAt(init, log, k, key);
      assert w == Some(u);
    }
  }

  /** A create-only put succeeds exactly when the last Applied mutation on the key, if any, was a delete. */
  lemma CreateOnlyMeansAbsent(init: Store, log: seq<Entry>, j: nat)
    requires NoUserKeys(init) && j < |log|
    requires log[j].payload.Normal? && log[j].payload.request.op.Put?
             && log[j].payload.request.op.ifVersion == Some(Absent)
    requires ResultAt(init, log, j).Decided?
    ensures var last := LastApplied(init, log, j, log[j].payload.request.op.key);
            ResultAt(init, log, j).decided.Applied? <==> last.None? || log[last.value].payload.request.op.Delete?
  {
    StoredRecordIsLastApplied(init, log, j, log[j].payload.request.op.key);
  }

  /** An unconditional mutation that is decided is Applied. */
  lemma UnconditionalApplies(init: Store, log: seq<Entry>, j: nat)
    requires j < |log| && log[j].payload.Normal? && log[j].payload.request.op.ifVersion == None
    requires ResultAt(init, log, j).Decided?
    ensures ResultAt(init, log, j) == Decided(Applied(log[j].logId.index))
  {
  }

  /** A mutation whose condition failed is told what the last Applied mutation on the key left: the index of a put, or
      that the key is absent. */
  lemma FailureTellsTheVersion(init: Store, log: seq<Entry>, j: nat)
    requires NoUserKeys(init) && j < |log| && log[j].payload.Normal?
    requires ResultAt(init, log, j).Decided? && ResultAt(init, log, j).decided.ConditionFailed?
    ensures var last := LastApplied(init, log, j, log[j].payload.request.op.key);
            ResultAt(init, log, j).decided.current
            == if last.Some? && log[last.value].payload.request.op.Put? then KeyPresent(log[last.value].logId.index)
               else KeyAbsent
  {
    StoredRecordIsLastApplied(init, log, j, log[j].payload.request.op.key);
  }
}
