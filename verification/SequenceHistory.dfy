/** What the sequence gate answers along a whole log (src/partition/state_machine.rs): every answer is determined by the
    last request of the same client that was decided. */
module SequenceHistory {
  import opened Types
  import opened DataStateMachine
  import opened Applier
  import opened CasHistory
  import opened ExactlyOnce

  /** Entry `i` freshly decided a request of `c`. */
  predicate DecidedAt(init: Store, log: seq<Entry>, i: nat, c: ClientId)
    requires i < |log|
  {
    log[i].payload.Normal? && log[i].payload.request.clientId == c && ResultAt(init, log, i).Decided?
  }

  function LastDecided(init: Store, log: seq<Entry>, i: nat, c: ClientId): (w: Option<nat>)
    requires i <= |log|
    ensures w.Some? ==> w.value < i && DecidedAt(init, log, w.value, c)
    ensures forall k :: (if w.Some? then w.value < k < i else 0 <= k < i) ==> !DecidedAt(init, log, k, c)
  {
    if i == 0 then None
    else if DecidedAt(init, log, i - 1, c) then Some(i - 1)
    else LastDecided(init, log, i - 1, c)
  }

  /** What the decided request at `w` leaves on record: its sequence, its operation and its result. */
  function Remembered(init: Store, log: seq<Entry>, w: Option<nat>, c: ClientId): Option<SeqRecord>
    requires w.Some? ==> w.value < |log| && DecidedAt(init, log, w.value, c)
  {
    if w.None? then SeqRecordAt(Committed(init.state), c)
    else
      var request := log[w.value].payload.request;
      Some(SeqRecord(request.sequence, Digest(request.op), ResultAt(init, log, w.value).decided))
  }

  lemma RecordStep(init: Store, log: seq<Entry>, i: nat, c: ClientId)
    requires i < |log|
    ensures var before, after := Committed(StateAt(init, log, i)), Committed(StateAt(init, log, i + 1));
            && EpochAt(after) == EpochAt(before)
            && SeqRecordAt(after, c) == if DecidedAt(init, log, i, c) then Remembered(init, log, Some(i), c)
                                        else SeqRecordAt(before, c)
  {
    assert log[..i + 1] == log[..i] + [log[i]];
    PerEntrySnoc(init, log[..i], log[i]);
    StepFramesStreams(PerEntry(init, log[..i]).store, log[i], c);
  }

  /** At every point of every log a client's record is that of its last decided request, and the epoch is as it was. */
  lemma {:induction false} RecordIsLastDecided(init: Store, log: seq<Entry>, i: nat, c: ClientId)
    requires i <= |log|
    ensures SeqRecordAt(Committed(StateAt(init, log, i)), c) == Remembered(init, log, LastDecided(init, log, i, c), c)
    ensures EpochAt(Committed(StateAt(init, log, i))) == EpochAt(Committed(init.state))
  {
    if i == 0 {
      assert StateAt(init, log, 0) == init.state;
    } else {
      RecordIsLastDecided(init, log, i - 1, c);
      RecordStep(init, log, i - 1, c);
    }
  }

  /** A value too large to store, or a delete of an absent key. */
  predicate Unacceptable(op: DataOp) {
    match op
    case Put(_, value, _) => |value| > 1024 * 1024
    case Delete(_, cond) => cond == Some(Absent)
  }

  /** The answer to `request` in a stream whose last decided request left `last`. */
  ghost predicate Answers(result: ApplyResult, request: DataRequest, epoch: nat, last: Option<SeqRecord>) {
    var highest := if last.Some? then last.value.highest else 0;
    && (result.Rejected? && result.reason.RecoveryEpochMismatch? <==> request.recoveryEpoch != epoch)
    && (result.Rejected? && result.reason.RecoveryEpochMismatch? ==>
          result.reason == RecoveryEpochMismatch(epoch, request.recoveryEpoch))
    && (request.recoveryEpoch == epoch ==>
          && (result == Rejected(Malformed) <==> Unacceptable(request.op))
          && (!Unacceptable(request.op) ==> Gated(result, request.sequence, request.op, last, highest)))
  }

  /** The next sequence is decided; the last one is answered with its recorded result if it is the same operation; any
      other is told how far the stream is. */
  ghost predicate Gated(result: ApplyResult, sequence: nat, op: DataOp, last: Option<SeqRecord>, highest: nat) {
    && (result.Decided? <==> sequence == highest + 1)
    && (result.Replayed? <==> last.Some? && sequence == highest && last.value.digest == Digest(op))
    && (result.Replayed? ==> result.replayed == last.value.result)
    && (result == Rejected(SequenceMismatch) <==>
          last.Some? && sequence == highest && last.value.digest != Digest(op))
    && (result.Rejected? && result.reason.StaleSequence? <==>
          sequence < highest || (last.None? && sequence == 0))
    && (result.Rejected? && result.reason.StaleSequence? ==>
          result.reason.highest == highest && result.reason.staleSequence == sequence)
    && (result.Rejected? && result.reason.SequenceGap? <==> sequence > highest + 1)
    && (result.Rejected? && result.reason.SequenceGap? ==>
          result.reason.expectedSequence == highest + 1 && result.reason.gotSequence == sequence)
  }

  lemma AnswerExactly(state: StateMap, request: DataRequest, index: nat)
    ensures Answers(Evaluate(Committed(state), request, index).0, request, EpochAt(Committed(state)),
                    SeqRecordAt(Committed(state), request.clientId))
  {
  }

  /** Over every log: what a request is answered follows from its client's last decided request. In particular a repeat
      of that request gets the very result it was decided with, however long ago. */
  lemma GateExactly(init: Store, log: seq<Entry>, j: nat)
    requires j < |log| && log[j].payload.Normal?
    ensures var request := log[j].payload.request;
            var last := LastDecided(init, log, j, request.clientId);
            Answers(ResultAt(init, log, j), request, EpochAt(Committed(init.state)),
                    Remembered(init, log, last, request.clientId))
  {
    RecordIsLastDecided(init, log, j, log[j].payload.request.clientId);
    AnswerExactly(StateAt(init, log, j), log[j].payload.request, log[j].logId.index);
  }
}
