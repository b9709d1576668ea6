/** The client's per-partition mutation stream (src/api/client.rs): one unresolved mutation at a
    time, its sequence reused until the outcome is known, released when it cannot have committed. */
module ClientStream {
  import opened Types
  import opened DataStateMachine

  datatype PendingMutation = PendingMutation(sequence: Sequence, op: DataOp)

  /** The client-visible outcome of a mutation (src/api/ops.rs). */
  datatype WriteReply =
    | WriteApplied(version: Version)
    | WriteConditionFailed(current: KeyPresence)
    | WriteRejected(reason: RejectReason)

  datatype ClientReply =
    | EpochMismatch
    | MutationReply(reply: WriteReply)
    | Refused
    | Ambiguous   // Error, Unavailable, Denied, a timeout, or a reply of another kind

  /** One `(client, partition)` stream; the value form of the client's three maps at one partition. */
  datatype Stream = Stream(next: Option<Sequence>, exhausted: bool, pending: Option<PendingMutation>)

  datatype Choice = UseSequence(sequence: Sequence) | Unresolved | SpaceExhausted

  datatype Started = Sent(sequence: Sequence) | NotSent

  datatype Finished = Returned(reply: WriteReply) | Failed

  function FromMutation(m: MutationResult): WriteReply {
    match m
    case Applied(v) => WriteApplied(v)
    case ConditionFailed(c) => WriteConditionFailed(c)
  }

  /** A fresh decision and a replayed one collapse to the same reply (`WriteReply::from_apply`). */
  function FromApply(result: ApplyResult): WriteReply {
    match result
    case Decided(m) => FromMutation(m)
    case Replayed(m) => FromMutation(m)
    case Rejected(reason) => WriteRejected(reason)
    case NoOp => WriteRejected(Malformed)
  }

  /** The next sequence the stream will use; one past the representable range once exhausted. */
  function Cursor(s: Stream): nat {
    if s.exhausted then U64_MAX + 1 else if s.next.Some? then s.next.value else 1
  }

  function Reserved(s: Stream): Sequence {
    if s.next.Some? then s.next.value else 1
  }

  function Choose(s: Stream, op: DataOp): Choice {
    if s.pending.Some? then
      if s.pending.value.op == op then UseSequence(s.pending.value.sequence) else Unresolved
    else if s.exhausted then SpaceExhausted
    else UseSequence(Reserved(s))
  }

  /** A retry of the pending operation keeps its sequence and any other operation is unresolved; with nothing pending
      the cursor is used as long as it is a sequence. */
  lemma ChoiceExactly(s: Stream, op: DataOp, n: Sequence)
    ensures Choose(s, op) == UseSequence(n) <==>
              if s.pending.Some? then s.pending.value == PendingMutation(n, op) else n == Cursor(s)
    ensures Choose(s, op) == Unresolved <==> s.pending.Some? && s.pending.value.op != op
    ensures Choose(s, op) == SpaceExhausted <==> s.pending.None? && Cursor(s) > U64_MAX
  {
  }

  /** The stream after `next_mutation_sequence`: reserving records the default first sequence. */
  function AfterChoose(s: Stream): Stream {
    if s.pending.Some? || s.exhausted then s else s.(next := Some(Reserved(s)))
  }

  /** `mutate` up to the first send. A request too large to frame is refused before it can become ambiguous. */
  function Start(s: Stream, op: DataOp, fits: bool): (Stream, Started) {
    match Choose(s, op)
    case UseSequence(n) =>
      var chosen := AfterChoose(s);
      if !fits then (chosen, NotSent)
      else (chosen.(pending := if s.pending.Some? then s.pending else Some(PendingMutation(n, op))), Sent(n))
    case _ => (s, NotSent)
  }

  /** `commit_sequence`: only ever forward, and out of the map once nothing follows. */
  function Commit(s: Stream, decided: Sequence): Stream {
    var slot := Reserved(s);
    if slot > decided then s.(next := Some(slot))
    else if decided == U64_MAX then s.(next := None, exhausted := true)
    else s.(next := Some(decided + 1))
  }

  /** `mutate` from the reply on. */
  function Finish(s: Stream, sequence: Sequence, reply: ClientReply): (Stream, Finished) {
    match reply
    case EpochMismatch => (s, Failed)
    case MutationReply(WriteRejected(RecoveryEpochMismatch(_, _))) => (s, Failed)
    case MutationReply(WriteRejected(reason)) => (s.(pending := None), Returned(WriteRejected(reason)))
    case MutationReply(w) => (Commit(s, sequence).(pending := None), Returned(w))
    case Refused => (s.(pending := None), Failed)
    case Ambiguous => (s, Failed)
  }

  class Client {
    var nextSeq: map<u16, Sequence>
    var exhaustedStreams: set<u16>
    var pending: map<u16, PendingMutation>

    constructor ()
      ensures forall p :: StreamOf(p) == Stream(None, false, None)
    {
      nextSeq, exhaustedStreams, pending := map[], {}, map[];
    }

    ghost function StreamOf(p: u16): Stream
      reads this
    {
      Stream(if p in nextSeq then Some(nextSeq[p]) else None,
             p in exhaustedStreams,
             if p in pending then Some(pending[p]) else None)
    }

    method ReserveSequence(p: u16) returns (n: Sequence)
      modifies this`nextSeq
      ensures n == Reserved(old(StreamOf(p)))
      ensures StreamOf(p) == old(StreamOf(p)).(next := Some(n))
      ensures forall q :: q != p ==> StreamOf(q) == old(StreamOf(q))
    {
      if p !in nextSeq {
        nextSeq := nextSeq[p := 1];
      }
      n := nextSeq[p];
    }

    method NextMutationSequence(p: u16, op: DataOp) returns (choice: Choice)
      modifies this`nextSeq
      ensures choice == Choose(old(StreamOf(p)), op)
      ensures StreamOf(p) == AfterChoose(old(StreamOf(p)))
      ensures forall q :: q != p ==> StreamOf(q) == old(StreamOf(q))
    {
      if p in pending {
        if pending[p].op == op {
          return UseSequence(pending[p].sequence);
        }
        return Unresolved;
      }
      if p in exhaustedStreams {
        return SpaceExhausted;
      }
      var n := ReserveSequence(p);
      choice := UseSequence(n);
    }

    method CommitSequence(p: u16, decided: Sequence)
      modifies this`nextSeq, this`exhaustedStreams
      ensures StreamOf(p) == Commit(old(StreamOf(p)), decided)
      ensures forall q :: q != p ==> StreamOf(q) == old(StreamOf(q))
    {
      if p !in nextSeq {
        nextSeq := nextSeq[p := 1];
      }
      if nextSeq[p] <= decided {
        if decided < U64_MAX {
          nextSeq := nextSeq[p := decided + 1];
        } else {
          nextSeq := nextSeq - {p};
          exhaustedStreams := exhaustedStreams + {p};
        }
      }
    }

    method StartMutation(p: u16, op: DataOp, fits: bool) returns (started: Started)
      modifies this
      ensures (StreamOf(p), started) == Start(old(StreamOf(p)), op, fits)
      ensures forall q :: q != p ==> StreamOf(q) == old(StreamOf(q))
    {
      var choice := NextMutationSequence(p, op);
      if !choice.UseSequence? || !fits {
        return NotSent;
      }
      if p !in pending {
        pending := pending[p := PendingMutation(choice.sequence, op)];
      }
      started := Sent(choice.sequence);
    }

    method FinishMutation(p: u16, sequence: Sequence, reply: ClientReply) returns (finished: Finished)
      modifies this
      ensures (StreamOf(p), finished) == Finish(old(StreamOf(p)), sequence, reply)
      ensures forall q :: q != p ==> StreamOf(q) == old(StreamOf(q))
    {
      match reply {
        case EpochMismatch => finished := Failed;
        case Ambiguous => finished := Failed;
        case Refused =>
          pending := pending - {p};
          finished := Failed;
        case MutationReply(w) =>
          if w.WriteRejected? && w.reason.RecoveryEpochMismatch? {
            finished := Failed;
          } else if w.WriteRejected? {
            pending := pending - {p};
            finished := Returned(w);
          } else {
            CommitSequence(p, sequence);
            pending := pending - {p};
            finished := Returned(w);
          }
      }
    }
  }
}
