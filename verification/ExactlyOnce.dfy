/** End-to-end exactly-once delivery: client streams, a network that loses, duplicates and delays
    requests into the committed log, and the sequence gate of the data state machine
    (src/api/client.rs with src/partition/state_machine.rs). */
module ExactlyOnce {
  import opened Types
  import opened DataStateMachine
  import opened Applier
  import opened ClientStream

  datatype Call = Call(sequence: Sequence, op: DataOp)

  /** A client of the partition: its stream, and the `mutate` call holding the stream lock, if any. */
  datatype Peer = Peer(stream: Stream, call: Option<Call>)

  datatype Return = Return(client: ClientId, call: Call, reply: WriteReply)

  datatype System = System(
    epoch: nat,
    peers: map<ClientId, Peer>,
    sent: set<DataRequest>,
    log: seq<Entry>,
    results: seq<ApplyResult>,
    store: Store,
    returned: seq<Return>)

  datatype Event =
    | Invoke(client: ClientId, op: DataOp, fits: bool)
    | Append(entry: Entry)
    | Reply(client: ClientId, position: nat)
    | RefuseCall(client: ClientId)
    | GiveUp(client: ClientId, why: ClientReply)

  function RequestOf(s: System, c: ClientId, call: Call): DataRequest {
    DataRequest(s.epoch, c, call.sequence, call.op)
  }

  /** A fresh partition at epoch `s.epoch` and client identities that never wrote to it. */
  ghost predicate Initial(s: System) {
    && s.sent == {} && s.log == [] && s.results == [] && s.returned == []
    && EpochAt(Committed(s.store.state)) == s.epoch
    && (forall c :: c in s.peers ==> s.peers[c] == Peer(Stream(None, false, None), None))
    && (forall c :: c in s.peers ==> SeqRecordAt(Committed(s.store.state), c) == None)
  }

  /** Any request ever sent may be appended any number of times, at any later moment. Clients outside
      the system and requests of another recovery epoch are unconstrained. */
  predicate MayAppend(s: System, e: Entry) {
    && (s.log != [] ==> s.log[|s.log| - 1].logId.index < e.logId.index)
    && (e.payload.Normal? ==>
          var r := e.payload.request;
          r in s.sent || r.clientId !in s.peers || r.recoveryEpoch != s.epoch)
  }

  /** What leaves open whether the request was decided. */
  predicate Inconclusive(reply: ClientReply) {
    || reply == Ambiguous || reply == EpochMismatch
    || (reply.MutationReply? && reply.reply.WriteRejected? && reply.reply.reason.RecoveryEpochMismatch?)
  }

  predicate Enabled(s: System, ev: Event) {
    match ev
    case Invoke(c, _, _) => c in s.peers && s.peers[c].call.None?
    case Append(e) => MayAppend(s, e)
    case Reply(c, i) =>
      && c in s.peers && s.peers[c].call.Some? && i < |s.log| && i < |s.results|
      && s.log[i].payload == Normal(RequestOf(s, c, s.peers[c].call.value))
    case RefuseCall(c) => c in s.peers && s.peers[c].call.Some? && IsMalformed(s.peers[c].call.value.op)
    case GiveUp(c, why) => c in s.peers && s.peers[c].call.Some? && Inconclusive(why)
  }

  function EndCall(s: System, c: ClientId, reply: ClientReply): System
    requires c in s.peers && s.peers[c].call.Some?
  {
    var call := s.peers[c].call.value;
    var (stream, finished) := Finish(s.peers[c].stream, call.sequence, reply);
    s.(peers := s.peers[c := Peer(stream, None)],
       returned := if finished.Returned? then s.returned + [Return(c, call, finished.reply)] else s.returned)
  }

  function InvokeNext(s: System, c: ClientId, op: DataOp, fits: bool): System
    requires c in s.peers
  {
    var (stream, started) := Start(s.peers[c].stream, op, fits);
    if started.NotSent? then s.(peers := s.peers[c := Peer(stream, None)])
    else
      var call := Call(started.sequence, op);
      s.(peers := s.peers[c := Peer(stream, Some(call))], sent := s.sent + {RequestOf(s, c, call)})
  }

  function AppendNext(s: System, e: Entry): System {
    var (result, store) := StepEntry(s.store, e);
    s.(log := s.log + [e], results := s.results + [result], store := store)
  }

  predicate IsEnd(ev: Event) {
    ev.Reply? || ev.RefuseCall? || ev.GiveUp?
  }

  /** What ends the call. */
  function EndReply(s: System, ev: Event): ClientReply
    requires Enabled(s, ev) && IsEnd(ev)
  {
    match ev
    case Reply(_, i) => MutationReply(FromApply(s.results[i]))
    case RefuseCall(_) => Refused
    case GiveUp(_, why) => why
  }

  function Next(s: System, ev: Event): System
    requires Enabled(s, ev)
  {
    match ev
    case Invoke(c, op, fits) => InvokeNext(s, c, op, fits)
    case Append(e) => AppendNext(s, e)
    case _ => EndCall(s, ev.client, EndReply(s, ev))
  }

  ghost predicate Run(s: System, events: seq<Event>, end: System)
    decreases |events|
  {
    if events == [] then end == s
    else Enabled(s, events[0]) && Run(Next(s, events[0]), events[1..], end)
  }

  // -- What every step keeps --------------------------------------------------------

  function StreamRecord(s: System, c: ClientId): Option<SeqRecord> {
    SeqRecordAt(Committed(s.store.state), c)
  }

  function Highest(s: System, c: ClientId): nat {
    if StreamRecord(s, c).Some? then StreamRecord(s, c).value.highest else 0
  }

  /** Position `i` carries a request of `c` in this history. */
  predicate From(s: System, i: nat, c: ClientId)
    requires i < |s.log|
  {
    && s.log[i].payload.Normal?
    && s.log[i].payload.request.clientId == c
    && s.log[i].payload.request.recoveryEpoch == s.epoch
  }

  ghost predicate StreamInv(s: System, c: ClientId)
    requires c in s.peers
  {
    var peer := s.peers[c];
    var n := Cursor(peer.stream);
    && (peer.stream.exhausted ==> peer.stream.pending.None?)
    && 1 <= n
    && (peer.stream.pending.Some? ==> peer.stream.pending.value.sequence == n)
    && (peer.call.Some? ==> peer.stream.pending == Some(PendingMutation(peer.call.value.sequence, peer.call.value.op)))
    && (Highest(s, c) == n - 1
        || (Highest(s, c) == n && peer.stream.pending.Some?
            && StreamRecord(s, c).value.digest == Digest(peer.stream.pending.value.op)))
  }

  /** Only the current sequence is ever at risk, and only with the pending operation. */
  ghost predicate SentInv(s: System, c: ClientId)
    requires c in s.peers
  {
    var stream := s.peers[c].stream;
    forall r :: r in s.sent && r.clientId == c ==>
      && r.recoveryEpoch == s.epoch
      && 1 <= r.sequence <= Cursor(stream)
      && (r.sequence == Cursor(stream) && !IsMalformed(r.op) ==>
            stream.pending == Some(PendingMutation(r.sequence, r.op)))
  }

  /** A copy of a request of `c` in the log: a malformed one was refused, one at the cursor holds the recorded
      decision, and an earlier decision has been returned. */
  ghost predicate EntryInv(s: System, c: ClientId, i: nat)
    requires c in s.peers && |s.results| == |s.log| && i < |s.log| && From(s, i, c)
  {
    var r := s.log[i].payload.request;
    && r in s.sent
    && (IsMalformed(r.op) ==> s.results[i] == Rejected(Malformed))
    && (!IsMalformed(r.op) && r.sequence == Cursor(s.peers[c].stream) ==>
          && StreamRecord(s, c).Some? && Highest(s, c) == r.sequence
          && (s.results[i] == Decided(StreamRecord(s, c).value.result)
              || s.results[i] == Replayed(StreamRecord(s, c).value.result)))
    && (s.results[i].Decided? && r.sequence < Cursor(s.peers[c].stream) ==>
          WasReturned(s, c, Call(r.sequence, r.op), FromApply(s.results[i])))
  }

  ghost predicate LogInv(s: System, c: ClientId)
    requires c in s.peers && |s.results| == |s.log|
  {
    forall i :: 0 <= i < |s.log| && From(s, i, c) ==> EntryInv(s, c, i)
  }

  ghost predicate WasReturned(s: System, c: ClientId, call: Call, reply: WriteReply) {
    exists k :: 0 <= k < |s.returned| && s.returned[k] == Return(c, call, reply)
  }

  /** Some log position freshly decided this very call with result `m`. */
  ghost predicate DecidedOnce(s: System, c: ClientId, call: Call, m: MutationResult)
    requires |s.results| == |s.log|
  {
    exists i :: 0 <= i < |s.log| && s.log[i].payload == Normal(RequestOf(s, c, call)) && s.results[i] == Decided(m)
  }

  ghost predicate RecordInv(s: System, c: ClientId)
    requires c in s.peers && |s.results| == |s.log|
  {
    var pending := s.peers[c].stream.pending;
    pending.Some? && StreamRecord(s, c).Some? && Highest(s, c) == Cursor(s.peers[c].stream) ==>
      DecidedOnce(s, c, Call(pending.value.sequence, pending.value.op), StreamRecord(s, c).value.result)
  }

  ghost predicate ReturnInv(s: System, k: nat)
    requires k < |s.returned| && |s.results| == |s.log|
  {
    var ret := s.returned[k];
    && ret.client in s.peers
    && (ret.reply.WriteRejected? ==> ret.reply == WriteRejected(Malformed) && IsMalformed(ret.call.op))
    && (!ret.reply.WriteRejected? ==>
          && ret.call.sequence < Cursor(s.peers[ret.client].stream)
          && exists m :: ret.reply == FromMutation(m) && DecidedOnce(s, ret.client, ret.call, m))
  }

  ghost predicate ClientInv(s: System, c: ClientId)
    requires c in s.peers && |s.results| == |s.log|
  {
    StreamInv(s, c) && SentInv(s, c) && LogInv(s, c) && RecordInv(s, c)
  }

  ghost predicate Inv(s: System) {
    && |s.results| == |s.log|
    && EpochAt(Committed(s.store.state)) == s.epoch
    && (forall r :: r in s.sent ==> r.clientId in s.peers)
    && (forall c :: c in s.peers ==> ClientInv(s, c))
    && (forall k :: 0 <= k < |s.returned| ==> ReturnInv(s, k))
    && ReturnsAscend(s)
  }

  /** A client's completed mutations carry strictly increasing sequences: none is answered twice. */
  ghost predicate ReturnsAscend(s: System) {
    forall i, j ::
      (0 <= i < j < |s.returned| && s.returned[i].client == s.returned[j].client
       && !s.returned[i].reply.WriteRejected? && !s.returned[j].reply.WriteRejected?)
      ==> s.returned[i].call.sequence < s.returned[j].call.sequence
  }

  lemma InitialInv(s: System)
    requires Initial(s)
    ensures Inv(s)
  {
  }

  // -- One entry's effect on the stream records ----------------------------------------

  lemma StepFramesStreams(store: Store, e: Entry, c: ClientId)
    ensures var (result, next) := StepEntry(store, e);
            && EpochAt(Committed(next.state)) == EpochAt(Committed(store.state))
            && (if result.Decided? && e.payload.Normal? && e.payload.request.clientId == c
                then SeqRecordAt(Committed(next.state), c)
                  == Some(SeqRecord(e.payload.request.sequence, Digest(e.payload.request.op), result.decided))
                else SeqRecordAt(Committed(next.state), c) == SeqRecordAt(Committed(store.state), c))
  {
    var (result, muts) := Decision(Committed(store.state), e);
    if |muts| == 1 {
      ApplySingle(store.state, muts[0]);
      assert muts == [muts[0]];
    } else if |muts| == 2 {
      ApplyPair(store.state, muts[0], muts[1]);
      assert muts == [muts[0], muts[1]];
    }
  }

  // -- What stays while the log stands still ---------------------------------------------

  ghost predicate SameLog(s: System, s': System) {
    && s'.epoch == s.epoch && s'.log == s.log && s'.results == s.results && s'.store == s.store
    && s.sent <= s'.sent && s.returned <= s'.returned
  }

  lemma StaysReturned(s: System, s': System, c: ClientId, call: Call, reply: WriteReply)
    requires s.returned <= s'.returned && WasReturned(s, c, call, reply)
    ensures WasReturned(s', c, call, reply)
  {
    var k :| 0 <= k < |s.returned| && s.returned[k] == Return(c, call, reply);
    assert s'.returned[k] == Return(c, call, reply);
  }

  lemma EntryStays(s: System, s': System, c: ClientId, i: nat)
    requires c in s.peers && c in s'.peers && |s.results| == |s.log| && SameLog(s, s')
    requires Cursor(s'.peers[c].stream) == Cursor(s.peers[c].stream)
    requires i < |s.log| && From(s, i, c) && EntryInv(s, c, i)
    ensures EntryInv(s', c, i)
  {
    var r := s.log[i].payload.request;
    if s.results[i].Decided? && r.sequence < Cursor(s.peers[c].stream) {
      StaysReturned(s, s', c, Call(r.sequence, r.op), FromApply(s.results[i]));
    }
  }

  /** A stream whose cursor does not move keeps its copies accounted for. */
  lemma LogStays(s: System, s': System, c: ClientId)
    requires c in s.peers && c in s'.peers && |s.results| == |s.log| && SameLog(s, s')
    requires Cursor(s'.peers[c].stream) == Cursor(s.peers[c].stream) && LogInv(s, c)
    ensures LogInv(s', c)
  {
    forall i | 0 <= i < |s'.log| && From(s', i, c) ensures EntryInv(s', c, i) {
      assert From(s, i, c);
      EntryStays(s, s', c, i);
    }
  }

  lemma DecidedOnceFrames(s: System, s': System, c: ClientId, call: Call, m: MutationResult)
    requires |s.results| == |s.log| && |s'.results| == |s'.log|
    requires s.epoch == s'.epoch && s.log <= s'.log && s.results <= s'.results
    requires DecidedOnce(s, c, call, m)
    ensures DecidedOnce(s', c, call, m)
  {
    var i :| 0 <= i < |s.log| && s.log[i].payload == Normal(RequestOf(s, c, call)) && s.results[i] == Decided(m);
    assert s'.log[i].payload == Normal(RequestOf(s', c, call)) && s'.results[i] == Decided(m);
  }

  lemma RecordStays(s: System, s': System, c: ClientId)
    requires c in s.peers && c in s'.peers && |s.results| == |s.log| && SameLog(s, s') && RecordInv(s, c)
    requires Cursor(s'.peers[c].stream) == Cursor(s.peers[c].stream)
    requires s'.peers[c].stream.pending.Some? ==>
               s'.peers[c].stream.pending == s.peers[c].stream.pending || Highest(s, c) != Cursor(s.peers[c].stream)
    ensures RecordInv(s', c)
  {
    var pending := s'.peers[c].stream.pending;
    if pending.Some? && StreamRecord(s', c).Some? && Highest(s', c) == Cursor(s'.peers[c].stream) {
      DecidedOnceFrames(s, s', c, Call(pending.value.sequence, pending.value.op), StreamRecord(s, c).value.result);
    }
  }

  /** A step of another client. */
  lemma OtherStays(s: System, s': System, c: ClientId)
    requires c in s.peers && c in s'.peers && |s.results| == |s.log| && SameLog(s, s') && ClientInv(s, c)
    requires s'.peers[c] == s.peers[c] && forall r :: r in s'.sent && r.clientId == c ==> r in s.sent
    ensures ClientInv(s', c)
  {
    LogStays(s, s', c);
    RecordStays(s, s', c);
  }

  // -- Starting a call -----------------------------------------------------------------------

  /** Starting never moves the cursor, and what it sends is what it holds pending there. */
  lemma StartFacts(stream: Stream, op: DataOp, fits: bool)
    ensures var (next, started) := Start(stream, op, fits);
            && Cursor(next) == Cursor(stream) && next.exhausted == stream.exhausted
            && (started.NotSent? ==> next.pending == stream.pending)
            && (started.Sent? ==>
                  && next.pending == Some(PendingMutation(started.sequence, op))
                  && (if stream.pending.Some? then next.pending == stream.pending
                      else !stream.exhausted && started.sequence == Cursor(stream)))
  {
  }

  lemma InvokeKeepsStream(s: System, c: ClientId, op: DataOp, fits: bool)
    requires c in s.peers && StreamInv(s, c)
    ensures StreamInv(InvokeNext(s, c, op, fits), c)
  {
    StartFacts(s.peers[c].stream, op, fits);
  }

  lemma InvokeKeepsSent(s: System, c: ClientId, op: DataOp, fits: bool)
    requires c in s.peers && StreamInv(s, c) && SentInv(s, c)
    ensures SentInv(InvokeNext(s, c, op, fits), c)
  {
    StartFacts(s.peers[c].stream, op, fits);
  }

  lemma InvokeFrames(s: System, d: ClientId, op: DataOp, fits: bool, c: ClientId)
    requires d in s.peers && c in s.peers
    ensures var s' := InvokeNext(s, d, op, fits);
            && SameLog(s, s') && c in s'.peers && Cursor(s'.peers[c].stream) == Cursor(s.peers[c].stream)
            && (c != d ==> s'.peers[c] == s.peers[c])
            && (s'.peers[c].stream.pending == s.peers[c].stream.pending || s.peers[c].stream.pending.None?)
            && (forall r :: r in s'.sent ==> r in s.sent || r.clientId == d)
  {
    StartFacts(s.peers[d].stream, op, fits);
  }

  lemma InvokeKeepsClient(s: System, d: ClientId, op: DataOp, fits: bool, c: ClientId)
    requires d in s.peers && c in s.peers && |s.results| == |s.log| && ClientInv(s, c)
    ensures ClientInv(InvokeNext(s, d, op, fits), c)
  {
    var s' := InvokeNext(s, d, op, fits);
    InvokeFrames(s, d, op, fits, c);
    if c != d {
      OtherStays(s, s', c);
    } else {
      InvokeKeepsStream(s, c, op, fits);
      InvokeKeepsSent(s, c, op, fits);
      LogStays(s, s', c);
      RecordStays(s, s', c);
    }
  }

  // -- Appending an entry --------------------------------------------------------------------

  /** What the gate says to a copy of a request of `c`. */
  ghost predicate Outcomes(s: System, e: Entry, result: ApplyResult, c: ClientId)
    requires c in s.peers && e.payload.Normal?
  {
    var r := e.payload.request;
    && r in s.sent
    && (IsMalformed(r.op) ==> result == Rejected(Malformed))
    && (result.Decided? ==> r.sequence == Cursor(s.peers[c].stream) && !IsMalformed(r.op))
    && (!IsMalformed(r.op) && r.sequence == Cursor(s.peers[c].stream) ==>
          if Highest(s, c) == r.sequence then
            StreamRecord(s, c).Some? && result == Replayed(StreamRecord(s, c).value.result)
          else result.Decided?)
  }

  predicate Mine(s: System, e: Entry, c: ClientId) {
    e.payload.Normal? && e.payload.request.clientId == c && e.payload.request.recoveryEpoch == s.epoch
  }

  lemma AppendedOutcome(s: System, e: Entry, c: ClientId)
    requires EpochAt(Committed(s.store.state)) == s.epoch && MayAppend(s, e) && c in s.peers && Mine(s, e, c)
    requires StreamInv(s, c) && SentInv(s, c)
    ensures Outcomes(s, e, StepEntry(s.store, e).0, c)
  {
    var stream := s.peers[c].stream;
    assert stream.exhausted ==> Cursor(stream) > U64_MAX;
  }

  /** The stream record after the entry, if the entry is a copy of a request of `c` or not. */
  ghost predicate RecordMoves(s: System, s': System, e: Entry, result: ApplyResult, c: ClientId) {
    if result.Decided? && Mine(s, e, c)
    then StreamRecord(s', c) == Some(SeqRecord(e.payload.request.sequence, Digest(e.payload.request.op),
                                               result.decided))
    else StreamRecord(s', c) == StreamRecord(s, c)
  }

  ghost predicate Appended(s: System, s': System, e: Entry, result: ApplyResult) {
    && s'.epoch == s.epoch && s'.peers == s.peers && s'.sent == s.sent && s'.returned == s.returned
    && s'.log == s.log + [e] && s'.results == s.results + [result]
  }

  lemma AppendFacts(s: System, e: Entry, c: ClientId)
    requires EpochAt(Committed(s.store.state)) == s.epoch && MayAppend(s, e) && c in s.peers && StreamInv(s, c)
             && SentInv(s, c)
    ensures var s', result := AppendNext(s, e), StepEntry(s.store, e).0;
            && Appended(s, s', e, result) && RecordMoves(s, s', e, result, c)
            && (Mine(s, e, c) ==> Outcomes(s, e, result, c))
  {
    StepFramesStreams(s.store, e, c);
    if Mine(s, e, c) { AppendedOutcome(s, e, c); }
    if e.payload.Normal? && e.payload.request.clientId == c && !Mine(s, e, c) { ForeignEpochRefused(s.store, e); }
  }

  lemma ForeignEpochRefused(store: Store, e: Entry)
    requires e.payload.Normal? && e.payload.request.recoveryEpoch != EpochAt(Committed(store.state))
    ensures !StepEntry(store, e).0.Decided?
  {
  }

  lemma AppendKeepsStream(s: System, s': System, e: Entry, result: ApplyResult, c: ClientId)
    requires c in s.peers && StreamInv(s, c) && SentInv(s, c) && Appended(s, s', e, result)
             && RecordMoves(s, s', e, result, c)
    requires Mine(s, e, c) ==> Outcomes(s, e, result, c)
    ensures StreamInv(s', c)
  {
  }

  lemma AppendKeepsEntry(s: System, s': System, e: Entry, result: ApplyResult, c: ClientId, i: nat)
    requires c in s.peers && |s.results| == |s.log| && Appended(s, s', e, result) && RecordMoves(s, s', e, result, c)
    requires Mine(s, e, c) ==> Outcomes(s, e, result, c)
    requires i < |s.log| && From(s, i, c) && EntryInv(s, c, i)
    ensures EntryInv(s', c, i)
  {
    var r := s.log[i].payload.request;
    assert s'.log[i] == s.log[i] && s'.results[i] == s.results[i];
    if s.results[i].Decided? && r.sequence < Cursor(s.peers[c].stream) {
      StaysReturned(s, s', c, Call(r.sequence, r.op), FromApply(s.results[i]));
    }
  }

  lemma AppendedEntry(s: System, s': System, e: Entry, result: ApplyResult, c: ClientId)
    requires c in s.peers && |s.results| == |s.log| && Appended(s, s', e, result) && RecordMoves(s, s', e, result, c)
    requires Mine(s, e, c) && Outcomes(s, e, result, c)
    ensures EntryInv(s', c, |s.log|)
  {
    assert s'.log[|s.log|] == e && s'.results[|s.log|] == result;
  }

  lemma AppendKeepsLog(s: System, s': System, e: Entry, result: ApplyResult, c: ClientId)
    requires c in s.peers && |s.results| == |s.log| && LogInv(s, c) && Appended(s, s', e, result)
    requires RecordMoves(s, s', e, result, c) && (Mine(s, e, c) ==> Outcomes(s, e, result, c))
    ensures LogInv(s', c)
  {
    forall i | 0 <= i < |s'.log| && From(s', i, c) ensures EntryInv(s', c, i) {
      if i < |s.log| {
        assert From(s, i, c);
        AppendKeepsEntry(s, s', e, result, c, i);
      } else {
        AppendedEntry(s, s', e, result, c);
      }
    }
  }

  lemma AppendKeepsRecord(s: System, s': System, e: Entry, result: ApplyResult, c: ClientId)
    requires c in s.peers && |s.results| == |s.log| && StreamInv(s, c) && SentInv(s, c) && RecordInv(s, c)
    requires Appended(s, s', e, result) && RecordMoves(s, s', e, result, c)
             && (Mine(s, e, c) ==> Outcomes(s, e, result, c))
    ensures RecordInv(s', c)
  {
    var pending := s'.peers[c].stream.pending;
    if pending.Some? && StreamRecord(s', c).Some? && Highest(s', c) == Cursor(s'.peers[c].stream) {
      var call, m := Call(pending.value.sequence, pending.value.op), StreamRecord(s', c).value.result;
      if result.Decided? && Mine(s, e, c) {
        var last := |s.log|;
        assert s'.log[last].payload == Normal(RequestOf(s', c, call)) && s'.results[last] == Decided(m);
      } else {
        DecidedOnceFrames(s, s', c, call, m);
      }
    }
  }

  lemma AppendKeepsClient(s: System, e: Entry, c: ClientId)
    requires |s.results| == |s.log| && EpochAt(Committed(s.store.state)) == s.epoch && MayAppend(s, e)
    requires c in s.peers && ClientInv(s, c)
    ensures ClientInv(AppendNext(s, e), c)
  {
    var s', result := AppendNext(s, e), StepEntry(s.store, e).0;
    AppendFacts(s, e, c);
    AppendKeepsStream(s, s', e, result, c);
    AppendKeepsLog(s, s', e, result, c);
    AppendKeepsRecord(s, s', e, result, c);
  }

  // -- Ending a call ---------------------------------------------------------------------------

  /** A malformed call was never decided, so nothing but malformed requests uses its sequence. */
  lemma MalformedIsUndecided(s: System, c: ClientId)
    requires c in s.peers && |s.results| == |s.log| && StreamInv(s, c) && LogInv(s, c) && RecordInv(s, c)
    requires s.peers[c].stream.pending.Some? && IsMalformed(s.peers[c].stream.pending.value.op)
    ensures Highest(s, c) == Cursor(s.peers[c].stream) - 1
  {
    var pending := s.peers[c].stream.pending.value;
    forall i | 0 <= i < |s.log| && s.log[i].payload == Normal(RequestOf(s, c, Call(pending.sequence, pending.op)))
      ensures !s.results[i].Decided?
    {
      assert From(s, i, c) && EntryInv(s, c, i);
    }
  }

  /** What an active call can be told about a committed copy of its request. */
  lemma ReplyIsTheDecision(s: System, c: ClientId, i: nat)
    requires Inv(s) && Enabled(s, Reply(c, i))
    ensures var call := s.peers[c].call.value;
            if IsMalformed(call.op) then s.results[i] == Rejected(Malformed)
            else
              && Highest(s, c) == call.sequence == Cursor(s.peers[c].stream)
              && StreamRecord(s, c).Some?
              && FromApply(s.results[i]) == FromMutation(StreamRecord(s, c).value.result)
              && DecidedOnce(s, c, call, StreamRecord(s, c).value.result)
  {
    assert ClientInv(s, c);
    assert From(s, i, c) && EntryInv(s, c, i);
  }

  lemma EndFrames(s: System, d: ClientId, reply: ClientReply)
    requires d in s.peers && s.peers[d].call.Some?
    ensures var s' := EndCall(s, d, reply);
            && SameLog(s, s') && s'.sent == s.sent && s'.peers.Keys == s.peers.Keys
            && forall c :: c in s.peers && c != d ==> s'.peers[c] == s.peers[c]
  {
  }

  /** Nothing was learnt: the call was given up, refused, or answered as malformed. */
  predicate Releases(reply: ClientReply) {
    reply == Refused || Inconclusive(reply) || reply == MutationReply(WriteRejected(Malformed))
  }

  /** Ending a call without learning a decision changes at most `pending`. */
  lemma ReleaseFacts(stream: Stream, sequence: Sequence, reply: ClientReply)
    requires Releases(reply)
    ensures var next := Finish(stream, sequence, reply).0;
            && next.next == stream.next && next.exhausted == stream.exhausted
            && next.pending == (if Inconclusive(reply) then stream.pending else None)
  {
  }

  lemma ReleaseKeepsStream(s: System, c: ClientId, reply: ClientReply)
    requires c in s.peers && s.peers[c].call.Some? && Releases(reply) && StreamInv(s, c) && SentInv(s, c)
    requires !Inconclusive(reply) ==>
               IsMalformed(s.peers[c].call.value.op) && Highest(s, c) == Cursor(s.peers[c].stream) - 1
    ensures var s' := EndCall(s, c, reply);
            && StreamInv(s', c) && SentInv(s', c) && Cursor(s'.peers[c].stream) == Cursor(s.peers[c].stream)
            && (s'.peers[c].stream.pending.Some? ==> s'.peers[c].stream.pending == s.peers[c].stream.pending)
  {
    ReleaseFacts(s.peers[c].stream, s.peers[c].call.value.sequence, reply);
  }

  /** Releasing a sequence that was never consumed, or keeping it pending, leaves the stream aligned. */
  lemma ReleaseKeepsClient(s: System, c: ClientId, reply: ClientReply)
    requires c in s.peers && |s.results| == |s.log| && ClientInv(s, c) && s.peers[c].call.Some? && Releases(reply)
    requires !Inconclusive(reply) ==> IsMalformed(s.peers[c].call.value.op)
    ensures ClientInv(EndCall(s, c, reply), c)
    ensures Cursor(EndCall(s, c, reply).peers[c].stream) == Cursor(s.peers[c].stream)
  {
    var s' := EndCall(s, c, reply);
    if !Inconclusive(reply) { MalformedIsUndecided(s, c); }
    ReleaseKeepsStream(s, c, reply);
    EndFrames(s, c, reply);
    LogStays(s, s', c);
    RecordStays(s, s', c);
  }

  /** What learning the decision does: the stream moves past it and the caller has its answer. */
  ghost predicate Advances(s: System, s': System, c: ClientId, reply: WriteReply)
    requires c in s.peers && s.peers[c].call.Some?
  {
    var call := s.peers[c].call.value;
    && c in s'.peers && s'.peers[c].call.None? && s'.peers[c].stream.pending.None?
    && Cursor(s'.peers[c].stream) == call.sequence + 1
    && s'.returned == s.returned + [Return(c, call, reply)]
  }

  lemma DecisionFacts(s: System, c: ClientId, m: MutationResult)
    requires c in s.peers && s.peers[c].call.Some? && StreamInv(s, c)
    ensures Advances(s, EndCall(s, c, MutationReply(FromMutation(m))), c, FromMutation(m))
  {
  }

  lemma DecisionKeepsEntry(s: System, s': System, c: ClientId, m: MutationResult, j: nat)
    requires c in s.peers && |s.results| == |s.log| && s.peers[c].call.Some? && StreamInv(s, c) && SentInv(s, c)
    requires SameLog(s, s') && Advances(s, s', c, FromMutation(m))
    requires StreamRecord(s, c).Some? && StreamRecord(s, c).value.result == m
    requires j < |s.log| && From(s, j, c) && EntryInv(s, c, j)
    ensures EntryInv(s', c, j)
  {
    var r, call := s.log[j].payload.request, s.peers[c].call.value;
    if s.results[j].Decided? {
      if r.sequence == call.sequence {
        assert s'.returned[|s.returned|] == Return(c, Call(r.sequence, r.op), FromApply(s.results[j]));
      } else {
        StaysReturned(s, s', c, Call(r.sequence, r.op), FromApply(s.results[j]));
      }
    }
  }

  /** Learning the decision moves the stream past it, exactly as far as the partition has moved. */
  lemma DecisionKeepsClient(s: System, c: ClientId, m: MutationResult)
    requires c in s.peers && |s.results| == |s.log| && ClientInv(s, c) && s.peers[c].call.Some?
    requires Highest(s, c) == Cursor(s.peers[c].stream) && StreamRecord(s, c).Some?
             && StreamRecord(s, c).value.result == m
    ensures ClientInv(EndCall(s, c, MutationReply(FromMutation(m))), c)
  {
    var s' := EndCall(s, c, MutationReply(FromMutation(m)));
    DecisionFacts(s, c, m);
    EndFrames(s, c, MutationReply(FromMutation(m)));
    forall j | 0 <= j < |s'.log| && From(s', j, c) ensures EntryInv(s', c, j) {
      assert From(s, j, c);
      DecisionKeepsEntry(s, s', c, m, j);
    }
    assert StreamInv(s', c) && SentInv(s', c);
  }

  /** The two ways a call ends, told apart by the invariant. */
  lemma EndIsReleaseOrDecision(s: System, ev: Event)
    requires Inv(s) && Enabled(s, ev) && IsEnd(ev)
    ensures var c, reply := ev.client, EndReply(s, ev);
            || (Releases(reply) && (!Inconclusive(reply) ==> IsMalformed(s.peers[c].call.value.op)))
            || (&& StreamRecord(s, c).Some? && Highest(s, c) == Cursor(s.peers[c].stream)
                && reply == MutationReply(FromMutation(StreamRecord(s, c).value.result)))
  {
    if ev.Reply? { ReplyIsTheDecision(s, ev.client, ev.position); }
  }

  lemma EndKeepsClient(s: System, ev: Event, c: ClientId)
    requires Inv(s) && Enabled(s, ev) && IsEnd(ev) && c in s.peers
    ensures ClientInv(EndCall(s, ev.client, EndReply(s, ev)), c)
  {
    var reply := EndReply(s, ev);
    assert ClientInv(s, c);
    EndFrames(s, ev.client, reply);
    EndIsReleaseOrDecision(s, ev);
    if c != ev.client {
      OtherStays(s, EndCall(s, ev.client, reply), c);
    } else if Releases(reply) {
      ReleaseKeepsClient(s, c, reply);
    } else {
      DecisionKeepsClient(s, c, StreamRecord(s, c).value.result);
    }
  }

  lemma NextKeepsClient(s: System, ev: Event, c: ClientId)
    requires Inv(s) && Enabled(s, ev) && c in s.peers
    ensures ClientInv(Next(s, ev), c)
  {
    assert ClientInv(s, c);
    match ev
    case Invoke(d, op, fits) => InvokeKeepsClient(s, d, op, fits, c);
    case Append(e) => AppendKeepsClient(s, e, c);
    case _ => EndKeepsClient(s, ev, c);
  }

  lemma EndKeepsCursor(s: System, ev: Event, c: ClientId)
    requires Inv(s) && Enabled(s, ev) && IsEnd(ev) && c in s.peers
    ensures Cursor(EndCall(s, ev.client, EndReply(s, ev)).peers[c].stream) >= Cursor(s.peers[c].stream)
  {
    var reply := EndReply(s, ev);
    EndFrames(s, ev.client, reply);
    if c == ev.client {
      assert ClientInv(s, c);
      EndIsReleaseOrDecision(s, ev);
      if Releases(reply) {
        ReleaseFacts(s.peers[c].stream, s.peers[c].call.value.sequence, reply);
      } else {
        DecisionFacts(s, c, StreamRecord(s, c).value.result);
      }
    }
  }

  lemma CursorNeverRewinds(s: System, ev: Event, c: ClientId)
    requires Inv(s) && Enabled(s, ev) && c in s.peers
    ensures Cursor(Next(s, ev).peers[c].stream) >= Cursor(s.peers[c].stream)
  {
    match ev
    case Invoke(d, op, fits) => InvokeFrames(s, d, op, fits, c);
    case Append(e) =>
    case _ => EndKeepsCursor(s, ev, c);
  }

  ghost predicate Extends(s: System, s': System) {
    && s'.epoch == s.epoch && s'.peers.Keys == s.peers.Keys && |s'.results| == |s'.log|
    && s.log <= s'.log && s.results <= s'.results && s.returned <= s'.returned
  }

  lemma NextExtends(s: System, ev: Event)
    requires |s.results| == |s.log| && Enabled(s, ev)
    ensures Extends(s, Next(s, ev))
  {
  }

  lemma ReturnFrames(s: System, s': System, k: nat)
    requires |s.results| == |s.log| && Extends(s, s') && k < |s.returned| && ReturnInv(s, k)
    requires Cursor(s'.peers[s.returned[k].client].stream) >= Cursor(s.peers[s.returned[k].client].stream)
    ensures ReturnInv(s', k)
  {
    var ret := s.returned[k];
    assert s'.returned[k] == ret;
    if !ret.reply.WriteRejected? {
      var m :| ret.reply == FromMutation(m) && DecidedOnce(s, ret.client, ret.call, m);
      DecidedOnceFrames(s, s', ret.client, ret.call, m);
    }
  }

  lemma OldReturnKept(s: System, ev: Event, k: nat)
    requires Inv(s) && Enabled(s, ev) && k < |s.returned|
    ensures Extends(s, Next(s, ev)) && ReturnInv(Next(s, ev), k)
  {
    NextExtends(s, ev);
    assert ReturnInv(s, k);
    CursorNeverRewinds(s, ev, s.returned[k].client);
    ReturnFrames(s, Next(s, ev), k);
  }

  lemma OnlyRepliesReturn(s: System, ev: Event)
    requires Enabled(s, ev) && |Next(s, ev).returned| > |s.returned|
    ensures ev.Reply?
    ensures Next(s, ev).returned
         == s.returned + [Return(ev.client, s.peers[ev.client].call.value, FromApply(s.results[ev.position]))]
  {
  }

  lemma DecisionAdvances(s: System, ev: Event, m: MutationResult)
    requires Enabled(s, ev) && ev.Reply? && FromApply(s.results[ev.position]) == FromMutation(m)
    requires s.peers[ev.client].call.value.sequence == Cursor(s.peers[ev.client].stream)
    ensures Cursor(Next(s, ev).peers[ev.client].stream) > s.peers[ev.client].call.value.sequence
  {
  }

  lemma NewReturnDecided(s: System, ev: Event)
    requires Inv(s) && Enabled(s, ev) && |Next(s, ev).returned| > |s.returned|
    ensures Extends(s, Next(s, ev)) && ReturnInv(Next(s, ev), |s.returned|)
  {
    var s', c := Next(s, ev), ev.client;
    var call := s.peers[c].call.value;
    NextExtends(s, ev);
    OnlyRepliesReturn(s, ev);
    ReplyIsTheDecision(s, c, ev.position);
    if !IsMalformed(call.op) {
      var m := StreamRecord(s, c).value.result;
      DecisionAdvances(s, ev, m);
      DecidedOnceFrames(s, s', c, call, m);
    }
  }

  lemma NextKeepsReturns(s: System, ev: Event, k: nat)
    requires Inv(s) && Enabled(s, ev) && k < |Next(s, ev).returned|
    ensures ReturnInv(Next(s, ev), k)
  {
    if k < |s.returned| {
      OldReturnKept(s, ev, k);
    } else {
      NewReturnDecided(s, ev);
    }
  }

  lemma NextKeepsOrder(s: System, ev: Event)
    requires Inv(s) && Enabled(s, ev)
    ensures ReturnsAscend(Next(s, ev))
  {
    var s' := Next(s, ev);
    if |s'.returned| > |s.returned| {
      var c := ev.client;
      ReplyIsTheDecision(s, c, ev.position);
      forall i | 0 <= i < |s.returned| && s.returned[i].client == c && !s.returned[i].reply.WriteRejected?
        ensures s.returned[i].call.sequence < Cursor(s.peers[c].stream)
      {
        assert ReturnInv(s, i);
      }
    }
  }

  lemma NextKeepsInv(s: System, ev: Event)
    requires Inv(s) && Enabled(s, ev)
    ensures Inv(Next(s, ev))
  {
    var s' := Next(s, ev);
    forall c | c in s'.peers ensures ClientInv(s', c) { NextKeepsClient(s, ev, c); }
    forall k | 0 <= k < |s'.returned| ensures ReturnInv(s', k) { NextKeepsReturns(s, ev, k); }
    NextKeepsOrder(s, ev);
    if ev.Append? { StepFramesStreams(s.store, ev.entry, 0); }
  }

  lemma {:induction false} RunKeepsInv(s: System, events: seq<Event>, end: System)
    requires Inv(s) && Run(s, events, end)
    ensures Inv(end)
    decreases |events|
  {
    if events != [] {
      NextKeepsInv(s, events[0]);
      RunKeepsInv(Next(s, events[0]), events[1..], end);
    }
  }

  // -- The gate alone: a sequence is decided at most once -----------------------------------

  /** The stored results are those of the applier, so everything here holds of the coalesced path too. */
  ghost predicate AppliedLog(start: Store, s: System) {
    PerEntry(start, s.log) == Outcome(s.results, s.store)
  }

  lemma {:induction false} RunIsApplied(start: Store, s: System, events: seq<Event>, end: System)
    requires AppliedLog(start, s) && Run(s, events, end)
    ensures AppliedLog(start, end)
    decreases |events|
  {
    if events != [] {
      if events[0].Append? { PerEntrySnoc(start, s.log, events[0].entry); }
      RunIsApplied(start, Next(s, events[0]), events[1..], end);
    }
  }

  /** Each decided position of a client's sequence number is at most its stored highest, and they are pairwise
      distinct. */
  ghost predicate UniqueDecisions(s: System) {
    && |s.results| == |s.log|
    && (forall i :: 0 <= i < |s.log| && s.results[i].Decided? ==>
          && s.log[i].payload.Normal?
          && s.log[i].payload.request.sequence <= Highest(s, s.log[i].payload.request.clientId))
    && (forall i, j :: 0 <= i < j < |s.log| && s.results[i].Decided? && s.results[j].Decided? ==>
          s.log[i].payload.Normal? && s.log[j].payload.Normal?
          && (s.log[i].payload.request.clientId == s.log[j].payload.request.clientId ==>
                s.log[i].payload.request.sequence < s.log[j].payload.request.sequence))
  }

  /** A decided request is above everything its client's record knew. */
  lemma DecidedIsNew(store: Store, e: Entry)
    requires StepEntry(store, e).0.Decided?
    ensures e.payload.Normal?
    ensures var record := SeqRecordAt(Committed(store.state), e.payload.request.clientId);
            e.payload.request.sequence > (if record.Some? then record.value.highest else 0)
  {
  }

  lemma AppendKeepsHighest(s: System, e: Entry, c: ClientId)
    ensures Highest(AppendNext(s, e), c) >= Highest(s, c)
    ensures StepEntry(s.store, e).0.Decided? ==>
              e.payload.Normal? && (e.payload.request.clientId == c ==>
                Highest(s, c) < e.payload.request.sequence == Highest(AppendNext(s, e), c))
  {
    StepFramesStreams(s.store, e, c);
    if StepEntry(s.store, e).0.Decided? { DecidedIsNew(s.store, e); }
  }

  lemma AppendKeepsUnique(s: System, e: Entry)
    requires UniqueDecisions(s)
    ensures UniqueDecisions(AppendNext(s, e))
  {
    forall c ensures Highest(AppendNext(s, e), c) >= Highest(s, c) { AppendKeepsHighest(s, e, c); }
    if StepEntry(s.store, e).0.Decided? {
      DecidedIsNew(s.store, e);
      AppendKeepsHighest(s, e, e.payload.request.clientId);
    }
  }

  lemma NextKeepsUnique(s: System, ev: Event)
    requires UniqueDecisions(s) && Enabled(s, ev)
    ensures UniqueDecisions(Next(s, ev))
  {
    if ev.Append? { AppendKeepsUnique(s, ev.entry); }
  }

  lemma {:induction false} RunKeepsUnique(s: System, events: seq<Event>, end: System)
    requires UniqueDecisions(s) && Run(s, events, end)
    ensures UniqueDecisions(end)
    decreases |events|
  {
    if events != [] {
      NextKeepsUnique(s, events[0]);
      RunKeepsUnique(Next(s, events[0]), events[1..], end);
    }
  }

  // -- Main results ---------------------------------------------------------------------------

  /** An answered call was refused as malformed, or has a deciding log position with the answered result. */
  ghost predicate Answered(s: System, ret: Return)
    requires |s.results| == |s.log|
  {
    match ret.reply
    case WriteApplied(version) => DecidedOnce(s, ret.client, ret.call, Applied(version))
    case WriteConditionFailed(current) => DecidedOnce(s, ret.client, ret.call, ConditionFailed(current))
    case WriteRejected(reason) => reason == Malformed && IsMalformed(ret.call.op)
  }

  /** What a caller is told of a decision. */
  ghost predicate Tells(reply: WriteReply, result: ApplyResult) {
    && (forall version :: result == Decided(Applied(version)) ==> reply == WriteApplied(version))
    && (forall current :: result == Decided(ConditionFailed(current)) ==> reply == WriteConditionFailed(current))
  }

  /** A decided request of a client of the system was answered, or its client still holds it pending. */
  ghost predicate Accounted(s: System, i: nat)
    requires i < |s.log| && i < |s.results|
  {
    s.results[i].Decided? && s.log[i].payload.Normal? ==>
      var r := s.log[i].payload.request;
      From(s, i, r.clientId) && r.clientId in s.peers ==>
        || (exists reply :: WasReturned(s, r.clientId, Call(r.sequence, r.op), reply) && Tells(reply, s.results[i]))
        || s.peers[r.clientId].stream.pending == Some(PendingMutation(r.sequence, r.op))
  }

  lemma EveryReturnAnswers(s: System, k: nat)
    requires Inv(s) && k < |s.returned|
    ensures Answered(s, s.returned[k])
  {
    assert ReturnInv(s, k);
  }

  lemma EveryDecisionIsAccounted(s: System, i: nat)
    requires Inv(s) && i < |s.log|
    ensures Accounted(s, i)
  {
    if s.results[i].Decided? && s.log[i].payload.Normal? {
      var c := s.log[i].payload.request.clientId;
      if From(s, i, c) && c in s.peers {
        assert ClientInv(s, c);
        assert EntryInv(s, c, i);
        assert Tells(FromApply(s.results[i]), s.results[i]);
      }
    }
  }

  /** Exactly once: after any run, every answered call has one and only one deciding log position, with the
      answered result; every other decided request is the one its client still holds pending; and no call
      was ever told of a gap, a mismatch, a stale or an exhausted sequence. */
  lemma ExactlyOnceEndToEnd(s: System, events: seq<Event>, end: System)
    requires Initial(s) && Run(s, events, end)
    ensures PerEntry(s.store, end.log) == Outcome(end.results, end.store)
    ensures UniqueDecisions(end) && ReturnsAscend(end)
    ensures forall k :: 0 <= k < |end.returned| ==> Answered(end, end.returned[k])
    ensures forall i :: 0 <= i < |end.log| ==> Accounted(end, i)
  {
    InitialInv(s);
    RunKeepsInv(s, events, end);
    RunIsApplied(s.store, s, events, end);
    RunKeepsUnique(s, events, end);
    forall k | 0 <= k < |end.returned| ensures Answered(end, end.returned[k]) { EveryReturnAnswers(end, k); }
    forall i | 0 <= i < |end.log| ensures Accounted(end, i) { EveryDecisionIsAccounted(end, i); }
  }

  // -- Every call can be answered -------------------------------------------------------------------

  /** The operation a caller may invoke: a retry of the pending one, or any if there is none. */
  predicate MayInvoke(stream: Stream, op: DataOp) {
    stream.pending.Some? ==> stream.pending.value.op == op
  }

  /** A request that fits is sent exactly if it retries the pending mutation, at the pending sequence, or nothing is
      pending and the stream has a sequence left, at the cursor. One that is not sent leaves the pending mutation and
      the cursor alone. */
  lemma SentExactly(stream: Stream, op: DataOp, fits: bool, n: Sequence)
    ensures Start(stream, op, fits).1 == Sent(n) <==>
              && fits
              && (if stream.pending.Some? then stream.pending.value == PendingMutation(n, op)
                  else n == Cursor(stream))
    ensures Start(stream, op, fits).1.NotSent? ==>
              Start(stream, op, fits).0.pending == stream.pending && Cursor(Start(stream, op, fits).0) == Cursor(stream)
    ensures stream.pending.Some? ==> Start(stream, op, fits).0 == stream
  {
    ChoiceExactly(stream, op, n);
  }

  /** Everything but the peer of `c` is as it was. */
  ghost predicate OnlyPeer(s: System, s': System, c: ClientId) {
    c in s'.peers && s' == s.(peers := s.peers[c := s'.peers[c]], sent := s'.sent)
  }

  lemma InvokeSends(s: System, c: ClientId, op: DataOp)
    requires Inv(s) && c in s.peers && MayInvoke(s.peers[c].stream, op) && Cursor(s.peers[c].stream) <= U64_MAX
    ensures var s' := InvokeNext(s, c, op, true);
            && OnlyPeer(s, s', c) && s'.peers[c].call == Some(Call(Cursor(s.peers[c].stream), op))
            && Cursor(s'.peers[c].stream) == Cursor(s.peers[c].stream)
            && RequestOf(s, c, s'.peers[c].call.value) in s'.sent
  {
    assert ClientInv(s, c);
    SentExactly(s.peers[c].stream, op, true, Cursor(s.peers[c].stream));
    StartFacts(s.peers[c].stream, op, true);
  }

  function FreshEntry(s: System, request: DataRequest): Entry {
    Entry(LogId(0, if s.log == [] then 0 else s.log[|s.log| - 1].logId.index + 1), Normal(request))
  }

  /** `s'` is `s` with one more entry in the log and the call of `c`, for `op` at the cursor, answered. */
  ghost predicate Resolves(s: System, s': System, c: ClientId, op: DataOp)
    requires c in s.peers
  {
    && c in s'.peers && s'.peers == s.peers[c := s'.peers[c]] && |s'.log| == |s.log| + 1 && s.log <= s'.log
    && s'.peers[c].call.None? && s'.peers[c].stream.pending.None?
    && Cursor(s.peers[c].stream) <= U64_MAX && |s'.returned| == |s.returned| + 1 && s.returned <= s'.returned
    && var answer := s'.returned[|s.returned|];
    && answer.client == c && answer.call == Call(Cursor(s.peers[c].stream), op)
    && (if IsMalformed(op)
        then answer.reply == WriteRejected(Malformed) && Cursor(s'.peers[c].stream) == Cursor(s.peers[c].stream)
        else !answer.reply.WriteRejected? && Cursor(s'.peers[c].stream) == Cursor(s.peers[c].stream) + 1)
  }

  lemma ReplyResolves(s: System, c: ClientId, i: nat)
    requires Inv(s) && Enabled(s, Reply(c, i))
    ensures var s', call := Next(s, Reply(c, i)), s.peers[c].call.value;
            && s' == s.(peers := s.peers[c := s'.peers[c]], returned := s'.returned)
            && s'.peers[c].call.None? && s'.peers[c].stream.pending.None?
            && (if IsMalformed(call.op)
                then s'.returned == s.returned + [Return(c, call, WriteRejected(Malformed))]
                     && Cursor(s'.peers[c].stream) == Cursor(s.peers[c].stream)
                else s'.returned == s.returned + [Return(c, call, FromApply(s.results[i]))]
                     && !FromApply(s.results[i]).WriteRejected?
                     && Cursor(s'.peers[c].stream) == Cursor(s.peers[c].stream) + 1)
  {
    ReplyIsTheDecision(s, c, i);
    assert ClientInv(s, c);
    var call := s.peers[c].call.value;
    if IsMalformed(call.op) {
      ReleaseFacts(s.peers[c].stream, call.sequence, MutationReply(WriteRejected(Malformed)));
    } else {
      DecisionFacts(s, c, StreamRecord(s, c).value.result);
    }
  }

  lemma OneStep(s: System, ev: Event)
    requires Enabled(s, ev)
    ensures Run(s, [ev], Next(s, ev))
  {
    assert [ev][1..] == [];
  }

  lemma ThenRun(s: System, ev: Event, events: seq<Event>, end: System)
    requires Enabled(s, ev) && Run(Next(s, ev), events, end)
    ensures Run(s, [ev] + events, end)
  {
    assert ([ev] + events)[1..] == events;
  }

  lemma ResolvesBefore(s: System, mid: System, end: System, c: ClientId, op: DataOp)
    requires c in s.peers && c in mid.peers && mid.peers == s.peers[c := mid.peers[c]]
    requires mid.log == s.log && mid.returned == s.returned
    requires Cursor(mid.peers[c].stream) == Cursor(s.peers[c].stream) && Resolves(mid, end, c, op)
    ensures Resolves(s, end, c, op)
  {
    assert mid.peers[c := end.peers[c]] == s.peers[c := end.peers[c]];
  }

  lemma AppendIsReplied(s: System, c: ClientId, e: Entry)
    requires Inv(s) && c in s.peers && s.peers[c].call.Some? && MayAppend(s, e)
    requires e.payload == Normal(RequestOf(s, c, s.peers[c].call.value))
    ensures Enabled(AppendNext(s, e), Reply(c, |s.log|))
  {
  }

  /** One copy into the log, and its reply. */
  lemma SentIsAnswered(s: System, c: ClientId) returns (more: seq<Event>, end: System)
    requires Inv(s) && c in s.peers && s.peers[c].call.Some? && RequestOf(s, c, s.peers[c].call.value) in s.sent
    ensures Run(s, more, end) && Inv(end) && Resolves(s, end, c, s.peers[c].call.value.op)
  {
    assert ClientInv(s, c);
    var e, i := FreshEntry(s, RequestOf(s, c, s.peers[c].call.value)), |s.log|;
    var appended := AppendNext(s, e);
    NextKeepsInv(s, Append(e));
    AppendIsReplied(s, c, e);
    ReplyResolves(appended, c, i);
    NextKeepsInv(appended, Reply(c, i));
    end := Next(appended, Reply(c, i));
    OneStep(appended, Reply(c, i));
    ThenRun(s, Append(e), [Reply(c, i)], end);
    more := [Append(e)] + [Reply(c, i)];
  }

  lemma InvokedIsAnswered(s: System, c: ClientId, op: DataOp) returns (more: seq<Event>, end: System)
    requires Inv(s) && c in s.peers && s.peers[c].call.None?
    requires MayInvoke(s.peers[c].stream, op) && Cursor(s.peers[c].stream) <= U64_MAX
    ensures Run(s, more, end) && Inv(end) && Resolves(s, end, c, op)
  {
    var invoked := InvokeNext(s, c, op, true);
    InvokeSends(s, c, op);
    NextKeepsInv(s, Invoke(c, op, true));
    var rest, last := SentIsAnswered(invoked, c);
    ThenRun(s, Invoke(c, op, true), rest, last);
    ResolvesBefore(s, invoked, last, c, op);
    more, end := [Invoke(c, op, true)] + rest, last;
  }

  lemma {:induction false} RunConcat(s: System, a: seq<Event>, mid: System, b: seq<Event>, end: System)
    requires Run(s, a, mid) && Run(mid, b, end)
    ensures Run(s, a + b, end)
    decreases |a|
  {
    if a == [] {
      assert a + b == b;
    } else {
      assert (a + b)[1..] == a[1..] + b;
      RunConcat(Next(s, a[0]), a[1..], mid, b, end);
    }
  }

  /** Giving the present call up, if there is one, frees the stream and changes nothing else. */
  lemma CallCanEnd(s: System, c: ClientId) returns (more: seq<Event>, end: System)
    requires Inv(s) && c in s.peers
    ensures Run(s, more, end) && Inv(end) && end == s.(peers := s.peers[c := Peer(s.peers[c].stream, None)])
  {
    if s.peers[c].call.None? {
      more, end := [], s;
      assert s.peers[c := Peer(s.peers[c].stream, None)] == s.peers;
    } else {
      var quit := GiveUp(c, Ambiguous);
      NextKeepsInv(s, quit);
      more, end := [quit], Next(s, quit);
      OneStep(s, quit);
    }
  }

  /** The stream never wedges: after every run, whatever was lost, given up or duplicated, a client that retries its
      pending operation, or invokes any operation if nothing is pending, can be answered, as long as its stream has a
      sequence left. A well-formed operation is decided and moves the stream on; a malformed one is refused and
      releases its sequence. */
  lemma StreamNeverWedges(s: System, events: seq<Event>, reached: System, c: ClientId, op: DataOp)
    returns (more: seq<Event>, end: System)
    requires Initial(s) && Run(s, events, reached) && c in reached.peers
    requires MayInvoke(reached.peers[c].stream, op) && Cursor(reached.peers[c].stream) <= U64_MAX
    ensures Run(s, events + more, end) && Resolves(reached, end, c, op)
  {
    InitialInv(s);
    RunKeepsInv(s, events, reached);
    var quit, idle := CallCanEnd(reached, c);
    var rest, last := InvokedIsAnswered(idle, c, op);
    RunConcat(reached, quit, idle, rest, last);
    ResolvesBefore(reached, idle, last, c, op);
    more, end := quit + rest, last;
    RunConcat(s, events, reached, more, end);
  }

  /** Any other operation is kept back, with the stream as it is, until the pending one has been answered; then it is
      answered in turn. */
  lemma OthersWaitTheirTurn(s: System, events: seq<Event>, reached: System, c: ClientId, op: DataOp)
    returns (more: seq<Event>, mid: System, end: System)
    requires Initial(s) && Run(s, events, reached) && c in reached.peers
    requires !MayInvoke(reached.peers[c].stream, op) && Cursor(reached.peers[c].stream) < U64_MAX
    ensures Start(reached.peers[c].stream, op, true) == (reached.peers[c].stream, NotSent)
    ensures Run(s, events + more, end)
    ensures Resolves(reached, mid, c, reached.peers[c].stream.pending.value.op) && Resolves(mid, end, c, op)
  {
    var stream := reached.peers[c].stream;
    if Start(stream, op, true).1.Sent? { SentExactly(stream, op, true, Start(stream, op, true).1.sequence); }
    SentExactly(stream, op, true, 0);
    var first, after := StreamNeverWedges(s, events, reached, c, stream.pending.value.op);
    var second, last := StreamNeverWedges(s, events + first, after, c, op);
    assert events + first + second == events + (first + second);
    more, mid, end := first + second, after, last;
  }
}
