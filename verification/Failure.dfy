/** Failure detection (src/meta/failure.rs): the liveness classifier, the heartbeat tracker, and the
    exact evidence behind every transition it proposes. Times and timeouts are whole milliseconds. */
module Failure {
  import opened Types

  datatype Timeouts = Timeouts(suspect: nat, down: nat)

  datatype Liveness = Alive | Suspected | Dead

  function Classify(silence: nat, timeouts: Timeouts): Liveness {
    if silence >= timeouts.down then Dead else if silence >= timeouts.suspect then Suspected else Alive
  }

  function NextState(current: NodeState, evidence: Liveness): Option<NodeState> {
    match (current, evidence)
    case (Suspect, Alive) => Some(Active)
    case (Active, Suspected) => Some(Suspect)
    case (Active, Dead) => Some(Down)
    case (Suspect, Dead) => Some(Down)
    case _ => None
  }

  function SaturatingSub(a: nat, b: nat): nat {
    if a < b then 0 else a - b
  }

  // -- One node's evidence ----------------------------------------------------------------------

  datatype Stamp = Stamp(incarnation: nat, process: nat, sequence: nat)

  /** What the tracker's four maps hold about one node. */
  datatype Slot = Slot(
    stamp: Option<Stamp>,
    seen: Option<nat>,
    unobserved: Option<(nat, nat)>,
    grace: Option<(nat, nat)>)

  const EMPTY_SLOT: Slot := Slot(None, None, None, None)

  /** A heartbeat that is neither stale nor replayed. */
  predicate Fresh(slot: Slot, beat: Stamp) {
    slot.stamp.None? ||
    var last := slot.stamp.value;
    || beat.incarnation > last.incarnation
    || (beat.incarnation == last.incarnation
        && (beat.process > last.process || (beat.process == last.process && beat.sequence > last.sequence)))
  }

  predicate GraceFor(slot: Slot, incarnation: nat) {
    slot.grace.Some? && slot.grace.value.0 == incarnation
  }

  function Refreshed(slot: Slot, beat: Stamp, now: nat): Slot {
    slot.(stamp := Some(beat), seen := Some(now),
          grace := if GraceFor(slot, beat.incarnation) then None else slot.grace)
  }

  predicate HasHeartbeat(slot: Slot, incarnation: nat) {
    slot.stamp.Some? && slot.stamp.value.incarnation == incarnation
  }

  datatype Decision = Decision(slot: Slot, next: Option<NodeState>)

  /** The end of a maintenance grace: it becomes the silence of a node never heard from. */
  function GraceSpent(slot: Slot, incarnation: nat): Slot {
    if GraceFor(slot, incarnation) && !HasHeartbeat(slot, incarnation)
    then slot.(grace := None, unobserved := slot.grace) else slot.(grace := None)
  }

  /** `silence_ms`: the slot it leaves and the silence, None when a grace period starts. */
  function Silence(slot: Slot, incarnation: nat, now: nat): (Slot, Option<nat>) {
    if HasHeartbeat(slot, incarnation) then
      (slot.(unobserved := None), if slot.seen.Some? then Some(SaturatingSub(now, slot.seen.value)) else None)
    else if slot.unobserved.Some? && slot.unobserved.value.0 == incarnation then
      (slot, Some(SaturatingSub(now, slot.unobserved.value.1)))
    else (slot.(unobserved := Some((incarnation, now))), None)
  }

  /** `evaluate` for one directory entry. */
  function Decide(slot: Slot, current: NodeState, incarnation: nat, now: nat, timeouts: Timeouts): Decision {
    if GraceFor(slot, incarnation) && SaturatingSub(now, slot.grace.value.1) < timeouts.down then Decision(slot, None)
    else
      var spent := GraceSpent(slot, incarnation);
      var (after, silence) := Silence(spent, incarnation, now);
      if silence.None? then Decision(after, None)
      else
        var evidence := Classify(silence.value, timeouts);
        if !HasHeartbeat(spent, incarnation) && evidence == Alive then Decision(after, None)
        else Decision(after, NextState(current, evidence))
  }

  // -- One node's history -----------------------------------------------------------------------

  /** What happened to one node's slot. Unlisted: a directory listing without the node. */
  datatype Event =
    | Heard(beat: Stamp, now: nat)
    | Suspended(incarnation: nat, now: nat)
    | Evaluated(state: NodeState, incarnation: nat, now: nat, timeouts: Timeouts)
    | Unlisted(now: nat)

  function After(slot: Slot, e: Event): Slot {
    match e
    case Heard(beat, now) => Refreshed(slot, beat, now)
    case Suspended(incarnation, now) => slot.(grace := Some((incarnation, now)))
    case Evaluated(state, incarnation, now, timeouts) => Decide(slot, state, incarnation, now, timeouts).slot
    case Unlisted(_) => EMPTY_SLOT
  }

  function RunFrom(slot: Slot, events: seq<Event>): Slot {
    if events == [] then slot else After(RunFrom(slot, events[..|events| - 1]), events[|events| - 1])
  }

  function Run(events: seq<Event>): Slot {
    RunFrom(EMPTY_SLOT, events)
  }

  lemma {:induction false} RunConcat(slot: Slot, a: seq<Event>, b: seq<Event>)
    ensures RunFrom(slot, a + b) == RunFrom(RunFrom(slot, a), b)
  {
    if b == [] {
      assert a + b == a;
    } else {
      assert (a + b)[..|a + b| - 1] == a + b[..|b| - 1];
      RunConcat(slot, a, b[..|b| - 1]);
    }
  }

  // -- Which heartbeats are accepted ------------------------------------------------------------

  /** In order of incarnation, then of process, then of sequence. */
  predicate Precedes(a: Stamp, b: Stamp) {
    if a.incarnation != b.incarnation then a.incarnation < b.incarnation
    else if a.process != b.process then a.process < b.process
    else a.sequence < b.sequence
  }

  /** `beat` comes after every heartbeat since the node was last forgotten. */
  ghost predicate AfterAll(events: seq<Event>, beat: Stamp) {
    if events == [] || events[|events| - 1].Unlisted? then true
    else
      && (events[|events| - 1].Heard? ==> Precedes(events[|events| - 1].beat, beat))
      && AfterAll(events[..|events| - 1], beat)
  }

  /** Every heartbeat was fresh when it came. */
  ghost predicate Ascends(events: seq<Event>) {
    events != [] ==>
      && Ascends(events[..|events| - 1])
      && (events[|events| - 1].Heard? ==> Fresh(Run(events[..|events| - 1]), events[|events| - 1].beat))
  }

  lemma {:induction false} AfterAllLater(events: seq<Event>, a: Stamp, b: Stamp)
    requires AfterAll(events, a) && Precedes(a, b)
    ensures AfterAll(events, b)
  {
    if events != [] && !events[|events| - 1].Unlisted? {
      AfterAllLater(events[..|events| - 1], a, b);
    }
  }

  lemma StampStays(slot: Slot, e: Event)
    requires e.Suspended? || e.Evaluated?
    ensures After(slot, e).stamp == slot.stamp
  {
  }

  /** A heartbeat is fresh exactly if it comes after all that were accepted since the node was last forgotten. */
  lemma {:induction false} FreshExactly(events: seq<Event>, beat: Stamp)
    requires Ascends(events)
    ensures Fresh(Run(events), beat) <==> AfterAll(events, beat)
  {
    if events != [] {
      var init, e := events[..|events| - 1], events[|events| - 1];
      FreshExactly(init, beat);
      if e.Heard? {
        FreshExactly(init, e.beat);
        if Precedes(e.beat, beat) { AfterAllLater(init, e.beat, beat); }
      } else if !e.Unlisted? {
        StampStays(Run(init), e);
      }
    }
  }

  lemma {:induction false} UnheardAscends(a: seq<Event>, b: seq<Event>)
    requires Ascends(a) && forall k :: 0 <= k < |b| ==> !b[k].Heard?
    ensures Ascends(a + b)
  {
    if b == [] {
      assert a + b == a;
    } else {
      assert (a + b)[..|a + b| - 1] == a + b[..|b| - 1];
      UnheardAscends(a, b[..|b| - 1]);
    }
  }

  // -- The tracker ------------------------------------------------------------------------------------

  type Listing = seq<(NodeId, NodeState, nat)>

  predicate OnePerNode(states: Listing) {
    forall j, k :: 0 <= j < k < |states| ==> states[j].0 != states[k].0
  }

  function Known(states: Listing): set<NodeId> {
    set k | 0 <= k < |states| :: states[k].0
  }

  function Retain<V>(m: map<NodeId, V>, known: set<NodeId>): (r: map<NodeId, V>)
    ensures r.Keys <= m.Keys && |r| <= |m|
    ensures forall n :: n in r <==> n in m && n in known
    ensures forall n :: n in r ==> r[n] == m[n]
  {
    var r := map n | n in m && n in known :: m[n];
    assert |m.Keys| == |r.Keys| + |m.Keys - r.Keys| by { assert m.Keys == r.Keys + (m.Keys - r.Keys); }
    r
  }

  function Get<V>(m: map<NodeId, V>, n: NodeId): Option<V> {
    if n in m then Some(m[n]) else None
  }

  /** A call on the tracker that had an effect. */
  datatype Call =
    | Observed(node: NodeId, beat: Stamp, now: nat)
    | SuspendedAll(now: nat, states: Listing)
    | EvaluatedAll(now: nat, timeouts: Timeouts, states: Listing)

  function Suspensions(states: Listing, n: NodeId, now: nat): seq<Event> {
    if states == [] then []
    else
      var last := states[|states| - 1];
      Suspensions(states[..|states| - 1], n, now) + (if last.0 == n then [Suspended(last.2, now)] else [])
  }

  function Evaluations(states: Listing, n: NodeId, now: nat, timeouts: Timeouts): seq<Event> {
    if states == [] then []
    else
      var last := states[|states| - 1];
      Evaluations(states[..|states| - 1], n, now, timeouts)
          + (if last.0 == n then [Evaluated(last.1, last.2, now, timeouts)] else [])
  }

  /** What a call is to node `n`. */
  function EventsOf(c: Call, n: NodeId): seq<Event> {
    match c
    case Observed(node, beat, now) => if node == n then [Heard(beat, now)] else []
    case SuspendedAll(now, states) => if n in Known(states) then Suspensions(states, n, now) else [Unlisted(now)]
    case EvaluatedAll(now, timeouts, states) =>
      if n in Known(states) then Evaluations(states, n, now, timeouts) else [Unlisted(now)]
  }

  function HistoryOf(calls: seq<Call>, n: NodeId): seq<Event> {
    if calls == [] then [] else HistoryOf(calls[..|calls| - 1], n) + EventsOf(calls[|calls| - 1], n)
  }

  class HeartbeatTracker {
    var lastSeen: map<NodeId, nat>
    var lastStamp: map<NodeId, Stamp>
    var unobservedSince: map<NodeId, (nat, nat)>
    var graceSince: map<NodeId, (nat, nat)>
    ghost var calls: seq<Call>

    /** Few nodes are tracked, and what is held about each is what its whole history left there. */
    ghost predicate Valid()
      reads this
    {
      && |lastStamp| <= MAX_CLUSTER_NODES
      && forall n :: SlotOf(n) == Run(HistoryOf(calls, n)) && Ascends(HistoryOf(calls, n))
    }

    ghost function SlotOf(n: NodeId): Slot
      reads this
    {
      Slot(Get(lastStamp, n), Get(lastSeen, n), Get(unobservedSince, n), Get(graceSince, n))
    }

    constructor ()
      ensures Valid() && calls == []
    {
      lastSeen, lastStamp, unobservedSince, graceSince := map[], map[], map[], map[];
      calls := [];
    }

    method RetainKnown(states: Listing)
      modifies this
      ensures forall n :: SlotOf(n) == if n in Known(states) then old(SlotOf(n)) else EMPTY_SLOT
      ensures |lastStamp| <= old(|lastStamp|) && calls == old(calls)
    {
      var known := Known(states);
      lastStamp := Retain(lastStamp, known);
      lastSeen := Retain(lastSeen, known);
      unobservedSince := Retain(unobservedSince, known);
      graceSince := Retain(graceSince, known);
    }

    /** Accepted exactly when it comes after every heartbeat accepted since the node was last forgotten, and within the
        tracking bound; a refused heartbeat leaves no trace. */
    method Observe(node: NodeId, beat: Stamp, now: nat) returns (accepted: bool)
      requires Valid()
      modifies this
      ensures accepted <==> AfterAll(HistoryOf(old(calls), node), beat)
                            && (node in old(lastStamp) || old(|lastStamp|) < MAX_CLUSTER_NODES)
      ensures Valid() && calls == old(calls) + (if accepted then [Observed(node, beat, now)] else [])
    {
      FreshExactly(HistoryOf(calls, node), beat);
      if node in lastStamp {
        var last := lastStamp[node];
        if beat.incarnation < last.incarnation
           || (beat.incarnation == last.incarnation
               && (beat.process < last.process || (beat.process == last.process && beat.sequence <= last.sequence))) {
          return false;
        }
      } else if |lastStamp| >= MAX_CLUSTER_NODES {
        return false;
      }
      Record(node, beat, now);
      calls := calls + [Observed(node, beat, now)];
      forall n ensures SlotOf(n) == Run(HistoryOf(calls, n)) && Ascends(HistoryOf(calls, n)) {
        CallStep(old(calls), Observed(node, beat, now), n);
      }
      accepted := true;
    }

    method Record(node: NodeId, beat: Stamp, now: nat)
      requires node in lastStamp || |lastStamp| < MAX_CLUSTER_NODES
      modifies this`lastStamp, this`lastSeen, this`graceSince
      ensures SlotOf(node) == Refreshed(old(SlotOf(node)), beat, now)
      ensures forall n :: n != node ==> SlotOf(n) == old(SlotOf(n))
      ensures old(|lastStamp|) <= MAX_CLUSTER_NODES ==> |lastStamp| <= MAX_CLUSTER_NODES
    {
      assert lastStamp[node := beat].Keys == lastStamp.Keys + {node};
      lastStamp := lastStamp[node := beat];
      lastSeen := lastSeen[node := now];
      if node in graceSince && graceSince[node].0 == beat.incarnation {
        graceSince := graceSince - {node};
      }
    }

    /** Every listed node gets a grace for its committed incarnation; unlisted nodes are forgotten. */
    method SuspendTimeouts(now: nat, states: Listing)
      requires Valid()
      modifies this
      ensures Valid() && calls == old(calls) + [SuspendedAll(now, states)]
    {
      RetainKnown(states);
      label retained:
      for i := 0 to |states|
        invariant forall n :: SlotOf(n) == SuspendAll(old@retained(SlotOf(n)), states[..i], n, now)
        invariant |lastStamp| <= old(|lastStamp|) && calls == old(calls)
      {
        assert states[..i + 1][..i] == states[..i];
        Grant(states[i].0, states[i].2, now);
      }
      assert states[..|states|] == states;
      calls := calls + [SuspendedAll(now, states)];
      forall n ensures SlotOf(n) == Run(HistoryOf(calls, n)) && Ascends(HistoryOf(calls, n)) {
        CallStep(old(calls), SuspendedAll(now, states), n);
        SuspendIsRun(old(SlotOf(n)), states, n, now);
      }
    }

    method Grant(node: NodeId, incarnation: nat, now: nat)
      modifies this`graceSince
      ensures SlotOf(node) == old(SlotOf(node)).(grace := Some((incarnation, now)))
      ensures forall n :: n != node ==> SlotOf(n) == old(SlotOf(n))
    {
      graceSince := graceSince[node := (incarnation, now)];
    }

    method SilenceMs(node: NodeId, incarnation: nat, now: nat) returns (silence: Option<nat>)
      modifies this`unobservedSince
      ensures (SlotOf(node), silence) == Silence(old(SlotOf(node)), incarnation, now)
      ensures forall n :: n != node ==> SlotOf(n) == old(SlotOf(n))
    {
      if node in lastStamp && lastStamp[node].incarnation == incarnation {
        unobservedSince := unobservedSince - {node};
        return if node in lastSeen then Some(SaturatingSub(now, lastSeen[node])) else None;
      }
      if node in unobservedSince && unobservedSince[node].0 == incarnation {
        return Some(SaturatingSub(now, unobservedSince[node].1));
      }
      unobservedSince := unobservedSince[node := (incarnation, now)];
      silence := None;
    }

    /** A grace still running for this incarnation suspends the decision; otherwise it is spent. */
    method CheckGrace(now: nat, timeouts: Timeouts, node: NodeId, incarnation: nat) returns (suspended: bool)
      modifies this`unobservedSince, this`graceSince
      ensures suspended <==> old(GraceFor(SlotOf(node), incarnation))
                             && SaturatingSub(now, old(SlotOf(node)).grace.value.1) < timeouts.down
      ensures SlotOf(node) == if suspended then old(SlotOf(node)) else GraceSpent(old(SlotOf(node)), incarnation)
      ensures forall n :: n != node ==> SlotOf(n) == old(SlotOf(n))
    {
      if node !in graceSince {
        return false;
      }
      var (expected, since) := graceSince[node];
      if expected == incarnation && SaturatingSub(now, since) < timeouts.down {
        return true;
      }
      graceSince := graceSince - {node};
      if expected == incarnation && !(node in lastStamp && lastStamp[node].incarnation == incarnation) {
        unobservedSince := unobservedSince[node := (incarnation, since)];
      }
      suspended := false;
    }

    /** One directory entry: its slot moves as decided, every other slot stays. */
    method EvaluateOne(now: nat, timeouts: Timeouts, node: NodeId, current: NodeState, incarnation: nat)
      returns (next: Option<NodeState>)
      modifies this`unobservedSince, this`graceSince
      ensures Decision(SlotOf(node), next) == Decide(old(SlotOf(node)), current, incarnation, now, timeouts)
      ensures forall n :: n != node ==> SlotOf(n) == old(SlotOf(n))
    {
      var suspended := CheckGrace(now, timeouts, node, incarnation);
      if suspended {
        return None;
      }
      var hasHeartbeat := node in lastStamp && lastStamp[node].incarnation == incarnation;
      var silence := SilenceMs(node, incarnation, now);
      if silence.None? {
        return None;
      }
      var evidence := Classify(silence.value, timeouts);
      if !hasHeartbeat && evidence == Alive {
        return None;
      }
      next := NextState(current, evidence);
    }

    /** Every slot and every proposal follows from that node's entries alone. */
    method Walk(now: nat, timeouts: Timeouts, states: Listing, ghost before: map<NodeId, Slot>)
      returns (out: seq<(NodeId, NodeState)>)
      requires before.Keys == Known(states) && forall n :: n in Known(states) ==> before[n] == SlotOf(n)
      modifies this`unobservedSince, this`graceSince
      ensures forall n :: SlotOf(n) == EvaluateAll(old(SlotOf(n)), states, n, now, timeouts)
      ensures out == Emitted(before, states, now, timeouts)
    {
      out := [];
      for i := 0 to |states|
        invariant forall n :: SlotOf(n) == EvaluateAll(old(SlotOf(n)), states[..i], n, now, timeouts)
        invariant Known(states[..i]) <= before.Keys && out == Emitted(before, states[..i], now, timeouts)
      {
        var (node, current, incarnation) := states[i];
        assert states[..i + 1][..i] == states[..i] && states[..i + 1][i] == states[i];
        assert node in Known(states);
        KnownPrefix(states, i + 1);
        var next := EvaluateOne(now, timeouts, node, current, incarnation);
        if next.Some? {
          out := out + [(node, next.value)];
        }
      }
      assert states[..|states|] == states;
    }

    /** Walks the listing in order and proposes what each node's whole history, and nothing else, decides. */
    method Evaluate(now: nat, timeouts: Timeouts, states: Listing) returns (out: seq<(NodeId, NodeState)>)
      requires Valid()
      modifies this
      ensures Valid() && calls == old(calls) + [EvaluatedAll(now, timeouts, states)]
      ensures out == Emitted(SlotsOf(old(calls), states), states, now, timeouts)
    {
      RetainKnown(states);
      out := Walk(now, timeouts, states, SlotsOf(calls, states));
      calls := calls + [EvaluatedAll(now, timeouts, states)];
      forall n ensures SlotOf(n) == Run(HistoryOf(calls, n)) && Ascends(HistoryOf(calls, n)) {
        CallStep(old(calls), EvaluatedAll(now, timeouts, states), n);
        EvaluateIsRun(old(SlotOf(n)), states, n, now, timeouts);
      }
    }
  }

  /** The slots of the listed nodes, each from its own history. */
  ghost function SlotsOf(calls: seq<Call>, states: Listing): map<NodeId, Slot> {
    map n | n in Known(states) :: Run(HistoryOf(calls, n))
  }

  lemma {:induction false} ListingUnheard(states: Listing, n: NodeId, now: nat, timeouts: Timeouts)
    ensures forall k :: 0 <= k < |Suspensions(states, n, now)| ==> !Suspensions(states, n, now)[k].Heard?
    ensures forall k :: 0 <= k < |Evaluations(states, n, now, timeouts)| ==>
              !Evaluations(states, n, now, timeouts)[k].Heard?
  {
    if states != [] { ListingUnheard(states[..|states| - 1], n, now, timeouts); }
  }

  lemma CallStep(calls: seq<Call>, c: Call, n: NodeId)
    requires Ascends(HistoryOf(calls, n))
    requires c.Observed? && c.node == n ==> Fresh(Run(HistoryOf(calls, n)), c.beat)
    ensures Run(HistoryOf(calls + [c], n)) == RunFrom(Run(HistoryOf(calls, n)), EventsOf(c, n))
    ensures Ascends(HistoryOf(calls + [c], n))
  {
    var before, more := HistoryOf(calls, n), EventsOf(c, n);
    assert (calls + [c])[..|calls|] == calls;
    RunConcat(EMPTY_SLOT, before, more);
    if more != [] { assert more[..0] == []; }
    if c.Observed? && c.node == n {
      assert (before + more)[..|before|] == before;
    } else {
      CallUnheard(c, n);
      UnheardAscends(before, more);
    }
  }

  lemma CallUnheard(c: Call, n: NodeId)
    requires !(c.Observed? && c.node == n)
    ensures forall k :: 0 <= k < |EventsOf(c, n)| ==> !EventsOf(c, n)[k].Heard?
  {
    match c
    case Observed(_, _, _) =>
    case SuspendedAll(now, states) => ListingUnheard(states, n, now, Timeouts(0, 0));
    case EvaluatedAll(now, timeouts, states) => ListingUnheard(states, n, now, timeouts);
  }

  lemma {:induction false} SuspensionsRun(slot: Slot, states: Listing, n: NodeId, now: nat)
    ensures SuspendAll(slot, states, n, now) == RunFrom(slot, Suspensions(states, n, now))
  {
    if states != [] {
      var init, last := states[..|states| - 1], states[|states| - 1];
      SuspensionsRun(slot, init, n, now);
      var before := Suspensions(init, n, now);
      if last.0 == n {
        assert (before + [Suspended(last.2, now)])[..|before|] == before;
      } else {
        assert before + [] == before;
      }
    }
  }

  lemma SuspendIsRun(slot: Slot, states: Listing, n: NodeId, now: nat)
    ensures SuspendAll(if n in Known(states) then slot else EMPTY_SLOT, states, n, now)
         == RunFrom(slot, EventsOf(SuspendedAll(now, states), n))
  {
    if n in Known(states) {
      SuspensionsRun(slot, states, n, now);
    } else {
      UnlistedKeepsGrace(EMPTY_SLOT, states, n, now);
      assert [Unlisted(now)][..0] == [];
    }
  }

  lemma {:induction false} EvaluationsRun(slot: Slot, states: Listing, n: NodeId, now: nat, timeouts: Timeouts)
    ensures EvaluateAll(slot, states, n, now, timeouts) == RunFrom(slot, Evaluations(states, n, now, timeouts))
  {
    if states != [] {
      var init, last := states[..|states| - 1], states[|states| - 1];
      EvaluationsRun(slot, init, n, now, timeouts);
      var before := Evaluations(init, n, now, timeouts);
      if last.0 == n {
        assert (before + [Evaluated(last.1, last.2, now, timeouts)])[..|before|] == before;
      } else {
        assert before + [] == before;
      }
    }
  }

  lemma EvaluateIsRun(slot: Slot, states: Listing, n: NodeId, now: nat, timeouts: Timeouts)
    ensures EvaluateAll(if n in Known(states) then slot else EMPTY_SLOT, states, n, now, timeouts)
         == RunFrom(slot, EventsOf(EvaluatedAll(now, timeouts, states), n))
  {
    if n in Known(states) {
      EvaluationsRun(slot, states, n, now, timeouts);
    } else {
      UnlistedKeepsSlot(EMPTY_SLOT, states, n, now, timeouts);
      assert [Unlisted(now)][..0] == [];
    }
  }

  lemma KnownPrefix(states: Listing, i: nat)
    requires i <= |states|
    ensures Known(states[..i]) <= Known(states)
  {
    forall n | n in Known(states[..i]) ensures n in Known(states) {
      var k :| 0 <= k < i && states[..i][k].0 == n;
      assert states[k].0 == n;
    }
  }

  function EvaluateAll(slot: Slot, states: Listing, n: NodeId, now: nat, timeouts: Timeouts): Slot {
    if states == [] then slot
    else
      var before, last := EvaluateAll(slot, states[..|states| - 1], n, now, timeouts), states[|states| - 1];
      if last.0 == n then Verdict(before, last, now, timeouts).slot else before
  }

  /** The proposals, in listing order, given the slots the nodes had. */
  function Emitted(slots: map<NodeId, Slot>, states: Listing, now: nat, timeouts: Timeouts): seq<(NodeId, NodeState)>
    requires Known(states) <= slots.Keys
  {
    if states == [] then []
    else
      var init, last := states[..|states| - 1], states[|states| - 1];
      KnownPrefix(states, |states| - 1);
      assert last.0 in Known(states);
      var next := Verdict(EvaluateAll(slots[last.0], init, last.0, now, timeouts), last, now, timeouts).next;
      Emitted(slots, init, now, timeouts) + (if next.Some? then [(last.0, next.value)] else [])
  }

  lemma {:induction false} UnlistedKeepsSlot(slot: Slot, states: Listing, n: NodeId, now: nat, timeouts: Timeouts)
    requires n !in Known(states)
    ensures EvaluateAll(slot, states, n, now, timeouts) == slot
  {
    if states != [] {
      KnownPrefix(states, |states| - 1);
      assert states[|states| - 1].0 in Known(states);
      UnlistedKeepsSlot(slot, states[..|states| - 1], n, now, timeouts);
    }
  }

  lemma {:induction false} UnlistedKeepsGrace(slot: Slot, states: Listing, n: NodeId, now: nat)
    requires n !in Known(states)
    ensures SuspendAll(slot, states, n, now) == slot
  {
    if states != [] {
      KnownPrefix(states, |states| - 1);
      assert states[|states| - 1].0 in Known(states);
      UnlistedKeepsGrace(slot, states[..|states| - 1], n, now);
    }
  }

  /** With one entry per node, as a directory has, each listed node's slot moves by its own verdict. */
  lemma {:induction false} SlotVerdict(slot: Slot, states: Listing, k: nat, now: nat, timeouts: Timeouts)
    requires OnePerNode(states) && k < |states|
    ensures EvaluateAll(slot, states, states[k].0, now, timeouts) == Verdict(slot, states[k], now, timeouts).slot
  {
    var init, n := states[..|states| - 1], states[k].0;
    if k == |states| - 1 {
      forall j | 0 <= j < |init| ensures init[j].0 != n { assert states[j].0 != states[k].0; }
      UnlistedKeepsSlot(slot, init, n, now, timeouts);
    } else {
      assert states[k].0 != states[|states| - 1].0;
      SlotVerdict(slot, init, k, now, timeouts);
    }
  }

  /** The entry's own evidence justifies moving its node to `s`. */
  predicate Proposes(slots: map<NodeId, Slot>, entry: (NodeId, NodeState, nat), now: nat, timeouts: Timeouts,
                     s: NodeState) {
    entry.0 in slots && Verdict(slots[entry.0], entry, now, timeouts).next == Some(s)
  }

  /** With one entry per node, exactly the transitions justified by each node's own evidence are proposed. */
  lemma {:induction false} EmittedExactly(slots: map<NodeId, Slot>, states: Listing, now: nat, timeouts: Timeouts,
                                          n: NodeId, s: NodeState)
    requires OnePerNode(states) && Known(states) <= slots.Keys
    ensures (n, s) in Emitted(slots, states, now, timeouts)
       <==> exists k :: 0 <= k < |states| && states[k].0 == n && Proposes(slots, states[k], now, timeouts, s)
  {
    if states != [] {
      var init, last := states[..|states| - 1], states[|states| - 1];
      KnownPrefix(states, |states| - 1);
      EmittedExactly(slots, init, now, timeouts, n, s);
      assert last.0 in Known(states);
      forall j | 0 <= j < |init| ensures init[j].0 != last.0 { assert states[j].0 != states[|states| - 1].0; }
      UnlistedKeepsSlot(slots[last.0], init, last.0, now, timeouts);
      if k :| 0 <= k < |init| && init[k].0 == n && Proposes(slots, init[k], now, timeouts, s) {
        assert states[k] == init[k];
      }
      if k :| 0 <= k < |states| && states[k].0 == n && Proposes(slots, states[k], now, timeouts, s) {
        if k < |init| { assert init[k] == states[k]; }
      }
    }
  }

  function Verdict(slot: Slot, entry: (NodeId, NodeState, nat), now: nat, timeouts: Timeouts): Decision {
    Decide(slot, entry.1, entry.2, now, timeouts)
  }

  function SuspendAll(slot: Slot, states: Listing, n: NodeId, now: nat): Slot {
    if states == [] then slot
    else
      var before, last := SuspendAll(slot, states[..|states| - 1], n, now), states[|states| - 1];
      if last.0 == n then before.(grace := Some((last.2, now))) else before
  }
}
