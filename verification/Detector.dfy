/** What the failure detector's decisions mean (src/meta/failure.rs, src/runtime/dispatch.rs): every
    proposed transition, characterised by the node's whole history of heartbeats, suspensions and
    evaluations instead of by the tracker's maps. */
module Detector {
  import opened Types
  import opened Failure

  // -- History ---------------------------------------------------------------------------------

  function LastHeard(events: seq<Event>, incarnation: nat): Option<nat> {
    if events == [] then None
    else
      var e := events[|events| - 1];
      if e.Unlisted? then None
      else if e.Heard? && e.beat.incarnation == incarnation then Some(e.now)
      else LastHeard(events[..|events| - 1], incarnation)
  }

  function LastSuspended(events: seq<Event>, incarnation: nat): Option<nat> {
    if events == [] then None
    else
      var e := events[|events| - 1];
      if e.Unlisted? then None
      else if e.Suspended? && e.incarnation == incarnation then Some(e.now)
      else LastSuspended(events[..|events| - 1], incarnation)
  }

  /** The last suspension, unless an accepted heartbeat came after it. */
  function PendingSuspension(events: seq<Event>, incarnation: nat): Option<nat> {
    if events == [] then None
    else
      var e := events[|events| - 1];
      if e.Unlisted? || (e.Heard? && e.beat.incarnation == incarnation) then None
      else if e.Suspended? && e.incarnation == incarnation then Some(e.now)
      else PendingSuspension(events[..|events| - 1], incarnation)
  }

  function FirstEvaluated(events: seq<Event>, incarnation: nat): Option<nat> {
    if events == [] then None
    else
      var e := events[|events| - 1];
      var before := FirstEvaluated(events[..|events| - 1], incarnation);
      if e.Unlisted? then None
      else if e.Evaluated? && e.incarnation == incarnation && before.None? then Some(e.now)
      else before
  }

  function IncarnationOf(e: Event): Option<nat> {
    match e
    case Heard(beat, _) => Some(beat.incarnation)
    case Suspended(incarnation, _) => Some(incarnation)
    case Evaluated(_, incarnation, _, _) => Some(incarnation)
    case Unlisted(_) => None
  }

  /** The incarnation up to `e`, if it is `incarnation` after it. */
  function IncarnationBy(e: Event, incarnation: nat): nat {
    if IncarnationOf(e).Some? then IncarnationOf(e).value else incarnation
  }

  /** A nondecreasing clock, one timeout setting, and evidence only ever about the committed incarnation, which
      never falls. */
  predicate Orderly(events: seq<Event>, timeouts: Timeouts, incarnation: nat, now: nat) {
    if events == [] then true
    else
      var e := events[|events| - 1];
      && e.now <= now
      && (e.Evaluated? ==> e.timeouts == timeouts)
      && (IncarnationOf(e).Some? ==> IncarnationOf(e).value <= incarnation)
      && Orderly(events[..|events| - 1], timeouts, IncarnationBy(e, incarnation), e.now)
  }

  lemma {:induction false} OrderlyLater(events: seq<Event>, timeouts: Timeouts, incarnation: nat, now: nat, higher: nat,
                                        later: nat)
    requires Orderly(events, timeouts, incarnation, now) && incarnation <= higher && now <= later
    ensures Orderly(events, timeouts, higher, later)
  {
    if events != [] {
      var e := events[|events| - 1];
      if e.Unlisted? {
        OrderlyLater(events[..|events| - 1], timeouts, incarnation, e.now, higher, e.now);
      }
    }
  }

  // -- What the tracker remembers ------------------------------------------------------------------

  /** Nothing in a slot is about a later incarnation than the history's. */
  ghost predicate Within(slot: Slot, incarnation: nat) {
    && (slot.stamp.Some? ==> slot.stamp.value.incarnation <= incarnation)
    && (slot.unobserved.Some? ==> slot.unobserved.value.0 <= incarnation)
    && (slot.grace.Some? ==> slot.grace.value.0 <= incarnation)
  }

  lemma {:induction false} SlotWithin(events: seq<Event>, timeouts: Timeouts, incarnation: nat, now: nat)
    requires Orderly(events, timeouts, incarnation, now)
    ensures Within(Run(events), incarnation)
  {
    if events != [] {
      var e := events[|events| - 1];
      SlotWithin(events[..|events| - 1], timeouts, IncarnationBy(e, incarnation), e.now);
    }
  }

  lemma {:induction false} NothingYet(events: seq<Event>, timeouts: Timeouts, incarnation: nat, now: nat, later: nat)
    requires Orderly(events, timeouts, incarnation, now) && incarnation < later
    ensures LastHeard(events, later) == None && LastSuspended(events, later) == None
    ensures PendingSuspension(events, later) == None && FirstEvaluated(events, later) == None
  {
    if events != [] {
      var e := events[|events| - 1];
      NothingYet(events[..|events| - 1], timeouts, IncarnationBy(e, incarnation), e.now, later);
    }
  }

  ghost predicate HeardInv(slot: Slot, heard: Option<nat>, incarnation: nat) {
    && (HasHeartbeat(slot, incarnation) <==> heard.Some?)
    && (heard.Some? ==> slot.seen == heard)
  }

  ghost predicate GraceInv(slot: Slot, pending: Option<nat>, incarnation: nat, now: nat, down: nat) {
    && (GraceFor(slot, incarnation) ==> pending == Some(slot.grace.value.1))
    && (pending.Some? ==> GraceFor(slot, incarnation) || pending.value + down <= now)
  }

  ghost predicate SuspensionInv(heard: Option<nat>, suspended: Option<nat>, pending: Option<nat>) {
    && (pending.Some? ==> suspended == pending)
    && (suspended.Some? && pending.None? ==> heard.Some? && suspended.value <= heard.value)
  }

  ghost predicate PastInv(t: Option<nat>, now: nat) {
    t.Some? ==> t.value <= now
  }

  ghost predicate SilentInv(slot: Slot, heard: Option<nat>, suspended: Option<nat>, evaluated: Option<nat>,
                            incarnation: nat) {
    heard.None? ==>
      if suspended.Some? then GraceFor(slot, incarnation) || slot.unobserved == Some((incarnation, suspended.value))
      else if evaluated.Some? then slot.unobserved == Some((incarnation, evaluated.value))
      else slot.unobserved.None? || slot.unobserved.value.0 != incarnation
  }

  /** The slot is an exact summary of the history at the committed incarnation. */
  ghost predicate Summary(slot: Slot, events: seq<Event>, incarnation: nat, now: nat, down: nat) {
    var heard, suspended := LastHeard(events, incarnation), LastSuspended(events, incarnation);
    && HeardInv(slot, heard, incarnation)
    && GraceInv(slot, PendingSuspension(events, incarnation), incarnation, now, down)
    && SuspensionInv(heard, suspended, PendingSuspension(events, incarnation))
    && SilentInv(slot, heard, suspended, FirstEvaluated(events, incarnation), incarnation)
    && PastInv(heard, now) && PastInv(suspended, now) && PastInv(FirstEvaluated(events, incarnation), now)
  }

  lemma StepSummary(events: seq<Event>, timeouts: Timeouts, incarnation: nat, e: Event)
    requires Summary(Run(events), events, incarnation, e.now, timeouts.down)
    requires IncarnationOf(e) == Some(incarnation) && (e.Evaluated? ==> e.timeouts == timeouts)
    ensures Summary(Run(events + [e]), events + [e], incarnation, e.now, timeouts.down)
  {
    assert (events + [e])[..|events|] == events;
  }

  /** A slot and a history that both know nothing about the incarnation. */
  lemma NothingSummary(slot: Slot, events: seq<Event>, incarnation: nat, now: nat, down: nat)
    requires LastHeard(events, incarnation) == None && LastSuspended(events, incarnation) == None
    requires PendingSuspension(events, incarnation) == None && FirstEvaluated(events, incarnation) == None
    requires !HasHeartbeat(slot, incarnation) && !GraceFor(slot, incarnation)
    requires slot.unobserved.None? || slot.unobserved.value.0 != incarnation
    ensures Summary(slot, events, incarnation, now, down)
  {
  }

  lemma LaterSummary(slot: Slot, events: seq<Event>, incarnation: nat, now: nat, later: nat, down: nat)
    requires Summary(slot, events, incarnation, now, down) && now <= later
    ensures Summary(slot, events, incarnation, later, down)
  {
  }

  lemma {:induction false} SlotSummarises(events: seq<Event>, timeouts: Timeouts, incarnation: nat, now: nat)
    requires Orderly(events, timeouts, incarnation, now)
    ensures Summary(Run(events), events, incarnation, now, timeouts.down)
  {
    if events == [] {
      NothingSummary(EMPTY_SLOT, [], incarnation, now, timeouts.down);
    } else {
      var init, e := events[..|events| - 1], events[|events| - 1];
      if IncarnationOf(e) == Some(incarnation) {
        SlotSummarises(init, timeouts, incarnation, e.now);
        StepSummary(init, timeouts, incarnation, e);
        assert events == init + [e];
        LaterSummary(Run(events), events, incarnation, e.now, now, timeouts.down);
      } else {
        if !e.Unlisted? {
          SlotWithin(events, timeouts, IncarnationOf(e).value, e.now);
          NothingYet(events, timeouts, IncarnationOf(e).value, e.now, incarnation);
        }
        NothingSummary(Run(events), events, incarnation, now, timeouts.down);
      }
    }
  }

  // -- The decisions ---------------------------------------------------------------------------------

  /** A suspension newer than the last heartbeat and younger than the down-timeout. */
  predicate InGrace(events: seq<Event>, incarnation: nat, now: nat, down: nat) {
    PendingSuspension(events, incarnation).Some? && now < PendingSuspension(events, incarnation).value + down
  }

  /** A full down-timeout has passed since the last accepted heartbeat and the last suspension; a node
      with neither has been silent that long since its first evaluation, which is not this one. */
  predicate TimedOut(events: seq<Event>, incarnation: nat, now: nat, down: nat) {
    var heard, suspended, evaluated :=
      LastHeard(events, incarnation), LastSuspended(events, incarnation), FirstEvaluated(events, incarnation);
    if heard.Some? then heard.value + down <= now && (suspended.Some? ==> suspended.value + down <= now)
    else if suspended.Some? then suspended.value + down <= now
    else evaluated.Some? && evaluated.value + down <= now
  }

  /** Down is proposed exactly when the history has timed out for the committed incarnation. */
  lemma DownExactly(events: seq<Event>, timeouts: Timeouts, current: NodeState, incarnation: nat, now: nat)
    requires Orderly(events, timeouts, incarnation, now)
    ensures Decide(Run(events), current, incarnation, now, timeouts).next == Some(Down)
       <==> (current == Active || current == Suspect) && TimedOut(events, incarnation, now, timeouts.down)
  {
    SlotSummarises(events, timeouts, incarnation, now);
  }

  /** The suspect-timeout has passed since the last accepted heartbeat or, for a node never heard from, since its
      last suspension or else its first evaluation, which is not this one. */
  predicate Quiet(events: seq<Event>, incarnation: nat, now: nat, suspect: nat) {
    var heard, suspended, evaluated :=
      LastHeard(events, incarnation), LastSuspended(events, incarnation), FirstEvaluated(events, incarnation);
    if heard.Some? then heard.value + suspect <= now
    else if suspended.Some? then suspended.value + suspect <= now
    else evaluated.Some? && evaluated.value + suspect <= now
  }

  /** Suspect is proposed exactly for an Active node that has been quiet for the suspect-timeout but has not timed out,
      outside of any grace. */
  lemma SuspectExactly(events: seq<Event>, timeouts: Timeouts, current: NodeState, incarnation: nat, now: nat)
    requires Orderly(events, timeouts, incarnation, now)
    ensures Decide(Run(events), current, incarnation, now, timeouts).next == Some(Suspect)
       <==> && current == Active
            && Quiet(events, incarnation, now, timeouts.suspect)
            && !TimedOut(events, incarnation, now, timeouts.down)
            && !InGrace(events, incarnation, now, timeouts.down)
  {
    SlotSummarises(events, timeouts, incarnation, now);
  }

  /** A Suspect node returns to Active exactly on an accepted heartbeat at its committed incarnation that
      is younger than both timeouts, with no suspension since that is still in its grace. */
  lemma ReactivationExactly(events: seq<Event>, timeouts: Timeouts, current: NodeState, incarnation: nat, now: nat)
    requires Orderly(events, timeouts, incarnation, now)
    ensures Decide(Run(events), current, incarnation, now, timeouts).next == Some(Active)
       <==> && current == Suspect
            && LastHeard(events, incarnation).Some?
            && now < LastHeard(events, incarnation).value + timeouts.suspect
            && now < LastHeard(events, incarnation).value + timeouts.down
            && !InGrace(events, incarnation, now, timeouts.down)
  {
    SlotSummarises(events, timeouts, incarnation, now);
  }

  /** Down and Draining nodes are never moved by evidence, and no other state is ever proposed. */
  lemma OnlyLiveNodesMove(slot: Slot, timeouts: Timeouts, current: NodeState, incarnation: nat, now: nat)
    ensures var next := Decide(slot, current, incarnation, now, timeouts).next;
            && (current == Down || current == Draining ==> next == None)
            && next != Some(Draining) && next != Some(current)
  {
  }

  /** The down-timeout is not counted from the first unobserved evaluation when a maintenance grace ran
      out first: here that evaluation itself proposes Down. */
  lemma GraceCountsAsSilence(timeouts: Timeouts, incarnation: nat)
    ensures var events := [Suspended(incarnation, 0)];
            var now := timeouts.down;
            && Orderly(events, timeouts, incarnation, now)
            && FirstEvaluated(events, incarnation) == None && LastHeard(events, incarnation) == None
            && Decide(Run(events), Active, incarnation, now, timeouts).next == Some(Down)
  {
    var events := [Suspended(incarnation, 0)];
    assert events[..0] == [];
    assert Orderly(events[..0], timeouts, incarnation, 0);
    assert Run(events[..0]) == EMPTY_SLOT;
    assert Run(events) == EMPTY_SLOT.(grace := Some((incarnation, 0)));
    DownExactly(events, timeouts, Active, incarnation, timeouts.down);
  }

  /** The plain grace rule: a down-timeout since the last heartbeat, the last suspension and, for
      a node never heard from, its first evaluation. */
  predicate Allowance(events: seq<Event>, incarnation: nat, now: nat, down: nat) {
    var heard, suspended, evaluated :=
      LastHeard(events, incarnation), LastSuspended(events, incarnation), FirstEvaluated(events, incarnation);
    && (heard.Some? ==> heard.value + down <= now)
    && (suspended.Some? ==> suspended.value + down <= now)
    && (heard.None? ==> (if evaluated.Some? then evaluated.value else now) + down <= now)
  }

  /** The histories on which no grace can run out before a first evaluation is a down-timeout old. */
  predicate EvaluatedFirst(events: seq<Event>, incarnation: nat, from: nat, down: nat) {
    var heard, suspended, evaluated :=
      LastHeard(events, incarnation), LastSuspended(events, incarnation), FirstEvaluated(events, incarnation);
    || heard.Some? || suspended.None? || down == 0
    || (evaluated.Some? && (evaluated.value <= suspended.value || evaluated.value + down <= from))
  }

  /** From time `from` on every proposed Down meets the plain grace rule if and only if the node was
      heard from, never suspended, or evaluated before its suspension or long enough ago. */
  lemma AllowanceExactly(events: seq<Event>, timeouts: Timeouts, current: NodeState, incarnation: nat, from: nat)
    requires Orderly(events, timeouts, incarnation, from) && (current == Active || current == Suspect)
    ensures (forall now: nat ::
               from <= now && Decide(Run(events), current, incarnation, now, timeouts).next == Some(Down)
               ==> Allowance(events, incarnation, now, timeouts.down))
       <==> EvaluatedFirst(events, incarnation, from, timeouts.down)
  {
    forall now: nat | from <= now
      ensures Decide(Run(events), current, incarnation, now, timeouts).next == Some(Down)
         <==> TimedOut(events, incarnation, now, timeouts.down)
    {
      OrderlyLater(events, timeouts, incarnation, from, incarnation, now);
      DownExactly(events, timeouts, current, incarnation, now);
    }
    SlotSummarises(events, timeouts, incarnation, from);
    if !EvaluatedFirst(events, incarnation, from, timeouts.down) {
      var expiry := LastSuspended(events, incarnation).value + timeouts.down;
      var now := if expiry < from then from else expiry;
      assert Decide(Run(events), current, incarnation, now, timeouts).next == Some(Down);
      assert !Allowance(events, incarnation, now, timeouts.down);
    } else {
      forall now: nat | from <= now && Decide(Run(events), current, incarnation, now, timeouts).next == Some(Down)
        ensures Allowance(events, incarnation, now, timeouts.down)
      {
      }
    }
  }

  // -- The tracker's proposals ----------------------------------------------------------------------

  lemma SameEntry(states: Listing, j: nat, k: nat)
    requires OnePerNode(states) && j < |states| && k < |states| && states[j].0 == states[k].0
    ensures j == k
  {
  }

  /** One evaluation proposes for a listed node exactly what its own history decides. */
  lemma ProposesOwn(calls: seq<Call>, states: Listing, now: nat, timeouts: Timeouts, k: nat, next: NodeState)
    requires OnePerNode(states) && k < |states|
    ensures (states[k].0, next) in Emitted(SlotsOf(calls, states), states, now, timeouts)
       <==> Decide(Run(HistoryOf(calls, states[k].0)), states[k].1, states[k].2, now, timeouts).next == Some(next)
  {
    var n := states[k].0;
    assert n in Known(states);
    EmittedExactly(SlotsOf(calls, states), states, now, timeouts, n, next);
    if j :| 0 <= j < |states| && states[j].0 == n && Proposes(SlotsOf(calls, states), states[j], now, timeouts, next) {
      SameEntry(states, j, k);
    }
  }

  /** Whatever calls the tracker has served, one evaluation of a directory proposes Down for a node exactly if it is
      listed as Active or Suspect and its own history has timed out at its listed incarnation. */
  lemma ProposesDownExactly(calls: seq<Call>, states: Listing, now: nat, timeouts: Timeouts, k: nat)
    requires OnePerNode(states) && k < |states|
    requires Orderly(HistoryOf(calls, states[k].0), timeouts, states[k].2, now)
    ensures (states[k].0, Down) in Emitted(SlotsOf(calls, states), states, now, timeouts)
       <==> (states[k].1 == Active || states[k].1 == Suspect)
            && TimedOut(HistoryOf(calls, states[k].0), states[k].2, now, timeouts.down)
  {
    ProposesOwn(calls, states, now, timeouts, k, Down);
    DownExactly(HistoryOf(calls, states[k].0), timeouts, states[k].1, states[k].2, now);
  }

  /** Suspect exactly if it is listed as Active and its own history is quiet, not timed out and in no grace. */
  lemma ProposesSuspectExactly(calls: seq<Call>, states: Listing, now: nat, timeouts: Timeouts, k: nat)
    requires OnePerNode(states) && k < |states|
    requires Orderly(HistoryOf(calls, states[k].0), timeouts, states[k].2, now)
    ensures (states[k].0, Suspect) in Emitted(SlotsOf(calls, states), states, now, timeouts)
       <==> var events := HistoryOf(calls, states[k].0);
            && states[k].1 == Active && Quiet(events, states[k].2, now, timeouts.suspect)
            && !TimedOut(events, states[k].2, now, timeouts.down) && !InGrace(events, states[k].2, now, timeouts.down)
  {
    ProposesOwn(calls, states, now, timeouts, k, Suspect);
    SuspectExactly(HistoryOf(calls, states[k].0), timeouts, states[k].1, states[k].2, now);
  }

  /** Active exactly if it is listed as Suspect and its own history has a heartbeat younger than both timeouts, with no
      grace running since. */
  lemma ProposesActiveExactly(calls: seq<Call>, states: Listing, now: nat, timeouts: Timeouts, k: nat)
    requires OnePerNode(states) && k < |states|
    requires Orderly(HistoryOf(calls, states[k].0), timeouts, states[k].2, now)
    ensures (states[k].0, Active) in Emitted(SlotsOf(calls, states), states, now, timeouts)
       <==> var heard := LastHeard(HistoryOf(calls, states[k].0), states[k].2);
            && states[k].1 == Suspect && heard.Some?
            && now < heard.value + timeouts.suspect && now < heard.value + timeouts.down
            && !InGrace(HistoryOf(calls, states[k].0), states[k].2, now, timeouts.down)
  {
    ProposesOwn(calls, states, now, timeouts, k, Active);
    ReactivationExactly(HistoryOf(calls, states[k].0), timeouts, states[k].1, states[k].2, now);
  }
}
