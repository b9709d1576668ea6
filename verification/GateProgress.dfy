/** The admission gates follow the committed record (src/runtime/maintenance.rs): whatever has happened, every node can
    install what is committed now, so that a released cluster serves clients again and a prepared one is
    acknowledged. */
module GateProgress {
  import opened Types
  import opened MetaStateMachine
  import opened MaintenanceLifecycle
  import opened Admission
  import opened Drain

  // -- Every fence is of a committed operation ----------------------------------------------------

  /** A fence of the committed generation is of the committed operation. */
  ghost predicate Agrees(f: Fence, m: Fence) {
    f.Some? && m.Some? && f.value.generation == m.value.generation ==> SameOperation(f.value, m.value)
  }

  ghost predicate GateAgrees(g: Gate, m: Fence) {
    Agrees(g.memory, m) && Agrees(g.durable, m) && (!g.task.Idle? ==> Agrees(g.task.view, m))
  }

  ghost predicate Agreement(sys: System) {
    && sys.meta.maintenance in sys.views
    && (forall v :: v in sys.views ==> Agrees(v, sys.meta.maintenance))
    && (forall n :: n in sys.gates ==> GateAgrees(sys.gates[n], sys.meta.maintenance))
  }

  /** A committed change keeps the operation or opens a generation no fence has seen. */
  lemma AgreesOn(f: Fence, m: Fence, m': Fence)
    requires Agrees(f, m) && Genuine(f, Progress(m)) && Legal(m, m')
    ensures Agrees(f, m')
  {
  }

  lemma GateAgreesOn(g: Gate, m: Fence, m': Fence)
    requires GateAgrees(g, m) && GateInv(g, Progress(m)) && Legal(m, m')
    ensures GateAgrees(g, m')
  {
    AgreesOn(g.memory, m, m');
    AgreesOn(g.durable, m, m');
    if !g.task.Idle? { AgreesOn(g.task.view, m, m'); }
  }

  lemma StepAgrees(g: Gate, e: GateEvent, m: Fence)
    requires GateAgrees(g, m) && GateEnabled(g, e) && (e.Begin? ==> Agrees(e.view, m))
    ensures GateAgrees(GateNext(g, e), m)
  {
  }

  lemma CommitAgrees(env: Env, sys: System, cmd: MetaCommand, logId: LogId)
    requires Inv(env, sys) && Agreement(sys) && Enabled(sys, Commit(cmd, logId))
    ensures Agreement(Next(env, sys, Commit(cmd, logId)))
  {
    var m, m' := sys.meta.maintenance, Evaluate(env, sys.meta, cmd, logId).state.maintenance;
    CommandStep(env, sys.meta, cmd, logId);
    forall v | v in sys.views ensures Agrees(v, m') { AgreesOn(v, m, m'); }
    forall n | n in sys.gates ensures GateAgrees(sys.gates[n], m') {
      assert GateInv(sys.gates[n], Top(sys));
      GateAgreesOn(sys.gates[n], m, m');
    }
  }

  lemma NextAgrees(env: Env, sys: System, e: Event)
    requires Inv(env, sys) && Agreement(sys) && Enabled(sys, e)
    ensures Agreement(Next(env, sys, e))
  {
    match e
    case Boot(n) =>
    case Commit(cmd, logId) => CommitAgrees(env, sys, cmd, logId);
    case Local(n, step) => StepAgrees(sys.gates[n], step, sys.meta.maintenance);
  }

  lemma {:induction false} RunAgrees(env: Env, sys: System, events: seq<Event>, end: System)
    requires Inv(env, sys) && Agreement(sys) && Runs(env, sys, events, end)
    ensures Inv(env, end) && Agreement(end)
    decreases |events|
  {
    if events != [] {
      StepKeeps(env, sys, events[0]);
      NextAgrees(env, sys, events[0]);
      RunAgrees(env, Next(env, sys, events[0]), events[1..], end);
    }
  }

  // -- One gate installs a view -------------------------------------------------------------------

  /** `steps` take `g` to `h`, looking at no other view than `m`. */
  ghost predicate Leads(g: Gate, steps: seq<GateEvent>, h: Gate, m: Fence) {
    Steps(g, steps) == Some(h) && forall i :: 0 <= i < |steps| && steps[i].Begin? ==> steps[i].view == m
  }

  lemma Stay(g: Gate, m: Fence)
    ensures Leads(g, [], g, m)
  {
  }

  lemma Onward(g: Gate, steps: seq<GateEvent>, h: Gate, e: GateEvent, m: Fence)
    requires Leads(g, steps, h, m) && GateEnabled(h, e) && (e.Begin? ==> e.view == m)
    ensures Leads(g, steps + [e], GateNext(h, e), m)
  {
    StepsSnoc(g, steps, e);
  }

  /** Everyone leaves. */
  lemma {:induction false} Empties(g: Gate, steps: seq<GateEvent>, h: Gate, m: Fence)
    returns (more: seq<GateEvent>)
    requires Leads(g, steps, h, m)
    ensures Leads(g, more, h.(entering := 0, permits := 0), m)
    decreases h.entering + h.permits
  {
    if h.entering > 0 {
      Onward(g, steps, h, LeaveEarly, m);
      more := Empties(g, steps + [LeaveEarly], GateNext(h, LeaveEarly), m);
    } else if h.permits > 0 {
      Onward(g, steps, h, Finish, m);
      more := Empties(g, steps + [Finish], GateNext(h, Finish), m);
    } else {
      more := steps;
    }
  }

  /** The view is installed and the flag says whether it lets clients in. */
  ghost predicate Installed(g: Gate, m: Fence) {
    SameFence(g.memory, m) && g.open == Unfenced(m) && g.task.Idle? && g.entering == 0 && g.permits == 0
  }

  /** The step before `h` is the one at which reconcile returns Ok for `m`. */
  ghost predicate Confirms(g: Gate, steps: seq<GateEvent>, h: Gate, m: Fence) {
    && steps != [] && Steps(g, steps[..|steps| - 1]).Some?
    && var last := Steps(g, steps[..|steps| - 1]).value;
    && GateEnabled(last, steps[|steps| - 1]) && GateNext(last, steps[|steps| - 1]) == h
    && ReturnsOk(last, steps[|steps| - 1]) == Some(m)
  }

  lemma OnwardConfirms(g: Gate, steps: seq<GateEvent>, h: Gate, e: GateEvent, m: Fence)
    requires Leads(g, steps, h, m) && GateEnabled(h, e) && ReturnsOk(h, e) == Some(m)
    ensures Confirms(g, steps + [e], GateNext(h, e), m)
  {
    assert (steps + [e])[..|steps|] == steps;
  }

  lemma Accepted(g: Gate, steps: seq<GateEvent>, h: Gate, m: Fence) returns (more: seq<GateEvent>, end: Gate)
    requires Leads(g, steps, h, m) && h.task == Validated(m) && h.entering == 0 && h.permits == 0
    ensures Leads(g, more, end, m) && Installed(end, m) && Confirms(g, more, end, m)
  {
    var closed := GateNext(h, Close);
    Onward(g, steps, h, Close, m);
    var locked := GateNext(closed, Lock);
    Onward(g, steps + [Close], closed, Lock, m);
    var kept := GateNext(locked, Persist);
    Onward(g, steps + [Close] + [Lock], locked, Persist, m);
    more := steps + [Close] + [Lock] + [Persist];
    Onward(g, more, kept, Publish, m);
    OnwardConfirms(g, more, kept, Publish, m);
    more, end := more + [Publish], GateNext(kept, Publish);
  }

  /** From any state a gate can install any view that may follow what it has. */
  lemma Installs(g: Gate, m: Fence) returns (steps: seq<GateEvent>, end: Gate)
    requires SameFence(g.memory, m) || MayFollow(g.memory, m)
    ensures Leads(g, steps, end, m) && Installed(end, m) && Confirms(g, steps, end, m)
  {
    var idle := GateNext(g, Cancel);
    Stay(g, m);
    Onward(g, [], g, Cancel, m);
    var emptied := Empties(g, [] + [Cancel], idle, m);
    var empty := idle.(entering := 0, permits := 0);
    var held := GateNext(empty, Begin(m));
    Onward(g, emptied, empty, Begin(m), m);
    var compared := GateNext(held, Compare);
    Onward(g, emptied + [Begin(m)], held, Compare, m);
    if SameFence(g.memory, m) {
      OnwardConfirms(g, emptied + [Begin(m)], held, Compare, m);
      steps, end := emptied + [Begin(m)] + [Compare], compared;
    } else {
      TransitionExactly(g.memory, m);
      steps, end := Accepted(g, emptied + [Begin(m)] + [Compare], compared, m);
    }
  }

  // -- The node in the cluster --------------------------------------------------------------------

  /** The steps of node `n`. */
  function At(n: NodeId, steps: seq<GateEvent>): (events: seq<Event>)
    ensures |events| == |steps|
    ensures forall i :: 0 <= i < |steps| ==> events[i] == Local(n, steps[i])
  {
    seq(|steps|, i requires 0 <= i < |steps| => Local(n, steps[i]))
  }

  lemma {:induction false} StepsAreARun(env: Env, sys: System, n: NodeId, steps: seq<GateEvent>) returns (end: System)
    requires n in sys.gates && Steps(sys.gates[n], steps).Some?
    requires forall i :: 0 <= i < |steps| && steps[i].Begin? ==> steps[i].view in sys.views
    ensures Runs(env, sys, At(n, steps), end)
    ensures end == sys.(gates := sys.gates[n := Steps(sys.gates[n], steps).value], acks := end.acks)
    ensures sys.acks <= end.acks
    decreases |steps|
  {
    if steps == [] {
      end := sys;
      assert sys.gates[n := sys.gates[n]] == sys.gates;
    } else {
      var next := Next(env, sys, Local(n, steps[0]));
      end := StepsAreARun(env, next, n, steps[1..]);
      assert At(n, steps)[1..] == At(n, steps[1..]);
      assert next.gates[n := end.gates[n]] == sys.gates[n := end.gates[n]];
    }
  }

  lemma {:induction false} RunsConcat(env: Env, sys: System, a: seq<Event>, mid: System, b: seq<Event>, end: System)
    requires Runs(env, sys, a, mid) && Runs(env, mid, b, end)
    ensures Runs(env, sys, a + b, end)
    decreases |a|
  {
    if a == [] {
      assert a + b == b;
    } else {
      assert (a + b)[1..] == a[1..] + b;
      RunsConcat(env, Next(env, sys, a[0]), a[1..], mid, b, end);
    }
  }

  /** What is committed may follow whatever a gate has installed. */
  lemma CommittedFollows(g: Gate, m: Fence)
    requires GateInv(g, Progress(m)) && GateAgrees(g, m)
    ensures SameFence(g.memory, m) || MayFollow(g.memory, m)
  {
  }

  /** The acknowledgement a node owes to a prepared operation. */
  function Owed(n: NodeId, m: Fence): set<(nat, u64, NodeId)> {
    if m.Some? && m.value.stage == Preparing then {(m.value.operationId, m.value.generation, n)} else {}
  }

  /** From `sys` to `end` only node `n` has moved, and it has installed and acknowledged what is committed. */
  ghost predicate CaughtUp(sys: System, end: System, n: NodeId) {
    && n in end.gates && end == sys.(gates := sys.gates[n := end.gates[n]], acks := end.acks)
    && sys.acks + Owed(n, sys.meta.maintenance) <= end.acks && Installed(end.gates[n], sys.meta.maintenance)
  }

  lemma LastStep(env: Env, sys: System, n: NodeId, e: GateEvent, m: Fence) returns (end: System)
    requires n in sys.gates && GateEnabled(sys.gates[n], e) && (e.Begin? ==> e.view in sys.views)
    requires ReturnsOk(sys.gates[n], e) == Some(m)
    ensures Runs(env, sys, [Local(n, e)], end)
    ensures end == sys.(gates := sys.gates[n := GateNext(sys.gates[n], e)], acks := sys.acks + Owed(n, m))
  {
    end := Stepped(sys, n, e);
    assert [Local(n, e)][1..] == [];
  }

  lemma InstalledCatchesUp(sys: System, mid: System, end: System, n: NodeId, g: Gate)
    requires n in sys.gates && Installed(g, sys.meta.maintenance)
    requires n in mid.gates && mid == sys.(gates := sys.gates[n := mid.gates[n]], acks := mid.acks)
             && sys.acks <= mid.acks
    requires end == mid.(gates := mid.gates[n := g], acks := mid.acks + Owed(n, sys.meta.maintenance))
    ensures CaughtUp(sys, end, n)
  {
    assert mid.gates[n := g] == sys.gates[n := g];
  }

  /** A node can install what is committed now: it drops what it is doing, lets its clients finish, and looks again. */
  lemma NodeCatchesUp(env: Env, sys: System, n: NodeId) returns (more: seq<Event>, end: System)
    requires Inv(env, sys) && Agreement(sys) && n in sys.gates
    ensures Runs(env, sys, more, end) && CaughtUp(sys, end, n)
  {
    var m, g := sys.meta.maintenance, sys.gates[n];
    assert GateInv(g, Top(sys));
    CommittedFollows(g, m);
    var steps, done := Installs(g, m);
    var init, last := steps[..|steps| - 1], steps[|steps| - 1];
    var mid := StepsAreARun(env, sys, n, init);
    end := LastStep(env, mid, n, last, m);
    RunsConcat(env, sys, At(n, init), mid, [Local(n, last)], end);
    InstalledCatchesUp(sys, mid, end, n, done);
    more := At(n, init) + [Local(n, last)];
  }

  /** From `sys` to `end` nothing is committed, and every node of `todo` has caught up. */
  ghost predicate AllCaughtUp(sys: System, end: System, todo: set<NodeId>) {
    && end == sys.(gates := end.gates, acks := end.acks) && end.gates.Keys == sys.gates.Keys && sys.acks <= end.acks
    && forall n :: n in todo ==> n in end.gates && Installed(end.gates[n], sys.meta.maintenance)
                                 && Owed(n, sys.meta.maintenance) <= end.acks
  }

  lemma OneMoreCaughtUp(sys: System, mid: System, end: System, todo: set<NodeId>, n: NodeId)
    requires AllCaughtUp(sys, mid, todo) && n in mid.gates && CaughtUp(mid, end, n)
    ensures AllCaughtUp(sys, end, todo + {n})
  {
  }

  lemma NextCatchesUp(env: Env, sys: System, first: seq<Event>, mid: System, todo: set<NodeId>, n: NodeId)
    returns (more: seq<Event>, end: System)
    requires Inv(env, sys) && Agreement(sys) && n in sys.gates
    requires Runs(env, sys, first, mid) && AllCaughtUp(sys, mid, todo)
    ensures Runs(env, sys, more, end) && AllCaughtUp(sys, end, todo + {n})
  {
    RunAgrees(env, sys, first, mid);
    var second, last := NodeCatchesUp(env, mid, n);
    OneMoreCaughtUp(sys, mid, last, todo, n);
    RunsConcat(env, sys, first, mid, second, last);
    more, end := first + second, last;
  }

  lemma NobodyCaughtUp(env: Env, sys: System)
    ensures Runs(env, sys, [], sys) && AllCaughtUp(sys, sys, {})
  {
  }

  lemma {:induction false} NodesCatchUp(env: Env, sys: System, todo: set<NodeId>)
    returns (more: seq<Event>, end: System)
    requires Inv(env, sys) && Agreement(sys) && todo <= sys.gates.Keys
    ensures Runs(env, sys, more, end) && AllCaughtUp(sys, end, todo)
    decreases todo
  {
    if todo == {} {
      NobodyCaughtUp(env, sys);
      more, end := [], sys;
    } else {
      var n :| n in todo;
      var first, mid := NodesCatchUp(env, sys, todo - {n});
      more, end := NextCatchesUp(env, sys, first, mid, todo - {n}, n);
      assert todo - {n} + {n} == todo;
    }
  }

  /** Whatever interleaving of admissions, reconciles with delayed views, failed writes, cancellations, restarts and
      commits led here, the nodes can all install what is committed now. If nothing or a released operation is
      committed, every gate is then open; if an operation is being prepared, every gate is closed with no client
      inside, and has acknowledged it. */
  lemma ClusterCatchesUp(env: Env, events: seq<Event>, sys: System) returns (more: seq<Event>, end: System)
    requires Runs(env, START, events, sys)
    ensures Runs(env, START, events + more, end) && AllCaughtUp(sys, end, sys.gates.Keys)
    ensures !MaintenanceIsActive(sys.meta) ==> forall n :: n in end.gates ==> end.gates[n].open
  {
    StartInv(env);
    RunAgrees(env, START, events, sys);
    more, end := NodesCatchUp(env, sys, sys.gates.Keys);
    RunsConcat(env, START, events, sys, more, end);
  }
}
