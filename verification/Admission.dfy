/** The node-local client admission gate (src/runtime/maintenance.rs): `admit` and `reconcile` as
    interleaved atomic steps over the locked record, the open flag and the durable fence. */
module Admission {
  import opened Types
  import opened MaintenanceLifecycle

  type Fence = Option<MaintenanceRecord>

  /** Where the caller that holds the reconcile lock stands.
      Holding: about to compare; Validated: transition accepted; Waiting: flag cleared, waiting for the
      write lock; Locked: write lock held; Persisted: record durable, not yet published. */
  datatype Task = Idle | Holding(view: Fence) | Validated(view: Fence) | Waiting(view: Fence)
                | Locked(view: Fence) | Persisted(view: Fence)

  /** `entering` callers hold a read guard but have not looked at the flag; `permits` were admitted. */
  datatype Gate = Gate(memory: Fence, open: bool, durable: Fence, entering: nat, permits: nat, task: Task)

  const FRESH_GATE: Gate := Gate(None, false, None, 0, 0, Idle)

  predicate Unfenced(f: Fence) {
    f.None? || f.value.stage == Released
  }

  predicate SameFence(current: Fence, next: Fence) {
    match (current, next)
    case (None, None) => true
    case (Some(c), Some(n)) =>
      c.operationId == n.operationId && c.generation == n.generation
      && c.participants == n.participants && c.stage == n.stage
    case _ => false
  }

  datatype Transition = Accept | Stale | Conflict

  function ValidateTransition(current: Fence, next: Fence): Transition {
    if current.None? then Accept
    else if next.None? then Conflict
    else
      var c, n := current.value, next.value;
      if n.generation < c.generation then Stale
      else if n.generation == c.generation && (n.operationId != c.operationId || n.participants != c.participants) then
        Conflict
      else if n.generation == c.generation && StageRank(n.stage) < StageRank(c.stage) then Stale
      else Accept
  }

  /** What may be installed over `current`: anything at first, then a later generation, or the same operation at no
      earlier a stage. */
  ghost predicate MayFollow(current: Fence, next: Fence) {
    current.Some? ==>
      && next.Some?
      && (|| next.value.generation > current.value.generation
          || (SameOperation(current.value, next.value)
              && StageRank(next.value.stage) >= StageRank(current.value.stage)))
  }

  predicate SameOperation(r: MaintenanceRecord, r': MaintenanceRecord) {
    r'.generation == r.generation && r'.operationId == r.operationId && r'.participants == r.participants
  }

  /** A view that something later has been installed over. */
  ghost predicate Behind(current: Fence, next: Fence) {
    && current.Some? && next.Some?
    && (|| next.value.generation < current.value.generation
        || (SameOperation(current.value, next.value) && StageRank(next.value.stage) < StageRank(current.value.stage)))
  }

  /** A view is accepted exactly if it may follow, passed over exactly if it is behind, and otherwise in conflict. */
  lemma TransitionExactly(current: Fence, next: Fence)
    ensures ValidateTransition(current, next) == Accept <==> MayFollow(current, next)
    ensures ValidateTransition(current, next) == Stale <==> Behind(current, next)
  {
  }

  // -- Atomic steps --------------------------------------------------------------------------

  datatype GateEvent =
    | Enter                       // a caller takes the read guard
    | CheckOpen                   // it reads the flag and keeps or drops the guard
    | LeaveEarly                  // it is cancelled before reading the flag
    | Finish                      // an admitted operation completes or is cancelled
    | Begin(view: Fence)          // the reconcile lock is taken for one view
    | Compare                     // compare with the current record
    | Close                       // clear the flag
    | Lock                        // the write lock is granted: no guard is out
    | Persist                     // the fence is durable
    | PersistFails(landed: bool)  // the write reports an error; it may still have landed
    | Publish                     // install the record, set the flag, unlock
    | Cancel                      // the reconcile future is dropped
    | Restart                     // process crash and start

  predicate Writing(t: Task) {
    t.Locked? || t.Persisted?
  }

  predicate GateEnabled(g: Gate, e: GateEvent) {
    match e
    case Enter => !Writing(g.task)
    case CheckOpen => g.entering > 0
    case LeaveEarly => g.entering > 0
    case Finish => g.permits > 0
    case Begin(_) => g.task.Idle?
    case Compare => g.task.Holding?
    case Close => g.task.Validated?
    case Lock => g.task.Waiting? && g.entering == 0 && g.permits == 0
    case Persist => g.task.Locked?
    case PersistFails(_) => g.task.Locked?
    case Publish => g.task.Persisted?
    case Cancel => true
    case Restart => true
  }

  function Stored(durable: Fence, view: Fence): Fence {
    if view.Some? then view else durable
  }

  function Compared(g: Gate, view: Fence): Gate {
    if SameFence(g.memory, view) then g.(open := Unfenced(view), task := Idle)
    else
      match ValidateTransition(g.memory, view)
      case Stale => g.(task := Idle)
      case Conflict => g.(open := false, task := Idle)
      case Accept => g.(task := Validated(view))
  }

  function GateNext(g: Gate, e: GateEvent): Gate
    requires GateEnabled(g, e)
  {
    match e
    case Enter => g.(entering := g.entering + 1)
    case CheckOpen => g.(entering := g.entering - 1, permits := if g.open then g.permits + 1 else g.permits)
    case LeaveEarly => g.(entering := g.entering - 1)
    case Finish => g.(permits := g.permits - 1)
    case Begin(view) => g.(task := Holding(view))
    case Compare => Compared(g, g.task.view)
    case Close => g.(open := false, task := Waiting(g.task.view))
    case Lock => g.(task := Locked(g.task.view))
    case Persist => g.(durable := Stored(g.durable, g.task.view), task := Persisted(g.task.view))
    case PersistFails(landed) =>
      g.(durable := if landed then Stored(g.durable, g.task.view) else g.durable, task := Idle)
    case Publish => g.(memory := g.task.view, open := Unfenced(g.task.view), task := Idle)
    case Cancel => g.(task := Idle)
    case Restart => Gate(g.durable, false, g.durable, 0, 0, Idle)
  }

  /** The step at which `reconcile` returns Ok, and for which view. */
  function ReturnsOk(g: Gate, e: GateEvent): Option<Fence>
    requires GateEnabled(g, e)
  {
    if e.Compare? && SameFence(g.memory, g.task.view) then Some(g.task.view)
    else if e.Publish? then Some(g.task.view)
    else None
  }

  // -- Invariant --------------------------------------------------------------------------------

  /** A confirmed view is never ahead of the committed record. */
  ghost predicate Genuine(view: Fence, top: (int, int)) {
    NoLater(Progress(view), top) && (view.Some? ==> view.value.generation >= 1)
  }

  ghost predicate TaskInv(g: Gate, top: (int, int)) {
    match g.task
    case Idle => true
    case Holding(view) => Genuine(view, top)
    case Validated(view) => Genuine(view, top) && view.Some? && NoLater(Progress(g.memory), Progress(view))
    case Waiting(view) => Genuine(view, top) && view.Some? && NoLater(Progress(g.memory), Progress(view)) && !g.open
    case Locked(view) =>
      Genuine(view, top) && view.Some? && NoLater(Progress(g.memory), Progress(view)) && !g.open
          && g.entering == g.permits == 0
    case Persisted(view) =>
      Genuine(view, top) && view.Some? && NoLater(Progress(g.memory), Progress(view)) && !g.open
          && g.entering == g.permits == 0
      && g.durable == view
  }

  /** Admission and outstanding permits imply an unfenced record, and what is in memory was made
      durable first: a restart never forgets a fence. */
  ghost predicate GateInv(g: Gate, top: (int, int)) {
    && (g.open || g.permits > 0 ==> Unfenced(g.memory))
    && Genuine(g.memory, top) && Genuine(g.durable, top)
    && NoLater(Progress(g.memory), Progress(g.durable))
    && TaskInv(g, top)
  }

  lemma SameFenceProgress(a: Fence, b: Fence)
    requires SameFence(a, b)
    ensures Progress(a) == Progress(b) && Unfenced(a) == Unfenced(b)
  {
  }

  lemma AcceptAdvances(current: Fence, next: Fence)
    requires !SameFence(current, next) && ValidateTransition(current, next) == Accept
    requires current.Some? ==> current.value.generation >= 1
    requires next.Some? ==> next.value.generation >= 1
    ensures next.Some? && NoLater(Progress(current), Progress(next))
  {
  }

  lemma CompareStep(g: Gate, e: GateEvent, top: (int, int))
    requires GateInv(g, top) && GateEnabled(g, e) && e.Compare?
    ensures GateInv(GateNext(g, e), top)
    ensures NoLater(Progress(g.memory), Progress(GateNext(g, e).memory))
    ensures ReturnsOk(g, e).Some? ==> Progress(GateNext(g, e).memory) == Progress(ReturnsOk(g, e).value)
  {
    var view := g.task.view;
    if SameFence(g.memory, view) {
      SameFenceProgress(g.memory, view);
    } else if ValidateTransition(g.memory, view) == Accept {
      AcceptAdvances(g.memory, view);
    }
  }

  /** Every step, in any interleaving, keeps the gate coherent; memory moves back only as far as a
      restart to the durable fence, which is never behind it. */
  lemma GateStep(g: Gate, e: GateEvent, top: (int, int))
    requires GateInv(g, top) && GateEnabled(g, e)
    requires e.Begin? ==> Genuine(e.view, top)
    ensures GateInv(GateNext(g, e), top)
    ensures NoLater(Progress(g.memory), Progress(GateNext(g, e).memory))
    ensures ReturnsOk(g, e).Some? ==> Progress(GateNext(g, e).memory) == Progress(ReturnsOk(g, e).value)
  {
    if e.Compare? { CompareStep(g, e, top); }
  }

  lemma GateInvGrows(g: Gate, top: (int, int), higher: (int, int))
    requires GateInv(g, top) && NoLater(top, higher)
    ensures GateInv(g, higher)
  {
  }

  // -- The gate object ------------------------------------------------------------------------------

  datatype Status = ReconcileOk | ReconcileErr | ReconcilePending

  function Steps(g: Gate, events: seq<GateEvent>): Option<Gate>
    decreases |events|
  {
    if events == [] then Some(g)
    else if GateEnabled(g, events[0]) then Steps(GateNext(g, events[0]), events[1..])
    else None
  }

  lemma {:induction false} StepsSnoc(g: Gate, events: seq<GateEvent>, e: GateEvent)
    requires Steps(g, events).Some? && GateEnabled(Steps(g, events).value, e)
    ensures Steps(g, events + [e]) == Some(GateNext(Steps(g, events).value, e))
    decreases |events|
  {
    if events == [] {
      assert events + [e] == [e];
    } else {
      assert (events + [e])[1..] == events[1..] + [e];
      StepsSnoc(GateNext(g, events[0]), events[1..], e);
    }
  }

  /** One gate, driven by one caller at a time; `storageOk` is what the durable write reports. */
  class MaintenanceAdmission {
    var memory: Fence
    var open: bool
    var durable: Fence
    var permits: nat
    ghost var task: Task

    ghost function State(): Gate
      reads this
    {
      Gate(memory, open, durable, 0, permits, task)
    }

    constructor (storage: Fence)
      ensures State() == Gate(storage, false, storage, 0, 0, Idle)
    {
      memory, open, durable, permits, task := storage, false, storage, 0, Idle;
    }

    /** A permit is granted exactly when the gate is open. */
    method Admit() returns (granted: bool)
      requires !Writing(task)
      modifies this
      ensures Steps(old(State()), [Enter, CheckOpen]) == Some(State())
      ensures granted <==> old(open)
    {
      ghost var g := State();
      ghost var entered := GateNext(g, Enter);
      granted := open;
      if granted {
        permits := permits + 1;
      }
      assert State() == GateNext(entered, CheckOpen);
      assert [Enter, CheckOpen][1..] == [CheckOpen] && [CheckOpen][1..] == [];
    }

    /** Returning Ok means the view's fence is installed and durable, the flag says whether clients may
        enter, and, if the fence changed, that no permit was outstanding. The outcome is a run of the
        atomic steps, so every invariant of those steps holds of it. */
    method Reconcile(view: Fence, storageOk: bool) returns (status: Status, ghost events: seq<GateEvent>)
      requires task.Idle?
      modifies this
      ensures Steps(old(State()), events) == Some(State())
      ensures status.ReconcileOk? ==>
                && SameFence(memory, view) && open == Unfenced(view) && task.Idle?
                && (memory != old(memory) ==> old(permits) == 0 && memory == view && (view.Some? ==> durable == view))
      ensures status.ReconcileOk? <==>
                SameFence(old(memory), view) || (MayFollow(old(memory), view) && old(permits) == 0 && storageOk)
      ensures status.ReconcilePending? <==>
                !SameFence(old(memory), view) && MayFollow(old(memory), view) && old(permits) > 0
      ensures status.ReconcilePending? ==> !open && memory == old(memory) && durable == old(durable)
      ensures status.ReconcileErr? ==>
                && memory == old(memory) && durable == old(durable) && task.Idle?
                && open == (old(open) && Behind(old(memory), view))
      ensures permits == old(permits)
    {
      TransitionExactly(memory, view);
      ghost var g := State();
      events := [Begin(view)];
      ghost var held := GateNext(g, Begin(view));
      assert Steps(g, events) == Some(held) by { assert events[1..] == []; }
      StepsSnoc(g, events, Compare);
      events := events + [Compare];
      if SameFence(memory, view) {
        open := Unfenced(view);
        return ReconcileOk, events;
      }
      match ValidateTransition(memory, view)
      case Stale =>
        return ReconcileErr, events;
      case Conflict =>
        open := false;
        return ReconcileErr, events;
      case Accept =>
        StepsSnoc(g, events, Close);
        events := events + [Close];
        open, task := false, Waiting(view);
        if permits > 0 {
          return ReconcilePending, events;
        }
        StepsSnoc(g, events, Lock);
        events := events + [Lock];
        if !storageOk {
          StepsSnoc(g, events, PersistFails(false));
          events := events + [PersistFails(false)];
          task := Idle;
          return ReconcileErr, events;
        }
        StepsSnoc(g, events, Persist);
        events := events + [Persist];
        if view.Some? {
          durable := view;
        }
        StepsSnoc(g, events, Publish);
        events := events + [Publish];
        memory, open, task := view, Unfenced(view), Idle;
        status := ReconcileOk;
    }
  }
}
