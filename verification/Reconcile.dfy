/** The move gate and startup reconciliation (src/meta/reconcile.rs). */
module Reconcile {
  import opened Types

  datatype GateDecision = Accept | NoPlan | RejectAborting | RejectConfigMismatch | RejectNotSingleVoter

  datatype ReconcileAction = NothingToDo | ResumePlan | CompleteJoint | Finalize | Error

  function Current(p: Placement): set<NodeId> {
    VoterSet(p.voters)
  }

  function Target(p: Placement): set<NodeId>
    requires p.move.Some?
  {
    VoterSet(p.move.value.targetVoters)
  }

  function Gate(p: Placement, committed: set<NodeId>): GateDecision {
    if p.move.None? then NoPlan
    else if p.move.value.aborting then RejectAborting
    else if Current(p) != committed then RejectConfigMismatch
    else if |Target(p) - Current(p)| != 1 || |Current(p) - Target(p)| != 1 then RejectNotSingleVoter
    else Accept
  }

  function ReconcilePlan(p: Placement, committed: set<NodeId>): ReconcileAction {
    if p.move.None? then NothingToDo
    else if committed == Current(p) then ResumePlan
    else if committed == Target(p) then Finalize
    else if committed == Current(p) + Target(p) then CompleteJoint
    else Error
  }

  /** A one-for-one swap: its two ends and their union are three different sets. */
  lemma PhasesDiffer(v: set<NodeId>, t: set<NodeId>)
    requires OneForOne(v, t)
    ensures v != t && v + t != v && v + t != t
  {
    assert t - v != {} && v - t != {};
    var x :| x in t - v;
    var y :| y in v - t;
  }

  /** For a legal plan each phase of the change is recognised as itself, and nothing else is accepted. */
  lemma PhasesRecognised(p: Placement, committed: set<NodeId>)
    requires p.move.Some? && OneForOne(Current(p), Target(p))
    ensures ReconcilePlan(p, committed) == ResumePlan <==> committed == Current(p)
    ensures ReconcilePlan(p, committed) == Finalize <==> committed == Target(p)
    ensures ReconcilePlan(p, committed) == CompleteJoint <==> committed == Current(p) + Target(p)
    ensures ReconcilePlan(p, committed) == Error
       <==> committed != Current(p) && committed != Target(p) && committed != Current(p) + Target(p)
    ensures Gate(p, committed) == Accept <==> !p.move.value.aborting && committed == Current(p)
  {
    PhasesDiffer(Current(p), Target(p));
  }
}
