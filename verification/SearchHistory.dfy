/** Search generations and readiness over whole logs (src/meta/state_machine.rs): where a generation comes
    from, how long it is held, and which of a voter's reports the record keeps. */
module SearchHistory {
  import opened Types
  import opened Keyspace
  import opened MetaStateMachine
  import opened MetaInvariants
  import opened SearchReadiness

  // -- Generations ----------------------------------------------------------------------------------

  /** Every generation an index accounts for was created for that index by the entry whose position it bears. */
  lemma {:induction false} GenerationsAreCreated(env: Env, log: seq<Committed>, name: Bytes, g: nat) returns (i: nat)
    requires Indexed64(log) && Kept(ApplyLog(env, EMPTY_META, log).search, name, g)
    ensures i < |log| && Creates(log[i].cmd, name) && g == log[i].logId.index
  {
    var before, c := log[..|log| - 1], log[|log| - 1];
    var s := ApplyLog(env, EMPTY_META, before);
    assert log == before + [c];
    ApplyLogSnoc(env, EMPTY_META, before, c);
    RunKeeps(env, EMPTY_META, before);
    GenerationsAreConserved(env, s, c.cmd, c.logId, name, g);
    if Kept(s.search, name, g) {
      i := GenerationsAreCreated(env, before, name, g);
    } else {
      i := |before|;
    }
  }

  /** Over any run a generation an index holds stays accounted for until its own drop is finalized. */
  lemma {:induction false} GenerationsAreKept(env: Env, s: MetaState, log: seq<Committed>, name: Bytes, g: nat)
    requires SearchInv(s) && Indexed64(log) && Kept(s.search, name, g)
    requires forall i :: 0 <= i < |log| ==> !FinalizesDrop(log[i].cmd, name, g)
    ensures Kept(ApplyLog(env, s, log).search, name, g)
    decreases |log|
  {
    if log != [] {
      var next := Evaluate(env, s, log[0].cmd, log[0].logId).state;
      GenerationsAreConserved(env, s, log[0].cmd, log[0].logId, name, g);
      CommandStep(env, s, log[0].cmd, log[0].logId);
      GenerationsAreKept(env, next, log[1..], name, g);
    }
  }

  /** A new generation's id was never held before by any index, not even one that has been dropped since. */
  lemma NewGenerationsAreNew(env: Env, log: seq<Committed>, c: Committed, k: nat, name: Bytes)
    requires LogOrdered(log + [c]) && Indexed64(log) && k <= |log|
    ensures !Kept(ApplyLog(env, EMPTY_META, log[..k]).search, name, c.logId.index)
  {
    if Kept(ApplyLog(env, EMPTY_META, log[..k]).search, name, c.logId.index) {
      var i := GenerationsAreCreated(env, log[..k], name, c.logId.index);
      EarlierIsSmaller(log, c, i);
    }
  }

  lemma EarlierIsSmaller(log: seq<Committed>, c: Committed, i: nat)
    requires LogOrdered(log + [c]) && i < |log|
    ensures log[i].logId.index < c.logId.index
  {
    assert (log + [c])[i] == log[i] && (log + [c])[|log|] == c;
  }

  // -- Readiness --------------------------------------------------------------------------------------

  /** Entry `i` is this report, and it came from a current voter about the current build when it was committed. */
  ghost predicate ReportedAt(env: Env, log: seq<Committed>, i: nat, k: ReadyKey, obs: SearchReady) {
    && i < |log| && log[i].cmd == ReportSearchReady(k.name, obs) && KeyOf(k.name, obs) == k
    && Timely(ApplyLog(env, EMPTY_META, log[..i]), k.name, obs)
  }

  lemma ReadyOrigin(s: MetaState, t: MetaState, cmd: MetaCommand, logId: LogId, k: ReadyKey)
    requires Moves(s, t, cmd, logId) && k in t.ready
    ensures || (k in s.ready && s.ready[k] == t.ready[k])
            || (cmd == ReportSearchReady(k.name, t.ready[k]) && KeyOf(k.name, t.ready[k]) == k
                && Timely(s, k.name, t.ready[k]))
  {
  }

  lemma LastMoves(env: Env, before: seq<Committed>, c: Committed)
    requires Indexed64(before)
    ensures Moves(ApplyLog(env, EMPTY_META, before), ApplyLog(env, EMPTY_META, before + [c]), c.cmd, c.logId)
  {
    ApplyLogSnoc(env, EMPTY_META, before, c);
    RunKeeps(env, EMPTY_META, before);
    CommandMoves(env, ApplyLog(env, EMPTY_META, before), c.cmd, c.logId);
  }

  lemma ReportRemains(env: Env, before: seq<Committed>, c: Committed, i: nat, k: ReadyKey, obs: SearchReady)
    requires ReportedAt(env, before, i, k, obs)
    ensures ReportedAt(env, before + [c], i, k, obs)
  {
    assert (before + [c])[..i] == before[..i];
  }

  lemma ReportLands(env: Env, before: seq<Committed>, c: Committed, k: ReadyKey, obs: SearchReady)
    requires c.cmd == ReportSearchReady(k.name, obs) && KeyOf(k.name, obs) == k
    requires Timely(ApplyLog(env, EMPTY_META, before), k.name, obs)
    ensures ReportedAt(env, before + [c], |before|, k, obs)
  {
    assert (before + [c])[..|before|] == before;
  }

  /** Every readiness record is a committed report of a node that was then a voter under that very configuration. */
  lemma {:induction false} ReadinessWasReported(env: Env, log: seq<Committed>, k: ReadyKey) returns (i: nat)
    requires Indexed64(log) && k in ApplyLog(env, EMPTY_META, log).ready
    ensures ReportedAt(env, log, i, k, ApplyLog(env, EMPTY_META, log).ready[k])
  {
    var before, c := log[..|log| - 1], log[|log| - 1];
    var s, t := ApplyLog(env, EMPTY_META, before), ApplyLog(env, EMPTY_META, log);
    assert log == before + [c];
    LastMoves(env, before, c);
    ReadyOrigin(s, t, c.cmd, c.logId, k);
    if k in s.ready && s.ready[k] == t.ready[k] {
      i := ReadinessWasReported(env, before, k);
      ReportRemains(env, before, c, i, k, t.ready[k]);
    } else {
      i := |before|;
      ReportLands(env, before, c, k, t.ready[k]);
    }
  }

  predicate Builds(s: MetaState, name: Bytes, g: nat) {
    name in s.search && s.search[name].building.Some? && s.search[name].building.value.id == g
  }

  /** The table holds this report or a newer one of the same voter, unless that build is over. */
  ghost predicate Accounted(s: MetaState, name: Bytes, obs: SearchReady, bound: nat) {
    && obs.generation < bound
    && if KeyOf(name, obs) in s.ready then NoOlder(obs, s.ready[KeyOf(name, obs)]) else !Builds(s, name, obs.generation)
  }

  lemma RecordedAccounts(s: MetaState, t: MetaState, cmd: MetaCommand, name: Bytes, obs: SearchReady, bound: nat)
    requires Recorded(s, t, cmd) && Accounted(s, name, obs, bound)
    ensures Accounted(t, name, obs, bound)
  {
    if KeyOf(cmd.name, cmd.ready) == KeyOf(name, obs) && KeyOf(name, obs) !in s.ready {
      assert Builds(s, name, obs.generation);
    }
  }

  lemma EndedAccounts(s: MetaState, t: MetaState, cmd: MetaCommand, name: Bytes, obs: SearchReady, bound: nat)
    requires (Ended(s, t, cmd) || Finalized(s, t, cmd)) && Accounted(s, name, obs, bound)
    ensures Accounted(t, name, obs, bound)
  {
  }

  lemma StartedAccounts(s: MetaState, t: MetaState, cmd: MetaCommand, logId: LogId, name: Bytes, obs: SearchReady,
                        bound: nat)
    requires Started(s, t, cmd, logId) && bound <= logId.index && Accounted(s, name, obs, bound)
    ensures Accounted(t, name, obs, bound)
  {
  }

  lemma AccountedStep(s: MetaState, t: MetaState, cmd: MetaCommand, logId: LogId, name: Bytes, obs: SearchReady,
                      bound: nat)
    requires Moves(s, t, cmd, logId) && bound <= logId.index && Accounted(s, name, obs, bound)
    ensures Accounted(t, name, obs, bound)
  {
    if Started(s, t, cmd, logId) {
      StartedAccounts(s, t, cmd, logId, name, obs, bound);
    } else if Ended(s, t, cmd) || Finalized(s, t, cmd) {
      EndedAccounts(s, t, cmd, name, obs, bound);
    } else if Recorded(s, t, cmd) {
      RecordedAccounts(s, t, cmd, name, obs, bound);
    }
  }

  lemma JustRecorded(env: Env, log: seq<Committed>, s: MetaState, t: MetaState, cmd: MetaCommand)
    requires LogOrdered(log) && Indexed64(log) && s == ApplyLog(env, EMPTY_META, log) && Recorded(s, t, cmd)
    ensures Accounted(t, cmd.name, cmd.ready, Bound(log))
  {
    var i := GenerationsAreCreated(env, log, cmd.name, cmd.ready.generation);
  }

  /** Of all the reports of one voter about one build that took effect, the table keeps one that none is newer than. */
  lemma {:induction false} ReadinessIsLatest(env: Env, log: seq<Committed>, name: Bytes, obs: SearchReady)
    requires LogOrdered(log) && Indexed64(log) && ReportSearchReady(name, obs) in Effective(env, log)
    ensures Accounted(ApplyLog(env, EMPTY_META, log), name, obs, Bound(log))
  {
    var before, c := log[..|log| - 1], log[|log| - 1];
    var s := ApplyLog(env, EMPTY_META, before);
    var o := Evaluate(env, s, c.cmd, c.logId);
    assert log == before + [c];
    ApplyLogSnoc(env, EMPTY_META, before, c);
    EffectiveSnoc(env, before, c, o);
    LogPrefix(env, log);
    if ReportSearchReady(name, obs) in Effective(env, before) {
      ReadinessIsLatest(env, before, name, obs);
      LastMoves(env, before, c);
      AccountedStep(s, o.state, c.cmd, c.logId, name, obs, Bound(before));
    } else {
      AppliedReport(env, s, c.cmd, c.logId);
      JustRecorded(env, before, s, o.state, c.cmd);
    }
  }

  lemma AppliedReport(env: Env, s: MetaState, cmd: MetaCommand, logId: LogId)
    requires cmd.ReportSearchReady? && Evaluate(env, s, cmd, logId).result.MetaApplied?
    ensures Recorded(s, Evaluate(env, s, cmd, logId).state, cmd)
  {
    ReportFacts(s, cmd);
  }
}
