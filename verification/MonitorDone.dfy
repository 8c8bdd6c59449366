// When a DONE row of the monitor is final, and two runs in which it is not.
module MonitorDone {
  import opened Monitor
  import opened MonitorRuns

  ghost predicate IsDone(s: State, hash: string) {
    hash in s.rows && s.rows[hash] == Done
  }

  // Nothing is under way that could still write the row: no start or reset is pending, no trigger
  // is open, and whoever is watched or on the way to a trigger is only about to stop.

  ghost predicate Settled(s: State, hash: string) {
    && hash !in s.unstarted && hash !in s.stuck && hash !in s.resuming
    && (forall t :: TriggerClosed(s, hash, t))
    && (forall g :: Harmless(s, hash, g))
    && (hash in s.table ==> At(s, s.table[hash].handle, Expiring))
  }

  ghost predicate TriggerClosed(s: State, hash: string, t: nat) {
    t in s.triggers && s.triggers[t].hash == hash ==> s.triggers[t].pc == Ended
  }

  ghost predicate Harmless(s: State, hash: string, g: nat) {
    g in s.goroutines && s.goroutines[g].hash == hash ==> s.goroutines[g].pc != Marked && s.goroutines[g].pc != Firing
  }

  // Settled rows stay settled and DONE

  lemma SettledStep(s: State, step: Step, hash: string)
    requires Invariant(s) && Enabled(s, step) && Settled(s, hash) && IsDone(s, hash)
    ensures Settled(Do(s, step), hash) && IsDone(Do(s, step), hash)
  {
    var t := Do(s, step);
    SettledRow(s, step, hash);
    SettledTable(s, step, hash);
    forall x ensures TriggerClosed(t, hash, x) { SettledTrigger(s, step, hash, x); }
    forall g ensures Harmless(t, hash, g) { SettledGoroutine(s, step, hash, g); }
  }

  // A goroutine that can still write its row is the watched one.
  lemma Lone(s: State, g: nat)
    requires Invariant(s) && g in s.goroutines && !s.goroutines[g].cancelled
    ensures s.goroutines[g].hash in s.table && s.table[s.goroutines[g].hash].handle == g
  {
    assert GoroutineOk(s, g);
  }

  lemma SettledRow(s: State, step: Step, hash: string)
    requires Invariant(s) && Enabled(s, step) && Settled(s, hash) && IsDone(s, hash)
    ensures IsDone(Do(s, step), hash)
    ensures hash !in Do(s, step).unstarted && hash !in Do(s, step).stuck && hash !in Do(s, step).resuming
  {
    hide Invariant;
    if step.Mark? && step.ok {
      Lone(s, step.g);
    } else if step.Rollback? {
      assert TriggerClosed(s, hash, step.t);
    }
  }

  lemma SettledTable(s: State, step: Step, hash: string)
    requires Invariant(s) && Enabled(s, step) && Settled(s, hash) && IsDone(s, hash)
    ensures hash in Do(s, step).table ==> At(Do(s, step), Do(s, step).table[hash].handle, Expiring)
  {
    assert EntryOk(s, hash);
    hide Invariant;
    if step.Restart? { assert TriggerClosed(s, hash, step.t); }
  }

  lemma SettledTrigger(s: State, step: Step, hash: string, x: nat)
    requires Enabled(s, step) && Settled(s, hash)
    ensures TriggerClosed(Do(s, step), hash, x)
  {
    assert TriggerClosed(s, hash, x);
    if step.Fire? { assert Harmless(s, hash, step.g); }
  }

  lemma SettledGoroutine(s: State, step: Step, hash: string, g: nat)
    requires Invariant(s) && Enabled(s, step) && Settled(s, hash)
    ensures Harmless(Do(s, step), hash, g)
  {
    hide Invariant, Do;
    if g in s.goroutines { HashAfter(s, step, g); }
    if At(Do(s, step), g, Marked) { MarkedAfter(s, step, g); }
    if At(Do(s, step), g, Firing) { FiringAfter(s, step, g); }
    assert Harmless(s, hash, g);
    if g in s.goroutines && !s.goroutines[g].cancelled { Lone(s, g); }
  }

  // Only a mark leads to Marked, and only the stop after it to Firing.

  lemma HashAfter(s: State, step: Step, g: nat)
    requires Enabled(s, step) && g in s.goroutines
    ensures g in Do(s, step).goroutines && Do(s, step).goroutines[g].hash == s.goroutines[g].hash
  {
    hide DoStart, DoStop;
    match step
    case Start(hash, kind, x) => StartKeepsHash(s.(unstarted := s.unstarted - {hash}), hash, kind, x, g);
    case Resume(hash, kind, x) => StartKeepsHash(s.(resuming := s.resuming - {hash}), hash, kind, x, g);
    case Restart(t, x) => StartKeepsHash(ToTrigger(s, t, Ended), s.triggers[t].hash, s.triggers[t].kind, x, g);
    case Stop(hash) => StopKeepsHash(s, hash, g);
    case OwnStop(x) => StopKeepsHash(s, s.goroutines[x].hash, g);
    case _ =>
  }

  lemma StartKeepsHash(s: State, hash: string, kind: StrategyKind, x: nat, g: nat)
    requires g in s.goroutines && x != g
    ensures var t := DoStart(s, hash, kind, x); g in t.goroutines && t.goroutines[g].hash == s.goroutines[g].hash
  {
    hide Started;
  }

  lemma StopKeepsHash(s: State, hash: string, g: nat)
    requires g in s.goroutines
    ensures var t := DoStop(s, hash); g in t.goroutines && t.goroutines[g].hash == s.goroutines[g].hash
  {
    hide Stopped;
  }

  lemma MarkedAfter(s: State, step: Step, g: nat)
    requires Enabled(s, step) && At(Do(s, step), g, Marked)
    ensures At(s, g, Marked) || step == Mark(g, true)
  {
    hide Started, Stopped;
  }

  lemma FiringAfter(s: State, step: Step, g: nat)
    requires Enabled(s, step) && At(Do(s, step), g, Firing)
    ensures At(s, g, Firing) || At(s, g, Marked)
  {
    hide Started, Stopped;
  }

  lemma {:induction false} SettledRun(s: State, steps: seq<Step>, hash: string)
    requires Invariant(s) && Settled(s, hash) && IsDone(s, hash)
    ensures IsDone(Run(s, steps), hash)
    decreases |steps|
  {
    hide Do, Invariant, Enabled, Settled;
    if steps != [] {
      if Enabled(s, steps[0]) {
        StepPreserves(s, steps[0]);
        SettledStep(s, steps[0], hash);
        SettledRun(Do(s, steps[0]), steps[1..], hash);
      } else {
        SettledRun(s, steps[1..], hash);
      }
    }
  }

  // From any other state some run leaves DONE

  ghost predicate Leaves(s: State, hash: string, steps: seq<Step>) {
    !IsDone(Run(s, steps), hash)
  }

  ghost predicate CanLeave(s: State, hash: string) {
    exists steps :: Leaves(s, hash, steps)
  }

  lemma StepFirst(s: State, step: Step, hash: string)
    requires Enabled(s, step) && CanLeave(Do(s, step), hash)
    ensures CanLeave(s, hash)
  {
    hide Do, Enabled;
    var rest :| Leaves(Do(s, step), hash, rest);
    assert ([step] + rest)[1..] == rest;
    assert Leaves(s, hash, [step] + rest);
  }

  lemma LastStep(s: State, step: Step, hash: string)
    requires Enabled(s, step) && !IsDone(Do(s, step), hash)
    ensures CanLeave(s, hash)
  {
    assert Leaves(Do(s, step), hash, []);
    StepFirst(s, step, hash);
  }

  lemma {:induction false} Fresh(used: set<nat>) returns (k: nat)
    ensures forall n :: n in used ==> n < k
  {
    if used == {} {
      k := 0;
    } else {
      var n :| n in used;
      var below := Fresh(used - {n});
      k := if n < below then below else n + 1;
      forall m | m in used ensures m < k { assert m == n || m in used - {n}; }
    }
  }

  // An open trigger may be rejected, and then writes PENDING.
  lemma LeaveByTrigger(s: State, t: nat, hash: string)
    requires t in s.triggers && s.triggers[t].hash == hash && hash in s.rows
    requires s.triggers[t].pc == Posting || s.triggers[t].pc == RollingBack
    ensures CanLeave(s, hash)
  {
    var rollback := Rollback(t, true);
    if s.triggers[t].pc == RollingBack {
      LastStep(s, rollback, hash);
    } else {
      var answer := Answer(t, true);
      var u := Do(s, answer);
      LastStep(u, rollback, hash);
      StepFirst(s, answer, hash);
    }
  }

  // A goroutine past its mark goes on to a trigger.
  lemma LeaveByGoroutine(s: State, g: nat, hash: string)
    requires g in s.goroutines && s.goroutines[g].hash == hash && hash in s.rows
    requires s.goroutines[g].pc == Marked || s.goroutines[g].pc == Firing
    ensures CanLeave(s, hash)
  {
    if s.goroutines[g].pc == Firing {
      LeaveByFiring(s, g, hash);
    } else {
      var stop := OwnStop(g);
      AfterOwnStop(s, g, hash);
      LeaveByFiring(Do(s, stop), g, hash);
      StepFirst(s, stop, hash);
    }
  }

  lemma AfterOwnStop(s: State, g: nat, hash: string)
    requires g in s.goroutines && s.goroutines[g].hash == hash && hash in s.rows && s.goroutines[g].pc == Marked
    ensures Enabled(s, OwnStop(g))
    ensures At(Do(s, OwnStop(g)), g, Firing) && Do(s, OwnStop(g)).goroutines[g].hash == hash && hash in Do(s, OwnStop(g)).rows
  {}

  lemma LeaveByFiring(s: State, g: nat, hash: string)
    requires At(s, g, Firing) && s.goroutines[g].hash == hash && hash in s.rows
    ensures CanLeave(s, hash)
  {
    var t := Fresh(s.triggers.Keys);
    var fire := Fire(g, t);
    assert t !in s.triggers;
    LeaveByTrigger(Do(s, fire), t, hash);
    StepFirst(s, fire, hash);
  }

  // A watched goroutine that is not about to stop may find its condition met.
  lemma LeaveByWatched(s: State, hash: string)
    requires Invariant(s) && hash in s.table && hash in s.rows && !At(s, s.table[hash].handle, Expiring)
    ensures CanLeave(s, hash)
  {
    var g := s.table[hash].handle;
    assert EntryOk(s, hash) && GoroutineOk(s, g);
    hide Invariant;
    var mark := Mark(g, true);
    if s.goroutines[g].pc == Marked || s.goroutines[g].pc == Firing {
      LeaveByGoroutine(s, g, hash);
    } else if s.goroutines[g].pc == Evaluating {
      LastStep(s, mark, hash);
    } else {
      var tick := Tick(g);
      var u := Do(s, tick);
      LastStep(u, mark, hash);
      StepFirst(s, tick, hash);
    }
  }

  // Whoever has yet to start monitoring may do so after the row was written and monitoring stopped.
  lemma LeaveByStart(s: State, start: Step, g: nat, hash: string)
    requires Enabled(s, start) && g !in s.goroutines && hash in s.rows && hash !in s.table
    requires start == Start(hash, Limit, g) || start == Resume(hash, Limit, g)
      || (start.Restart? && start.g == g && s.triggers[start.t].hash == hash)
    ensures CanLeave(s, hash)
  {
    var u := Do(s, start);
    var mark := Mark(g, true);
    assert At(u, g, Evaluating) && !u.goroutines[g].cancelled && u.goroutines[g].hash == hash && hash in u.rows;
    LastStep(u, mark, hash);
    StepFirst(s, start, hash);
  }

  lemma StopKeeps(s: State, hash: string)
    ensures var u := Do(s, Stop(hash));
      && hash !in u.table && u.goroutines.Keys == s.goroutines.Keys && u.triggers == s.triggers && u.rows == s.rows
      && u.unstarted == s.unstarted && u.resuming == s.resuming
  {}

  lemma LeaveByPendingStart(s: State, hash: string)
    requires hash in s.rows
    requires || hash in s.unstarted || hash in s.resuming
             || exists t :: t in s.triggers && s.triggers[t] == Trigger(hash, s.triggers[t].kind, Restarting)
    ensures CanLeave(s, hash)
  {
    var stop := Stop(hash);
    var u := Do(s, stop);
    StopKeeps(s, hash);
    var g := Fresh(s.goroutines.Keys);
    assert g !in u.goroutines;
    var start;
    if hash in s.unstarted {
      start := Start(hash, Limit, g);
    } else if hash in s.resuming {
      start := Resume(hash, Limit, g);
    } else {
      var t :| t in s.triggers && s.triggers[t] == Trigger(hash, s.triggers[t].kind, Restarting);
      start := Restart(t, g);
    }
    LeaveByStart(u, start, g, hash);
    StepFirst(s, stop, hash);
  }

  lemma UnsettledLeaves(s: State, hash: string)
    requires Invariant(s) && hash in s.rows && !Settled(s, hash)
    ensures CanLeave(s, hash)
  {
    hide Invariant, CanLeave;
    if hash in s.unstarted || hash in s.resuming {
      LeaveByPendingStart(s, hash);
    } else if hash in s.stuck {
      LastStep(s, Reset(hash, true), hash);
    } else if hash in s.table && !At(s, s.table[hash].handle, Expiring) {
      LeaveByWatched(s, hash);
    } else if t :| !TriggerClosed(s, hash, t) {
      if s.triggers[t].pc == Restarting {
        LeaveByPendingStart(s, hash);
      } else {
        LeaveByTrigger(s, t, hash);
      }
    } else {
      var g :| !Harmless(s, hash, g);
      LeaveByGoroutine(s, g, hash);
    }
  }

  // A DONE row stays DONE in every further run exactly when the state it is in is settled.
  lemma DoneIsFinalIff(before: seq<Step>, hash: string)
    requires IsDone(Run(INIT, before), hash)
    ensures (forall steps :: IsDone(Run(Run(INIT, before), steps), hash)) <==> Settled(Run(INIT, before), hash)
  {
    hide Run, Invariant, Settled;
    InitInvariant();
    RunPreserves(INIT, before);
    var s := Run(INIT, before);
    if Settled(s, hash) {
      forall steps ensures IsDone(Run(s, steps), hash) { SettledRun(s, steps, hash); }
    } else {
      UnsettledLeaves(s, hash);
      var steps :| Leaves(s, hash, steps);
      assert !IsDone(Run(Run(INIT, before), steps), hash);
    }
  }

  // A run in which the indexer writes DONE and a late rejection puts the row back and watches it again
  lemma DoneRevived(hash: string)
    ensures var before := [Insert(hash), Start(hash, Limit, 0), Mark(0, true), OwnStop(0), Fire(0, 0), Stop(hash), WriteDone(hash)];
      var after := [Answer(0, true), Rollback(0, true), Restart(0, 1)];
      && Run(INIT, before).rows == map[hash := Done]
      && hash !in Run(INIT, before).table
      && Run(Run(INIT, before), after).rows == map[hash := Pending]
      && hash in Run(Run(INIT, before), after).table
  {
    FirstSteps(hash);
    StopsItself(hash);
    Fires(hash);
    Revival(hash);
    hide Run, Do, Enabled, Watched, WithTrigger;
    ChainRuns([INIT, Saved(hash), Watched(hash, Evaluating, Pending), Watched(hash, Marked, Executing),
               AboutToFire(hash), WithTrigger(hash, Posting, Executing), WithTrigger(hash, Posting, Executing),
               WithTrigger(hash, Posting, Done)],
              [Insert(hash), Start(hash, Limit, 0), Mark(0, true), OwnStop(0), Fire(0, 0), Stop(hash), WriteDone(hash)]);
    ChainRuns([WithTrigger(hash, Posting, Done), WithTrigger(hash, RollingBack, Done), WithTrigger(hash, Restarting, Pending),
               Do(WithTrigger(hash, Restarting, Pending), Restart(0, 1))],
              [Answer(0, true), Rollback(0, true), Restart(0, 1)]);
  }

  // A run in which the keeper took the trigger, the sweeper reset the row all the same, the indexer
  // then wrote DONE, and the sweeper's own start marks the row EXECUTING
  lemma SweeperRevives(hash: string)
    ensures var before := [Insert(hash), Start(hash, Limit, 0), Mark(0, true), OwnStop(0), Fire(0, 0), Answer(0, false),
                           FindStuck(hash), Reset(hash, true), Stop(hash), WriteDone(hash)];
      var after := [Resume(hash, Limit, 1), Mark(1, true)];
      && Run(INIT, before).rows == map[hash := Done]
      && hash !in Run(INIT, before).table
      && Run(Run(INIT, before), after).rows == map[hash := Executing]
  {
    FirstSteps(hash);
    StopsItself(hash);
    Fires(hash);
    SweeperSteps(hash);
    Resumption(hash);
    hide Run, Do, Enabled, Watched, WithTrigger, Swept;
    var swept := Swept(hash, Done);
    ChainRuns([INIT, Saved(hash), Watched(hash, Evaluating, Pending), Watched(hash, Marked, Executing),
               AboutToFire(hash), WithTrigger(hash, Posting, Executing), WithTrigger(hash, Ended, Executing),
               WithTrigger(hash, Ended, Executing).(stuck := {hash}), Swept(hash, Pending), Swept(hash, Pending), swept],
              [Insert(hash), Start(hash, Limit, 0), Mark(0, true), OwnStop(0), Fire(0, 0), Answer(0, false),
               FindStuck(hash), Reset(hash, true), Stop(hash), WriteDone(hash)]);
    ChainRuns([swept, Do(swept, Resume(hash, Limit, 1)), Do(Do(swept, Resume(hash, Limit, 1)), Mark(1, true))],
              [Resume(hash, Limit, 1), Mark(1, true)]);
  }

  ghost predicate Chain(states: seq<State>, steps: seq<Step>) {
    && |states| == |steps| + 1
    && forall i :: 0 <= i < |steps| ==> Takes(states[i], steps[i], states[i + 1])
  }

  ghost predicate Takes(s: State, step: Step, t: State) {
    Enabled(s, step) && Do(s, step) == t
  }

  lemma {:induction false} ChainRuns(states: seq<State>, steps: seq<Step>)
    requires Chain(states, steps)
    ensures Run(states[0], steps) == states[|steps|]
    decreases |steps|
  {
    hide Do, Enabled;
    if steps != [] {
      assert Takes(states[0], steps[0], states[1]);
      assert Chain(states[1..], steps[1..]);
      ChainRuns(states[1..], steps[1..]);
    }
  }

  function Saved(hash: string): State {
    INIT.(rows := map[hash := Pending], unstarted := {hash})
  }

  // One strategy and its goroutine at pc, still in the table
  function Watched(hash: string, pc: Pc, row: StrategyStatus): State {
    INIT.(table := map[hash := Tracked(0, Limit)], gauge := map[Limit := 1],
          goroutines := map[0 := Goroutine(hash, Limit, false, pc, 0)], rows := map[hash := row])
  }

  function AboutToFire(hash: string): State {
    INIT.(gauge := map[Limit := 0], goroutines := map[0 := Goroutine(hash, Limit, true, Firing, 0)], rows := map[hash := Executing])
  }

  // The goroutine has fired and stopped; its trigger stands at pc.
  function WithTrigger(hash: string, pc: TriggerPc, row: StrategyStatus): State {
    INIT.(gauge := map[Limit := 0], goroutines := map[0 := Goroutine(hash, Limit, true, Looping, 1)],
          triggers := map[0 := Trigger(hash, Limit, pc)], rows := map[hash := row])
  }

  function Swept(hash: string, row: StrategyStatus): State {
    WithTrigger(hash, Ended, row).(resuming := {hash})
  }

  lemma FirstSteps(hash: string)
    ensures Takes(INIT, Insert(hash), Saved(hash))
    ensures Takes(Saved(hash), Start(hash, Limit, 0), Watched(hash, Evaluating, Pending))
    ensures Takes(Watched(hash, Evaluating, Pending), Mark(0, true), Watched(hash, Marked, Executing))
  {}

  lemma StopsItself(hash: string)
    ensures Takes(Watched(hash, Marked, Executing), OwnStop(0), AboutToFire(hash))
  {
    assert Watched(hash, Marked, Executing).table - {hash} == map[];
  }

  lemma Fires(hash: string)
    ensures Takes(AboutToFire(hash), Fire(0, 0), WithTrigger(hash, Posting, Executing))
    ensures Takes(WithTrigger(hash, Posting, Executing), Stop(hash), WithTrigger(hash, Posting, Executing))
    ensures Takes(WithTrigger(hash, Posting, Executing), WriteDone(hash), WithTrigger(hash, Posting, Done))
  {}

  lemma Revival(hash: string)
    ensures Takes(WithTrigger(hash, Posting, Done), Answer(0, true), WithTrigger(hash, RollingBack, Done))
    ensures Takes(WithTrigger(hash, RollingBack, Done), Rollback(0, true), WithTrigger(hash, Restarting, Pending))
    ensures Enabled(WithTrigger(hash, Restarting, Pending), Restart(0, 1))
    ensures Do(WithTrigger(hash, Restarting, Pending), Restart(0, 1)).rows == map[hash := Pending]
    ensures hash in Do(WithTrigger(hash, Restarting, Pending), Restart(0, 1)).table
    ensures WithTrigger(hash, Posting, Done).rows == map[hash := Done] && hash !in WithTrigger(hash, Posting, Done).table
  {}

  lemma SweeperSteps(hash: string)
    ensures Takes(WithTrigger(hash, Posting, Executing), Answer(0, false), WithTrigger(hash, Ended, Executing))
    ensures Takes(WithTrigger(hash, Ended, Executing), FindStuck(hash), WithTrigger(hash, Ended, Executing).(stuck := {hash}))
    ensures Takes(WithTrigger(hash, Ended, Executing).(stuck := {hash}), Reset(hash, true), Swept(hash, Pending))
    ensures Takes(Swept(hash, Pending), Stop(hash), Swept(hash, Pending))
    ensures Takes(Swept(hash, Pending), WriteDone(hash), Swept(hash, Done))
  {}

  lemma Resumption(hash: string)
    ensures Swept(hash, Done).rows == map[hash := Done] && hash !in Swept(hash, Done).table
    ensures Enabled(Swept(hash, Done), Resume(hash, Limit, 1))
    ensures Enabled(Do(Swept(hash, Done), Resume(hash, Limit, 1)), Mark(1, true))
    ensures Do(Do(Swept(hash, Done), Resume(hash, Limit, 1)), Mark(1, true)).rows == map[hash := Executing]
  {}
}
