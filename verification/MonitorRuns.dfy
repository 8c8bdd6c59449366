// Every interleaving of the monitor: one step is one locked section, one database call or one
// local move of a goroutine. Database calls on a cancelled context fail.
module MonitorRuns {
  import opened Monitor

  datatype StrategyStatus = Pending | Executing | Done

  // Where a monitorLoop goroutine stands
  datatype Pc =
    | Evaluating          // inside evaluateAndMaybeTrigger, before its first write
    | Expiring            // wrote DONE, about to stop monitoring
    | Marked              // wrote EXECUTING, about to stop monitoring
    | Firing              // about to spawn triggerKeeper
    | Looping             // waiting for the ticker or the cancellation
    | Exited

  // fired counts the keeper triggers this goroutine spawned.
  datatype Goroutine = Goroutine(hash: string, kind: StrategyKind, cancelled: bool, pc: Pc, fired: nat)

  datatype TriggerPc = Posting | RollingBack | Restarting | Ended
  datatype Trigger = Trigger(hash: string, kind: StrategyKind, pc: TriggerPc)

  datatype State = State(
    table: map<string, Tracked<nat>>,
    gauge: Gauge,
    goroutines: map<nat, Goroutine>,
    triggers: map<nat, Trigger>,
    rows: map<string, StrategyStatus>,
    unstarted: set<string>,   // saved by a request that has yet to start monitoring
    stuck: set<string>,       // found EXECUTING by the sweeper, which has yet to reset them
    resuming: set<string>)    // reset by the sweeper, which has yet to start monitoring again

  const INIT := State(map[], map[], map[], map[], map[], {}, {}, {})

  datatype Step =
    | Insert(hash: string)                              // Save of a new strategy row by a request
    | Start(hash: string, kind: StrategyKind, g: nat)   // StartMonitoring by that request
    | Stop(hash: string)                                // StopMonitoring, from any caller
    | WriteDone(hash: string)                           // UpdateStatus(DONE) by the indexer or the keeper
    | FindStuck(hash: string)                           // ResetStuckExecuting: the SELECT
    | Reset(hash: string, ok: bool)                     // ResetStuckExecuting: the UPDATE, on one row
    | Resume(hash: string, kind: StrategyKind, g: nat)  // startMonitoring by the sweeper
    | Tick(g: nat)
    | Exit(g: nat)
    | NotMet(g: nat)
    | Expire(g: nat, ok: bool)
    | Mark(g: nat, ok: bool)
    | OwnStop(g: nat)
    | Fire(g: nat, t: nat)
    | Answer(t: nat, rejected: bool)
    | Rollback(t: nat, ok: bool)
    | Restart(t: nat, g: nat)

  predicate At(s: State, g: nat, pc: Pc) {
    g in s.goroutines && s.goroutines[g].pc == pc
  }

  predicate TriggerAt(s: State, t: nat, pc: TriggerPc) {
    t in s.triggers && s.triggers[t].pc == pc
  }

  // A write succeeds only on a live context; a live context may still see an error. Commitment
  // hashes are unique, so a row is inserted once. RehydrateFromDB starts what a process finds pending
  // before anything else runs, as if those rows had just been inserted.
  predicate Enabled(s: State, step: Step) {
    match step
    case Insert(hash) => hash !in s.rows
    case Start(hash, _, g) => hash in s.unstarted && g !in s.goroutines
    case Stop(_) => true
    case WriteDone(_) => true
    case FindStuck(hash) => hash in s.rows && s.rows[hash] == Executing
    case Reset(hash, _) => hash in s.stuck
    case Resume(hash, _, g) => hash in s.resuming && g !in s.goroutines
    case Tick(g) => At(s, g, Looping)
    case Exit(g) => At(s, g, Looping) && s.goroutines[g].cancelled
    case NotMet(g) => At(s, g, Evaluating)
    case Expire(g, ok) => At(s, g, Evaluating) && (ok ==> !s.goroutines[g].cancelled)
    case Mark(g, ok) => At(s, g, Evaluating) && (ok ==> !s.goroutines[g].cancelled)
    case OwnStop(g) => At(s, g, Expiring) || At(s, g, Marked)
    case Fire(g, t) => At(s, g, Firing) && t !in s.triggers
    case Answer(t, _) => TriggerAt(s, t, Posting)
    case Rollback(t, _) => TriggerAt(s, t, RollingBack)
    case Restart(t, g) => TriggerAt(s, t, Restarting) && g !in s.goroutines
  }

  function To(s: State, g: nat, pc: Pc): State
    requires g in s.goroutines
  {
    s.(goroutines := s.goroutines[g := s.goroutines[g].(pc := pc)])
  }

  function ToTrigger(s: State, t: nat, pc: TriggerPc): State
    requires t in s.triggers
  {
    s.(triggers := s.triggers[t := s.triggers[t].(pc := pc)])
  }

  // UPDATE ... WHERE commitment_hash = hash touches no row when there is none.
  function SetRow(s: State, hash: string, status: StrategyStatus): State {
    if hash in s.rows then s.(rows := s.rows[hash := status]) else s
  }

  function Cancelled(goroutines: map<nat, Goroutine>, g: nat): map<nat, Goroutine> {
    if g in goroutines then goroutines[g := goroutines[g].(cancelled := true)] else goroutines
  }

  function DoStart(s: State, hash: string, kind: StrategyKind, g: nat): State {
    var w := Started(Watch(s.table, s.gauge), hash, Tracked(g, kind));
    s.(table := w.table, gauge := w.gauge,
       goroutines := if hash in s.table then s.goroutines
                     else s.goroutines[g := Goroutine(hash, kind, false, Evaluating, 0)])
  }

  function DoStop(s: State, hash: string): State {
    var w := Stopped(Watch(s.table, s.gauge), hash);
    s.(table := w.table, gauge := w.gauge,
       goroutines := if hash in s.table then Cancelled(s.goroutines, s.table[hash].handle) else s.goroutines)
  }

  function Do(s: State, step: Step): State
    requires Enabled(s, step)
  {
    match step
    case Insert(hash) => s.(rows := s.rows[hash := Pending], unstarted := s.unstarted + {hash})
    case Start(hash, kind, g) => DoStart(s.(unstarted := s.unstarted - {hash}), hash, kind, g)
    case Stop(hash) => DoStop(s, hash)
    case WriteDone(hash) => SetRow(s, hash, Done)
    case FindStuck(hash) => s.(stuck := s.stuck + {hash})
    case Reset(hash, ok) =>
      if ok then SetRow(s, hash, Pending).(stuck := s.stuck - {hash}, resuming := s.resuming + {hash})
      else s.(stuck := s.stuck - {hash})
    case Resume(hash, kind, g) => DoStart(s.(resuming := s.resuming - {hash}), hash, kind, g)
    case Tick(g) => To(s, g, Evaluating)
    case Exit(g) => To(s, g, Exited)
    case NotMet(g) => To(s, g, Looping)
    case Expire(g, ok) => To(if ok then SetRow(s, s.goroutines[g].hash, Done) else s, g, Expiring)
    case Mark(g, ok) => if ok then To(SetRow(s, s.goroutines[g].hash, Executing), g, Marked) else To(s, g, Looping)
    case OwnStop(g) =>
      var next := if s.goroutines[g].pc == Marked then Firing else Looping;
      To(DoStop(s, s.goroutines[g].hash), g, next)
    case Fire(g, t) =>
      var gr := s.goroutines[g];
      s.(goroutines := s.goroutines[g := gr.(pc := Looping, fired := gr.fired + 1)],
         triggers := s.triggers[t := Trigger(gr.hash, gr.kind, Posting)])
    case Answer(t, rejected) => ToTrigger(s, t, if rejected then RollingBack else Ended)
    case Rollback(t, ok) =>
      if ok then ToTrigger(SetRow(s, s.triggers[t].hash, Pending), t, Restarting) else ToTrigger(s, t, Ended)
    case Restart(t, g) =>
      DoStart(ToTrigger(s, t, Ended), s.triggers[t].hash, s.triggers[t].kind, g)
  }

  function Run(s: State, steps: seq<Step>): State
    decreases |steps|
  {
    if steps == [] then s
    else Run(if Enabled(s, steps[0]) then Do(s, steps[0]) else s, steps[1..])
  }

  // Entries point at live goroutines of their hash and kind.
  ghost predicate EntryOk(s: State, h: string) {
    h in s.table ==>
      var g := s.table[h].handle;
      g in s.goroutines && s.goroutines[g].hash == h && s.goroutines[g].kind == s.table[h].kind && !s.goroutines[g].cancelled
  }

  // Live goroutines are in the table; a goroutine about to fire, or that fired, is not live.
  ghost predicate GoroutineOk(s: State, g: nat) {
    g in s.goroutines ==>
      var gr := s.goroutines[g];
      && (!gr.cancelled ==> gr.hash in s.table && s.table[gr.hash].handle == g)
      && (gr.pc == Firing || gr.fired > 0 || gr.pc == Exited ==> gr.cancelled)
      && (gr.pc == Marked || gr.pc == Firing ==> gr.fired == 0)
      && gr.fired <= 1
  }

  function KeysOf(table: map<string, Tracked<nat>>, kind: StrategyKind): set<string> {
    set h | h in table && table[h].kind == kind
  }

  ghost predicate GaugeOk(s: State, kind: StrategyKind) {
    Reading(s.gauge, kind) == |KeysOf(s.table, kind)|
  }

  ghost predicate Invariant(s: State) {
    && (forall h :: EntryOk(s, h))
    && (forall g :: GoroutineOk(s, g))
    && (forall kind :: GaugeOk(s, kind))
  }

  lemma StartEntries(s: State, hash: string, kind: StrategyKind, g: nat, h: string)
    requires EntryOk(s, h) && g !in s.goroutines
    ensures EntryOk(DoStart(s, hash, kind, g), h)
  {}

  lemma StartGoroutines(s: State, hash: string, kind: StrategyKind, g: nat, x: nat)
    requires GoroutineOk(s, x) && g !in s.goroutines
    ensures GoroutineOk(DoStart(s, hash, kind, g), x)
  {}

  lemma StartGauge(s: State, hash: string, kind: StrategyKind, g: nat, k: StrategyKind)
    requires GaugeOk(s, k)
    ensures GaugeOk(DoStart(s, hash, kind, g), k)
  {
    if hash !in s.table { KeysAfterInsert(s.table, hash, Tracked(g, kind), k); }
  }

  lemma KeysAfterInsert(table: map<string, Tracked<nat>>, hash: string, entry: Tracked<nat>, k: StrategyKind)
    requires hash !in table
    ensures |KeysOf(table[hash := entry], k)| == |KeysOf(table, k)| + (if k == entry.kind then 1 else 0)
  {
    if k == entry.kind {
      assert KeysOf(table[hash := entry], k) == KeysOf(table, k) + {hash};
    } else {
      assert KeysOf(table[hash := entry], k) == KeysOf(table, k);
    }
  }

  lemma StartPreserves(s: State, hash: string, kind: StrategyKind, g: nat)
    requires Invariant(s) && g !in s.goroutines
    ensures Invariant(DoStart(s, hash, kind, g))
  {
    hide DoStart, EntryOk, GoroutineOk, GaugeOk;
    var t := DoStart(s, hash, kind, g);
    forall h ensures EntryOk(t, h) { StartEntries(s, hash, kind, g, h); }
    forall x ensures GoroutineOk(t, x) { StartGoroutines(s, hash, kind, g, x); }
    forall k ensures GaugeOk(t, k) { StartGauge(s, hash, kind, g, k); }
  }

  lemma StopPreserves(s: State, hash: string)
    requires Invariant(s)
    ensures Invariant(DoStop(s, hash))
    ensures forall g :: g in s.goroutines ==> g in DoStop(s, hash).goroutines
    ensures forall g :: g in s.goroutines && s.goroutines[g].hash == hash ==> DoStop(s, hash).goroutines[g].cancelled
    ensures forall g :: g in s.goroutines ==>
      var a, b := s.goroutines[g], DoStop(s, hash).goroutines[g];
      b.pc == a.pc && b.hash == a.hash && b.fired == a.fired
  {
    var t := DoStop(s, hash);
    assert EntryOk(s, hash);
    forall g | g in s.goroutines && s.goroutines[g].hash == hash ensures t.goroutines[g].cancelled {
      assert GoroutineOk(s, g);
    }
    forall h ensures EntryOk(t, h) { assert EntryOk(s, h); }
    forall g ensures GoroutineOk(t, g) { assert GoroutineOk(s, g); }
    forall k ensures GaugeOk(t, k) {
      assert GaugeOk(s, k);
      if hash in s.table {
        assert KeysOf(t.table, k) == KeysOf(s.table, k) - {hash};
        assert hash in KeysOf(s.table, k) <==> s.table[hash].kind == k;
      }
    }
  }

  // A local move keeps the invariant when its new place asks for nothing new; firing is one.
  lemma MovePreserves(s: State, g: nat, to: Goroutine)
    requires Invariant(s) && g in s.goroutines
    requires to == s.goroutines[g].(pc := to.pc, fired := to.fired)
    requires to.fired == s.goroutines[g].fired || (to.fired == 1 && to.pc == Looping && to.cancelled)
    requires to.pc == Firing || to.pc == Exited ==> to.cancelled
    requires to.pc == Marked || to.pc == Firing ==> to.fired == 0
    ensures Invariant(s.(goroutines := s.goroutines[g := to]))
  {
    var t := s.(goroutines := s.goroutines[g := to]);
    assert GoroutineOk(s, g);
    forall h ensures EntryOk(t, h) { assert EntryOk(s, h); }
    forall x ensures GoroutineOk(t, x) { assert GoroutineOk(s, x); }
    forall k ensures GaugeOk(t, k) { assert GaugeOk(s, k); }
  }

  // Rows and triggers are not part of the invariant.
  lemma OthersPreserve(s: State, t: State)
    requires Invariant(s) && t.table == s.table && t.gauge == s.gauge && t.goroutines == s.goroutines
    ensures Invariant(t)
  {
    forall h ensures EntryOk(t, h) { assert EntryOk(s, h); }
    forall g ensures GoroutineOk(t, g) { assert GoroutineOk(s, g); }
    forall k ensures GaugeOk(t, k) { assert GaugeOk(s, k); }
  }

  lemma StepPreserves(s: State, step: Step)
    requires Invariant(s) && Enabled(s, step)
    ensures Invariant(Do(s, step))
  {
    hide Invariant, DoStart, DoStop;
    match step
    case Insert(hash) => OthersPreserve(s, Do(s, step));
    case Start(hash, kind, g) =>
      var r := s.(unstarted := s.unstarted - {hash});
      OthersPreserve(s, r);
      StartPreserves(r, hash, kind, g);
    case Stop(hash) => StopPreserves(s, hash);
    case WriteDone(hash) => OthersPreserve(s, Do(s, step));
    case FindStuck(hash) => OthersPreserve(s, Do(s, step));
    case Reset(hash, ok) => OthersPreserve(s, Do(s, step));
    case Resume(hash, kind, g) =>
      var r := s.(resuming := s.resuming - {hash});
      OthersPreserve(s, r);
      StartPreserves(r, hash, kind, g);
    case Tick(g) => MovePreserves(s, g, s.goroutines[g].(pc := Evaluating));
    case Exit(g) => MovePreserves(s, g, s.goroutines[g].(pc := Exited));
    case NotMet(g) => MovePreserves(s, g, s.goroutines[g].(pc := Looping));
    case Expire(g, ok) =>
      var r := if ok then SetRow(s, s.goroutines[g].hash, Done) else s;
      OthersPreserve(s, r);
      MovePreserves(r, g, r.goroutines[g].(pc := Expiring));
    case Mark(g, ok) =>
      LiveHasNotFired(s, g);
      if ok {
        var r := SetRow(s, s.goroutines[g].hash, Executing);
        OthersPreserve(s, r);
        MovePreserves(r, g, r.goroutines[g].(pc := Marked));
      } else {
        MovePreserves(s, g, s.goroutines[g].(pc := Looping));
      }
    case OwnStop(g) =>
      LiveHasNotFired(s, g);
      StopPreserves(s, s.goroutines[g].hash);
      var r := DoStop(s, s.goroutines[g].hash);
      MovePreserves(r, g, r.goroutines[g].(pc := if s.goroutines[g].pc == Marked then Firing else Looping));
    case Fire(g, t) =>
      LiveHasNotFired(s, g);
      var to := s.goroutines[g].(pc := Looping, fired := 1);
      MovePreserves(s, g, to);
      OthersPreserve(s.(goroutines := s.goroutines[g := to]), Do(s, step));
    case Answer(t, rejected) => OthersPreserve(s, Do(s, step));
    case Rollback(t, ok) => OthersPreserve(s, Do(s, step));
    case Restart(t, g) =>
      OthersPreserve(s, ToTrigger(s, t, Ended));
      StartPreserves(ToTrigger(s, t, Ended), s.triggers[t].hash, s.triggers[t].kind, g);
  }

  lemma LiveHasNotFired(s: State, g: nat)
    requires Invariant(s) && g in s.goroutines
    ensures var gr := s.goroutines[g]; !gr.cancelled || gr.pc == Marked || gr.pc == Firing ==> gr.fired == 0
    ensures s.goroutines[g].pc == Firing ==> s.goroutines[g].cancelled
  {
    assert GoroutineOk(s, g);
  }

  lemma {:induction false} RunPreserves(s: State, steps: seq<Step>)
    requires Invariant(s)
    ensures Invariant(Run(s, steps))
    decreases |steps|
  {
    hide Do, Invariant, Enabled;
    if steps != [] {
      if Enabled(s, steps[0]) {
        StepPreserves(s, steps[0]);
        RunPreserves(Do(s, steps[0]), steps[1..]);
      } else {
        RunPreserves(s, steps[1..]);
      }
    }
  }

  lemma InitInvariant()
    ensures Invariant(INIT)
  {
    forall k ensures GaugeOk(INIT, k) {
      assert KeysOf(INIT.table, k) == {};
    }
  }

  // In every interleaving the table keys and the uncancelled goroutines are in bijection.
  lemma TableBijection(steps: seq<Step>)
    ensures var s := Run(INIT, steps);
      forall h :: h in s.table ==>
        s.table[h].handle in s.goroutines && !s.goroutines[s.table[h].handle].cancelled && s.goroutines[s.table[h].handle].hash == h
    ensures var s := Run(INIT, steps);
      forall g :: g in s.goroutines && !s.goroutines[g].cancelled ==>
        s.goroutines[g].hash in s.table && s.table[s.goroutines[g].hash].handle == g
  {
    hide Run;
    InitInvariant();
    RunPreserves(INIT, steps);
    var s := Run(INIT, steps);
    forall h | h in s.table
      ensures s.table[h].handle in s.goroutines && !s.goroutines[s.table[h].handle].cancelled
        && s.goroutines[s.table[h].handle].hash == h
    {
      assert EntryOk(s, h);
    }
    forall g | g in s.goroutines && !s.goroutines[g].cancelled
      ensures s.goroutines[g].hash in s.table && s.table[s.goroutines[g].hash].handle == g
    {
      assert GoroutineOk(s, g);
    }
  }

  // The gauge of a kind is the number of table keys of that kind.
  lemma GaugeCountsKeys(steps: seq<Step>, kind: StrategyKind)
    ensures Reading(Run(INIT, steps).gauge, kind) == |KeysOf(Run(INIT, steps).table, kind)|
  {
    hide Run;
    InitInvariant();
    RunPreserves(INIT, steps);
    assert GaugeOk(Run(INIT, steps), kind);
  }

  // No goroutine ever fires a second keeper trigger.
  lemma AtMostOneTrigger(steps: seq<Step>, g: nat)
    requires g in Run(INIT, steps).goroutines
    ensures Run(INIT, steps).goroutines[g].fired <= 1
  {
    hide Run;
    InitInvariant();
    RunPreserves(INIT, steps);
    assert GoroutineOk(Run(INIT, steps), g);
  }
}
