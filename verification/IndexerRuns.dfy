// Every interleaving of waiters, event handlers and other database writes. One step is one
// database call, one locked section, or one channel operation.
module IndexerRuns {
  import opened Indexer

  datatype Outcome = Found(record: ExecutionRecord) | TimedOut | ContextDone | ReadFailed

  // Where a call of WaitForExecuted stands
  datatype WaiterPc =
    | FirstRead
    | Registering
    | SecondRead
    | Selecting
    | Removing(outcome: Outcome)
    | Returned(result: Outcome)

  datatype Waiter = Waiter(hash: string, pc: WaiterPc, buffer: seq<ExecutionRecord>)

  // Where a call of HandleExecuted stands, from its status update on
  datatype HandlerPc =
    | Updating
    | Reading
    | Saving
    | Taking
    | Sending(pending: seq<nat>)
    | Finished
    | Failed

  datatype Handler = Handler(hash: string, pc: HandlerPc)

  // rows is the execution table; a waiter's channel carries the waiter's own number.
  datatype State = State(
    rows: map<string, ExecutionStatus>,
    table: map<string, seq<nat>>,
    waiters: map<nat, Waiter>,
    handlers: map<nat, Handler>,
    dropped: nat)

  const INIT := State(map[], map[], map[], map[], 0)

  datatype Step =
    | Wait(w: nat, hash: string)
    | ReadFirst(w: nat, ok: bool)
    | Register(w: nat)
    | ReadSecond(w: nat, ok: bool)
    | Receive(w: nat)
    | GiveUp(w: nat, timeout: bool)
    | Remove(w: nat)
    | Handle(k: nat, hash: string)
    | Update(k: nat, ok: bool)
    | ReadBack(k: nat, ok: bool)
    | Save(k: nat, ok: bool)
    | Take(k: nat)
    | Send(k: nat)
    | OtherEvent(hash: string, status: ExecutionStatus)

  predicate HasHandler(s: State, hash: string) {
    exists k :: k in s.handlers && s.handlers[k].hash == hash
  }

  predicate WaiterAt(s: State, w: nat, pc: WaiterPc) {
    w in s.waiters && s.waiters[w].pc == pc
  }

  predicate HandlerAt(s: State, k: nat, pc: HandlerPc) {
    k in s.handlers && s.handlers[k].pc == pc
  }

  // One goroutine takes the events off the subscription and handles each to its end before the next.
  ghost predicate Busy(s: State, k: nat) {
    k in s.handlers && !s.handlers[k].pc.Finished? && !s.handlers[k].pc.Failed?
  }

  predicate Idle(s: State) {
    forall k :: k in s.handlers ==> s.handlers[k].pc.Finished? || s.handlers[k].pc.Failed?
  }

  // The chain ends a commitment once, so after CommitmentExecuted only registrations of the hash
  // and the same event can still be delivered, again after a reconnect.
  predicate Enabled(s: State, step: Step) {
    match step
    case Wait(w, _) => w !in s.waiters
    case ReadFirst(w, _) => WaiterAt(s, w, FirstRead)
    case Register(w) => WaiterAt(s, w, Registering)
    case ReadSecond(w, _) => WaiterAt(s, w, SecondRead)
    case Receive(w) => WaiterAt(s, w, Selecting) && s.waiters[w].buffer != []
    case GiveUp(w, _) => WaiterAt(s, w, Selecting)
    case Remove(w) => w in s.waiters && s.waiters[w].pc.Removing?
    case Handle(k, _) => k !in s.handlers && Idle(s)
    case Update(k, _) => HandlerAt(s, k, Updating)
    case ReadBack(k, _) => HandlerAt(s, k, Reading)
    case Save(k, _) => HandlerAt(s, k, Saving)
    case Take(k) => HandlerAt(s, k, Taking)
    case Send(k) => k in s.handlers && s.handlers[k].pc.Sending?
    case OtherEvent(hash, status) => Idle(s) && status != Executed && (status == Registered || !HasHandler(s, hash))
  }

  function ToWaiter(s: State, w: nat, pc: WaiterPc): State
    requires w in s.waiters
  {
    s.(waiters := s.waiters[w := s.waiters[w].(pc := pc)])
  }

  function ToHandler(s: State, k: nat, pc: HandlerPc): State
    requires k in s.handlers
  {
    s.(handlers := s.handlers[k := s.handlers[k].(pc := pc)])
  }

  predicate IsExecuted(s: State, hash: string) {
    hash in s.rows && s.rows[hash] == Executed
  }

  // ch <- rec with a default branch
  function Deliver(s: State, w: nat, rec: ExecutionRecord): State {
    if w in s.waiters && s.waiters[w].buffer == [] then
      s.(waiters := s.waiters[w := s.waiters[w].(buffer := [rec])])
    else
      s.(dropped := s.dropped + 1)
  }

  // Steps of HandleExecuted
  predicate OfHandler(step: Step) {
    step.Handle? || step.Update? || step.ReadBack? || step.Save? || step.Take? || step.Send?
  }

  function DoHandler(s: State, step: Step): State
    requires Enabled(s, step) && OfHandler(step)
  {
    match step
    case Handle(k, hash) => s.(handlers := s.handlers[k := Handler(hash, Updating)])
    case Update(k, ok) =>
      var hash := s.handlers[k].hash;
      if !ok then ToHandler(s, k, Failed)
      else
        var rows := if hash in s.rows then s.rows[hash := Executed] else s.rows;
        ToHandler(s, k, Reading).(rows := rows)
    case ReadBack(k, ok) =>
      if !ok then ToHandler(s, k, Failed)
      else if s.handlers[k].hash in s.rows then ToHandler(s, k, Taking)
      else ToHandler(s, k, Saving)
    case Save(k, ok) =>
      var hash := s.handlers[k].hash;
      if !ok || hash in s.rows then ToHandler(s, k, Failed)
      else ToHandler(s, k, Taking).(rows := s.rows[hash := Executed])
    case Take(k) =>
      var hash := s.handlers[k].hash;
      ToHandler(s, k, Sending(Listed(s.table, hash))).(table := s.table - {hash})
    case Send(k) =>
      var h := s.handlers[k];
      if h.pc.pending == [] then ToHandler(s, k, Finished)
      else Deliver(ToHandler(s, k, Sending(h.pc.pending[1..])), h.pc.pending[0], ExecutionRecord(h.hash, Executed))
  }

  // Steps of WaitForExecuted, and its deferred removal
  function DoWaiter(s: State, step: Step): State
    requires Enabled(s, step) && !OfHandler(step) && !step.OtherEvent?
  {
    match step
    case Wait(w, hash) => s.(waiters := s.waiters[w := Waiter(hash, FirstRead, [])])
    case ReadFirst(w, ok) =>
      var hash := s.waiters[w].hash;
      if !ok then ToWaiter(s, w, Returned(ReadFailed))
      else if IsExecuted(s, hash) then ToWaiter(s, w, Returned(Found(ExecutionRecord(hash, Executed))))
      else ToWaiter(s, w, Registering)
    case Register(w) =>
      ToWaiter(s, w, SecondRead).(table := Attach(s.table, s.waiters[w].hash, w))
    case ReadSecond(w, ok) =>
      var hash := s.waiters[w].hash;
      if !ok then ToWaiter(s, w, Removing(ReadFailed))
      else if IsExecuted(s, hash) then ToWaiter(s, w, Removing(Found(ExecutionRecord(hash, Executed))))
      else ToWaiter(s, w, Selecting)
    case Receive(w) =>
      var wt := s.waiters[w];
      s.(waiters := s.waiters[w := Waiter(wt.hash, Removing(Found(wt.buffer[0])), wt.buffer[1..])])
    case GiveUp(w, timeout) => ToWaiter(s, w, Removing(if timeout then TimedOut else ContextDone))
    case Remove(w) =>
      ToWaiter(s, w, Returned(s.waiters[w].pc.outcome)).(table := Detach(s.table, s.waiters[w].hash, w))
  }

  // HandleRegistered inserts, HandleCancelled and HandleExpired update an existing row
  function Do(s: State, step: Step): State
    requires Enabled(s, step)
  {
    if OfHandler(step) then DoHandler(s, step)
    else if !step.OtherEvent? then DoWaiter(s, step)
    else if (step.hash in s.rows) != (step.status == Registered) then s.(rows := s.rows[step.hash := step.status])
    else s
  }

  // A run is any list of steps; one that is not enabled does nothing.
  function Run(s: State, steps: seq<Step>): State
    decreases |steps|
  {
    if steps == [] then s
    else Run(if Enabled(s, steps[0]) then Do(s, steps[0]) else s, steps[1..])
  }

  ghost predicate Distinct(q: seq<nat>) {
    forall i, j :: 0 <= i < j < |q| ==> q[i] != q[j]
  }

  // A channel in the table belongs to a waiter of that hash between its registration and its
  // removal, is empty, and is listed once; no key keeps an empty list.
  ghost predicate ListOk(s: State, h: string) {
    h in s.table ==> s.table[h] != [] && Distinct(s.table[h])
  }

  ghost predicate EntryOk(s: State, h: string, w: nat) {
    w in Listed(s.table, h) ==>
      && w in s.waiters && s.waiters[w].hash == h && s.waiters[w].buffer == []
      && (s.waiters[w].pc.SecondRead? || s.waiters[w].pc.Selecting? || s.waiters[w].pc.Removing?)
  }

  function Pending(s: State, k: nat): seq<nat> {
    if k in s.handlers && s.handlers[k].pc.Sending? then s.handlers[k].pc.pending else []
  }

  // A taken channel is empty, is out of the table, and is held by one handler once.
  ghost predicate HeldOk(s: State, k: nat, w: nat) {
    w in Pending(s, k) ==>
      && w in s.waiters && s.waiters[w].hash == s.handlers[k].hash && s.waiters[w].buffer == []
      && !s.waiters[w].pc.FirstRead? && !s.waiters[w].pc.Registering?
      && w !in Listed(s.table, s.handlers[k].hash)
  }

  ghost predicate HeldOnce(s: State, k: nat, k': nat, w: nat) {
    w in Pending(s, k) && w in Pending(s, k') ==> k == k'
  }

  ghost predicate BufferOk(s: State, w: nat) {
    w in s.waiters ==>
      && (s.waiters[w].buffer == [] || s.waiters[w].buffer == [ExecutionRecord(s.waiters[w].hash, Executed)])
      && (s.waiters[w].pc.FirstRead? || s.waiters[w].pc.Registering? ==> s.waiters[w].buffer == [])
  }

  // A handler past its update knows the row to be executed, or still missing.
  ghost predicate RowOk(s: State, k: nat) {
    k in s.handlers ==>
      var pc, hash := s.handlers[k].pc, s.handlers[k].hash;
      && (pc.Reading? || pc.Saving? ==> hash in s.rows ==> s.rows[hash] == Executed)
      && (pc.Taking? || pc.Sending? || pc.Finished? ==> IsExecuted(s, hash))
  }

  ghost predicate HeldBySome(s: State, w: nat) {
    exists k :: w in Pending(s, k)
  }

  // A registered waiter that is not leaving is in the table, in a handler's hands, or served.
  ghost predicate NotForgotten(s: State, w: nat) {
    w in s.waiters && (s.waiters[w].pc.SecondRead? || s.waiters[w].pc.Selecting?) ==>
      w in Listed(s.table, s.waiters[w].hash) || HeldBySome(s, w) || s.waiters[w].buffer != []
  }

  ghost predicate Took(s: State, k: nat) {
    k in s.handlers && (s.handlers[k].pc.Sending? || s.handlers[k].pc.Finished?)
  }

  // After a take for its hash, no waiter in the table is asleep.
  ghost predicate NotAsleep(s: State, k: nat, w: nat) {
    Took(s, k) && w in Listed(s.table, s.handlers[k].hash) ==> !WaiterAt(s, w, Selecting)
  }

  ghost predicate OneBusy(s: State, k: nat, k': nat) {
    Busy(s, k) && Busy(s, k') ==> k == k'
  }

  // A later delivery holds no sleeping waiter.
  ghost predicate HeldAwake(s: State, k: nat, k': nat, w: nat) {
    HandlerAt(s, k, Finished) && w in Pending(s, k') && s.handlers[k'].hash == s.handlers[k].hash ==> !WaiterAt(s, w, Selecting)
  }

  ghost predicate Invariant(s: State) {
    && (forall h :: ListOk(s, h))
    && (forall h, w :: EntryOk(s, h, w))
    && (forall k :: Distinct(Pending(s, k)))
    && (forall k, w :: HeldOk(s, k, w))
    && (forall k, k', w :: HeldOnce(s, k, k', w))
    && (forall w :: BufferOk(s, w))
    && (forall k :: RowOk(s, k))
    && (forall w :: NotForgotten(s, w))
    && (forall k, w :: NotAsleep(s, k, w))
    && (forall k, k' :: OneBusy(s, k, k'))
    && (forall k, k', w :: HeldAwake(s, k, k', w))
    && s.dropped == 0
  }

  lemma {:induction false} WithoutMembers(q: seq<nat>, w: nat)
    requires Distinct(q)
    ensures Distinct(Without(q, w))
    ensures forall x :: x in Without(q, w) <==> x in q && x != w
  {
    if q != [] {
      forall x ensures x in q <==> x == q[0] || x in q[1..] {}
      if q[0] != w {
        WithoutMembers(q[1..], w);
        var r := Without(q[1..], w);
        assert Without(q, w) == [q[0]] + r;
        assert q[0] !in r;
      }
    }
  }

  // How each step changes the table, and what that does to membership
  lemma TableAfter(s: State, step: Step, h: string)
    requires Invariant(s) && Enabled(s, step)
    ensures ListOk(Do(s, step), h)
    ensures forall w :: w in Listed(Do(s, step).table, h) <==>
      || (w in Listed(s.table, h)
          && !(step.Remove? && step.w == w && s.waiters[step.w].hash == h)
          && !(step.Take? && s.handlers[step.k].hash == h))
      || (step.Register? && step.w == w && s.waiters[step.w].hash == h)
  {
    hide DoHandler;
    if OfHandler(step) { KeepsWaiters(s, step, 0); }
    assert ListOk(s, h);
    if step.Register? && s.waiters[step.w].hash == h {
      assert EntryOk(s, h, step.w);
    }
    if step.Remove? && s.waiters[step.w].hash == h {
      WithoutMembers(Listed(s.table, h), step.w);
    }
  }

  lemma KeepsHandlers(s: State, step: Step)
    requires Enabled(s, step) && !OfHandler(step)
    ensures Do(s, step).handlers == s.handlers && Do(s, step).dropped == s.dropped
    ensures !step.OtherEvent? ==> Do(s, step).rows == s.rows
  {}

  lemma KeepsWaiters(s: State, step: Step, w: nat)
    requires Enabled(s, step) && OfHandler(step)
    ensures w in Do(s, step).waiters <==> w in s.waiters
    ensures w in s.waiters ==>
      Do(s, step).waiters[w].hash == s.waiters[w].hash && Do(s, step).waiters[w].pc == s.waiters[w].pc
    ensures Do(s, step).table == if step.Take? then s.table - {s.handlers[step.k].hash} else s.table
  {
    hide DoWaiter;
  }

  lemma PendingAfter(s: State, step: Step, k: nat)
    requires Invariant(s) && Enabled(s, step)
    ensures Pending(Do(s, step), k) ==
      if step.Take? && step.k == k then Listed(s.table, s.handlers[k].hash)
      else if step.Send? && step.k == k && s.handlers[k].pc.pending != [] then s.handlers[k].pc.pending[1..]
      else Pending(s, k)
  {
    hide DoWaiter;
    if !OfHandler(step) { KeepsHandlers(s, step); }
  }

  // The waiter a step moves
  predicate Moves(step: Step, w: nat) {
    match step
    case ReadFirst(x, _) => x == w
    case Register(x) => x == w
    case ReadSecond(x, _) => x == w
    case Receive(x) => x == w
    case GiveUp(x, _) => x == w
    case Remove(x) => x == w
    case _ => false
  }

  lemma WaiterAfter(s: State, step: Step, w: nat)
    requires Enabled(s, step)
    ensures w in Do(s, step).waiters <==> w in s.waiters || (step.Wait? && step.w == w)
    ensures w in s.waiters ==> Do(s, step).waiters[w].hash == s.waiters[w].hash
    ensures w in s.waiters && !Moves(step, w) ==> Do(s, step).waiters[w].pc == s.waiters[w].pc
    ensures step.Wait? && step.w == w ==> Do(s, step).waiters[w] == Waiter(step.hash, FirstRead, [])
  {
    hide DoHandler;
    if OfHandler(step) { KeepsWaiters(s, step, w); }
  }

  lemma MoveAfter(s: State, step: Step, w: nat)
    requires Enabled(s, step) && Moves(step, w)
    ensures w in Do(s, step).waiters && MovedTo(s, step, Do(s, step).waiters[w].pc)
  {}

  lemma BufferAfter(s: State, step: Step, w: nat)
    requires Enabled(s, step) && w in s.waiters
    ensures step.Receive? && step.w == w ==> Do(s, step).waiters[w].buffer == s.waiters[w].buffer[1..]
    ensures step.Send? && Sends(s, step.k, w) && s.waiters[w].buffer == [] ==>
      Do(s, step).waiters[w].buffer == [ExecutionRecord(s.handlers[step.k].hash, Executed)]
    ensures !(step.Receive? && step.w == w) && !(step.Send? && Sends(s, step.k, w)) ==>
      Do(s, step).waiters[w].buffer == s.waiters[w].buffer
  {}

  lemma WaiterFate(s: State, step: Step, w: nat)
    requires Enabled(s, step)
    ensures w in Do(s, step).waiters <==> w in s.waiters || (step.Wait? && step.w == w)
    ensures w in s.waiters ==> Do(s, step).waiters[w].hash == s.waiters[w].hash
    ensures w in s.waiters && !Moves(step, w) ==> Do(s, step).waiters[w].pc == s.waiters[w].pc
    ensures step.Wait? && step.w == w ==> Do(s, step).waiters[w] == Waiter(step.hash, FirstRead, [])
    ensures Moves(step, w) ==> MovedTo(s, step, Do(s, step).waiters[w].pc)
    ensures w in s.waiters && step.Receive? && step.w == w ==> Do(s, step).waiters[w].buffer == s.waiters[w].buffer[1..]
    ensures w in s.waiters && step.Send? && Sends(s, step.k, w) && s.waiters[w].buffer == [] ==>
      Do(s, step).waiters[w].buffer == [ExecutionRecord(s.handlers[step.k].hash, Executed)]
    ensures w in s.waiters && !(step.Receive? && step.w == w) && !(step.Send? && Sends(s, step.k, w)) ==>
      Do(s, step).waiters[w].buffer == s.waiters[w].buffer
  {
    hide Do;
    WaiterAfter(s, step, w);
    if Moves(step, w) { MoveAfter(s, step, w); }
    if w in s.waiters { BufferAfter(s, step, w); }
  }

  // Where a step takes its waiter
  predicate MovedTo(s: State, step: Step, pc: WaiterPc)
    requires Enabled(s, step)
  {
    match step
    case ReadFirst(_, _) => pc.Registering? || pc.Returned?
    case Register(_) => pc.SecondRead?
    case ReadSecond(w, _) => pc.Removing? || (pc.Selecting? && !IsExecuted(s, s.waiters[w].hash))
    case Receive(_) => pc.Removing?
    case GiveUp(_, _) => pc.Removing?
    case Remove(_) => pc.Returned?
    case _ => false
  }

  // The next send of handler k goes to w.
  predicate Sends(s: State, k: nat, w: nat) {
    Pending(s, k) != [] && Pending(s, k)[0] == w
  }

  lemma HandlerAfter(s: State, step: Step, k: nat)
    requires Enabled(s, step)
    ensures k in Do(s, step).handlers <==> k in s.handlers || (step.Handle? && step.k == k)
    ensures k in s.handlers ==> Do(s, step).handlers[k].hash == s.handlers[k].hash
  {
    hide DoWaiter;
    if !OfHandler(step) { KeepsHandlers(s, step); }
  }

  lemma TookAfter(s: State, step: Step, k: nat)
    requires Enabled(s, step)
    ensures Took(Do(s, step), k) && !Took(s, k) ==> step == Take(k)
  {
    hide DoWaiter;
    if !OfHandler(step) { KeepsHandlers(s, step); }
  }

  lemma RowsPreserved(s: State, step: Step, k: nat)
    requires Enabled(s, step) && RowOk(s, k)
    ensures RowOk(Do(s, step), k)
  {
    hide DoWaiter;
    if !OfHandler(step) { KeepsHandlers(s, step); }
  }

  lemma EntriesPreserved(s: State, step: Step, h: string, w: nat)
    requires Invariant(s) && Enabled(s, step)
    ensures EntryOk(Do(s, step), h, w)
  {
    hide Do;
    TableAfter(s, step, h);
    WaiterFate(s, step, w);
    assert EntryOk(s, h, w);
    if step.Send? {
      assert HeldOk(s, step.k, w);
    }
    if step.Register? {
      assert BufferOk(s, step.w);
    }
  }

  lemma HeldPreserved(s: State, step: Step, k: nat, w: nat)
    requires Invariant(s) && Enabled(s, step)
    ensures HeldOk(Do(s, step), k, w)
  {
    hide Do;
    PendingAfter(s, step, k);
    WaiterFate(s, step, w);
    HandlerAfter(s, step, k);
    assert HeldOk(s, k, w);
    if k in s.handlers {
      var h := s.handlers[k].hash;
      TableAfter(s, step, h);
      assert EntryOk(s, h, w);
    }
    if step.Send? {
      assert HeldOnce(s, step.k, k, w);
      assert Distinct(Pending(s, step.k));
    }
  }

  lemma HeldOncePreserved(s: State, step: Step, k: nat, k': nat, w: nat)
    requires Invariant(s) && Enabled(s, step)
    ensures Distinct(Pending(Do(s, step), k))
    ensures HeldOnce(Do(s, step), k, k', w)
  {
    hide Do;
    PendingAfter(s, step, k);
    PendingAfter(s, step, k');
    assert Distinct(Pending(s, k)) && HeldOnce(s, k, k', w);
    assert HeldOk(s, k, w) && HeldOk(s, k', w);
    if step.Take? {
      var h := s.handlers[step.k].hash;
      assert ListOk(s, h) && EntryOk(s, h, w);
    }
  }

  lemma BuffersPreserved(s: State, step: Step, w: nat)
    requires Invariant(s) && Enabled(s, step)
    ensures BufferOk(Do(s, step), w)
  {
    hide Do;
    WaiterFate(s, step, w);
    assert BufferOk(s, w);
    if step.Send? {
      assert HeldOk(s, step.k, w);
    }
  }

  lemma WakeupsPreserved(s: State, step: Step, w: nat)
    requires Invariant(s) && Enabled(s, step)
    ensures NotForgotten(Do(s, step), w)
  {
    hide Do;
    var t := Do(s, step);
    WaiterFate(s, step, w);
    assert NotForgotten(s, w);
    if w in s.waiters && (t.waiters[w].pc.SecondRead? || t.waiters[w].pc.Selecting?) {
      var h := s.waiters[w].hash;
      TableAfter(s, step, h);
      if !step.Register? || step.w != w {
        if w in Listed(s.table, h) {
          if step.Take? {
            PendingAfter(s, step, step.k);
            assert s.handlers[step.k].hash == h ==> w in Pending(t, step.k);
          }
        } else if HeldBySome(s, w) {
          var k :| w in Pending(s, k);
          PendingAfter(s, step, k);
          assert HeldOk(s, k, w);
          if step == Send(k) && Pending(s, k)[0] == w {
            assert t.waiters[w].buffer != [];
          } else {
            assert w in Pending(t, k);
          }
        }
      }
    }
  }

  lemma SleepersPreserved(s: State, step: Step, k: nat, w: nat)
    requires Invariant(s) && Enabled(s, step)
    ensures NotAsleep(Do(s, step), k, w)
  {
    hide Do;
    HandlerAfter(s, step, k);
    TookAfter(s, step, k);
    WaiterFate(s, step, w);
    assert NotAsleep(s, k, w) && RowOk(s, k);
    if k in s.handlers {
      var h := s.handlers[k].hash;
      TableAfter(s, step, h);
      assert EntryOk(s, h, w);
    }
  }

  lemma BusyAfter(s: State, step: Step, k: nat)
    requires Enabled(s, step)
    ensures Busy(Do(s, step), k) ==> Busy(s, k) || (step.Handle? && step.k == k && Idle(s))
    ensures HandlerAt(Do(s, step), k, Finished) ==> HandlerAt(s, k, Finished) || (step == Send(k) && Pending(s, k) == [] && Busy(s, k))
  {
    hide DoWaiter;
    if !OfHandler(step) { KeepsHandlers(s, step); }
  }

  lemma OneBusyPreserved(s: State, step: Step, k: nat, k': nat)
    requires Invariant(s) && Enabled(s, step)
    ensures OneBusy(Do(s, step), k, k')
  {
    BusyAfter(s, step, k);
    BusyAfter(s, step, k');
    hide Do;
    assert OneBusy(s, k, k');
  }

  lemma HeldAwakePreserved(s: State, step: Step, k: nat, k': nat, w: nat)
    requires Invariant(s) && Enabled(s, step)
    ensures HeldAwake(Do(s, step), k, k', w)
  {
    BusyAfter(s, step, k);
    hide Do;
    PendingAfter(s, step, k');
    HandlerAfter(s, step, k);
    HandlerAfter(s, step, k');
    WaiterFate(s, step, w);
    assert HeldAwake(s, k, k', w) && OneBusy(s, k, k') && RowOk(s, k) && HeldOk(s, k', w);
    if step == Take(k') && k in s.handlers {
      assert NotAsleep(s, k, w) && EntryOk(s, s.handlers[k'].hash, w);
    }
  }

  lemma NothingDropped(s: State, step: Step)
    requires Invariant(s) && Enabled(s, step)
    ensures Do(s, step).dropped == 0
  {
    if step.Send? && Pending(s, step.k) != [] {
      assert HeldOk(s, step.k, Pending(s, step.k)[0]);
    }
  }

  lemma StepPreserves(s: State, step: Step)
    requires Invariant(s) && Enabled(s, step)
    ensures Invariant(Do(s, step))
  {
    hide Do, ListOk, EntryOk, HeldOk, HeldOnce, BufferOk, RowOk, NotForgotten, NotAsleep, OneBusy, HeldAwake, Distinct, Pending;
    var t := Do(s, step);
    forall h ensures ListOk(t, h) { TableAfter(s, step, h); }
    forall h, w ensures EntryOk(t, h, w) { EntriesPreserved(s, step, h, w); }
    forall k, w ensures HeldOk(t, k, w) { HeldPreserved(s, step, k, w); }
    forall k, k', w ensures HeldOnce(t, k, k', w) { HeldOncePreserved(s, step, k, k', w); }
    forall k ensures Distinct(Pending(t, k)) { HeldOncePreserved(s, step, k, k, 0); }
    forall w ensures BufferOk(t, w) { BuffersPreserved(s, step, w); }
    forall k ensures RowOk(t, k) { RowsPreserved(s, step, k); }
    forall w ensures NotForgotten(t, w) { WakeupsPreserved(s, step, w); }
    forall k, w ensures NotAsleep(t, k, w) { SleepersPreserved(s, step, k, w); }
    forall k, k' ensures OneBusy(t, k, k') { OneBusyPreserved(s, step, k, k'); }
    forall k, k', w ensures HeldAwake(t, k, k', w) { HeldAwakePreserved(s, step, k, k', w); }
    NothingDropped(s, step);
  }

  lemma {:induction false} RunPreserves(s: State, steps: seq<Step>)
    requires Invariant(s)
    ensures Invariant(Run(s, steps))
    decreases |steps|
  {
    hide Do, Invariant, Enabled;
    if steps != [] {
      if Enabled(s, steps[0]) {
        StepPreserves(s, steps[0]);
        RunPreserves(Do(s, steps[0]), steps[1..]);
      } else {
        RunPreserves(s, steps[1..]);
      }
    }
  }

  // No lost wakeup. In every interleaving, once a HandleExecuted of a hash has finished, every
  // waiter on the hash will see the execution in the read it has yet to make, or has the record
  // waiting in its channel, or has already left with an outcome.
  lemma NoLostWakeup(steps: seq<Step>, k: nat, w: nat)
    requires var s := Run(INIT, steps);
      HandlerAt(s, k, Finished) && w in s.waiters && s.waiters[w].hash == s.handlers[k].hash
    ensures var s := Run(INIT, steps); var wt := s.waiters[w]; var rec := ExecutionRecord(wt.hash, Executed);
      match wt.pc
      case FirstRead => Do(s, ReadFirst(w, true)).waiters[w].pc == Returned(Found(rec))
      case Registering => IsExecuted(s, wt.hash)
      case SecondRead => Do(s, ReadSecond(w, true)).waiters[w].pc == Removing(Found(rec))
      case Selecting => wt.buffer == [rec] && Do(s, Receive(w)).waiters[w].pc == Removing(Found(rec))
      case Removing(_) => true
      case Returned(_) => true
  {
    hide Run;
    InitInvariant();
    RunPreserves(INIT, steps);
    var s := Run(INIT, steps);
    assert RowOk(s, k);
    assert NotForgotten(s, w) && NotAsleep(s, k, w) && BufferOk(s, w);
    forall k' | w in Pending(s, k') ensures s.waiters[w].pc != Selecting {
      assert HeldOk(s, k', w) && HeldAwake(s, k, k', w);
    }
  }

  lemma InitInvariant()
    ensures Invariant(INIT)
  {}

  // In every interleaving: no send is ever dropped and no key keeps an empty list.
  lemma NeverDroppedNeverEmpty(steps: seq<Step>)
    ensures Run(INIT, steps).dropped == 0
    ensures forall h :: h in Run(INIT, steps).table ==> Run(INIT, steps).table[h] != []
  {
    hide Run;
    InitInvariant();
    RunPreserves(INIT, steps);
    var s := Run(INIT, steps);
    forall h | h in s.table ensures s.table[h] != [] { assert ListOk(s, h); }
  }
}
