// IndexerService: the table of goroutines waiting for an execution, section by section.
module Indexer {
  datatype ExecutionStatus = Registered | Executed | Cancelled | Expired

  datatype ExecutionRecord = ExecutionRecord(commitmentHash: string, status: ExecutionStatus)

  // The waiter table, keyed by commitment hash; the channels are a parameter.

  function Listed<T>(m: map<string, seq<T>>, hash: string): seq<T> {
    if hash in m then m[hash] else []
  }

  function Attach<T>(m: map<string, seq<T>>, hash: string, ch: T): map<string, seq<T>> {
    m[hash := Listed(m, hash) + [ch]]
  }

  // The list without the first occurrence of ch
  function Without<T(==)>(waiters: seq<T>, ch: T): seq<T> {
    if waiters == [] then []
    else if waiters[0] == ch then waiters[1..]
    else [waiters[0]] + Without(waiters[1..], ch)
  }

  function Detach<T(==)>(m: map<string, seq<T>>, hash: string, ch: T): map<string, seq<T>> {
    var waiters := Without(Listed(m, hash), ch);
    if waiters == [] then m - {hash} else m[hash := waiters]
  }

  lemma {:induction false} WithoutSplit<T>(waiters: seq<T>, ch: T, i: nat)
    requires i < |waiters| && waiters[i] == ch && ch !in waiters[..i]
    ensures Without(waiters, ch) == waiters[..i] + waiters[i + 1..]
  {
    if i > 0 {
      assert waiters[1..][..i - 1] == waiters[..i][1..];
      WithoutSplit(waiters[1..], ch, i - 1);
    }
  }

  lemma {:induction false} WithoutAbsent<T>(waiters: seq<T>, ch: T)
    requires ch !in waiters
    ensures Without(waiters, ch) == waiters
  {
    if waiters != [] { WithoutAbsent(waiters[1..], ch); }
  }

  // A channel of capacity one
  class Channel {
    var buffer: seq<ExecutionRecord>

    constructor ()
      ensures buffer == []
    {
      buffer := [];
    }
  }

  class IndexerService {
    var executedWaiters: map<string, seq<Channel>>

    constructor ()
      ensures executedWaiters == map[]
    {
      executedWaiters := map[];
    }

    // The locked section of WaitForExecuted
    method AddExecutedWaiter(commitmentHash: string) returns (ch: Channel)
      modifies this
      ensures fresh(ch) && ch.buffer == []
      ensures executedWaiters == Attach(old(executedWaiters), commitmentHash, ch)
    {
      ch := new Channel();
      var waiters := if commitmentHash in executedWaiters then executedWaiters[commitmentHash] else [];
      executedWaiters := executedWaiters[commitmentHash := waiters + [ch]];
    }

    method RemoveExecutedWaiter(commitmentHash: string, ch: Channel)
      modifies this
      ensures executedWaiters == Detach(old(executedWaiters), commitmentHash, ch)
    {
      var all := if commitmentHash in executedWaiters then executedWaiters[commitmentHash] else [];
      var waiters := all;
      var i := 0;
      while i < |all|
        invariant 0 <= i <= |all| && waiters == all
        invariant ch !in all[..i]
      {
        if all[i] == ch {
          waiters := all[..i] + all[i + 1..];
          WithoutSplit(all, ch, i);
          break;
        }
        i := i + 1;
      }
      if i == |all| {
        WithoutAbsent(all, ch);
      }
      if |waiters| == 0 {
        executedWaiters := executedWaiters - {commitmentHash};
        return;
      }
      executedWaiters := executedWaiters[commitmentHash := waiters];
    }

    // notifyExecuted: the locked section takes the list, then every send that would block is dropped
    method NotifyExecuted(rec: ExecutionRecord)
      modifies this, Listed(executedWaiters, rec.commitmentHash)
      ensures executedWaiters == old(executedWaiters) - {rec.commitmentHash}
      ensures forall ch :: ch in old(Listed(executedWaiters, rec.commitmentHash)) ==>
        ch.buffer == if old(ch.buffer) == [] then [rec] else old(ch.buffer)
    {
      var waiters := if rec.commitmentHash in executedWaiters then executedWaiters[rec.commitmentHash] else [];
      executedWaiters := executedWaiters - {rec.commitmentHash};
      for i := 0 to |waiters|
        invariant executedWaiters == old(executedWaiters) - {rec.commitmentHash}
        invariant forall ch :: ch in waiters[..i] ==> ch.buffer == if old(ch.buffer) == [] then [rec] else old(ch.buffer)
        invariant forall ch :: ch in waiters && ch !in waiters[..i] ==> ch.buffer == old(ch.buffer)
      {
        var ch := waiters[i];
        if |ch.buffer| < 1 {
          ch.buffer := ch.buffer + [rec];
        }
      }
    }
  }
}
