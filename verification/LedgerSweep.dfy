// sweepExpired against its closed form, which knows the set of listed hashes and nothing of their order.
module LedgerSweep {
  import opened Wrappers
  import opened Sums
  import opened Ledger
  import opened LedgerInvariant

  function Elements(hashes: seq<Hash>): set<Hash> {
    set h | h in hashes
  }

  // What expiring h would give back to a user in a token
  ghost function RefundsTo(w: World, key: (Address, Token)): map<Hash, nat> {
    map h | h in w.commitments && Due(w, h) && (At(w, h).owner, At(w, h).tokenIn) == key :: At(w, h).size
  }

  ghost function Refund(w: World, hashes: set<Hash>, key: (Address, Token)): nat {
    SumOver(RefundsTo(w, key), hashes)
  }

  ghost function Refunded(w: World, hashes: set<Hash>): set<(Address, Token)> {
    set h | h in hashes && Due(w, h) :: (At(w, h).owner, At(w, h).tokenIn)
  }

  function ReturnOf(w: World, h: Hash): Event {
    CollateralReturned(h, At(w, h).owner, At(w, h).tokenIn, At(w, h).size)
  }

  ghost function Returns(w: World, hashes: set<Hash>): set<Event> {
    set h | h in hashes && Due(w, h) :: ReturnOf(w, h)
  }

  ghost function SweptCommitments(w: World, hashes: set<Hash>): map<Hash, Record> {
    map h | h in w.commitments ::
      if h in hashes && Due(w, h) then w.commitments[h].(status := EXPIRED) else w.commitments[h]
  }

  ghost function SweptLocks(w: World, hashes: set<Hash>): map<(Hash, Token), nat> {
    map k | k in w.lockedBalance :: if k.0 in hashes && Due(w, k.0) then 0 else w.lockedBalance[k]
  }

  ghost function SweptFree(w: World, hashes: set<Hash>): map<(Address, Token), nat> {
    map k | k in w.freeBalance.Keys + Refunded(w, hashes) :: Get(w.freeBalance, k) + Refund(w, hashes, k)
  }

  // Exactly the due commitments among the hashes expire, their locks are emptied, their owners
  // get their sizes back, and each return is logged once.
  ghost function ExpireAll(w: World, hashes: set<Hash>): World {
    w.(commitments := SweptCommitments(w, hashes),
       lockedBalance := SweptLocks(w, hashes),
       freeBalance := SweptFree(w, hashes),
       log := w.log + multiset(Returns(w, hashes)))
  }

  // One hash

  lemma ExpireEffect(env: Env, w: World, h: Hash)
    requires Inv(env, w) && Due(w, h)
    ensures var c := At(w, h);
      h in w.commitments && (h, c.tokenIn) in w.lockedBalance
      && Expire(w, h) == Some(w.(
        commitments := w.commitments[h := c.(status := EXPIRED)],
        lockedBalance := w.lockedBalance[(h, c.tokenIn) := 0],
        freeBalance := w.freeBalance[(c.owner, c.tokenIn) := Get(w.freeBalance, (c.owner, c.tokenIn)) + c.size],
        log := w.log + multiset{ReturnOf(w, h)}))
  {
    hide SettledOn, TotalFor;
    var c := At(w, h);
    assert Booked(env, w, h);
    assert Get(w.lockedBalance, (h, c.tokenIn)) == Owed(c, c.tokenIn) == c.size;
    assert Funded(env, w, c.tokenIn);
    EntryAtMostTotalFor(w.freeBalance, (c.owner, c.tokenIn));
    EntryAtMostTotalFor(w.lockedBalance, (h, c.tokenIn));
    EntryAtMostTotalFor(w.bank, (env.vault, c.tokenIn));
  }

  lemma SameMap<K, V>(m: map<K, V>, n: map<K, V>)
    requires m.Keys == n.Keys && forall k :: k in m ==> m[k] == n[k]
    ensures m == n
  {}

  lemma SameSweptFree(w: World, hashes: set<Hash>, v: World, others: set<Hash>)
    requires w.freeBalance.Keys + Refunded(w, hashes) == v.freeBalance.Keys + Refunded(v, others)
    requires forall k :: Get(w.freeBalance, k) + Refund(w, hashes, k) == Get(v.freeBalance, k) + Refund(v, others, k)
    ensures SweptFree(w, hashes) == SweptFree(v, others)
  {
    hide Refund, Get, Refunded;
    SameMap(SweptFree(w, hashes), SweptFree(v, others));
  }

  lemma NothingDue(w: World, hashes: set<Hash>)
    requires forall h :: h in hashes ==> !Due(w, h)
    ensures ExpireAll(w, hashes) == w
  {
    NothingReturned(w, hashes);
    hide Due, SweptFree, Returns;
    SameMap(SweptCommitments(w, hashes), w.commitments);
    SameMap(SweptLocks(w, hashes), w.lockedBalance);
  }

  lemma NothingReturned(w: World, hashes: set<Hash>)
    requires forall h :: h in hashes ==> !Due(w, h)
    ensures SweptFree(w, hashes) == w.freeBalance
    ensures w.log + multiset(Returns(w, hashes)) == w.log
  {
    forall key ensures Refund(w, hashes, key) == 0 { NoRefund(w, hashes, key); }
    hide Refund, Due;
    assert Refunded(w, hashes) == {} && Returns(w, hashes) == {};
    hide Refunded, Returns;
    SameMap(SweptFree(w, hashes), w.freeBalance);
  }

  lemma {:induction false} NoRefund(w: World, hashes: set<Hash>, key: (Address, Token))
    requires forall h :: h in hashes ==> !Due(w, h)
    ensures Refund(w, hashes, key) == 0
  {
    hide Due;
    if hashes != {} {
      var h :| h in hashes;
      SumRemove(RefundsTo(w, key), hashes, h);
      NoRefund(w, hashes - {h}, key);
    }
  }

  // A hash that is not due may be dropped from the set.
  lemma SkipNotDue(w: World, hashes: set<Hash>, h: Hash)
    requires !Due(w, h)
    ensures ExpireAll(w, hashes + {h}) == ExpireAll(w, hashes)
  {
    forall key ensures Refund(w, hashes + {h}, key) == Refund(w, hashes, key) { SkipRefund(w, hashes, h, key); }
    hide Due, Refund;
    assert Refunded(w, hashes + {h}) == Refunded(w, hashes);
    assert Returns(w, hashes + {h}) == Returns(w, hashes);
    SameMap(SweptCommitments(w, hashes + {h}), SweptCommitments(w, hashes));
    SameMap(SweptLocks(w, hashes + {h}), SweptLocks(w, hashes));
    SameSweptFree(w, hashes + {h}, w, hashes);
  }

  lemma SkipRefund(w: World, hashes: set<Hash>, h: Hash, key: (Address, Token))
    requires !Due(w, h)
    ensures Refund(w, hashes + {h}, key) == Refund(w, hashes, key)
  {
    hide Due;
    SumRemove(RefundsTo(w, key), hashes + {h}, h);
    assert hashes + {h} - {h} == hashes - {h};
    if h in hashes { SumRemove(RefundsTo(w, key), hashes, h); } else { assert hashes - {h} == hashes; }
  }

  // Expiring one due hash and then the rest is expiring them together.
  lemma ExpireOneThenRest(env: Env, w: World, hashes: set<Hash>, h: Hash)
    requires Inv(env, w) && Due(w, h)
    ensures Expire(w, h).Some? && ExpireAll(Expire(w, h).value, hashes) == ExpireAll(w, hashes + {h})
  {
    ExpireEffect(env, w, h);
    var v := Expire(w, h).value;
    hide Inv, Expire;
    OthersStay(w, v, h);
    hide Due;
    assert SweptCommitments(v, hashes) == SweptCommitments(w, hashes + {h});
    LocksTogether(env, w, v, hashes, h);
    FreeTogether(w, v, hashes, h);
    LogTogether(w, v, hashes, h);
  }

  // v is w after h expired, as far as the commitments go.
  ghost predicate ExpiredAt(w: World, v: World, h: Hash) {
    h in w.commitments && v.commitments == w.commitments[h := w.commitments[h].(status := EXPIRED)] && v.now == w.now
  }

  lemma OthersStay(w: World, v: World, h: Hash)
    requires ExpiredAt(w, v, h)
    ensures forall k :: Due(v, k) <==> Due(w, k) && k != h
    ensures forall k :: k != h ==> At(v, k) == At(w, k)
  {}

  lemma LocksTogether(env: Env, w: World, v: World, hashes: set<Hash>, h: Hash)
    requires Inv(env, w) && Due(w, h) && ExpiredAt(w, v, h)
    requires (h, At(w, h).tokenIn) in w.lockedBalance && v.lockedBalance == w.lockedBalance[(h, At(w, h).tokenIn) := 0]
    ensures SweptLocks(v, hashes) == SweptLocks(w, hashes + {h})
  {
    hide Funds, GasFunds, SettledOn, Counted, Bijective;
    OthersStay(w, v, h);
    assert Booked(env, w, h);
    assert forall t :: Get(w.lockedBalance, (h, t)) == Owed(At(w, h), t);
    hide Due;
    forall k | k in w.lockedBalance ensures SweptLocks(v, hashes)[k] == SweptLocks(w, hashes + {h})[k] {
      if k.0 == h {
        assert k == (h, k.1);
        assert Get(w.lockedBalance, (h, k.1)) == Owed(At(w, h), k.1);
      }
    }
  }

  lemma FreeTogether(w: World, v: World, hashes: set<Hash>, h: Hash)
    requires Due(w, h) && ExpiredAt(w, v, h)
    requires var key := (At(w, h).owner, At(w, h).tokenIn);
      v.freeBalance == w.freeBalance[key := Get(w.freeBalance, key) + At(w, h).size]
    ensures SweptFree(v, hashes) == SweptFree(w, hashes + {h})
  {
    OthersStay(w, v, h);
    var key := (At(w, h).owner, At(w, h).tokenIn);
    hide Due, Refund;
    RefundedTogether(w, v, hashes, h);
    forall k ensures Get(v.freeBalance, k) + Refund(v, hashes, k) == Get(w.freeBalance, k) + Refund(w, hashes + {h}, k) {
      RefundTogether(w, v, hashes, h, k);
    }
    hide Refunded;
    assert v.freeBalance.Keys == w.freeBalance.Keys + {key};
    SameSweptFree(v, hashes, w, hashes + {h});
  }

  lemma RefundedTogether(w: World, v: World, hashes: set<Hash>, h: Hash)
    requires Due(w, h) && ExpiredAt(w, v, h)
    ensures Refunded(w, hashes + {h}) == Refunded(v, hashes) + {(At(w, h).owner, At(w, h).tokenIn)}
  {
    OthersStay(w, v, h);
    hide Due;
  }

  lemma RefundTogether(w: World, v: World, hashes: set<Hash>, h: Hash, k: (Address, Token))
    requires Due(w, h) && ExpiredAt(w, v, h)
    ensures Refund(w, hashes + {h}, k)
      == Refund(v, hashes, k) + if k == (At(w, h).owner, At(w, h).tokenIn) then At(w, h).size else 0
  {
    OthersStay(w, v, h);
    hide Due;
    SumRemove(RefundsTo(w, k), hashes + {h}, h);
    assert hashes + {h} - {h} == hashes - {h};
    SumAgree(RefundsTo(w, k), RefundsTo(v, k), hashes - {h});
    if h in hashes { SumRemove(RefundsTo(v, k), hashes, h); } else { assert hashes - {h} == hashes; }
  }

  lemma LogTogether(w: World, v: World, hashes: set<Hash>, h: Hash)
    requires Due(w, h) && ExpiredAt(w, v, h) && v.log == w.log + multiset{ReturnOf(w, h)}
    ensures v.log + multiset(Returns(v, hashes)) == w.log + multiset(Returns(w, hashes + {h}))
  {
    OthersStay(w, v, h);
    hide Due;
    assert ReturnOf(w, h) !in Returns(v, hashes);
    assert Returns(w, hashes + {h}) == Returns(v, hashes) + {ReturnOf(w, h)};
  }

  // sweepExpired on a list expires exactly the listed commitments that are pending and past their
  // expiry, whatever the order and the repetitions, and no transfer in it can fail.
  lemma {:induction false} SweepIsExpireAll(env: Env, w: World, hashes: seq<Hash>)
    requires Inv(env, w)
    ensures SweepFrom(w, hashes) == Some(ExpireAll(w, Elements(hashes)))
    decreases |hashes|
  {
    hide Inv, ExpireAll, Expire, Due;
    if hashes == [] {
      NothingDue(w, Elements(hashes));
    } else {
      var h, rest := hashes[0], hashes[1..];
      assert Elements(hashes) == Elements(rest) + {h};
      if Due(w, h) {
        ExpireOneThenRest(env, w, Elements(rest), h);
        assert At(w, h).status == PENDING by { DueIsPending(w, h); }
        ExpireKeeps(env, w, h);
        SweepIsExpireAll(env, Expire(w, h).value, rest);
      } else {
        SkipNotDue(w, Elements(rest), h);
        SweepIsExpireAll(env, w, rest);
      }
    }
  }

  lemma DueIsPending(w: World, h: Hash)
    requires Due(w, h)
    ensures At(w, h).status == PENDING
  {}

  // The same hashes in another order, or repeated, leave the same world.
  lemma SweepOrderIrrelevant(env: Env, w: World, hashes: seq<Hash>, others: seq<Hash>)
    requires Inv(env, w) && !w.entered && Elements(hashes) == Elements(others)
    ensures SweepExpired(w, hashes).Some? && SweepExpired(w, hashes) == SweepExpired(w, others)
  {
    hide Inv, ExpireAll;
    SweepIsExpireAll(env, w, hashes);
    SweepIsExpireAll(env, w, others);
  }

  // A second sweep of the same hashes changes nothing.
  lemma SweepIdempotent(env: Env, w: World, hashes: seq<Hash>)
    requires Inv(env, w) && !w.entered
    ensures SweepExpired(w, hashes).Some?
    ensures SweepExpired(SweepExpired(w, hashes).value, hashes) == SweepExpired(w, hashes)
  {
    SweepIsExpireAll(env, w, hashes);
    var v := ExpireAll(w, Elements(hashes));
    SweepFromKeeps(env, w, hashes);
    forall h | h in Elements(hashes) ensures !Due(v, h) {
      assert h in v.commitments ==> h in w.commitments;
    }
    NothingDue(v, Elements(hashes));
    SweepIsExpireAll(env, v, hashes);
  }
}
