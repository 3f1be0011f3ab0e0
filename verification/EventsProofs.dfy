/** What following the chain's events does to the mempool. */
module EventsProofs {
  import opened Common
  import opened Sequences
  import opened Reputation
  import opened Mempool
  import opened MempoolProofs
  import opened Events

  /** Some event says that the operation with this hash was included. */
  ghost predicate Mined(evs: seq<Event>, hash: Bytes) {
    exists i :: 0 <= i < |evs| && evs[i].UserOperationEvent? && evs[i].userOpHash == hash
  }

  function OtherHash(hash: Bytes): Entry -> bool {
    (e: Entry) => e.userOpHash != hash
  }

  function MinedHashes(evs: seq<Event>): set<Bytes> {
    if evs == [] then {}
    else MinedHashes(Init(evs)) + if Last(evs).UserOperationEvent? then {Last(evs).userOpHash} else {}
  }

  function Unmined(hashes: set<Bytes>): Entry -> bool {
    (e: Entry) => e.userOpHash !in hashes
  }

  lemma {:induction false} MinedAre(evs: seq<Event>, hash: Bytes)
    ensures hash in MinedHashes(evs) <==> Mined(evs, hash)
  {
    if evs == [] {
    } else {
      MinedAre(Init(evs), hash);
      assert evs == Init(evs) + [Last(evs)];
    }
  }

  lemma {:induction false} DroppedHashes(pool: Pool, i: nat)
    requires i < |pool| && UniqueHashes(pool)
    ensures UniqueHashes(Dropped(pool, i))
    ensures Dropped(pool, i) == Filter(pool, OtherHash(pool[i].userOpHash))
  {
    var pool', p := Dropped(pool, i), OtherHash(pool[i].userOpHash);
    assert forall j :: 0 <= j < |pool'| ==> pool'[j] == pool[if j < i then j else j + 1];
    FilterDropped(pool, i, p);
    forall x | x in pool' ensures p(x) {
      var j :| 0 <= j < |pool'| && pool'[j] == x;
    }
    FilterAll(pool', p);
  }

  lemma {:induction false} RemovedByHashFilters(s: State, hash: Bytes)
    requires UniqueHashes(s.pool)
    ensures RemovedByHash(s, hash).pool == Filter(s.pool, OtherHash(hash))
    ensures UniqueHashes(RemovedByHash(s, hash).pool)
  {
    var i := FindByHash(s.pool, hash);
    if i == -1 {
      FilterAll(s.pool, OtherHash(hash));
    } else {
      DroppedHashes(s.pool, i);
    }
  }

  lemma {:induction false} HandledPool(t: Tracker, ev: Event)
    ensures
      var s := if ev.UserOperationEvent? then RemovedByHash(t.mempool, ev.userOpHash) else t.mempool;
      Handle(t, ev).mempool.pool == s.pool && Handle(t, ev).mempool.counts == s.counts
  {
  }

  lemma {:induction false} HandlingFilters(t: Tracker, evs: seq<Event>)
    requires UniqueHashes(t.mempool.pool)
    ensures HandleAll(t, evs).mempool.pool == Filter(t.mempool.pool, Unmined(MinedHashes(evs)))
    ensures UniqueHashes(HandleAll(t, evs).mempool.pool)
  {
    var pool := t.mempool.pool;
    if evs == [] {
      FilterAll(pool, Unmined({}));
    } else {
      var ev, u, mined := Last(evs), HandleAll(t, Init(evs)), MinedHashes(Init(evs));
      HandlingFilters(t, Init(evs));
      HandledPool(u, ev);
      if ev.UserOperationEvent? {
        RemovedByHashFilters(u.mempool, ev.userOpHash);
        FilterTwice(pool, Unmined(mined), OtherHash(ev.userOpHash), Unmined(mined + {ev.userOpHash}));
      } else {
        assert mined + {} == mined;
      }
    }
  }

  lemma {:induction false} HandlingKeepsHealthy(t: Tracker, evs: seq<Event>, limited: set<Address>)
    requires Healthy(t.mempool, limited)
    ensures Healthy(HandleAll(t, evs).mempool, limited)
  {
    if evs == [] {
    } else {
      var u, ev := HandleAll(t, Init(evs)), Last(evs);
      HandlingKeepsHealthy(t, Init(evs), limited);
      HandledPool(u, ev);
      if ev.UserOperationEvent? {
        RemovedAtHealthy(u.mempool, FindByHash(u.mempool.pool, ev.userOpHash), limited);
      }
    }
  }

  /** Over every run of scans the mempool keeps, in order, exactly the entries whose hash no handled event says was
      included. */
  lemma {:induction false} ScansRemoveMined(t: Tracker, chain: seq<Event>, heads: seq<nat>)
    requires t.lastBlock == None && InBlockOrder(chain) && heads != [] && NonDecreasing(heads)
    requires UniqueHashes(t.mempool.pool)
    ensures
      var mined := MinedHashes(Handled(chain, heads));
      && ScanAll(t, chain, heads).mempool.pool == Filter(t.mempool.pool, (e: Entry) => e.userOpHash !in mined)
      && forall hash :: hash in mined <==> Mined(Handled(chain, heads), hash)
  {
    var evs := Handled(chain, heads);
    ScansHandleCoveredOnce(t, chain, heads);
    HandlingFilters(t, evs);
    FilterSame(t.mempool.pool, Unmined(MinedHashes(evs)), (e: Entry) => e.userOpHash !in MinedHashes(evs));
    forall hash ensures hash in MinedHashes(evs) <==> Mined(evs, hash) {
      MinedAre(evs, hash);
    }
  }

  /** And a right index and separate roles stay so. */
  lemma {:induction false} ScansKeepHealthy(t: Tracker, chain: seq<Event>, heads: seq<nat>, limited: set<Address>)
    requires t.lastBlock == None && InBlockOrder(chain) && heads != [] && NonDecreasing(heads)
    requires Healthy(t.mempool, limited)
    ensures Healthy(ScanAll(t, chain, heads).mempool, limited)
  {
    ScansHandleCoveredOnce(t, chain, heads);
    HandlingKeepsHealthy(t, Handled(chain, heads), limited);
  }
}
