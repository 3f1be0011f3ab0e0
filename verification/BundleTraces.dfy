/** The storage map of a bundle whose operations were all traced from one chain state. */
module BundleTraces {
  import opened Common
  import opened Sequences
  import opened Mempool
  import opened StorageMaps
  import opened TracerProofs
  import opened ResultParser
  import opened InitialValues
  import opened Bundle
  import opened BundleProofs

  function WithoutAll(ms: seq<StorageMap>, a: Address): seq<StorageMap> {
    if ms == [] then [] else WithoutAll(Init(ms), a) + [Last(ms) - {a}]
  }

  /** A trace that starts from the given storage and reports the given map. */
  ghost predicate TracedFrom(w0: World, entryPoint: Address, evs: seq<TraceEvent>, m: StorageMap) {
    && Run(evs).Some?
    && Executes(Recorded(evs), entryPoint)
    && (Recorded(evs) != [] ==> Recorded(evs)[0].state == w0)
    && m == FirstReads(Run(evs).value.levels)
  }

  lemma {:induction false} MergedAllWithout(ms: seq<StorageMap>, a: Address)
    ensures MergedAll(ms) - {a} == MergedAll(WithoutAll(ms, a))
  {
    if ms == [] {
    } else {
      MergedAllWithout(Init(ms), a);
      MergedAllAppend(WithoutAll(Init(ms), a), Last(ms) - {a});
      assert Merged(MergedAll(Init(ms)), Last(ms)) - {a} == Merged(MergedAll(Init(ms)) - {a}, Last(ms) - {a});
    }
  }

  /** The storage a trace started from meets what the trace reports, the EntryPoint apart. */
  lemma {:induction false} TracedMapHolds(w0: World, rootOf: SlotMap -> Root, entryPoint: Address,
      evs: seq<TraceEvent>, m: StorageMap)
    requires TracedFrom(w0, entryPoint, evs, m)
    ensures Satisfies(w0, rootOf, m - {entryPoint})
  {
    forall a | a in m - {entryPoint} ensures Meets(w0, rootOf, a, m[a]) {
      ReportedValuesAreInitial(evs, entryPoint, a);
    }
  }

  ghost predicate AllTraced(env: Env, es: seq<Entry>, entryPoint: Address, traces: Entry -> seq<TraceEvent>, w0: World) {
    forall e :: e in es ==> TracedFrom(w0, entryPoint, traces(e), ResultOf(env, e).storageMap)
  }

  ghost predicate RootsOf(env: Env, rootOf: SlotMap -> Root, w0: World) {
    forall a :: env.storageRoot(a) == rootOf(StorageOf(w0, a))
  }

  lemma {:induction false} HoldsForMore(w: World, rootOf: SlotMap -> Root, ms: seq<StorageMap>, m: StorageMap, a: Address)
    requires SatisfiesAll(w, rootOf, WithoutAll(ms, a)) && Satisfies(w, rootOf, m - {a})
    ensures SatisfiesAll(w, rootOf, WithoutAll(ms + [m], a))
  {
    assert Init(ms + [m]) == ms;
  }

  lemma {:induction false} PartsHold(env: Env, es: seq<Entry>, rootOf: SlotMap -> Root, entryPoint: Address,
      traces: Entry -> seq<TraceEvent>, w0: World)
    requires AllTraced(env, es, entryPoint, traces, w0) && RootsOf(env, rootOf, w0)
    ensures SatisfiesAll(w0, rootOf, WithoutAll(Parts(env, es), entryPoint))
  {
    if es == [] {
    } else {
      var op, parts, m := Last(es).userOp, Parts(env, Init(es)), ResultOf(env, Last(es)).storageMap;
      PartsHold(env, Init(es), rootOf, entryPoint, traces, w0);
      TracedMapHolds(w0, rootOf, entryPoint, traces(Last(es)), m);
      if env.useAccountRoots && op.factory.None? {
        var root: StorageMap := map[op.sender := RootHash(env.storageRoot(op.sender))];
        HoldsForMore(w0, rootOf, parts, root, entryPoint);
        HoldsForMore(w0, rootOf, parts + [root], m, entryPoint);
      } else {
        assert parts + [] == parts;
        HoldsForMore(w0, rootOf, parts, m, entryPoint);
      }
    }
  }

  /** If every bundled operation was traced from one chain state and the account roots are of that state, then, the
      EntryPoint's own storage apart, that state meets the bundle's storage map, and any state meets it exactly when
      it meets the map and the root of each operation. */
  lemma {:induction false} TracedBundleKeepsMeaning(env: Env, s: State, rootOf: SlotMap -> Root, entryPoint: Address,
      traces: Entry -> seq<TraceEvent>, w0: World, w: World)
    requires CollisionFree(rootOf) && RootsOf(env, rootOf, w0)
    requires AllTraced(env, Built(env, s).acc.picked, entryPoint, traces, w0)
    ensures Satisfies(w0, rootOf, Built(env, s).acc.storageMap - {entryPoint})
    ensures Satisfies(w, rootOf, Built(env, s).acc.storageMap - {entryPoint}) <==>
      SatisfiesAll(w, rootOf, WithoutAll(Parts(env, Built(env, s).acc.picked), entryPoint))
  {
    var parts := Parts(env, Built(env, s).acc.picked);
    InvariantAfter(env, s, |Entries(s)|);
    PartsHold(env, Built(env, s).acc.picked, rootOf, entryPoint, traces, w0);
    MergedAllWithout(parts, entryPoint);
    MergedAllKeepsMeaning(w, w0, rootOf, WithoutAll(parts, entryPoint));
  }
}
