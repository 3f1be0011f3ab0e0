/** Storage preconditions and their merging (packages/utils/src/Utils.ts). */
module StorageMaps {
  import opened Common
  import opened Sequences

  type Slot = Bytes
  type Word = Bytes
  type Root = Bytes
  type SlotMap = map<Slot, Word>

  /** What is required of one account: a whole-storage root, or the values of some slots. */
  datatype Requirement = RootHash(root: Root) | Slots(slots: SlotMap)

  type StorageMap = map<Address, Requirement>

  /** One account's requirement after a later one is merged into an earlier one. */
  function MergedRequirement(q: Requirement, later: Requirement): Requirement {
    if later.RootHash? then later else if q.RootHash? then q else Slots(q.slots + later.slots)
  }

  function Merged(m: StorageMap, v: StorageMap): StorageMap {
    map a | a in m.Keys + v.Keys :: if a !in v then m[a] else if a !in m then v[a] else MergedRequirement(m[a], v[a])
  }

  /** The loops visit addresses and slots in no particular order. */
  method MergeStorageMap(mergedStorageMap: StorageMap, validationStorageMap: StorageMap) returns (r: StorageMap)
    ensures r == Merged(mergedStorageMap, validationStorageMap)
  {
    r := mergedStorageMap;
    var addrs := validationStorageMap.Keys;
    while addrs != {}
      invariant addrs <= validationStorageMap.Keys
      invariant r.Keys == mergedStorageMap.Keys + (validationStorageMap.Keys - addrs)
      invariant forall a :: a in r ==>
        r[a] == if a in addrs then mergedStorageMap[a] else Merged(mergedStorageMap, validationStorageMap)[a]
      decreases addrs
    {
      var addr :| addr in addrs;
      var validationEntry := validationStorageMap[addr];
      if validationEntry.RootHash? {
        r := r[addr := validationEntry];
      } else if addr in r && r[addr].RootHash? {
      } else {
        var slots := if addr !in r then map[] else r[addr].slots;
        slots := CopySlots(slots, validationEntry.slots);
        r := r[addr := Slots(slots)];
      }
      addrs := addrs - {addr};
    }
  }

  method CopySlots(into: SlotMap, from: SlotMap) returns (slots: SlotMap)
    ensures slots == into + from
  {
    slots := into;
    var todo := from.Keys;
    while todo != {}
      invariant todo <= from.Keys
      invariant slots.Keys == into.Keys + (from.Keys - todo)
      invariant forall s :: s in slots ==> slots[s] == if s in from && s !in todo then from[s] else into[s]
      decreases todo
    {
      var slot :| slot in todo;
      slots := slots[slot := from[slot]];
      todo := todo - {slot};
    }
  }

  // ---------- what a storage map means ----------

  /** The storage of every account; slots never written hold the zero word. */
  type World = map<Address, SlotMap>

  const ZERO_WORD: Word := Zeros(32)

  function StorageOf(w: World, a: Address): SlotMap {
    if a in w then w[a] else map[]
  }

  function SlotValue(storage: SlotMap, s: Slot): Word {
    if s in storage then storage[s] else ZERO_WORD
  }

  function ValueAt(w: World, a: Address, s: Slot): Word {
    SlotValue(StorageOf(w, a), s)
  }

  ghost predicate Meets(w: World, rootOf: SlotMap -> Root, a: Address, q: Requirement) {
    match q
    case RootHash(root) => rootOf(StorageOf(w, a)) == root
    case Slots(slots) => forall s :: s in slots ==> ValueAt(w, a, s) == slots[s]
  }

  ghost predicate Satisfies(w: World, rootOf: SlotMap -> Root, m: StorageMap) {
    forall a :: a in m ==> Meets(w, rootOf, a, m[a])
  }

  /** Equal roots mean equal values in every slot; whether zero words are stored does not matter. */
  ghost predicate CollisionFree(rootOf: SlotMap -> Root) {
    forall x, y, s :: rootOf(x) == rootOf(y) ==> SlotValue(x, s) == SlotValue(y, s)
  }

  function MergedAll(ms: seq<StorageMap>): StorageMap {
    if ms == [] then map[] else Merged(MergedAll(Init(ms)), Last(ms))
  }

  ghost predicate SatisfiesAll(w: World, rootOf: SlotMap -> Root, ms: seq<StorageMap>) {
    forall i :: 0 <= i < |ms| ==> Satisfies(w, rootOf, ms[i])
  }

  /** What the merged map asks of an account: a root if either map gives one, the later map's if both do; otherwise
      the slots of both maps, with the later map's value where they differ. */
  lemma {:induction false} MergedExactly(m: StorageMap, v: StorageMap, a: Address)
    ensures a in Merged(m, v) <==> a in m || a in v
    ensures forall root :: a in Merged(m, v) && Merged(m, v)[a] == RootHash(root) <==>
      (a in v && v[a] == RootHash(root)) || (a in m && m[a] == RootHash(root) && !(a in v && v[a].RootHash?))
    ensures forall s, word :: AsksFor(Merged(m, v), a, s, word) <==>
      && !(a in m && m[a].RootHash?) && !(a in v && v[a].RootHash?)
      && (AsksFor(v, a, s, word) || (AsksFor(m, a, s, word) && !(a in v && s in v[a].slots)))
  {
  }

  predicate AsksFor(m: StorageMap, a: Address, s: Slot, word: Word) {
    a in m && m[a].Slots? && s in m[a].slots && m[a].slots[s] == word
  }

  /** Merging never asks for more than the parts do. */
  lemma {:induction false} MergedIsImplied(w: World, rootOf: SlotMap -> Root, m: StorageMap, v: StorageMap)
    requires Satisfies(w, rootOf, m) && Satisfies(w, rootOf, v)
    ensures Satisfies(w, rootOf, Merged(m, v))
  {
  }

  /** One account: given any world meeting both requirements, the merged one asks for no less. */
  lemma {:induction false} MergedRequirementKeepsMeaning(w: World, w0: World, rootOf: SlotMap -> Root, a: Address,
      q: Requirement, later: Requirement)
    requires CollisionFree(rootOf)
    requires Meets(w0, rootOf, a, q) && Meets(w0, rootOf, a, later)
    requires Meets(w, rootOf, a, MergedRequirement(q, later))
    ensures Meets(w, rootOf, a, q) && Meets(w, rootOf, a, later)
  {
  }

  lemma {:induction false} MergedKeepsMeaning(w: World, w0: World, rootOf: SlotMap -> Root, m: StorageMap,
      v: StorageMap)
    requires CollisionFree(rootOf)
    requires Satisfies(w0, rootOf, m) && Satisfies(w0, rootOf, v)
    requires Satisfies(w, rootOf, Merged(m, v))
    ensures Satisfies(w, rootOf, m) && Satisfies(w, rootOf, v)
  {
    forall a | a in m.Keys + v.Keys
      ensures a in m ==> Meets(w, rootOf, a, m[a])
      ensures a in v ==> Meets(w, rootOf, a, v[a])
    {
      assert Meets(w, rootOf, a, Merged(m, v)[a]);
      if a in m && a in v {
        MergedRequirementKeepsMeaning(w, w0, rootOf, a, m[a], v[a]);
      }
    }
  }

  /** If one world meets every part, then any world meets the merged map exactly when it meets every
      part, including the slots a root swallowed. */
  lemma {:induction false} MergedAllKeepsMeaning(w: World, w0: World, rootOf: SlotMap -> Root, ms: seq<StorageMap>)
    requires CollisionFree(rootOf) && SatisfiesAll(w0, rootOf, ms)
    ensures Satisfies(w0, rootOf, MergedAll(ms))
    ensures Satisfies(w, rootOf, MergedAll(ms)) <==> SatisfiesAll(w, rootOf, ms)
  {
    if ms == [] {
    } else {
      var init, last := Init(ms), Last(ms);
      MergedAllKeepsMeaning(w, w0, rootOf, init);
      assert Satisfies(w0, rootOf, last);
      MergedIsImplied(w0, rootOf, MergedAll(init), last);
      if Satisfies(w, rootOf, MergedAll(ms)) {
        MergedKeepsMeaning(w, w0, rootOf, MergedAll(init), last);
      }
      if SatisfiesAll(w, rootOf, ms) {
        assert Satisfies(w, rootOf, last);
        assert SatisfiesAll(w, rootOf, init);
        MergedIsImplied(w, rootOf, MergedAll(init), last);
      }
    }
  }

  /** So for a merged map that some world meets, merging preserves meaning exactly when some world meets
      every part. */
  lemma {:induction false} MergedAllKeepsMeaningExactlyWhen(rootOf: SlotMap -> Root, ms: seq<StorageMap>)
    requires CollisionFree(rootOf) && exists w :: Satisfies(w, rootOf, MergedAll(ms))
    ensures (forall w :: Satisfies(w, rootOf, MergedAll(ms)) <==> SatisfiesAll(w, rootOf, ms)) <==>
      exists w0 :: SatisfiesAll(w0, rootOf, ms)
  {
    if w0 :| SatisfiesAll(w0, rootOf, ms) {
      forall w ensures Satisfies(w, rootOf, MergedAll(ms)) <==> SatisfiesAll(w, rootOf, ms) {
        MergedAllKeepsMeaning(w, w0, rootOf, ms);
      }
    }
  }

  /** Without a common world the equivalence can fail: the later of two conflicting values wins. */
  lemma {:induction false} ConflictingPartsLoseMeaning(rootOf: SlotMap -> Root, a: Address, s: Slot, x: Word, y: Word)
    requires x != y
    ensures exists w, ms :: Satisfies(w, rootOf, MergedAll(ms)) && !SatisfiesAll(w, rootOf, ms)
  {
    var first: StorageMap := map[a := Slots(map[s := x])];
    var second: StorageMap := map[a := Slots(map[s := y])];
    var ms := [first, second];
    var w: World := map[a := map[s := y]];
    assert Init(ms) == [first] && Init([first]) == [];
    assert MergedAll([first]) == first;
    assert map[s := x] + map[s := y] == map[s := y];
    assert MergedAll(ms) == second;
    assert Satisfies(w, rootOf, MergedAll(ms));
    assert !Meets(w, rootOf, a, first[a]) by {
      assert s in first[a].slots && ValueAt(w, a, s) == y;
    }
    assert !Satisfies(w, rootOf, ms[0]);
    assert !SatisfiesAll(w, rootOf, ms);
  }
}
