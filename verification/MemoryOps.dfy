/** `Memory::publish`, region retirement, `remove`, `remove_prefix` and the choice made by `get`. */
module MemoryOps {
  import opened Types
  import opened Segments
  import opened KeyOrder
  import opened MemoryData
  import opened MemoryEvict

  // ---------------------------------------------------------------------
  // Publishing and retiring lent memory

  /** A published segment list: its device, and the region id recorded for it. */
  datatype Loan = Loan(device: Device, segs: seq<Seg>, region: nat)

  function Publish(st: State, key: Key, slot: nat, loan: Loan): (State, Result<()>) {
    if key !in st.objects then (st, Err(NotFound))
    else
      var o := st.objects[key];
      if slot >= |o.spec.slots| || slot >= |o.slots| then (st, Err(InvalidInput))
      else if o.spec.slots[slot].len != Total(loan.segs) then (st, Err(InvalidInput))
      else
        var r := Replica(loan.device, External, false, Lent(loan.segs, loan.region));
        (st.(objects := st.objects[key := o.(slots := o.slots[slot := o.slots[slot] + [r]])]), Ok(()))
  }

  predicate LentBy(r: Replica, region: nat) { r.data.Lent? && r.data.region == region }

  function Retained(s: Slot, region: nat): Slot {
    if s == [] then []
    else (if LentBy(s[0], region) then [] else [s[0]]) + Retained(s[1..], region)
  }

  function RetainedAll(slots: seq<Slot>, region: nat): (r: seq<Slot>)
    ensures |r| == |slots|
    ensures forall i | 0 <= i < |r| :: r[i] == Retained(slots[i], region)
  {
    seq(|slots|, i requires 0 <= i < |slots| => Retained(slots[i], region))
  }

  function RetireObject(o: Object, region: nat): Object {
    o.(slots := RetainedAll(o.slots, region))
  }

  function Retire(st: State, region: nat): State {
    st.(objects := map k | k in st.objects :: RetireObject(st.objects[k], region))
  }

  // ---------------------------------------------------------------------
  // Removal

  function Release(pools: map<Device, Pool>, slots: seq<Slot>): map<Device, Pool> {
    map d | d in pools :: pools[d].(used := pools[d].used - ObjectBytes(slots, d))
  }

  function RemoveOne(st: State, k: Key): State {
    if k in st.objects then State(st.objects - {k}, Release(st.pools, st.objects[k].slots)) else st
  }

  function Remove(st: State, ks: seq<Key>): State
    decreases |ks|
  {
    if ks == [] then st else Remove(RemoveOne(st, ks[0]), ks[1..])
  }

  function RemovePrefix(st: State, prefix: Key): (State, nat) {
    var ks := PrefixRun(st.objects.Keys, prefix);
    (Remove(st, ks), |ks|)
  }

  // ---------------------------------------------------------------------
  // The run invariant

  lemma {:induction false} RetainedMembers(s: Slot, region: nat, r: Replica)
    ensures r in Retained(s, region) <==> r in s && !LentBy(r, region)
  {
    if s != [] {
      RetainedMembers(s[1..], region, r);
      assert s == [s[0]] + s[1..];
    }
  }

  lemma {:induction false} RetainedBytes(s: Slot, region: nat, d: Device)
    ensures SlotBytes(Retained(s, region), d) == SlotBytes(s, d)
  {
    if s != [] {
      RetainedBytes(s[1..], region, d);
      if !LentBy(s[0], region) {
        assert Retained(s, region)[0] == s[0] && Retained(s, region)[1..] == Retained(s[1..], region);
      } else {
        assert Retained(s, region) == Retained(s[1..], region);
      }
    }
  }

  lemma {:induction false} SameSlotBytes(a: seq<Slot>, b: seq<Slot>, d: Device)
    requires |a| == |b| && forall i | 0 <= i < |a| :: SlotBytes(a[i], d) == SlotBytes(b[i], d)
    ensures ObjectBytes(a, d) == ObjectBytes(b, d)
  {
    if a != [] { SameSlotBytes(a[1..], b[1..], d); }
  }

  lemma {:induction false} SameObjectBytes(a: map<Key, Object>, b: map<Key, Object>, d: Device)
    requires a.Keys == b.Keys && forall k | k in a :: ObjectBytes(a[k].slots, d) == ObjectBytes(b[k].slots, d)
    ensures StoreBytes(a, d) == StoreBytes(b, d)
    decreases a
  {
    if a == map[] {
      assert b == map[];
    } else {
      var k :| k in a;
      StoreBytesAt(a, d, k);
      StoreBytesAt(b, d, k);
      SameObjectBytes(a - {k}, b - {k}, d);
    }
  }

  /** Same owned replicas everywhere: the bookkeeping carries over. */
  lemma SameOwned(a: map<Key, Object>, b: map<Key, Object>, pool: Pool, d: Device)
    requires PoolInv(a, pool, d)
    requires a.Keys == b.Keys
    requires forall k | k in a :: b[k].spec == a[k].spec && |b[k].slots| == |a[k].slots|
    requires forall k, i | k in a && 0 <= i < |a[k].slots| ::
               SlotBytes(b[k].slots[i], d) == SlotBytes(a[k].slots[i], d)
               && (SlotHas(b[k].slots[i], d) ==> SlotHas(a[k].slots[i], d))
    ensures PoolInv(b, pool, d)
  {
    hide StoreBytes, SlotBytes, ObjectBytes, SlotHas;
    forall k | k in a
      ensures ObjectBytes(a[k].slots, d) == ObjectBytes(b[k].slots, d)
    {
      SameSlotBytes(a[k].slots, b[k].slots, d);
    }
    SameObjectBytes(a, b, d);
    forall i | pool.capacity.Some? && 0 <= i < |pool.fifo|
      ensures Fits(b, pool.fifo[i])
    {
      assert Fits(a, pool.fifo[i]);
    }
  }

  lemma LentSlot(s: Slot, r: Replica, d: Device)
    requires r.data.Lent?
    ensures SlotBytes(s + [r], d) == SlotBytes(s, d)
    ensures SlotHas(s + [r], d) ==> SlotHas(s, d)
  {
    LentSlotBytes(s, r, d);
    if SlotHas(s + [r], d) {
      var j :| 0 <= j < |s + [r]| && OwnedOn((s + [r])[j], d);
      assert OwnedOn(s[j], d);
    }
  }

  lemma {:induction false} LentSlotBytes(s: Slot, r: Replica, d: Device)
    requires r.data.Lent?
    ensures SlotBytes(s + [r], d) == SlotBytes(s, d)
  {
    if s == [] {
      assert [] + [r] == [r] && SlotBytes([r], d) == 0;
    } else {
      LentSlotBytes(s[1..], r, d);
      assert (s + [r])[1..] == s[1..] + [r];
    }
  }

  lemma PublishInv(st: State, key: Key, slot: nat, loan: Loan)
    requires Inv(st)
    ensures Inv(Publish(st, key, slot, loan).0)
  {
    var (st', reply) := Publish(st, key, slot, loan);
    if reply.Ok? {
      var s := st.objects[key].slots[slot];
      var r := Replica(loan.device, External, false, Lent(loan.segs, loan.region));
      forall d | d in st'.pools
        ensures PoolInv(st'.objects, st'.pools[d], d)
      {
        assert PoolInv(st.objects, st.pools[d], d);
        LentSlot(s, r, d);
        SameOwned(st.objects, st'.objects, st.pools[d], d);
      }
      forall k | k in st'.objects
        ensures Shaped(st'.objects[k], st'.pools.Keys)
      {
        assert Shaped(st.objects[k], st.pools.Keys);
      }
    }
  }

  lemma RetainedHas(s: Slot, region: nat, d: Device)
    ensures SlotHas(Retained(s, region), d) ==> SlotHas(s, d)
  {
    if SlotHas(Retained(s, region), d) {
      var j :| 0 <= j < |Retained(s, region)| && OwnedOn(Retained(s, region)[j], d);
      RetainedMembers(s, region, Retained(s, region)[j]);
    }
  }

  lemma RetireInv(st: State, region: nat)
    requires Inv(st)
    ensures Inv(Retire(st, region))
  {
    hide Retained;
    var st' := Retire(st, region);
    forall d | d in st'.pools
      ensures PoolInv(st'.objects, st'.pools[d], d)
    {
      assert PoolInv(st.objects, st.pools[d], d);
      forall k, i | k in st.objects && 0 <= i < |st.objects[k].slots|
        ensures SlotBytes(st'.objects[k].slots[i], d) == SlotBytes(st.objects[k].slots[i], d)
        ensures SlotHas(st'.objects[k].slots[i], d) ==> SlotHas(st.objects[k].slots[i], d)
      {
        RetainedBytes(st.objects[k].slots[i], region, d);
        RetainedHas(st.objects[k].slots[i], region, d);
      }
      SameOwned(st.objects, st'.objects, st.pools[d], d);
    }
    forall k | k in st'.objects
      ensures Shaped(st'.objects[k], st'.pools.Keys)
    {
      RetainedShaped(st.objects[k], region, st.pools.Keys);
    }
  }

  lemma RetainedShaped(o: Object, region: nat, devices: set<Device>)
    requires Shaped(o, devices)
    ensures Shaped(o.(slots := RetainedAll(o.slots, region)), devices)
  {
    hide Retained;
    var slots: seq<Slot> := RetainedAll(o.slots, region);
    forall i, j | 0 <= i < |slots| && 0 <= j < |slots[i]| && slots[i][j].data.Owned?
      ensures slots[i][j].device in devices && |slots[i][j].data.bytes| == o.spec.slots[i].len
    {
      RetainedMembers(o.slots[i], region, slots[i][j]);
      assert slots[i][j] in o.slots[i];
    }
  }

  /** Removing an object gives back exactly its bytes; the counter cannot go below zero. */
  lemma RemoveOneInv(st: State, k: Key)
    requires Inv(st)
    ensures Inv(RemoveOne(st, k)) && RemoveOne(st, k).pools.Keys == st.pools.Keys
    ensures forall d | d in st.pools :: 0 <= RemoveOne(st, k).pools[d].used <= st.pools[d].used
  {
    hide StoreBytes, ObjectBytes;
    var st' := RemoveOne(st, k);
    assert st'.pools.Keys == st.pools.Keys;
    forall d | d in st.pools
      ensures PoolInv(st'.objects, st'.pools[d], d) && 0 <= st'.pools[d].used <= st.pools[d].used
    {
      assert PoolInv(st.objects, st.pools[d], d);
      if k in st.objects {
        StoreBytesAt(st.objects, d, k);
        assert forall i | st.pools[d].capacity.Some? && 0 <= i < |st.pools[d].fifo| :: Fits(st.objects, st.pools[d].fifo[i]);
      }
    }
  }

  lemma {:induction false} RemoveInv(st: State, ks: seq<Key>)
    requires Inv(st)
    ensures Inv(Remove(st, ks)) && Remove(st, ks).pools.Keys == st.pools.Keys
    ensures forall d | d in st.pools :: Remove(st, ks).pools[d].used <= st.pools[d].used
    ensures forall d | d in st.pools :: Remove(st, ks).pools[d].capacity == st.pools[d].capacity
    ensures Remove(st, ks).objects == st.objects - set k | k in ks
    decreases |ks|
  {
    hide Inv, Release;
    if ks == [] {
      assert st.objects - {} == st.objects;
    } else {
      RemoveOneInv(st, ks[0]);
      ReleaseCapacity(st, ks[0]);
      RemoveInv(RemoveOne(st, ks[0]), ks[1..]);
      assert (set k | k in ks) == {ks[0]} + set k | k in ks[1..];
    }
  }

  lemma ReleaseCapacity(st: State, k: Key)
    ensures forall d | d in st.pools :: d in RemoveOne(st, k).pools && RemoveOne(st, k).pools[d].capacity == st.pools[d].capacity
  {
  }

  /** `remove_prefix` removes exactly the keys that start with the prefix, and counts them. */
  lemma RemovePrefixExact(st: State, prefix: Key)
    requires Inv(st)
    ensures var (st', n) := RemovePrefix(st, prefix);
            && Inv(st')
            && (forall k :: k in st'.objects <==> k in st.objects && !(prefix <= k))
            && (forall k | k in st'.objects :: st'.objects[k] == st.objects[k])
            && n == |set k | k in st.objects && prefix <= k|
  {
    hide Inv, Remove, PrefixRun;
    var ks := PrefixRun(st.objects.Keys, prefix);
    PrefixRunExact(st.objects.Keys, prefix);
    RemoveInv(st, ks);
    assert (set k | k in st.objects.Keys && prefix <= k) == set k | k in st.objects && prefix <= k;
  }

  // ---------------------------------------------------------------------
  // Retirement of a published list

  /** The replica a publish leaves records the region of its first segment only: it goes away with
      region `r` exactly when that one is `r`. */
  lemma PublishThenRetire(st: State, key: Key, slot: nat, loan: Loan, r: nat)
    requires Publish(st, key, slot, loan).1.Ok?
    ensures var lent := Replica(loan.device, External, false, Lent(loan.segs, loan.region));
            lent in Retire(Publish(st, key, slot, loan).0, r).objects[key].slots[slot] <==> loan.region != r
  {
    var lent := Replica(loan.device, External, false, Lent(loan.segs, loan.region));
    var s := Publish(st, key, slot, loan).0.objects[key].slots[slot];
    assert s[|s| - 1] == lent;
    RetainedMembers(s, r, lent);
  }

  /** What publishing does: nothing but an error for an unknown key, a slot the object does not have or a
      length that is not the slot's; otherwise one more replica, last in the slot, and nothing else. */
  lemma PublishExactly(st: State, key: Key, slot: nat, loan: Loan)
    requires Inv(st)
    ensures var (now, reply) := Publish(st, key, slot, loan);
            && (key !in st.objects ==> reply == Err(NotFound))
            && (key in st.objects && (slot >= |st.objects[key].spec.slots| || st.objects[key].spec.slots[slot].len != Total(loan.segs)) ==>
                  reply == Err(InvalidInput))
            && (reply.Ok? <==> key in st.objects && slot < |st.objects[key].spec.slots|
                               && st.objects[key].spec.slots[slot].len == Total(loan.segs))
            && (reply.Err? ==> now == st)
    ensures var (now, reply) := Publish(st, key, slot, loan);
            reply.Ok? ==>
              && now.pools == st.pools && now.objects.Keys == st.objects.Keys
              && (forall k | k in st.objects && k != key :: now.objects[k] == st.objects[k])
              && var o, o' := st.objects[key], now.objects[key];
                 && o'.spec == o.spec && |o'.slots| == |o.slots| && slot < |o.slots|
                 && (forall i | 0 <= i < |o.slots| && i != slot :: o'.slots[i] == o.slots[i])
                 && o'.slots[slot] == o.slots[slot] + [Replica(loan.device, External, false, Lent(loan.segs, loan.region))]
  {
    hide PoolInv, Total;
    if key in st.objects { assert Shaped(st.objects[key], st.pools.Keys); }
  }

  ghost function NotLentBy(region: nat): Replica -> bool { (r: Replica) => r.data.Owned? || r.data.region != region }

  lemma {:induction false} RetainedSifts(s: Slot, region: nat)
    ensures Sifted(s, Retained(s, region), NotLentBy(region))
  {
    if s != [] {
      hide Sifted;
      RetainedSifts(s[1..], region);
      assert NotLentBy(region)(s[0]) <==> !LentBy(s[0], region);
      SiftedCons(s, Retained(s[1..], region), NotLentBy(region));
    }
  }

  /** Retiring a region takes its lent replicas out of every slot, in place, and nothing else. */
  lemma RetireExactly(st: State, region: nat)
    ensures var now := Retire(st, region);
            && now.pools == st.pools && now.objects.Keys == st.objects.Keys
            && forall k | k in st.objects ::
                 && now.objects[k].spec == st.objects[k].spec && |now.objects[k].slots| == |st.objects[k].slots|
                 && forall i | 0 <= i < |st.objects[k].slots| ::
                      Sifted(st.objects[k].slots[i], now.objects[k].slots[i], NotLentBy(region))
  {
    hide Sifted, Retained;
    forall k, i | k in st.objects && 0 <= i < |st.objects[k].slots|
      ensures Sifted(st.objects[k].slots[i], Retire(st, region).objects[k].slots[i], NotLentBy(region))
    {
      RetainedSifts(st.objects[k].slots[i], region);
    }
  }

  // ---------------------------------------------------------------------
  // Source selection

  function Distance(gpuNuma: map<nat, nat>, a: Device, b: Device): nat {
    if a == b then 0
    else
      match (a, b)
      case (Gpu(_), Gpu(_)) => 1
      case (Cpu(_), Cpu(_)) => 3
      case (Cpu(numa), Gpu(index)) => HostDistance(gpuNuma, numa, index)
      case (Gpu(index), Cpu(numa)) => HostDistance(gpuNuma, numa, index)
  }

  function HostDistance(gpuNuma: map<nat, nat>, numa: nat, index: nat): nat {
    if index !in gpuNuma then 3 else if gpuNuma[index] == numa then 2 else 4
  }

  function TierRank(t: Tier): nat {
    match t
    case Dram => 0
    case External => 1
    case Ssd => 2
  }

  predicate Nearer(gpuNuma: map<nat, nat>, dst: Device, a: Replica, b: Replica) {
    var da, db := Distance(gpuNuma, dst, a.device), Distance(gpuNuma, dst, b.device);
    da < db || (da == db && TierRank(a.tier) < TierRank(b.tier))
  }

  /** GPU `d` hangs on NUMA node `numa`. */
  predicate OnNode(gpuNuma: map<nat, nat>, d: Device, numa: nat) {
    d.Gpu? && d.index in gpuNuma && gpuNuma[d.index] == numa
  }

  /** GPU `d` is known to hang on another node than `numa`. */
  predicate OffNode(gpuNuma: map<nat, nat>, d: Device, numa: nat) {
    d.Gpu? && d.index in gpuNuma && gpuNuma[d.index] != numa
  }

  /** Which of two devices is closer to a destination. For a GPU: itself, other GPUs, the host memory of its
      own node, all other host memory; without a known node all host memory is alike. For host memory:
      itself, the GPUs of its node, other host memory and GPUs of unknown node, the GPUs of other nodes. */
  ghost predicate Closer(gpuNuma: map<nat, nat>, dst: Device, a: Device, b: Device) {
    b != dst &&
    match dst
    case Gpu(_) => a == dst || (a.Gpu? && b.Cpu?) || (b.Cpu? && a.Cpu? && OnNode(gpuNuma, dst, a.numa) && OffNode(gpuNuma, dst, b.numa))
    case Cpu(numa) =>
      || a == dst
      || (OnNode(gpuNuma, a, numa) && !OnNode(gpuNuma, b, numa))
      || (!OffNode(gpuNuma, a, numa) && OffNode(gpuNuma, b, numa))
  }

  /** At equal closeness the store's own memory comes before lent memory, and that before disk. */
  predicate TierFirst(a: Tier, b: Tier) { (a == Dram && b != Dram) || (a == External && b == Ssd) }

  ghost predicate Preferred(gpuNuma: map<nat, nat>, dst: Device, a: Replica, b: Replica) {
    Closer(gpuNuma, dst, a.device, b.device)
    || (!Closer(gpuNuma, dst, b.device, a.device) && TierFirst(a.tier, b.tier))
  }

  /** The table of distances means this order of devices. */
  lemma DistanceIsCloseness(gpuNuma: map<nat, nat>, dst: Device, a: Device, b: Device)
    ensures Distance(gpuNuma, dst, a) < Distance(gpuNuma, dst, b) <==> Closer(gpuNuma, dst, a, b)
  {
  }

  lemma NearerIsPreferred(gpuNuma: map<nat, nat>, dst: Device, a: Replica, b: Replica)
    ensures Nearer(gpuNuma, dst, a, b) <==> Preferred(gpuNuma, dst, a, b)
  {
    hide Distance, Closer;
    DistanceIsCloseness(gpuNuma, dst, a.device, b.device);
    DistanceIsCloseness(gpuNuma, dst, b.device, a.device);
  }

  /** Position `j` is the first of the replicas that no other is preferred to: `min_by_key`. */
  ghost predicate IsSource(gpuNuma: map<nat, nat>, dst: Device, s: Slot, j: nat) {
    && j < |s|
    && (forall i | 0 <= i < |s| :: !Preferred(gpuNuma, dst, s[i], s[j]))
    && (forall i | 0 <= i < j :: Preferred(gpuNuma, dst, s[j], s[i]))
  }

  lemma SourceUnique(gpuNuma: map<nat, nat>, dst: Device, s: Slot, a: nat, b: nat)
    requires IsSource(gpuNuma, dst, s, a) && IsSource(gpuNuma, dst, s, b)
    ensures a == b
  {
    SourceBeats(gpuNuma, dst, s, a, b);
    SourceBeats(gpuNuma, dst, s, b, a);
  }

  lemma SourceBeats(gpuNuma: map<nat, nat>, dst: Device, s: Slot, a: nat, b: nat)
    requires IsSource(gpuNuma, dst, s, a) && b < |s|
    ensures !Preferred(gpuNuma, dst, s[b], s[a]) && (b < a ==> Preferred(gpuNuma, dst, s[a], s[b]))
  {
  }

  /** Distance is symmetric, and zero exactly on the same device. */
  lemma DistanceLaws(gpuNuma: map<nat, nat>, a: Device, b: Device)
    ensures Distance(gpuNuma, a, b) == Distance(gpuNuma, b, a)
    ensures Distance(gpuNuma, a, b) == 0 <==> a == b
  {
  }
}
