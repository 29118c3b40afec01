/** The reference backend's state, its byte accounting, and eviction of one queued replica. */
module MemoryData {
  import opened Types
  import opened Segments

  /** Bytes the store owns, or memory lent by a region (`External`). */
  datatype Data = Owned(bytes: seq<Byte>) | Lent(segs: seq<Seg>, region: nat)

  datatype Replica = Replica(device: Device, tier: Tier, misplaced: bool, data: Data)

  type Slot = seq<Replica>

  datatype Object = Object(spec: ObjectSpec, slots: seq<Slot>)

  /** `used` is the source's unsigned counter; that it never goes below zero is proved, not typed. */
  datatype Pool = Pool(capacity: Option<nat>, used: int, fifo: seq<Entry>)

  datatype State = State(objects: map<Key, Object>, pools: map<Device, Pool>)

  // ---------------------------------------------------------------------
  // Owned bytes per device

  predicate OwnedOn(r: Replica, d: Device) { r.device == d && r.data.Owned? }

  function ReplicaBytes(r: Replica, d: Device): nat { if OwnedOn(r, d) then |r.data.bytes| else 0 }

  function SlotBytes(s: Slot, d: Device): nat {
    if s == [] then 0 else ReplicaBytes(s[0], d) + SlotBytes(s[1..], d)
  }

  function ObjectBytes(slots: seq<Slot>, d: Device): nat {
    if slots == [] then 0 else SlotBytes(slots[0], d) + ObjectBytes(slots[1..], d)
  }

  /** Bytes owned on `d` over all objects. */
  ghost function StoreBytes(objects: map<Key, Object>, d: Device): nat {
    if objects == map[] then 0
    else
      var k :| k in objects;
      ObjectBytes(objects[k].slots, d) + StoreBytes(objects - {k}, d)
  }

  lemma {:induction false} StoreBytesAt(objects: map<Key, Object>, d: Device, k: Key)
    requires k in objects
    ensures StoreBytes(objects, d) == ObjectBytes(objects[k].slots, d) + StoreBytes(objects - {k}, d)
    decreases objects
  {
    var k0 :| k0 in objects && StoreBytes(objects, d) == ObjectBytes(objects[k0].slots, d) + StoreBytes(objects - {k0}, d);
    if k0 != k {
      StoreBytesAt(objects - {k0}, d, k);
      StoreBytesAt(objects - {k}, d, k0);
      assert objects - {k0} - {k} == objects - {k} - {k0};
    }
  }

  /** Replacing or adding one object changes the total by the difference of the two. */
  lemma StoreBytesPut(objects: map<Key, Object>, d: Device, k: Key, o: Object)
    ensures StoreBytes(objects[k := o], d)
         == ObjectBytes(o.slots, d) + StoreBytes(objects, d) - (if k in objects then ObjectBytes(objects[k].slots, d) else 0)
  {
    StoreBytesAt(objects[k := o], d, k);
    if k in objects {
      StoreBytesAt(objects, d, k);
      assert objects[k := o] - {k} == objects - {k};
    } else {
      assert objects[k := o] - {k} == objects;
    }
  }

  ghost predicate Within(part: map<Key, Object>, whole: map<Key, Object>) {
    forall k | k in part :: k in whole && part[k] == whole[k]
  }

  lemma {:induction false} SplitBytes(whole: map<Key, Object>, part: map<Key, Object>, d: Device)
    requires Within(part, whole)
    ensures StoreBytes(whole, d) == StoreBytes(part, d) + StoreBytes(whole - part.Keys, d)
    decreases part
  {
    if part == map[] {
      assert whole - part.Keys == whole;
    } else {
      var k :| k in part;
      StoreBytesAt(whole, d, k);
      StoreBytesAt(part, d, k);
      SplitBytes(whole - {k}, part - {k}, d);
      assert (whole - {k}) - (part - {k}).Keys == whole - part.Keys;
    }
  }

  lemma {:induction false} NoBytes(objects: map<Key, Object>, d: Device)
    requires forall k | k in objects :: ObjectBytes(objects[k].slots, d) == 0
    ensures StoreBytes(objects, d) == 0
    decreases objects
  {
    if objects != map[] {
      var k :| k in objects;
      StoreBytesAt(objects, d, k);
      NoBytes(objects - {k}, d);
    }
  }

  // ---------------------------------------------------------------------
  // Dropping a slot's owned replicas on one device

  ghost predicate SlotHas(s: Slot, d: Device) {
    exists j | 0 <= j < |s| :: OwnedOn(s[j], d)
  }

  /** `retain` with the eviction closure. */
  function Without(s: Slot, d: Device): Slot {
    if s == [] then []
    else if OwnedOn(s[0], d) then Without(s[1..], d)
    else [s[0]] + Without(s[1..], d)
  }

  lemma {:induction false} WithoutBytes(s: Slot, d: Device, d': Device)
    ensures SlotBytes(Without(s, d), d') == if d' == d then 0 else SlotBytes(s, d')
  {
    if s != [] {
      WithoutBytes(s[1..], d, d');
      if !OwnedOn(s[0], d) {
        assert Without(s, d)[0] == s[0] && Without(s, d)[1..] == Without(s[1..], d);
      }
    }
  }

  /** The survivors are exactly the replicas that are not owned on `d`. */
  lemma {:induction false} WithoutMembers(s: Slot, d: Device, r: Replica)
    ensures r in Without(s, d) <==> r in s && !OwnedOn(r, d)
  {
    if s != [] {
      WithoutMembers(s[1..], d, r);
      assert s == [s[0]] + s[1..];
    }
  }

  lemma WithoutHas(s: Slot, d: Device, d': Device)
    ensures SlotHas(Without(s, d), d') ==> d' != d && SlotHas(s, d')
  {
    if SlotHas(Without(s, d), d') {
      var j :| 0 <= j < |Without(s, d)| && OwnedOn(Without(s, d)[j], d');
      WithoutMembers(s, d, Without(s, d)[j]);
    }
  }

  lemma {:induction false} HasNoBytes(s: Slot, d: Device)
    requires !SlotHas(s, d)
    ensures SlotBytes(s, d) == 0 && Without(s, d) == s
  {
    if s != [] {
      assert !OwnedOn(s[0], d);
      forall j | 0 <= j < |s[1..]| ensures !OwnedOn(s[1..][j], d) { assert s[1..][j] == s[j + 1]; }
      HasNoBytes(s[1..], d);
    }
  }

  lemma {:induction false} ObjectHasNoBytes(slots: seq<Slot>, d: Device)
    requires forall i | 0 <= i < |slots| :: !SlotHas(slots[i], d)
    ensures ObjectBytes(slots, d) == 0
  {
    if slots != [] {
      HasNoBytes(slots[0], d);
      ObjectHasNoBytes(slots[1..], d);
    }
  }

  lemma {:induction false} SlotUpdateBytes(slots: seq<Slot>, i: nat, s: Slot, d: Device)
    requires i < |slots|
    ensures ObjectBytes(slots[i := s], d) == ObjectBytes(slots, d) - SlotBytes(slots[i], d) + SlotBytes(s, d)
  {
    if i == 0 {
      assert slots[0 := s][1..] == slots[1..];
    } else {
      SlotUpdateBytes(slots[1..], i - 1, s, d);
      assert slots[i := s][1..] == slots[1..][i - 1 := s];
    }
  }

  // ---------------------------------------------------------------------
  // Evicting one queued entry

  predicate Evictable(objects: map<Key, Object>, k: Key) {
    k in objects && objects[k].spec.retention == Cache
  }

  /** The source indexes `slots[idx]` for an entry of a live Cache object; this is what makes it legal. */
  predicate Fits(objects: map<Key, Object>, e: Entry) {
    Evictable(objects, e.key) ==> e.slot < |objects[e.key].slots|
  }

  predicate AllEmpty(slots: seq<Slot>) {
    forall i | 0 <= i < |slots| :: slots[i] == []
  }

  function Thin(slots: seq<Slot>, i: nat, d: Device): seq<Slot>
    requires i < |slots|
  {
    slots[i := Without(slots[i], d)]
  }

  function Evict(objects: map<Key, Object>, e: Entry, d: Device): (r: map<Key, Object>)
    requires Fits(objects, e)
  {
    if !Evictable(objects, e.key) then objects
    else
      var o := objects[e.key];
      var slots := Thin(o.slots, e.slot, d);
      if AllEmpty(slots) then objects - {e.key} else objects[e.key := o.(slots := slots)]
  }

  /** What a scan of `d` leaves in a slot: lent replicas, and those on other devices. */
  ghost function Elsewhere(d: Device): Replica -> bool { (r: Replica) => r.device != d || r.data.Lent? }

  lemma {:induction false} WithoutSifts(s: Slot, d: Device)
    ensures Sifted(s, Without(s, d), Elsewhere(d))
  {
    if s != [] {
      hide Sifted;
      WithoutSifts(s[1..], d);
      assert Elsewhere(d)(s[0]) <==> !OwnedOn(s[0], d);
      SiftedCons(s, Without(s[1..], d), Elsewhere(d));
      assert Without(s, d) == (if Elsewhere(d)(s[0]) then [s[0]] else []) + Without(s[1..], d);
    }
  }

  /** What a popped entry does: nothing unless it names a slot of a Cache object; then that slot loses its
      owned replicas on the device, every other slot and object is as it was, and the object goes exactly
      when nothing is left in it. */
  lemma EvictExactly(objects: map<Key, Object>, e: Entry, d: Device)
    requires Fits(objects, e)
    ensures var now := Evict(objects, e, d);
            && (forall k | k != e.key :: (k in now <==> k in objects) && (k in objects ==> now[k] == objects[k]))
            && (e.key in objects && objects[e.key].spec.retention != Cache ==> now == objects)
            && (e.key !in objects ==> now == objects)
    ensures var now := Evict(objects, e, d);
            e.key in objects && objects[e.key].spec.retention == Cache ==>
              var o := objects[e.key];
              && (e.key !in now <==>
                    && (forall i | 0 <= i < |o.slots| && i != e.slot :: o.slots[i] == [])
                    && (forall r | r in o.slots[e.slot] :: r.device == d && r.data.Owned?))
              && (e.key in now ==>
                    && now[e.key].spec == o.spec && |now[e.key].slots| == |o.slots|
                    && (forall i | 0 <= i < |o.slots| && i != e.slot :: now[e.key].slots[i] == o.slots[i])
                    && Sifted(o.slots[e.slot], now[e.key].slots[e.slot], Elsewhere(d)))
  {
    hide Without, Sifted;
    if Evictable(objects, e.key) {
      var o := objects[e.key];
      WithoutSifts(o.slots[e.slot], d);
      forall r ensures r in Without(o.slots[e.slot], d) <==> r in o.slots[e.slot] && !OwnedOn(r, d) {
        WithoutMembers(o.slots[e.slot], d, r);
      }
      var left := Without(o.slots[e.slot], d);
      assert left == [] <==> forall r | r in o.slots[e.slot] :: OwnedOn(r, d) by {
        if left != [] { assert left[0] in left; }
      }
      var slots := Thin(o.slots, e.slot, d);
      assert forall i | 0 <= i < |o.slots| && i != e.slot :: slots[i] == o.slots[i];
      assert slots[e.slot] == left;
    }
  }

  /** The bytes that evicting the entry gives back. */
  function Freed(objects: map<Key, Object>, e: Entry, d: Device): nat
    requires Fits(objects, e)
  {
    if Evictable(objects, e.key) then SlotBytes(objects[e.key].slots[e.slot], d) else 0
  }

  lemma {:induction false} EmptyObjectBytes(slots: seq<Slot>, d: Device)
    requires AllEmpty(slots)
    ensures ObjectBytes(slots, d) == 0
  {
    if slots != [] { EmptyObjectBytes(slots[1..], d); }
  }

  lemma EvictBytes(objects: map<Key, Object>, e: Entry, d: Device, d': Device)
    requires Fits(objects, e)
    ensures StoreBytes(Evict(objects, e, d), d') == StoreBytes(objects, d') - if d' == d then Freed(objects, e, d) else 0
  {
    hide StoreBytes, ObjectBytes, SlotBytes, Without;
    if Evictable(objects, e.key) {
      var o := objects[e.key];
      var slots := Thin(o.slots, e.slot, d);
      SlotUpdateBytes(o.slots, e.slot, Without(o.slots[e.slot], d), d');
      WithoutBytes(o.slots[e.slot], d, d');
      if AllEmpty(slots) {
        EmptyObjectBytes(slots, d');
        StoreBytesAt(objects, d', e.key);
      } else {
        StoreBytesPut(objects, d', e.key, o.(slots := slots));
      }
    }
  }

  // ---------------------------------------------------------------------
  // What eviction on `d` may do to the objects

  /** Every object of `now` is one of `was` whose slots lost at most their owned replicas on `d`;
      an object that is gone had nothing but such replicas. */
  ghost predicate Thinned(was: map<Key, Object>, now: map<Key, Object>, d: Device) {
    && (forall k | k in now ::
          && k in was && now[k].spec == was[k].spec && |now[k].slots| == |was[k].slots|
          && (forall i | 0 <= i < |was[k].slots| ::
                now[k].slots[i] == was[k].slots[i] || now[k].slots[i] == Without(was[k].slots[i], d)))
    && (forall k | k in was && k !in now ::
          forall i | 0 <= i < |was[k].slots| :: Without(was[k].slots[i], d) == [])
  }

  lemma {:induction false} WithoutTwice(s: Slot, d: Device)
    ensures Without(Without(s, d), d) == Without(s, d)
  {
    if s != [] { WithoutTwice(s[1..], d); }
  }

  lemma EvictThins(objects: map<Key, Object>, e: Entry, d: Device)
    requires Fits(objects, e)
    ensures Thinned(objects, Evict(objects, e, d), d)
  {
    if Evictable(objects, e.key) {
      var slots := Thin(objects[e.key].slots, e.slot, d);
      if AllEmpty(slots) {
        forall i | 0 <= i < |slots|
          ensures Without(objects[e.key].slots[i], d) == []
        {
          assert slots[i] == [];
        }
      }
    }
  }

  lemma ThinnedTwice(a: map<Key, Object>, b: map<Key, Object>, c: map<Key, Object>, d: Device)
    requires Thinned(a, b, d) && Thinned(b, c, d)
    ensures Thinned(a, c, d)
  {
    forall s: Slot ensures Without(Without(s, d), d) == Without(s, d) { WithoutTwice(s, d); }
    forall k, i | k in a && k !in c && 0 <= i < |a[k].slots|
      ensures Without(a[k].slots[i], d) == []
    {
      if k in b { assert Without(b[k].slots[i], d) == []; }
    }
  }

  /** Objects that eviction for `key` must leave alone. */
  predicate Protected(objects: map<Key, Object>, key: Key, k: Key) {
    k in objects && (k == key || objects[k].spec.retention == Explicit)
  }

  ghost function Kept(objects: map<Key, Object>, key: Key): map<Key, Object> {
    map k | k in objects && Protected(objects, key, k) :: objects[k]
  }

  /** Bytes on `d` that no eviction for `key` can free. */
  ghost function KeptBytes(objects: map<Key, Object>, key: Key, d: Device): nat {
    StoreBytes(Kept(objects, key), d)
  }

  lemma KeptAtMost(objects: map<Key, Object>, key: Key, d: Device)
    ensures KeptBytes(objects, key, d) <= StoreBytes(objects, d)
  {
    SplitBytes(objects, Kept(objects, key), d);
  }

  /** If no evictable object owns anything on `d`, all bytes there are kept bytes. */
  lemma OnlyKeptBytes(objects: map<Key, Object>, key: Key, d: Device)
    requires forall k, i | k in objects && !Protected(objects, key, k) && 0 <= i < |objects[k].slots| ::
               !SlotHas(objects[k].slots[i], d)
    ensures StoreBytes(objects, d) == KeptBytes(objects, key, d)
  {
    var kept := Kept(objects, key);
    SplitBytes(objects, kept, d);
    var loose := objects - kept.Keys;
    forall k | k in loose
      ensures ObjectBytes(loose[k].slots, d) == 0
    {
      ObjectHasNoBytes(loose[k].slots, d);
    }
    NoBytes(loose, d);
  }

  lemma EvictKeeps(objects: map<Key, Object>, e: Entry, d: Device, key: Key)
    requires Fits(objects, e) && e.key != key
    ensures Kept(Evict(objects, e, d), key) == Kept(objects, key)
    ensures key in objects <==> key in Evict(objects, e, d)
    ensures key in objects ==> Evict(objects, e, d)[key] == objects[key]
  {
  }
}
