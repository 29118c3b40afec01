/** The metadata of the single-node backend, and its locked sections as functions. */
module LocalData {
  import opened Types

  /** A pinned buffer: the pool it was cut from and its number there. */
  datatype BufId = BufId(numa: nat, id: nat)

  /** A store-owned pinned buffer, or memory lent by a region. */
  datatype Data = Pinned(buf: BufId) | Lent(region: nat)

  datatype Replica = Replica(device: Device, tier: Tier, misplaced: bool, data: Data)

  datatype Slot = Slot(replicas: seq<Replica>, writing: bool)

  datatype Object = Object(spec: ObjectSpec, slots: seq<Slot>)

  type Objects = map<Key, Object>

  function Blank(spec: ObjectSpec): Object {
    Object(spec, seq(|spec.slots|, i => Slot([], false)))
  }

  // ---------------------------------------------------------------------
  // put, phase 1: reserve the key, claim the writable slots

  predicate Free(s: Slot) { s.replicas == [] && !s.writing }

  function Reserved(objects: Objects, key: Key, spec: ObjectSpec): Object {
    if key in objects then objects[key] else Blank(spec)
  }

  function Writable(o: Object): (r: seq<bool>)
    ensures |r| == |o.slots|
    ensures forall i | 0 <= i < |r| :: r[i] == Free(o.slots[i])
  {
    seq(|o.slots|, i requires 0 <= i < |o.slots| => Free(o.slots[i]))
  }

  function Claimed(o: Object): (r: Object)
    ensures r.spec == o.spec && |r.slots| == |o.slots|
    ensures forall i | 0 <= i < |r.slots| ::
              r.slots[i].replicas == o.slots[i].replicas
              && r.slots[i].writing == (o.slots[i].writing || Free(o.slots[i]))
  {
    o.(slots := seq(|o.slots|, i requires 0 <= i < |o.slots| =>
                      if Free(o.slots[i]) then o.slots[i].(writing := true) else o.slots[i]))
  }

  function Claim(objects: Objects, key: Key, spec: ObjectSpec): Objects {
    objects[key := Claimed(Reserved(objects, key, spec))]
  }

  // ---------------------------------------------------------------------
  // put, phase 3 and the error path

  function Install(objects: Objects, key: Key, i: nat, added: seq<Replica>): Objects
    requires key in objects && i < |objects[key].slots|
  {
    var o := objects[key];
    objects[key := o.(slots := o.slots[i := Slot(o.slots[i].replicas + added, false)])]
  }

  function Unclaim(objects: Objects, key: Key, i: nat): Objects
    requires key in objects ==> i < |objects[key].slots|
  {
    if key !in objects then objects
    else
      var o := objects[key];
      objects[key := o.(slots := o.slots[i := o.slots[i].(writing := false)])]
  }

  // ---------------------------------------------------------------------
  // The eviction scan of alloc_or_evict

  predicate PinnedOn(r: Replica, d: Device) { r.device == d && r.data.Pinned? }

  predicate HasPinned(s: Slot, d: Device) {
    exists j | 0 <= j < |s.replicas| :: PinnedOn(s.replicas[j], d)
  }

  function Without(rs: seq<Replica>, d: Device): seq<Replica> {
    if rs == [] then []
    else (if PinnedOn(rs[0], d) then [] else [rs[0]]) + Without(rs[1..], d)
  }

  predicate Evictable(objects: Objects, k: Key) {
    k in objects && objects[k].spec.retention == Cache
  }

  predicate Deserted(o: Object) {
    forall i | 0 <= i < |o.slots| :: Free(o.slots[i])
  }

  function Thin(o: Object, i: nat, d: Device): Object
    requires i < |o.slots|
  {
    o.(slots := o.slots[i := o.slots[i].(replicas := Without(o.slots[i].replicas, d))])
  }

  function Evict(objects: Objects, e: Entry, d: Device): Objects
    requires Evictable(objects, e.key) && e.slot < |objects[e.key].slots|
  {
    var o := Thin(objects[e.key], e.slot, d);
    if Deserted(o) then objects - {e.key} else objects[e.key := o]
  }

  /** The outcome of a scan; `Panicked` where the source indexes past an object's slots. */
  datatype Scanned = Scanned(objects: Objects, queue: seq<Entry>, evicted: bool) | Panicked

  function Requeue(e: Entry, r: Scanned): Scanned {
    if r.Panicked? then r else r.(queue := [e] + r.queue)
  }

  /** Pop entries until one replica has been dropped; entries of `key` go back to the front. */
  function Scan(objects: Objects, queue: seq<Entry>, d: Device, key: Key): Scanned
    decreases |queue|
  {
    if queue == [] then Scanned(objects, [], false)
    else
      var e, rest := queue[0], queue[1..];
      if e.key == key then Requeue(e, Scan(objects, rest, d, key))
      else if !Evictable(objects, e.key) then Scan(objects, rest, d, key)
      else if e.slot >= |objects[e.key].slots| then Panicked
      else if HasPinned(objects[e.key].slots[e.slot], d) then Scanned(Evict(objects, e, d), rest, true)
      else Scan(Evict(objects, e, d), rest, d, key)
  }

  // ---------------------------------------------------------------------
  // Lending and removal

  function Publish(objects: Objects, key: Key, i: nat, device: Device, region: nat): Objects
    requires key in objects && i < |objects[key].slots|
  {
    var o := objects[key];
    var r := Replica(device, External, false, Lent(region));
    objects[key := o.(slots := o.slots[i := o.slots[i].(replicas := o.slots[i].replicas + [r])])]
  }

  function Retained(rs: seq<Replica>, region: nat): seq<Replica> {
    if rs == [] then []
    else (if rs[0].data == Lent(region) then [] else [rs[0]]) + Retained(rs[1..], region)
  }

  function RetiredObject(o: Object, region: nat): (r: Object)
    ensures r.spec == o.spec && |r.slots| == |o.slots|
    ensures forall i | 0 <= i < |r.slots| ::
              r.slots[i] == o.slots[i].(replicas := Retained(o.slots[i].replicas, region))
  {
    o.(slots := seq(|o.slots|, i requires 0 <= i < |o.slots| =>
                      o.slots[i].(replicas := Retained(o.slots[i].replicas, region))))
  }

  function Retire(objects: Objects, region: nat): Objects {
    map k | k in objects :: RetiredObject(objects[k], region)
  }

  // ---------------------------------------------------------------------
  // References from metadata to buffers

  ghost predicate Shows(s: Slot, b: BufId) {
    exists j | 0 <= j < |s.replicas| :: s.replicas[j].data == Pinned(b)
  }

  ghost predicate ShownAt(objects: Objects, k: Key, i: int, b: BufId) {
    k in objects && 0 <= i < |objects[k].slots| && Shows(objects[k].slots[i], b)
  }

  /** No slot shows a buffer it did not show before. */
  ghost predicate NoNewRefs(was: Objects, now: Objects) {
    forall k, i, b | ShownAt(now, k, i, b) :: ShownAt(was, k, i, b)
  }

  lemma {:induction false} WithoutMembers(rs: seq<Replica>, d: Device, r: Replica)
    ensures r in Without(rs, d) <==> r in rs && !PinnedOn(r, d)
  {
    if rs != [] {
      WithoutMembers(rs[1..], d, r);
      assert rs == [rs[0]] + rs[1..];
    }
  }

  lemma {:induction false} RetainedMembers(rs: seq<Replica>, region: nat, r: Replica)
    ensures r in Retained(rs, region) <==> r in rs && r.data != Lent(region)
  {
    if rs != [] {
      RetainedMembers(rs[1..], region, r);
      assert rs == [rs[0]] + rs[1..];
    }
  }

  /** Membership is all that `Shows` looks at. */
  lemma ShowsSubset(s: Slot, t: Slot, b: BufId)
    requires forall r | r in t.replicas && r.data.Pinned? :: r in s.replicas
    ensures Shows(t, b) ==> Shows(s, b)
  {
    if Shows(t, b) {
      var j :| 0 <= j < |t.replicas| && t.replicas[j].data == Pinned(b);
      assert t.replicas[j] in s.replicas;
    }
  }

  lemma ClaimRefs(objects: Objects, key: Key, spec: ObjectSpec)
    ensures NoNewRefs(objects, Claim(objects, key, spec))
  {
    var now := Claim(objects, key, spec);
    forall k, i, b | ShownAt(now, k, i, b)
      ensures ShownAt(objects, k, i, b)
    {
      if k == key {
        var o := Reserved(objects, key, spec);
        assert now[k].slots[i].replicas == o.slots[i].replicas;
        assert Shows(o.slots[i], b);
      }
    }
  }

  lemma UnclaimRefs(objects: Objects, key: Key, i: nat)
    requires key in objects ==> i < |objects[key].slots|
    ensures NoNewRefs(objects, Unclaim(objects, key, i))
  {
    var now := Unclaim(objects, key, i);
    forall k, j, b | ShownAt(now, k, j, b)
      ensures ShownAt(objects, k, j, b)
    {
      assert Shows(objects[k].slots[j], b);
    }
  }

  lemma EvictRefs(objects: Objects, e: Entry, d: Device)
    requires Evictable(objects, e.key) && e.slot < |objects[e.key].slots|
    ensures NoNewRefs(objects, Evict(objects, e, d))
  {
    hide Without;
    var now := Evict(objects, e, d);
    forall k, i, b | ShownAt(now, k, i, b)
      ensures ShownAt(objects, k, i, b)
    {
      if k == e.key && i == e.slot {
        var s, t := objects[k].slots[i], now[k].slots[i];
        forall r | r in t.replicas ensures r in s.replicas { WithoutMembers(s.replicas, d, r); }
        ShowsSubset(s, t, b);
      }
    }
  }

  lemma RefsTwice(a: Objects, b: Objects, c: Objects)
    requires NoNewRefs(a, b) && NoNewRefs(b, c)
    ensures NoNewRefs(a, c)
  {
  }

  lemma {:induction false} ScanRefs(objects: Objects, queue: seq<Entry>, d: Device, key: Key)
    ensures var r := Scan(objects, queue, d, key); r.Scanned? ==> NoNewRefs(objects, r.objects)
    decreases |queue|
  {
    hide Evict, NoNewRefs, HasPinned;
    SameRefs(objects);
    if queue != [] {
      var e, rest := queue[0], queue[1..];
      if e.key == key || !Evictable(objects, e.key) {
        ScanRefs(objects, rest, d, key);
      } else if e.slot < |objects[e.key].slots| {
        EvictRefs(objects, e, d);
        if !HasPinned(objects[e.key].slots[e.slot], d) {
          ScanRefs(Evict(objects, e, d), rest, d, key);
          var r := Scan(objects, queue, d, key);
          if r.Scanned? { RefsTwice(objects, Evict(objects, e, d), r.objects); }
        }
      }
    }
  }

  lemma SameRefs(objects: Objects)
    ensures NoNewRefs(objects, objects)
  {
  }

  lemma PublishRefs(objects: Objects, key: Key, i: nat, device: Device, region: nat)
    requires key in objects && i < |objects[key].slots|
    ensures NoNewRefs(objects, Publish(objects, key, i, device, region))
  {
    var now := Publish(objects, key, i, device, region);
    forall k, j, b | ShownAt(now, k, j, b)
      ensures ShownAt(objects, k, j, b)
    {
      ShowsSubset(objects[k].slots[j], now[k].slots[j], b);
    }
  }

  lemma RetireRefs(objects: Objects, region: nat)
    ensures NoNewRefs(objects, Retire(objects, region))
  {
    hide Retained;
    var now := Retire(objects, region);
    forall k, i, b | ShownAt(now, k, i, b)
      ensures ShownAt(objects, k, i, b)
    {
      var s, t := objects[k].slots[i], now[k].slots[i];
      forall r | r in t.replicas ensures r in s.replicas { RetainedMembers(s.replicas, region, r); }
      ShowsSubset(s, t, b);
    }
  }

  lemma RemoveRefs(objects: Objects, keys: set<Key>)
    ensures NoNewRefs(objects, objects - keys)
  {
  }

  /** Installing shows the added buffers in one slot, and nothing else new. */
  lemma InstallRefs(objects: Objects, key: Key, i: nat, added: seq<Replica>)
    requires key in objects && i < |objects[key].slots|
    ensures forall k, j, b | ShownAt(Install(objects, key, i, added), k, j, b) ::
              ShownAt(objects, k, j, b)
              || (k == key && j == i && exists q | 0 <= q < |added| :: added[q].data == Pinned(b))
  {
    var now := Install(objects, key, i, added);
    forall k, j, b | ShownAt(now, k, j, b)
      ensures ShownAt(objects, k, j, b) || (k == key && j == i && exists q | 0 <= q < |added| :: added[q].data == Pinned(b))
    {
      if k == key && j == i {
        var rs := objects[key].slots[i].replicas;
        var q :| 0 <= q < |rs + added| && (rs + added)[q].data == Pinned(b);
        if q < |rs| {
          assert rs[q].data == Pinned(b);
        } else {
          assert added[q - |rs|].data == Pinned(b);
        }
      }
    }
  }

  // ---------------------------------------------------------------------
  // Every object has one slot record per slot of its spec

  ghost predicate Shaped(objects: Objects) {
    forall k | k in objects :: |objects[k].slots| == |objects[k].spec.slots|
  }

  lemma ClaimShaped(objects: Objects, key: Key, spec: ObjectSpec)
    requires Shaped(objects)
    ensures Shaped(Claim(objects, key, spec))
  {
  }

  lemma UnclaimShaped(objects: Objects, key: Key, i: nat)
    requires Shaped(objects) && (key in objects ==> i < |objects[key].slots|)
    ensures Shaped(Unclaim(objects, key, i))
  {
  }

  lemma {:induction false} ScanShaped(objects: Objects, queue: seq<Entry>, d: Device, key: Key)
    requires Shaped(objects)
    ensures var r := Scan(objects, queue, d, key); r.Scanned? ==> Shaped(r.objects)
    decreases |queue|
  {
    hide HasPinned, Without, Deserted;
    if queue != [] {
      var e, rest := queue[0], queue[1..];
      if e.key == key || !Evictable(objects, e.key) {
        ScanShaped(objects, rest, d, key);
      } else if e.slot < |objects[e.key].slots| {
        assert Shaped(Evict(objects, e, d));
        ScanShaped(Evict(objects, e, d), rest, d, key);
      }
    }
  }

  lemma PublishShaped(objects: Objects, key: Key, i: nat, device: Device, region: nat)
    requires Shaped(objects) && key in objects && i < |objects[key].slots|
    ensures Shaped(Publish(objects, key, i, device, region))
  {
  }

  lemma RetireShaped(objects: Objects, region: nat)
    requires Shaped(objects)
    ensures Shaped(Retire(objects, region))
  {
  }

  lemma RemoveShaped(objects: Objects, keys: set<Key>)
    requires Shaped(objects)
    ensures Shaped(objects - keys)
  {
  }

  // ---------------------------------------------------------------------
  // What each locked section changes, slot by slot

  /** Every key other than `key` is as it was. */
  ghost predicate OnlyKey(was: Objects, now: Objects, key: Key) {
    forall k | k != key :: (k in now <==> k in was) && (k in was ==> now[k] == was[k])
  }

  /** Nothing but slot `i` of `key` has changed. */
  ghost predicate OnlySlot(was: Objects, now: Objects, key: Key, i: nat) {
    && key in was && key in now && OnlyKey(was, now, key)
    && now[key].spec == was[key].spec && |now[key].slots| == |was[key].slots| && i < |was[key].slots|
    && forall j | 0 <= j < |was[key].slots| && j != i :: now[key].slots[j] == was[key].slots[j]
  }

  /** Claiming makes the object if it is not there, and marks every slot that has no replica; slots that have
      one, and all other objects, are as they were. */
  lemma ClaimExactly(objects: Objects, key: Key, spec: ObjectSpec)
    ensures var now := Claim(objects, key, spec);
            && OnlyKey(objects, now, key) && key in now
            && (key in objects ==>
                  && now[key].spec == objects[key].spec && |now[key].slots| == |objects[key].slots|
                  && forall i | 0 <= i < |now[key].slots| ::
                       var s := objects[key].slots[i];
                       now[key].slots[i] == if s.replicas == [] then Slot([], true) else s)
            && (key !in objects ==>
                  && now[key].spec == spec && |now[key].slots| == |spec.slots|
                  && forall i | 0 <= i < |spec.slots| :: now[key].slots[i] == Slot([], true))
  {
    if key in objects {
      var o, o' := objects[key], Claim(objects, key, spec)[key];
      forall i | 0 <= i < |o.slots|
        ensures o'.slots[i] == if o.slots[i].replicas == [] then Slot([], true) else o.slots[i]
      {
        assert o'.slots[i].replicas == o.slots[i].replicas;
        assert o'.slots[i].writing == (o.slots[i].writing || Free(o.slots[i]));
      }
    }
  }

  /** Installing appends the replicas to the slot, in order, and clears its mark. */
  lemma InstallExactly(objects: Objects, key: Key, i: nat, added: seq<Replica>)
    requires key in objects && i < |objects[key].slots|
    ensures var now := Install(objects, key, i, added);
            && OnlySlot(objects, now, key, i)
            && !now[key].slots[i].writing && now[key].slots[i].replicas == objects[key].slots[i].replicas + added
  {
  }

  /** Releasing a claim clears the slot's mark, if the object is there, and changes nothing else. */
  lemma UnclaimExactly(objects: Objects, key: Key, i: nat)
    requires key in objects ==> i < |objects[key].slots|
    ensures key !in objects ==> Unclaim(objects, key, i) == objects
    ensures key in objects ==>
              var now := Unclaim(objects, key, i);
              && OnlySlot(objects, now, key, i)
              && !now[key].slots[i].writing && now[key].slots[i].replicas == objects[key].slots[i].replicas
  {
  }

  /** Publishing appends one lent replica to the slot, which keeps its mark. */
  lemma PublishExactly(objects: Objects, key: Key, i: nat, device: Device, region: nat)
    requires key in objects && i < |objects[key].slots|
    ensures var now := Publish(objects, key, i, device, region);
            && OnlySlot(objects, now, key, i)
            && now[key].slots[i].writing == objects[key].slots[i].writing
            && now[key].slots[i].replicas == objects[key].slots[i].replicas + [Replica(device, External, false, Lent(region))]
  {
  }

  ghost function NotLentBy(region: nat): Replica -> bool { (r: Replica) => r.data.Pinned? || r.data.region != region }

  lemma {:induction false} RetainedSifts(rs: seq<Replica>, region: nat)
    ensures Sifted(rs, Retained(rs, region), NotLentBy(region))
  {
    if rs != [] {
      hide Sifted;
      RetainedSifts(rs[1..], region);
      assert NotLentBy(region)(rs[0]) <==> rs[0].data != Lent(region);
      SiftedCons(rs, Retained(rs[1..], region), NotLentBy(region));
    }
  }

  /** Retiring a region takes its replicas out of every slot, in place, and nothing else. */
  lemma RetireExactly(objects: Objects, region: nat)
    ensures var now := Retire(objects, region);
            && now.Keys == objects.Keys
            && forall k | k in objects ::
                 && now[k].spec == objects[k].spec && |now[k].slots| == |objects[k].slots|
                 && forall i | 0 <= i < |objects[k].slots| ::
                      && now[k].slots[i].writing == objects[k].slots[i].writing
                      && Sifted(objects[k].slots[i].replicas, now[k].slots[i].replicas, NotLentBy(region))
  {
    hide Sifted, Retained;
    forall k, i | k in objects && 0 <= i < |objects[k].slots|
      ensures Sifted(objects[k].slots[i].replicas, Retire(objects, region)[k].slots[i].replicas, NotLentBy(region))
    {
      RetainedSifts(objects[k].slots[i].replicas, region);
    }
  }

  /** What a scan of `d` leaves in a slot: lent replicas, and those on other devices. */
  ghost function Elsewhere(d: Device): Replica -> bool { (r: Replica) => r.device != d || r.data.Lent? }

  lemma {:induction false} WithoutSifts(rs: seq<Replica>, d: Device)
    ensures Sifted(rs, Without(rs, d), Elsewhere(d))
  {
    if rs != [] {
      hide Sifted;
      WithoutSifts(rs[1..], d);
      assert Elsewhere(d)(rs[0]) <==> !PinnedOn(rs[0], d);
      SiftedCons(rs, Without(rs[1..], d), Elsewhere(d));
    }
  }

  /** Nothing is left of the object once slot `v` has lost its pinned replicas on `d`. */
  ghost predicate Emptied(o: Object, v: int, d: Device) {
    forall i | 0 <= i < |o.slots| ::
      && !o.slots[i].writing
      && forall r | r in o.slots[i].replicas :: i == v && r.device == d && r.data.Pinned?
  }

  /** The object, but for slot `v`, which has lost its pinned replicas on `d`. */
  ghost predicate Thinned(o: Object, now: Object, v: int, d: Device) {
    && now.spec == o.spec && |now.slots| == |o.slots|
    && forall i | 0 <= i < |o.slots| ::
         if i == v then now.slots[i].writing == o.slots[i].writing && Sifted(o.slots[i].replicas, now.slots[i].replicas, Elsewhere(d))
         else now.slots[i] == o.slots[i]
  }

  lemma WithoutNone(rs: seq<Replica>, d: Device)
    ensures Without(rs, d) == [] <==> forall r | r in rs :: r.device == d && r.data.Pinned?
  {
    hide Without;
    forall r ensures r in Without(rs, d) <==> r in rs && !PinnedOn(r, d) { WithoutMembers(rs, d, r); }
    if Without(rs, d) != [] { assert Without(rs, d)[0] in Without(rs, d); }
  }

  /** A popped entry: its slot loses its pinned replicas on the device, and the object goes exactly when
      nothing is left in it and nothing is being written. */
  lemma EvictExactly(objects: Objects, e: Entry, d: Device)
    requires Evictable(objects, e.key) && e.slot < |objects[e.key].slots|
    ensures var now := Evict(objects, e, d);
            && OnlyKey(objects, now, e.key)
            && (e.key in now <==> !Emptied(objects[e.key], e.slot, d))
            && (e.key in now ==> Thinned(objects[e.key], now[e.key], e.slot, d))
  {
    hide Without, Sifted;
    var o := objects[e.key];
    var t := Thin(o, e.slot, d);
    WithoutSifts(o.slots[e.slot].replicas, d);
    WithoutNone(o.slots[e.slot].replicas, d);
    assert forall i | 0 <= i < |o.slots| && i != e.slot :: t.slots[i] == o.slots[i];
    if Deserted(t) {
      forall i | 0 <= i < |o.slots|
        ensures !o.slots[i].writing && forall r | r in o.slots[i].replicas :: i == e.slot && r.device == d && r.data.Pinned?
      {
        assert Free(t.slots[i]);
      }
    } else {
      var i :| 0 <= i < |t.slots| && !Free(t.slots[i]);
      if i != e.slot && o.slots[i].replicas != [] { assert o.slots[i].replicas[0] in o.slots[i].replicas; }
    }
  }
}
