/** The scans of the reference backend index `slots[idx]` directly. When that panics, and for whom. */
module MemoryPanics {
  import opened Types
  import opened Segments
  import opened MemoryData
  import opened MemoryEvict
  import opened MemoryPut
  import opened MemoryRequest
  import opened MemoryOps
  import opened MemoryRuns
  import KeyOrder

  // ---------------------------------------------------------------------
  // Panics

  /** The scan pops an entry of a live Cache object and indexes past that object's slots. */
  ghost predicate Panics(objects: map<Key, Object>, used: int, queue: seq<Entry>, d: Device, room: int, key: Key)
    decreases |queue|
  {
    if used <= room || queue == [] then false
    else if queue[0].key == key then Panics(objects, used, queue[1..], d, room, key)
    else
      !Fits(objects, queue[0])
      || Panics(Evict(objects, queue[0], d), used - Freed(objects, queue[0], d), queue[1..], d, room, key)
  }

  ghost predicate RoomPanics(st: State, d: Device, need: nat, key: Key)
    requires d in st.pools
  {
    var pool := st.pools[d];
    pool.capacity.Some? && need <= pool.capacity.value
    && Panics(st.objects, pool.used, pool.fifo, d, pool.capacity.value - need, key)
  }

  /** Some scan of the candidate loop panics. */
  ghost predicate PlacePanics(st: State, key: Key, len: nat, cands: seq<Target>, each: bool)
    decreases |cands|
  {
    cands != [] &&
    var d := cands[0].device;
    if d !in st.pools then !each && PlacePanics(st, key, len, cands[1..], each)
    else
      RoomPanics(st, d, len, key)
      || var (ok, st1) := MakeRoom(st, d, len, key); ok == each && PlacePanics(st1, key, len, cands[1..], each)
  }

  ghost predicate SlotPanics(st: State, order: seq<Device>, key: Key, fill: Fill) {
    PlacePanics(st, key, fill.spec.len, Candidates(fill.spec.placement, order), fill.spec.placement.Each?)
  }

  /** Some slot's turn panics; the least such slot is where the request ends. */
  ghost predicate PutPanics(st: State, order: seq<Device>, key: Key, retention: Retention, fills: seq<Fill>)
    requires Squared(st)
  {
    var spec := SpecOf(retention, fills);
    && (key in st.objects ==> st.objects[key].spec == spec)
    && var s := Reserve(st, key, spec);
       var w := Writable(s.objects[key].slots);
       exists n | 0 <= n < |fills| ::
         w[n] && SlotPanics(PutPrefix(s, order, key, fills, w, n).0, order, key, fills[n])
  }

  ghost predicate OpPanics(c: Config, st: State, op: Op)
    requires Squared(st)
  {
    op.OpPut? && PutPanics(st, c.order, op.key, op.retention, op.fills)
  }

  // ---------------------------------------------------------------------
  // What a request keeps, whether or not the queued indices are in range

  /** Objects are only lost, and keep their shape. */
  ghost predicate Shrunk(was: map<Key, Object>, now: map<Key, Object>) {
    forall k | k in now :: k in was && now[k].spec == was[k].spec && |now[k].slots| == |was[k].slots|
  }

  ghost predicate Accounts(st: State) {
    forall d | d in st.pools :: st.pools[d].used == StoreBytes(st.objects, d)
  }

  /** The queue keeps the entries of `key` and gains none of other keys. */
  ghost predicate OwnStay(was: seq<Entry>, now: seq<Entry>, key: Key) {
    && (forall e | e in was && e.key == key :: e in now)
    && (forall e | e in now && e.key != key :: e in was)
  }

  ghost predicate Keeps(a: State, b: State, key: Key) {
    && b.pools.Keys == a.pools.Keys && Shrunk(a.objects, b.objects) && (key in a.objects ==> key in b.objects)
    && (forall d | d in a.pools ::
          b.pools[d].capacity == a.pools[d].capacity && OwnStay(a.pools[d].fifo, b.pools[d].fifo, key))
    && (Accounts(a) ==> Accounts(b))
  }

  lemma KeepsSelf(st: State, key: Key)
    ensures Keeps(st, st, key)
  {
  }

  lemma KeepsTwice(a: State, b: State, c: State, key: Key)
    requires Keeps(a, b, key) && Keeps(b, c, key)
    ensures Keeps(a, c, key)
  {
    hide Accounts;
  }

  lemma EvictShrunk(objects: map<Key, Object>, e: Entry, d: Device)
    requires Fits(objects, e)
    ensures Shrunk(objects, Evict(objects, e, d))
  {
    hide Without;
  }

  lemma {:induction false} ReclaimShape(objects: map<Key, Object>, used: int, queue: seq<Entry>, d: Device, room: int, key: Key)
    ensures var r := Reclaim(objects, used, queue, d, room, key);
            Shrunk(objects, r.objects) && OwnStay(queue, r.queue, key)
    decreases |queue|
  {
    hide Evict, Freed;
    if used > room && queue != [] {
      var e, rest := queue[0], queue[1..];
      assert queue == [e] + rest;
      if e.key == key {
        ReclaimShape(objects, used, rest, d, room, key);
      } else if Fits(objects, e) {
        EvictShrunk(objects, e, d);
        ReclaimShape(Evict(objects, e, d), used - Freed(objects, e, d), rest, d, room, key);
      }
    }
  }

  lemma {:induction false} ReclaimBytes(objects: map<Key, Object>, used: int, queue: seq<Entry>, d: Device, room: int, key: Key,
                                        x: Device)
    requires used == StoreBytes(objects, d)
    ensures var r := Reclaim(objects, used, queue, d, room, key);
            r.used == StoreBytes(r.objects, d) && (x != d ==> StoreBytes(r.objects, x) == StoreBytes(objects, x))
    decreases |queue|
  {
    hide Evict, Freed, StoreBytes;
    if used > room && queue != [] {
      var e, rest := queue[0], queue[1..];
      if e.key == key {
        ReclaimBytes(objects, used, rest, d, room, key, x);
      } else if Fits(objects, e) {
        EvictBytes(objects, e, d, d);
        EvictBytes(objects, e, d, x);
        ReclaimBytes(Evict(objects, e, d), used - Freed(objects, e, d), rest, d, room, key, x);
      }
    }
  }

  lemma MakeRoomKeeps(st: State, d: Device, need: nat, key: Key)
    requires d in st.pools
    ensures Keeps(st, MakeRoom(st, d, need, key).1, key)
  {
    hide StoreBytes, Reclaim;
    KeepsSelf(st, key);
    var pool := st.pools[d];
    if pool.capacity.Some? && need <= pool.capacity.value {
      var room := pool.capacity.value - need;
      ReclaimShape(st.objects, pool.used, pool.fifo, d, room, key);
      if Accounts(st) {
        forall x | x in st.pools
          ensures var now := MakeRoom(st, d, need, key).1; now.pools[x].used == StoreBytes(now.objects, x)
        {
          ReclaimBytes(st.objects, pool.used, pool.fifo, d, room, key, x);
        }
      }
    }
  }

  lemma {:induction false} PlaceKeeps(st: State, key: Key, len: nat, cands: seq<Target>, each: bool)
    ensures Keeps(st, Place(st, key, len, cands, each).st, key)
    decreases |cands|
  {
    hide Keeps, MakeRoom;
    KeepsSelf(st, key);
    if cands != [] {
      var d := cands[0].device;
      if d !in st.pools {
        PlaceKeeps(st, key, len, cands[1..], each);
      } else {
        MakeRoomKeeps(st, d, len, key);
        var st1 := MakeRoom(st, d, len, key).1;
        PlaceKeeps(st1, key, len, cands[1..], each);
        KeepsTwice(st, st1, Place(st1, key, len, cands[1..], each).st, key);
      }
    }
  }

  lemma InstallKeeps(st: State, key: Key, i: nat, bytes: seq<Byte>, targets: seq<Target>)
    requires key in st.objects && i < |st.objects[key].slots| && Served(targets, st.pools.Keys)
    ensures Keeps(st, Install(st, key, i, bytes, targets), key)
  {
    hide StoreBytes, ChargeAll, Copies;
    forall d | d in st.pools
      ensures var now := Install(st, key, i, bytes, targets);
              && now.pools[d].capacity == st.pools[d].capacity && OwnStay(st.pools[d].fifo, now.pools[d].fifo, key)
              && (Accounts(st) ==> now.pools[d].used == StoreBytes(now.objects, d))
    {
      ChargeAllSpec(st.pools, targets, key, i, |bytes|, d);
      if Accounts(st) { InstallBytes(st, key, i, bytes, targets, d); }
    }
  }

  lemma PutSlotKeeps(st: State, order: seq<Device>, key: Key, i: nat, fill: Fill)
    requires key in st.objects && i < |st.objects[key].slots|
    ensures Keeps(st, PutSlot(st, order, key, i, fill).0, key)
  {
    hide Keeps, Place, Install, Candidates;
    var cands, each := Candidates(fill.spec.placement, order), fill.spec.placement.Each?;
    PlaceKeeps(st, key, fill.spec.len, cands, each);
    var p := Place(st, key, fill.spec.len, cands, each);
    InstallKeeps(p.st, key, i, fill.bytes, p.targets);
    KeepsTwice(st, p.st, Install(p.st, key, i, fill.bytes, p.targets), key);
  }

  lemma {:induction false} PutPrefixKeeps(st: State, order: seq<Device>, key: Key, fills: seq<Fill>, w: seq<bool>, n: nat)
    requires key in st.objects && |st.objects[key].slots| == |w| == |fills| && n <= |fills|
    ensures Keeps(st, PutPrefix(st, order, key, fills, w, n).0, key)
  {
    hide Keeps, PutSlot;
    KeepsSelf(st, key);
    if n > 0 {
      PutPrefixKeeps(st, order, key, fills, w, n - 1);
      var s := PutPrefix(st, order, key, fills, w, n - 1).0;
      if w[n - 1] {
        PutSlotKeeps(s, order, key, n - 1, fills[n - 1]);
        KeepsTwice(st, s, PutSlot(s, order, key, n - 1, fills[n - 1]).0, key);
      }
    }
  }

  /** The state in which the slots of a request are treated. */
  ghost predicate Starts(st: State, key: Key, fills: seq<Fill>) {
    key in st.objects && |st.objects[key].slots| == |fills|
  }

  lemma ReserveStarts(st: State, key: Key, retention: Retention, fills: seq<Fill>)
    requires Squared(st) && (key in st.objects ==> st.objects[key].spec == SpecOf(retention, fills))
    ensures var s := Reserve(st, key, SpecOf(retention, fills));
            Starts(s, key, fills) && Squared(s) && s.objects[key].spec == SpecOf(retention, fills)
  {
  }

  lemma PutKeeps(st: State, order: seq<Device>, key: Key, retention: Retention, fills: seq<Fill>)
    requires Squared(st) && (key in st.objects ==> st.objects[key].spec == SpecOf(retention, fills))
    ensures Keeps(Reserve(st, key, SpecOf(retention, fills)), Put(st, order, key, retention, fills).0, key)
  {
    hide Keeps, PutPrefix;
    ReserveStarts(st, key, retention, fills);
    var s := Reserve(st, key, SpecOf(retention, fills));
    PutPrefixKeeps(s, order, key, fills, Writable(s.objects[key].slots), |fills|);
  }

  lemma KeepsSquared(a: State, b: State, key: Key)
    requires Keeps(a, b, key) && Squared(a)
    ensures Squared(b)
  {
    hide Accounts;
  }

  // ---------------------------------------------------------------------
  // A request never panics over its own key

  ghost predicate OthersFit(st: State, key: Key) {
    forall d, e | d in st.pools && st.pools[d].capacity.Some? && e in st.pools[d].fifo && e.key != key :: Fits(st.objects, e)
  }

  lemma KeepsFit(a: State, b: State, key: Key)
    requires Keeps(a, b, key) && OthersFit(a, key)
    ensures OthersFit(b, key)
  {
    hide Accounts;
  }

  lemma {:induction false} ScanPasses(objects: map<Key, Object>, used: int, queue: seq<Entry>, d: Device, room: int, key: Key)
    requires forall e | e in queue && e.key != key :: Fits(objects, e)
    ensures !Panics(objects, used, queue, d, room, key)
    decreases |queue|
  {
    hide Evict, Freed;
    if used > room && queue != [] {
      var e, rest := queue[0], queue[1..];
      assert queue == [e] + rest;
      if e.key == key {
        ScanPasses(objects, used, rest, d, room, key);
      } else {
        EvictShrunk(objects, e, d);
        ScanPasses(Evict(objects, e, d), used - Freed(objects, e, d), rest, d, room, key);
      }
    }
  }

  lemma RoomPasses(st: State, d: Device, need: nat, key: Key)
    requires d in st.pools && OthersFit(st, key)
    ensures !RoomPanics(st, d, need, key)
  {
    hide Panics;
    var pool := st.pools[d];
    if pool.capacity.Some? && need <= pool.capacity.value {
      ScanPasses(st.objects, pool.used, pool.fifo, d, pool.capacity.value - need, key);
    }
  }

  lemma {:induction false} PlacePasses(st: State, key: Key, len: nat, cands: seq<Target>, each: bool)
    requires OthersFit(st, key)
    ensures !PlacePanics(st, key, len, cands, each)
    decreases |cands|
  {
    hide OthersFit, RoomPanics, MakeRoom, Keeps;
    if cands != [] {
      var d := cands[0].device;
      if d !in st.pools {
        PlacePasses(st, key, len, cands[1..], each);
      } else {
        RoomPasses(st, d, len, key);
        MakeRoomKeeps(st, d, len, key);
        KeepsFit(st, MakeRoom(st, d, len, key).1, key);
        PlacePasses(MakeRoom(st, d, len, key).1, key, len, cands[1..], each);
      }
    }
  }

  /** Where the entries of all other keys fit, a request does not panic, whatever its own key's entries are. */
  lemma PutPasses(st: State, order: seq<Device>, key: Key, retention: Retention, fills: seq<Fill>)
    requires Squared(st) && OthersFit(st, key)
    ensures !PutPanics(st, order, key, retention, fills)
  {
    hide OthersFit, SlotPanics, PutPrefix, Keeps;
    var spec := SpecOf(retention, fills);
    if key in st.objects ==> st.objects[key].spec == spec {
      ReserveStarts(st, key, retention, fills);
      var s := Reserve(st, key, spec);
      var w := Writable(s.objects[key].slots);
      ReserveFit(st, key, spec);
      forall n | 0 <= n < |fills|
        ensures !SlotPanics(PutPrefix(s, order, key, fills, w, n).0, order, key, fills[n])
      {
        var t := PutPrefix(s, order, key, fills, w, n).0;
        PutPrefixKeeps(s, order, key, fills, w, n);
        KeepsFit(s, t, key);
        SlotPasses(t, order, key, fills[n]);
      }
    }
  }

  lemma SlotPasses(st: State, order: seq<Device>, key: Key, fill: Fill)
    requires OthersFit(st, key)
    ensures !SlotPanics(st, order, key, fill)
  {
    hide OthersFit, PlacePanics, Candidates;
    PlacePasses(st, key, fill.spec.len, Candidates(fill.spec.placement, order), fill.spec.placement.Each?);
  }

  lemma ReserveFit(st: State, key: Key, spec: ObjectSpec)
    requires OthersFit(st, key)
    ensures OthersFit(Reserve(st, key, spec), key)
  {
  }

  lemma InvFit(st: State, key: Key)
    requires Inv(st)
    ensures OthersFit(st, key)
  {
    hide StoreBytes, Queued, Shaped;
    forall d, e | d in st.pools && st.pools[d].capacity.Some? && e in st.pools[d].fifo && e.key != key
      ensures Fits(st.objects, e)
    {
      assert PoolInv(st.objects, st.pools[d], d);
    }
  }

  // ---------------------------------------------------------------------
  // Runs from any state

  lemma ApplySquared(c: Config, st: State, op: Op)
    requires Squared(st)
    ensures Squared(Apply(c, st, op))
  {
    hide Put, Keeps, Retained;
    match op
    case OpPut(key, retention, fills) =>
      if key in st.objects ==> st.objects[key].spec == SpecOf(retention, fills) {
        ReserveStarts(st, key, retention, fills);
        PutKeeps(st, c.order, key, retention, fills);
        KeepsSquared(Reserve(st, key, SpecOf(retention, fills)), Put(st, c.order, key, retention, fills).0, key);
      } else {
        PutRefused(st, c.order, key, retention, fills);
      }
    case OpPublish(key, slot, loan) =>
    case OpRetire(region) =>
    case OpRemove(keys) => RemoveSquared(st, keys);
    case OpRemovePrefix(prefix) => RemoveSquared(st, KeyOrder.PrefixRun(st.objects.Keys, prefix));
  }

  lemma PutRefused(st: State, order: seq<Device>, key: Key, retention: Retention, fills: seq<Fill>)
    requires Squared(st) && key in st.objects && st.objects[key].spec != SpecOf(retention, fills)
    ensures Put(st, order, key, retention, fills).0 == st
  {
  }

  lemma {:induction false} RemoveSquared(st: State, keys: seq<Key>)
    requires Squared(st)
    ensures Squared(Remove(st, keys))
    ensures Remove(st, keys).pools.Keys == st.pools.Keys
    ensures forall d | d in st.pools :: Remove(st, keys).pools[d].capacity == st.pools[d].capacity
    decreases |keys|
  {
    if keys != [] { RemoveSquared(RemoveOne(st, keys[0]), keys[1..]); }
  }

  /** The state after the operations, as the bodies compute it; past a panic it means nothing. */
  ghost function After(c: Config, st: State, ops: seq<Op>): (r: State)
    requires Squared(st)
    ensures Squared(r)
  {
    if ops == [] then st
    else
      var before := After(c, st, ops[..|ops| - 1]);
      ApplySquared(c, before, ops[|ops| - 1]);
      Apply(c, before, ops[|ops| - 1])
  }

  ghost predicate LegalRun(c: Config, st: State, ops: seq<Op>)
    requires Squared(st)
  {
    ops != [] ==>
      LegalRun(c, st, ops[..|ops| - 1]) && Legal(After(c, st, ops[..|ops| - 1]), ops[|ops| - 1])
  }

  /** No operation of any legal run panics. */
  ghost predicate NeverPanics(c: Config, st: State)
    requires Squared(st)
  {
    forall ops, op | LegalRun(c, st, ops) && Legal(After(c, st, ops), op) :: !OpPanics(c, After(c, st, ops), op)
  }

  lemma {:induction false} AfterInv(c: Config, st: State, ops: seq<Op>)
    requires Inv(st) && Squared(st) && LegalRun(c, st, ops)
    ensures Inv(After(c, st, ops))
  {
    hide Inv, Squared, Apply, Legal;
    if ops != [] {
      AfterInv(c, st, ops[..|ops| - 1]);
      ApplyInv(c, After(c, st, ops[..|ops| - 1]), ops[|ops| - 1]);
    }
  }

  lemma InvPasses(c: Config, st: State, op: Op)
    requires Inv(st) && Squared(st)
    ensures !OpPanics(c, st, op)
  {
    hide Inv, Squared, PutPanics, OthersFit;
    if op.OpPut? {
      InvFit(st, op.key);
      PutPasses(st, c.order, op.key, op.retention, op.fills);
    }
  }

  lemma InvNeverPanics(c: Config, st: State)
    requires Inv(st) && Squared(st)
    ensures NeverPanics(c, st)
  {
    hide Inv, Squared, LegalRun, After, Legal, OpPanics;
    forall ops, op | LegalRun(c, st, ops) && Legal(After(c, st, ops), op)
      ensures !OpPanics(c, After(c, st, ops), op)
    {
      AfterInv(c, st, ops);
      InvPasses(c, After(c, st, ops), op);
    }
  }

  // ---------------------------------------------------------------------
  // An entry past its object's slots: some request meets it

  /** No scan removes the object: it has no slots, or a lent replica. */
  ghost predicate Anchored(o: Object) {
    o.slots == [] || exists i, r | 0 <= i < |o.slots| && r in o.slots[i] :: r.data.Lent?
  }

  ghost predicate Lurks(objects: map<Key, Object>, queue: seq<Entry>, e: Entry) {
    e in queue && Evictable(objects, e.key) && |objects[e.key].slots| <= e.slot && Anchored(objects[e.key])
  }

  lemma EvictLurks(objects: map<Key, Object>, x: Entry, d: Device, queue: seq<Entry>, e: Entry)
    requires Fits(objects, x) && Lurks(objects, queue, e)
    ensures Lurks(Evict(objects, x, d), queue, e)
  {
    hide Without;
    if x.key == e.key {
      var o := objects[e.key];
      var i, r :| 0 <= i < |o.slots| && r in o.slots[i] && r.data.Lent?;
      var slots := Thin(o.slots, x.slot, d);
      WithoutMembers(o.slots[x.slot], d, r);
      assert r in slots[i] && slots[i] != [];
    }
  }

  /** A scan for another key panics at the entry, or makes room before it gets there. */
  lemma {:induction false} ScanMeets(objects: map<Key, Object>, used: int, queue: seq<Entry>, d: Device, room: int, key: Key,
                                     e: Entry)
    requires Lurks(objects, queue, e) && e.key != key && !Panics(objects, used, queue, d, room, key)
    ensures var r := Reclaim(objects, used, queue, d, room, key);
            r.used <= room && Lurks(r.objects, r.queue, e)
    decreases |queue|
  {
    hide Evict, Freed, Anchored;
    if used > room {
      var x, rest := queue[0], queue[1..];
      assert queue == [x] + rest;
      if x.key == key {
        ScanMeets(objects, used, rest, d, room, key, e);
      } else {
        EvictLurks(objects, x, d, rest, e);
        ScanMeets(Evict(objects, x, d), used - Freed(objects, x, d), rest, d, room, key, e);
      }
    }
  }

  /** While `key` itself owns something on the pool, a request of it for the whole pool panics. */
  lemma FullPanics(st: State, d: Device, cap: nat, key: Key, e: Entry)
    requires Accounts(st) && d in st.pools && st.pools[d].capacity == Some(cap) && Lurks(st.objects, st.pools[d].fifo, e)
    requires key in st.objects && e.key != key && 0 < ObjectBytes(st.objects[key].slots, d)
    ensures RoomPanics(st, d, cap, key)
  {
    hide StoreBytes, ObjectBytes, Reclaim, Panics, Lurks;
    var pool := st.pools[d];
    if !Panics(st.objects, pool.used, pool.fifo, d, 0, key) {
      ScanMeets(st.objects, pool.used, pool.fifo, d, 0, key, e);
      ReclaimBytes(st.objects, pool.used, pool.fifo, d, 0, key, d);
      StoreBytesAt(Reclaim(st.objects, pool.used, pool.fifo, d, 0, key).objects, d, key);
    }
  }

  /** Two slots as long as the pool, both to be placed there. */
  function Greedy(d: Device, cap: nat): seq<Fill> {
    var fill := Fill(SlotSpec(cap, Strict(d)), seq(cap, i => 0));
    [fill, fill]
  }

  lemma StrictPanics(st: State, order: seq<Device>, key: Key, d: Device, cap: nat)
    requires d in st.pools
    ensures SlotPanics(st, order, key, Greedy(d, cap)[0]) <==> RoomPanics(st, d, cap, key)
  {
    hide RoomPanics, MakeRoom;
    var ts := [Target(d, false)];
    assert ts[1..] == [] && !PlacePanics(MakeRoom(st, d, cap, key).1, key, cap, ts[1..], false);
    assert PlacePanics(st, key, cap, ts, false) <==> RoomPanics(st, d, cap, key);
    assert Greedy(d, cap)[0].spec == SlotSpec(cap, Strict(d));
  }

  lemma StrictLands(st: State, order: seq<Device>, key: Key, d: Device, cap: nat)
    requires d in st.pools && key in st.objects && |st.objects[key].slots| == 2 && MakeRoom(st, d, cap, key).0
    ensures PutSlot(st, order, key, 0, Greedy(d, cap)[0]).0
         == Install(MakeRoom(st, d, cap, key).1, key, 0, Greedy(d, cap)[0].bytes, [Target(d, false)])
  {
    hide MakeRoom, Install;
    assert Place(st, key, cap, [Target(d, false)], false) == Placing(MakeRoom(st, d, cap, key).1, [Target(d, false)], None);
  }

  /** After the first slot has landed the second one's scan has to get past the entry. */
  lemma LandedPanics(st: State, d: Device, cap: nat, key: Key, e: Entry)
    requires Accounts(st) && d in st.pools && st.pools[d].capacity == Some(cap) && cap > 0
    requires Lurks(st.objects, st.pools[d].fifo, e)
    requires key in st.objects && e.key != key && |st.objects[key].slots| == 2 && st.objects[key].slots[0] == []
    ensures RoomPanics(Install(st, key, 0, Greedy(d, cap)[0].bytes, [Target(d, false)]), d, cap, key)
  {
    hide StoreBytes, RoomPanics, ChargeAll, Anchored, Accounts;
    var bytes, ts := Greedy(d, cap)[0].bytes, [Target(d, false)];
    var now := Install(st, key, 0, bytes, ts);
    InstallKeeps(st, key, 0, bytes, ts);
    ChargeAllSpec(st.pools, ts, key, 0, cap, d);
    CopiesBytes(ts, bytes, d);
    assert ts[1..] == [] && BytesOn(ts, d, cap) == cap;
    assert [] + Copies(ts, bytes) == Copies(ts, bytes);
    assert now.objects[key].slots[0] == Copies(ts, bytes);
    FullPanics(now, d, cap, key, e);
  }

  lemma GreedyPanics(st: State, order: seq<Device>, d: Device, cap: nat, key: Key, e: Entry)
    requires Squared(st) && Accounts(st) && d in st.pools && st.pools[d].capacity == Some(cap) && cap > 0
    requires Lurks(st.objects, st.pools[d].fifo, e) && key !in st.objects
    ensures PutPanics(st, order, key, Explicit, Greedy(d, cap))
  {
    hide Accounts, Lurks, RoomPanics, SlotPanics, MakeRoom, Install, PutSlot;
    var fills := Greedy(d, cap);
    var spec := SpecOf(Explicit, fills);
    ReserveStarts(st, key, Explicit, fills);
    var s := Reserve(st, key, spec);
    var w := Writable(s.objects[key].slots);
    assert w == [true, true];
    ReserveAccounts(st, key, spec);
    ReserveLurks(st, key, spec, st.pools[d].fifo, e);
    StrictPanics(s, order, key, d, cap);
    PrefixSteps(s, order, key, fills, w);
    if !RoomPanics(s, d, cap, key) {
      FirstLands(s, d, cap, key, e);
      StrictLands(s, order, key, d, cap);
      var s1 := MakeRoom(s, d, cap, key).1;
      LandedPanics(s1, d, cap, key, e);
      StrictPanics(PutSlot(s, order, key, 0, fills[0]).0, order, key, d, cap);
    }
  }

  lemma PrefixSteps(st: State, order: seq<Device>, key: Key, fills: seq<Fill>, w: seq<bool>)
    requires Starts(st, key, fills) && |fills| == 2 && w == [true, true]
    ensures PutPrefix(st, order, key, fills, w, 0).0 == st
    ensures PutPrefix(st, order, key, fills, w, 1).0 == PutSlot(st, order, key, 0, fills[0]).0
  {
    hide PutSlot;
  }

  /** Where the first slot's scan does not panic it makes room. */
  lemma FirstLands(st: State, d: Device, cap: nat, key: Key, e: Entry)
    requires Accounts(st) && d in st.pools && st.pools[d].capacity == Some(cap)
    requires Lurks(st.objects, st.pools[d].fifo, e) && e.key != key && !RoomPanics(st, d, cap, key)
    ensures var (ok, now) := MakeRoom(st, d, cap, key);
            && ok && Accounts(now) && d in now.pools && now.pools[d].capacity == Some(cap)
            && Lurks(now.objects, now.pools[d].fifo, e)
  {
    hide Accounts, Lurks, Reclaim, Panics;
    MakeRoomKeeps(st, d, cap, key);
    var pool := st.pools[d];
    ScanMeets(st.objects, pool.used, pool.fifo, d, 0, key, e);
  }

  lemma ReserveAccounts(st: State, key: Key, spec: ObjectSpec)
    requires Accounts(st)
    ensures Accounts(Reserve(st, key, spec))
  {
    hide StoreBytes, ObjectBytes;
    if key !in st.objects {
      forall d | d in st.pools
        ensures StoreBytes(Reserve(st, key, spec).objects, d) == StoreBytes(st.objects, d)
      {
        StoreBytesPut(st.objects, d, key, Blank(spec));
        EmptyObjectBytes(Blank(spec).slots, d);
      }
    }
  }

  lemma ReserveLurks(st: State, key: Key, spec: ObjectSpec, queue: seq<Entry>, e: Entry)
    requires Lurks(st.objects, queue, e) && key !in st.objects
    ensures Lurks(Reserve(st, key, spec).objects, queue, e) && e.key != key
  {
    hide Anchored;
  }

  // ---------------------------------------------------------------------
  // Anchoring the object with a loan

  lemma PublishAccounts(st: State, key: Key, slot: nat, loan: Loan)
    requires Accounts(st)
    ensures Accounts(Publish(st, key, slot, loan).0)
  {
    hide StoreBytes, ObjectBytes, SlotBytes;
    var (now, reply) := Publish(st, key, slot, loan);
    if reply.Ok? {
      var s, r := st.objects[key].slots[slot], Replica(loan.device, External, false, Lent(loan.segs, loan.region));
      forall d | d in st.pools ensures StoreBytes(now.objects, d) == StoreBytes(st.objects, d) {
        StoreBytesPut(st.objects, d, key, now.objects[key]);
        SlotUpdateBytes(st.objects[key].slots, slot, s + [r], d);
        LentSlot(s, r, d);
      }
    }
  }

  /** Lend a replica to the key's first slot, if it has one. */
  function Anchoring(st: State, key: Key, d: Device): seq<Op>
    requires key in st.objects
  {
    if st.objects[key].spec.slots == [] then []
    else [OpPublish(key, 0, Loan(d, [Seg(0, st.objects[key].spec.slots[0].len)], 0))]
  }

  lemma AnchoredAfter(c: Config, st: State, key: Key, d: Device, e: Entry)
    requires Squared(st) && Accounts(st) && d in st.pools && e in st.pools[d].fifo && e.key == key
    requires Evictable(st.objects, key) && |st.objects[key].slots| <= e.slot
    ensures var ops := Anchoring(st, key, d);
            var now := After(c, st, ops);
            LegalRun(c, st, ops) && Accounts(now) && now.pools == st.pools && Lurks(now.objects, st.pools[d].fifo, e)
  {
    hide Accounts;
    var ops := Anchoring(st, key, d);
    if ops != [] {
      var len := st.objects[key].spec.slots[0].len;
      var loan := Loan(d, [Seg(0, len)], 0);
      assert ops[..0] == [] && Total(loan.segs) == len;
      PublishAccounts(st, key, 0, loan);
      var now := Publish(st, key, 0, loan).0;
      var s := now.objects[key].slots[0];
      assert s[|s| - 1].data.Lent? && s[|s| - 1] in s;
    }
  }

  // ---------------------------------------------------------------------
  // The result

  /** From any state with exact accounts in which an entry is queued past the slots of its Cache object, on
      a pool of positive capacity, a legal run panics. */
  lemma NarrowPanics(c: Config, st: State, d: Device, e: Entry)
    requires Squared(st) && Accounts(st) && d in st.pools && e in st.pools[d].fifo
    requires st.pools[d].capacity.Some? && st.pools[d].capacity.value > 0
    requires Evictable(st.objects, e.key) && |st.objects[e.key].slots| <= e.slot
    ensures !NeverPanics(c, st)
  {
    hide Accounts, Lurks, After, LegalRun, PutPanics;
    var ops := Anchoring(st, e.key, d);
    AnchoredAfter(c, st, e.key, d, e);
    var now := After(c, st, ops);
    var key := KeyOrder.NewKey(now.objects.Keys);
    var cap := st.pools[d].capacity.value;
    GreedyPanics(now, c.order, d, cap, key, e);
    var op := OpPut(key, Explicit, Greedy(d, cap));
    assert Legal(now, op) && OpPanics(c, now, op);
  }

  lemma InvAccounts(st: State)
    requires Inv(st)
    ensures Accounts(st)
  {
    hide StoreBytes, Queued, Shaped, Scannable;
    forall d | d in st.pools ensures st.pools[d].used == StoreBytes(st.objects, d) { assert PoolInv(st.objects, st.pools[d], d); }
  }

  /** Putting a new Cache key over pools of positive capacity goes through. After it no operation of any
      legal run panics, exactly when no entry that a bounded pool still queues under the key is past its
      slots. */
  lemma ReusableExactly(c: Config, st: State, key: Key, fills: seq<Fill>)
    requires Inv(st) && key !in st.objects && Sized(fills)
    requires forall d | d in st.pools && st.pools[d].capacity.Some? :: st.pools[d].capacity.value > 0
    ensures Squared(st) && !PutPanics(st, c.order, key, Cache, fills)
    ensures Squared(Put(st, c.order, key, Cache, fills).0)
    ensures NeverPanics(c, Put(st, c.order, key, Cache, fills).0) <==> Reusable(st, key, SpecOf(Cache, fills))
  {
    hide Inv, Put, PutPanics, OthersFit, NeverPanics, Accounts;
    InvSquared(st);
    InvFit(st, key);
    PutPasses(st, c.order, key, Cache, fills);
    var spec := SpecOf(Cache, fills);
    var now := Put(st, c.order, key, Cache, fills).0;
    ApplySquared(c, st, OpPut(key, Cache, fills));
    assert now == Apply(c, st, OpPut(key, Cache, fills));
    if Reusable(st, key, spec) {
      PutContract(st, c.order, key, Cache, fills);
      InvNeverPanics(c, now);
    } else {
      var d, i :| d in st.pools && st.pools[d].capacity.Some? && 0 <= i < |st.pools[d].fifo|
        && st.pools[d].fifo[i].key == key && |spec.slots| <= st.pools[d].fifo[i].slot;
      InvAccounts(st);
      ReserveAccounts(st, key, spec);
      ReserveStarts(st, key, Cache, fills);
      PutKeeps(st, c.order, key, Cache, fills);
      assert st.pools[d].fifo[i] in st.pools[d].fifo;
      NarrowPanics(c, now, d, st.pools[d].fifo[i]);
    }
  }

  // ---------------------------------------------------------------------
  // Unbounded pools

  ghost predicate Unbounded(st: State) { forall d | d in st.pools :: st.pools[d].capacity.None? }

  lemma ApplyUnbounded(c: Config, st: State, op: Op)
    requires Squared(st) && Unbounded(st)
    ensures Unbounded(Apply(c, st, op))
  {
    hide Put, Retained, Accounts;
    match op
    case OpPut(key, retention, fills) =>
      if key in st.objects ==> st.objects[key].spec == SpecOf(retention, fills) {
        PutKeeps(st, c.order, key, retention, fills);
      } else {
        PutRefused(st, c.order, key, retention, fills);
      }
    case OpPublish(key, slot, loan) =>
    case OpRetire(region) =>
    case OpRemove(keys) => RemoveSquared(st, keys);
    case OpRemovePrefix(prefix) => RemoveSquared(st, KeyOrder.PrefixRun(st.objects.Keys, prefix));
  }

  /** Over unbounded pools nothing is ever scanned: no run panics, whatever keys it re-creates. */
  lemma {:induction false} UnboundedNeverPanics(c: Config, st: State, ops: seq<Op>, op: Op)
    requires Squared(st) && Unbounded(st)
    ensures Unbounded(After(c, st, ops)) && !OpPanics(c, After(c, st, ops), op)
  {
    hide Apply, PutPanics, OthersFit;
    if ops != [] {
      UnboundedNeverPanics(c, st, ops[..|ops| - 1], op);
      ApplyUnbounded(c, After(c, st, ops[..|ops| - 1]), ops[|ops| - 1]);
    }
    var now := After(c, st, ops);
    if op.OpPut? {
      NothingScanned(now, op.key);
      PutPasses(now, c.order, op.key, op.retention, op.fills);
    }
  }

  lemma NothingScanned(st: State, key: Key)
    requires Unbounded(st)
    ensures OthersFit(st, key)
  {
  }
}
