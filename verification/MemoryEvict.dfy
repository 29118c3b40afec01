/** `State::make_room`: first-in first-out eviction on one device, and exactly when it succeeds. */
module MemoryEvict {
  import opened Types
  import opened MemoryData

  datatype Reclaimed = Reclaimed(objects: map<Key, Object>, used: int, queue: seq<Entry>)

  predicate AllFit(objects: map<Key, Object>, queue: seq<Entry>) {
    forall i | 0 <= i < |queue| :: Fits(objects, queue[i])
  }

  /** Only a bounded pool's queue is ever scanned, so only there must the queued indices be in range. */
  predicate Scannable(objects: map<Key, Object>, pool: Pool) {
    pool.capacity.Some? ==> AllFit(objects, pool.fifo)
  }

  lemma EvictFits(objects: map<Key, Object>, e: Entry, d: Device, queue: seq<Entry>)
    requires Fits(objects, e) && AllFit(objects, queue)
    ensures AllFit(Evict(objects, e, d), queue)
  {
    hide Without;
    forall i | 0 <= i < |queue| ensures Fits(Evict(objects, e, d), queue[i]) { assert Fits(objects, queue[i]); }
  }

  /** The object of `key`, if there is one, is as it was. */
  predicate SameObject(was: map<Key, Object>, now: map<Key, Object>, key: Key) {
    (key in now <==> key in was) && (key in was ==> now[key] == was[key])
  }

  /** The scan: pop entries from the front until at most `room` bytes are used. Entries of the
      protected key stay queued in their order; all others are consumed. It stops where the source
      panics: at an entry past the slots of its object (`Panics`). */
  function Reclaim(objects: map<Key, Object>, used: int, queue: seq<Entry>, d: Device, room: int, key: Key): (r: Reclaimed)
    ensures SameObject(objects, r.objects, key)
    decreases |queue|
  {
    if used <= room || queue == [] then Reclaimed(objects, used, queue)
    else if queue[0].key == key then
      var r := Reclaim(objects, used, queue[1..], d, room, key);
      r.(queue := [queue[0]] + r.queue)
    else if !Fits(objects, queue[0]) then Reclaimed(objects, used, queue)
    else Reclaim(Evict(objects, queue[0], d), used - Freed(objects, queue[0], d), queue[1..], d, room, key)
  }

  function MakeRoom(st: State, d: Device, need: nat, key: Key): (r: (bool, State))
    requires d in st.pools
    ensures r.1.pools.Keys == st.pools.Keys && SameObject(st.objects, r.1.objects, key)
  {
    var pool := st.pools[d];
    if pool.capacity.None? then (true, st)
    else if need > pool.capacity.value then (false, st)
    else
      var r := Reclaim(st.objects, pool.used, pool.fifo, d, pool.capacity.value - need, key);
      (r.used + need <= pool.capacity.value,
       State(r.objects, st.pools[d := pool.(used := r.used, fifo := r.queue)]))
  }

  // ---------------------------------------------------------------------
  // The run invariant

  /** Every slot of an evictable object other than `key` that owns something on `d` is queued for `d`. */
  ghost predicate QueuedBut(objects: map<Key, Object>, queue: seq<Entry>, d: Device, key: Key) {
    forall k, i | Evictable(objects, k) && k != key && 0 <= i < |objects[k].slots| && SlotHas(objects[k].slots[i], d) ::
      Entry(k, i) in queue
  }

  ghost predicate Queued(objects: map<Key, Object>, queue: seq<Entry>, d: Device) {
    forall k, i | Evictable(objects, k) && 0 <= i < |objects[k].slots| && SlotHas(objects[k].slots[i], d) ::
      Entry(k, i) in queue
  }

  /** A slot has the length its spec promises, on devices the store serves. */
  ghost predicate Shaped(o: Object, devices: set<Device>) {
    && |o.slots| == |o.spec.slots|
    && forall i, j | 0 <= i < |o.slots| && 0 <= j < |o.slots[i]| && o.slots[i][j].data.Owned? ::
         o.slots[i][j].device in devices && |o.slots[i][j].data.bytes| == o.spec.slots[i].len
  }

  ghost predicate PoolInv(objects: map<Key, Object>, pool: Pool, d: Device) {
    && pool.used == StoreBytes(objects, d)
    && Queued(objects, pool.fifo, d)
    && Scannable(objects, pool)
  }

  ghost predicate Inv(st: State) {
    && (forall d | d in st.pools :: PoolInv(st.objects, st.pools[d], d))
    && (forall k | k in st.objects :: Shaped(st.objects[k], st.pools.Keys))
  }

  /** Room can be made on `d` for `need` bytes of `key`: what cannot be evicted leaves enough. */
  ghost predicate Admits(st: State, d: Device, need: nat, key: Key) {
    && d in st.pools
    && (st.pools[d].capacity.Some? ==> need + KeptBytes(st.objects, key, d) <= st.pools[d].capacity.value)
  }

  // ---------------------------------------------------------------------
  // The scan

  lemma EvictQueued(objects: map<Key, Object>, queue: seq<Entry>, d: Device, key: Key)
    requires queue != [] && AllFit(objects, queue) && QueuedBut(objects, queue, d, key) && queue[0].key != key
    ensures Fits(objects, queue[0]) && QueuedBut(Evict(objects, queue[0], d), queue[1..], d, key)
  {
    hide Without;
    var e := queue[0];
    assert Fits(objects, e);
    var now := Evict(objects, e, d);
    forall k, i | Evictable(now, k) && k != key && 0 <= i < |now[k].slots| && SlotHas(now[k].slots[i], d)
      ensures Entry(k, i) in queue[1..]
    {
      assert k in objects;
      WithoutHas(objects[k].slots[i], d, d);
      assert Entry(k, i) in queue && Entry(k, i) != e;
    }
  }

  /** The whole scan: exact accounting, what is kept, what is left queued, and when it succeeds. */
  lemma {:induction false} ReclaimSpec(objects: map<Key, Object>, used: int, queue: seq<Entry>, d: Device, room: int, key: Key)
    requires AllFit(objects, queue) && QueuedBut(objects, queue, d, key) && used == StoreBytes(objects, d)
    ensures var r := Reclaim(objects, used, queue, d, room, key);
            && r.used == StoreBytes(r.objects, d)
            && QueuedBut(r.objects, r.queue, d, key)
            && (forall e | e in r.queue :: e in queue)
            && (forall e | e in queue && e.key == key :: e in r.queue)
            && Kept(r.objects, key) == Kept(objects, key)
            && (r.used <= room <==> KeptBytes(objects, key, d) <= room)
    decreases |queue|
  {
    hide StoreBytes, Evict, Freed, Without, Kept;
    if used <= room {
      KeptAtMost(objects, key, d);
    } else if queue == [] {
      NothingQueued(objects, d, key);
    } else if queue[0].key == key {
      assert QueuedBut(objects, queue[1..], d, key) by {
        assert queue == [queue[0]] + queue[1..];
      }
      ReclaimSpec(objects, used, queue[1..], d, room, key);
      assert queue == [queue[0]] + queue[1..];
    } else {
      var e := queue[0];
      EvictQueued(objects, queue, d, key);
      EvictFits(objects, e, d, queue[1..]);
      EvictBytes(objects, e, d, d);
      EvictKeeps(objects, e, d, key);
      ReclaimSpec(Evict(objects, e, d), used - Freed(objects, e, d), queue[1..], d, room, key);
      assert queue == [queue[0]] + queue[1..];
    }
  }

  /** The objects after evicting the first `n` queued entries, those of `key` excepted. */
  function EvictFirst(objects: map<Key, Object>, queue: seq<Entry>, d: Device, key: Key, n: nat): map<Key, Object>
    requires n <= |queue| && AllFit(objects, queue)
    decreases n
  {
    if n == 0 then objects
    else if queue[0].key == key then EvictFirst(objects, queue[1..], d, key, n - 1)
    else
      assert Fits(objects, queue[0]);
      EvictFits(objects, queue[0], d, queue[1..]);
      EvictFirst(Evict(objects, queue[0], d), queue[1..], d, key, n - 1)
  }

  /** First in, first out, and no more than needed: the scan evicts the shortest prefix of the queue
      after which at most `room` bytes are used (all of it when none does), and what stays queued is
      the protected entries of that prefix followed by the rest, in order. */
  lemma {:induction false} ReclaimShortestPrefix(objects: map<Key, Object>, used: int, queue: seq<Entry>, d: Device, room: int, key: Key)
    returns (n: nat)
    requires AllFit(objects, queue) && used == StoreBytes(objects, d)
    ensures n <= |queue|
    ensures forall m | 0 <= m < n :: room < StoreBytes(EvictFirst(objects, queue, d, key, m), d)
    ensures n < |queue| ==> StoreBytes(EvictFirst(objects, queue, d, key, n), d) <= room
    ensures var r := Reclaim(objects, used, queue, d, room, key);
            && r.objects == EvictFirst(objects, queue, d, key, n)
            && r.queue == EntriesOf(queue[..n], key) + queue[n..]
    decreases |queue|
  {
    hide StoreBytes, Evict, Freed, EntriesOf, Fits, AllFit;
    if used <= room || queue == [] {
      n := 0;
      NoEntries(queue, key);
    } else {
      var e, rest := queue[0], queue[1..];
      FrontFits(objects, queue);
      var now, left := objects, used;
      if e.key != key {
        EvictFits(objects, e, d, rest);
        EvictBytes(objects, e, d, d);
        now, left := Evict(objects, e, d), used - Freed(objects, e, d);
      }
      var m := ReclaimShortestPrefix(now, left, rest, d, room, key);
      n := m + 1;
      forall i | 0 <= i < n
        ensures room < StoreBytes(EvictFirst(objects, queue, d, key, i), d)
      {
        if i > 0 { assert EvictFirst(objects, queue, d, key, i) == EvictFirst(now, rest, d, key, i - 1); }
      }
      assert EvictFirst(objects, queue, d, key, n) == EvictFirst(now, rest, d, key, m);
      LeftQueued(queue, m, key);
    }
  }

  lemma FrontFits(objects: map<Key, Object>, queue: seq<Entry>)
    requires queue != [] && AllFit(objects, queue)
    ensures Fits(objects, queue[0]) && AllFit(objects, queue[1..])
  {
  }

  lemma NoEntries(queue: seq<Entry>, key: Key)
    ensures EntriesOf(queue[..0], key) + queue[0..] == queue
  {
  }

  lemma LeftQueued(queue: seq<Entry>, m: nat, key: Key)
    requires m < |queue|
    ensures EntriesOf(queue[..m + 1], key) + queue[m + 1..]
         == (if queue[0].key == key then [queue[0]] else []) + (EntriesOf(queue[1..][..m], key) + queue[1..][m..])
  {
    assert queue[..m + 1][1..] == queue[1..][..m] && queue[m + 1..] == queue[1..][m..] && queue[..m + 1][0] == queue[0];
  }

  lemma NothingQueued(objects: map<Key, Object>, d: Device, key: Key)
    requires QueuedBut(objects, [], d, key)
    ensures StoreBytes(objects, d) == KeptBytes(objects, key, d)
  {
    forall k, i | k in objects && !Protected(objects, key, k) && 0 <= i < |objects[k].slots|
      ensures !SlotHas(objects[k].slots[i], d)
    {
      assert Evictable(objects, k);
    }
    OnlyKeptBytes(objects, key, d);
  }

  lemma {:induction false} ReclaimThins(objects: map<Key, Object>, used: int, queue: seq<Entry>, d: Device, room: int, key: Key)
    requires AllFit(objects, queue)
    ensures Thinned(objects, Reclaim(objects, used, queue, d, room, key).objects, d)
    decreases |queue|
  {
    hide Evict, Freed, Without, Thinned;
    if used <= room || queue == [] {
      ThinnedSelf(objects, d);
    } else if queue[0].key == key {
      ReclaimThins(objects, used, queue[1..], d, room, key);
    } else {
      var e := queue[0];
      assert Fits(objects, e);
      EvictThins(objects, e, d);
      EvictFits(objects, e, d, queue[1..]);
      ReclaimThins(Evict(objects, e, d), used - Freed(objects, e, d), queue[1..], d, room, key);
      ThinnedTwice(objects, Evict(objects, e, d), Reclaim(objects, used, queue, d, room, key).objects, d);
    }
  }

  lemma ThinnedSelf(objects: map<Key, Object>, d: Device)
    ensures Thinned(objects, objects, d)
  {
  }

  lemma {:induction false} ReclaimElsewhere(objects: map<Key, Object>, used: int, queue: seq<Entry>, d: Device, room: int, key: Key,
                                            d': Device)
    requires AllFit(objects, queue) && d' != d
    ensures StoreBytes(Reclaim(objects, used, queue, d, room, key).objects, d') == StoreBytes(objects, d')
    decreases |queue|
  {
    hide Evict, Freed, StoreBytes;
    if used > room && queue != [] {
      if queue[0].key == key {
        ReclaimElsewhere(objects, used, queue[1..], d, room, key, d');
      } else {
        var e := queue[0];
        assert Fits(objects, e);
        EvictBytes(objects, e, d, d');
        EvictFits(objects, e, d, queue[1..]);
        ReclaimElsewhere(Evict(objects, e, d), used - Freed(objects, e, d), queue[1..], d, room, key, d');
      }
    }
  }

  // ---------------------------------------------------------------------
  // Thinning keeps the other devices' bookkeeping and the shape of objects

  lemma ThinnedQueued(was: map<Key, Object>, now: map<Key, Object>, d: Device, queue: seq<Entry>, d': Device)
    requires Thinned(was, now, d) && Queued(was, queue, d')
    ensures Queued(now, queue, d')
  {
    forall k, i | Evictable(now, k) && 0 <= i < |now[k].slots| && SlotHas(now[k].slots[i], d')
      ensures Entry(k, i) in queue
    {
      WithoutHas(was[k].slots[i], d, d');
      assert SlotHas(was[k].slots[i], d');
    }
  }

  lemma ThinnedFits(was: map<Key, Object>, now: map<Key, Object>, d: Device, queue: seq<Entry>)
    requires Thinned(was, now, d) && AllFit(was, queue)
    ensures AllFit(now, queue)
  {
    hide Without;
    forall i | 0 <= i < |queue| ensures Fits(now, queue[i]) { assert Fits(was, queue[i]); }
  }

  lemma ThinnedShaped(was: map<Key, Object>, now: map<Key, Object>, d: Device, devices: set<Device>, k: Key)
    requires Thinned(was, now, d) && k in now && Shaped(was[k], devices)
    ensures Shaped(now[k], devices)
  {
    hide Without;
    var a, b := was[k], now[k];
    forall i, j | 0 <= i < |b.slots| && 0 <= j < |b.slots[i]| && b.slots[i][j].data.Owned?
      ensures b.slots[i][j].device in devices && |b.slots[i][j].data.bytes| == b.spec.slots[i].len
    {
      WithoutMembers(a.slots[i], d, b.slots[i][j]);
      assert b.slots[i][j] in a.slots[i];
    }
  }

  /** What one scan leaves in the pool it worked on. */
  lemma ScannedPool(objects: map<Key, Object>, pool: Pool, d: Device, room: int, key: Key)
    requires PoolInv(objects, pool, d) && pool.capacity.Some?
    ensures var r := Reclaim(objects, pool.used, pool.fifo, d, room, key);
            PoolInv(r.objects, pool.(used := r.used, fifo := r.queue), d)
  {
    hide Reclaim, StoreBytes, Kept, Thinned, Without;
    var r := Reclaim(objects, pool.used, pool.fifo, d, room, key);
    assert QueuedBut(objects, pool.fifo, d, key);
    ReclaimSpec(objects, pool.used, pool.fifo, d, room, key);
    ReclaimThins(objects, pool.used, pool.fifo, d, room, key);
    ThinnedQueued(objects, r.objects, d, pool.fifo, d);
    ThinnedFits(objects, r.objects, d, pool.fifo);
    forall k, i | Evictable(r.objects, k) && 0 <= i < |r.objects[k].slots| && SlotHas(r.objects[k].slots[i], d)
      ensures Entry(k, i) in r.queue
    {
      assert Entry(k, i) in pool.fifo;
    }
    forall i | 0 <= i < |r.queue|
      ensures Fits(r.objects, r.queue[i])
    {
      assert r.queue[i] in pool.fifo;
    }
  }

  /** The main result about one call. Its answer depends on nothing but the bytes that cannot be
      evicted, and it keeps the bookkeeping of every pool. */
  lemma MakeRoomSpec(st: State, d: Device, need: nat, key: Key)
    requires Inv(st) && d in st.pools
    ensures var (ok, st') := MakeRoom(st, d, need, key);
            && (ok <==> Admits(st, d, need, key))
            && Inv(st')
            && Thinned(st.objects, st'.objects, d)
            && Kept(st'.objects, key) == Kept(st.objects, key)
            && st'.pools.Keys == st.pools.Keys
            && (forall d' | d' in st.pools :: st'.pools[d'].capacity == st.pools[d'].capacity)
            && (forall d' | d' in st.pools && d' != d :: st'.pools[d'] == st.pools[d'])
            && (ok && st.pools[d].capacity.Some? ==> st'.pools[d].used + need <= st.pools[d].capacity.value)
            && st'.pools[d].used <= st.pools[d].used
  {
    hide Reclaim, StoreBytes, Kept, Thinned, PoolInv, Shaped;
    var pool := st.pools[d];
    PoolFacts(st.objects, pool, d);
    ThinnedSelf(st.objects, d);
    if pool.capacity.Some? && need <= pool.capacity.value {
      var room := pool.capacity.value - need;
      var r := Reclaim(st.objects, pool.used, pool.fifo, d, room, key);
      assert QueuedBut(st.objects, pool.fifo, d, key);
      ReclaimSpec(st.objects, pool.used, pool.fifo, d, room, key);
      ReclaimThins(st.objects, pool.used, pool.fifo, d, room, key);
      ReclaimShrinks(st.objects, pool.used, pool.fifo, d, room, key);
      ScannedPool(st.objects, pool, d, room, key);
      ScannedOthers(st, d, room, key);
      assert st.pools[d := pool.(used := r.used, fifo := r.queue)].Keys == st.pools.Keys;
    }
  }

  /** How much one call evicts. Nothing, where the pool has room as it is, is unbounded, or is too small
      for the request; otherwise the first `n` queued entries, those of `key` excepted, with `n` the least
      number after which the request fits (all of them when there is none). What stays queued keeps its
      order. */
  lemma MakeRoomEvicts(st: State, d: Device, need: nat, key: Key) returns (n: nat)
    requires Inv(st) && d in st.pools
    ensures var pool := st.pools[d];
            pool.capacity.None? || pool.used + need <= pool.capacity.value ==> MakeRoom(st, d, need, key) == (true, st)
    ensures var pool := st.pools[d];
            pool.capacity.Some? && need > pool.capacity.value ==> MakeRoom(st, d, need, key) == (false, st)
    ensures var pool := st.pools[d];
            pool.capacity.Some? && need <= pool.capacity.value ==>
              && n <= |pool.fifo| && AllFit(st.objects, pool.fifo)
              && (forall m | 0 <= m < n ::
                    StoreBytes(EvictFirst(st.objects, pool.fifo, d, key, m), d) + need > pool.capacity.value)
              && (n < |pool.fifo| ==>
                    StoreBytes(EvictFirst(st.objects, pool.fifo, d, key, n), d) + need <= pool.capacity.value)
              && var now := MakeRoom(st, d, need, key).1;
                 && now.objects == EvictFirst(st.objects, pool.fifo, d, key, n)
                 && now.pools[d].fifo == EntriesOf(pool.fifo[..n], key) + pool.fifo[n..]
                 && now.pools[d].used == StoreBytes(now.objects, d)
  {
    hide StoreBytes, Queued, Shaped, EvictFirst, EntriesOf;
    n := 0;
    var pool := st.pools[d];
    assert PoolInv(st.objects, pool, d);
    if pool.capacity.Some? && need <= pool.capacity.value {
      var room := pool.capacity.value - need;
      assert pool.used <= room ==> Reclaim(st.objects, pool.used, pool.fifo, d, room, key) == Reclaimed(st.objects, pool.used, pool.fifo);
      hide Reclaim;
      n := ReclaimShortestPrefix(st.objects, pool.used, pool.fifo, d, room, key);
      QueuedAll(st.objects, pool.fifo, d, key);
      ReclaimSpec(st.objects, pool.used, pool.fifo, d, room, key);
      assert pool.used <= room ==> st.pools[d := pool] == st.pools;
    }
  }

  lemma QueuedAll(objects: map<Key, Object>, queue: seq<Entry>, d: Device, key: Key)
    requires Queued(objects, queue, d)
    ensures QueuedBut(objects, queue, d, key)
  {
  }

  lemma PoolFacts(objects: map<Key, Object>, pool: Pool, d: Device)
    requires PoolInv(objects, pool, d)
    ensures pool.used == StoreBytes(objects, d) && Queued(objects, pool.fifo, d) && Scannable(objects, pool)
  {
  }

  lemma {:induction false} ReclaimShrinks(objects: map<Key, Object>, used: int, queue: seq<Entry>, d: Device, room: int, key: Key)
    requires AllFit(objects, queue)
    ensures Reclaim(objects, used, queue, d, room, key).used <= used
    decreases |queue|
  {
    hide Evict, Freed;
    if used > room && queue != [] {
      if queue[0].key == key {
        ReclaimShrinks(objects, used, queue[1..], d, room, key);
      } else {
        assert Fits(objects, queue[0]);
        EvictFits(objects, queue[0], d, queue[1..]);
        ReclaimShrinks(Evict(objects, queue[0], d), used - Freed(objects, queue[0], d), queue[1..], d, room, key);
      }
    }
  }

  lemma ScannedOthers(st: State, d: Device, room: int, key: Key)
    requires Inv(st) && d in st.pools && st.pools[d].capacity.Some?
    ensures AllFit(st.objects, st.pools[d].fifo)
    ensures var r := Reclaim(st.objects, st.pools[d].used, st.pools[d].fifo, d, room, key);
            && (forall d' | d' in st.pools && d' != d :: PoolInv(r.objects, st.pools[d'], d'))
            && (forall k | k in r.objects :: Shaped(r.objects[k], st.pools.Keys))
  {
    hide Reclaim, StoreBytes, Thinned, Shaped;
    var pool := st.pools[d];
    assert PoolInv(st.objects, pool, d);
    var r := Reclaim(st.objects, pool.used, pool.fifo, d, room, key);
    ReclaimThins(st.objects, pool.used, pool.fifo, d, room, key);
    forall d' | d' in st.pools && d' != d
      ensures PoolInv(r.objects, st.pools[d'], d')
    {
      assert PoolInv(st.objects, st.pools[d'], d');
      ReclaimElsewhere(st.objects, pool.used, pool.fifo, d, room, key, d');
      ThinnedQueued(st.objects, r.objects, d, st.pools[d'].fifo, d');
      if st.pools[d'].capacity.Some? { ThinnedFits(st.objects, r.objects, d, st.pools[d'].fifo); }
    }
    forall k | k in r.objects
      ensures Shaped(r.objects[k], st.pools.Keys)
    {
      ThinnedKey(st.objects, r.objects, d, k);
      ThinnedShaped(st.objects, r.objects, d, st.pools.Keys, k);
    }
  }

  lemma ThinnedKey(was: map<Key, Object>, now: map<Key, Object>, d: Device, k: Key)
    requires Thinned(was, now, d) && k in now
    ensures k in was && now[k].spec == was[k].spec && |now[k].slots| == |was[k].slots|
  {
  }
}
