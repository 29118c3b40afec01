/** The locked sections of the single-node backend as methods on its state. */
module LocalStore {
  import opened Types
  import opened LocalData
  import opened LocalMachine
  import opened LocalEffects
  import opened LocalQueue
  import opened PinnedPool
  import Pinned = PinnedRuns
  import KeyOrder

  // ---------------------------------------------------------------------
  // Specification helpers

  /** Every queued entry of a live Cache object names one of its slots. */
  ghost predicate AllFit(objects: Objects, queue: seq<Entry>) {
    forall j | 0 <= j < |queue| :: Evictable(objects, queue[j].key) ==> queue[j].slot < |objects[queue[j].key].slots|
  }

  lemma FitTail(objects: Objects, queue: seq<Entry>)
    requires AllFit(objects, queue) && queue != []
    ensures AllFit(objects, queue[1..])
  {
  }

  lemma EvictFit(objects: Objects, e: Entry, d: Device, queue: seq<Entry>)
    requires AllFit(objects, queue) && Evictable(objects, e.key) && e.slot < |objects[e.key].slots|
    ensures AllFit(Evict(objects, e, d), queue)
  {
    hide Without, Deserted;
  }

  /** Where every entry fits, no scan panics, and every entry still fits afterwards. */
  lemma {:induction false} ScanFits(objects: Objects, queue: seq<Entry>, d: Device, key: Key)
    requires AllFit(objects, queue)
    ensures LocalData.Scan(objects, queue, d, key).Scanned?
    ensures AllFit(LocalData.Scan(objects, queue, d, key).objects, LocalData.Scan(objects, queue, d, key).queue)
    decreases |queue|
  {
    hide Evict, AllFit, HasPinned;
    EmptyFits(objects);
    if queue != [] {
      var e, rest := queue[0], queue[1..];
      FitTail(objects, queue);
      FitHead(objects, queue);
      if e.key == key {
        ScanFits(objects, rest, d, key);
        var r := LocalData.Scan(objects, rest, d, key);
        ScanSame(objects, rest, d, key);
        Refit(objects, e, r.objects, r.queue);
      } else if !Evictable(objects, e.key) {
        ScanFits(objects, rest, d, key);
      } else {
        EvictFit(objects, e, d, rest);
        ScanFits(Evict(objects, e, d), rest, d, key);
      }
    }
  }

  lemma EmptyFits(objects: Objects)
    ensures AllFit(objects, [])
  {
  }

  lemma FitHead(objects: Objects, queue: seq<Entry>)
    requires AllFit(objects, queue) && queue != []
    ensures Evictable(objects, queue[0].key) ==> queue[0].slot < |objects[queue[0].key].slots|
  {
  }

  lemma Refit(was: Objects, e: Entry, now: Objects, queue: seq<Entry>)
    requires AllFit(now, queue)
    requires Evictable(was, e.key) ==> e.slot < |was[e.key].slots|
    requires forall k | k in now :: k in was && now[k].spec == was[k].spec && |now[k].slots| == |was[k].slots|
    ensures AllFit(now, [e] + queue)
  {
  }

  lemma {:induction false} ScanSame(objects: Objects, queue: seq<Entry>, d: Device, key: Key)
    ensures var r := LocalData.Scan(objects, queue, d, key);
            r.Scanned? ==>
              forall k | k in r.objects :: k in objects && r.objects[k].spec == objects[k].spec
                                           && |r.objects[k].slots| == |objects[k].slots|
    decreases |queue|
  {
    hide HasPinned, Without, Deserted;
    if queue != [] {
      var e, rest := queue[0], queue[1..];
      if e.key == key || !Evictable(objects, e.key) {
        ScanSame(objects, rest, d, key);
      } else if e.slot < |objects[e.key].slots| {
        ScanSame(Evict(objects, e, d), rest, d, key);
      }
    }
  }

  /** Entries set aside so far, put back in front. */
  function Ahead(deferred: seq<Entry>, r: Scanned): Scanned {
    if r.Panicked? then r else r.(queue := deferred + r.queue)
  }

  lemma AheadStep(deferred: seq<Entry>, e: Entry, r: Scanned)
    ensures Ahead(deferred, Requeue(e, r)) == Ahead(deferred + [e], r)
  {
    if r.Scanned? { assert deferred + ([e] + r.queue) == (deferred + [e]) + r.queue; }
  }

  /** The pinned buffers on `d` that a slot's replicas refer to. */
  function PinnedBufs(rs: seq<Replica>, d: Device): seq<BufId> {
    if rs == [] then []
    else (if PinnedOn(rs[0], d) then [rs[0].data.buf] else []) + PinnedBufs(rs[1..], d)
  }

  lemma TakeSlot(rs: seq<Replica>, j: nat)
    requires j < |rs|
    ensures rs[..j + 1] == rs[..j] + [rs[j]]
  {
  }

  lemma {:induction false} WithoutSnoc(rs: seq<Replica>, r: Replica, d: Device)
    ensures Without(rs + [r], d) == Without(rs, d) + (if PinnedOn(r, d) then [] else [r])
    ensures PinnedBufs(rs + [r], d) == PinnedBufs(rs, d) + (if PinnedOn(r, d) then [r.data.buf] else [])
  {
    if rs != [] {
      WithoutSnoc(rs[1..], r, d);
      assert (rs + [r])[1..] == rs[1..] + [r];
    }
  }

  lemma {:induction false} BufsIffPinned(rs: seq<Replica>, d: Device)
    ensures PinnedBufs(rs, d) != [] <==> exists j | 0 <= j < |rs| :: PinnedOn(rs[j], d)
  {
    if rs != [] {
      BufsIffPinned(rs[1..], d);
      if !PinnedOn(rs[0], d) && PinnedBufs(rs[1..], d) != [] {
        var j :| 0 <= j < |rs[1..]| && PinnedOn(rs[1..][j], d);
        assert PinnedOn(rs[j + 1], d);
      }
      if j :| 0 <= j < |rs| && PinnedOn(rs[j], d) {
        if j > 0 { assert PinnedOn(rs[1..][j - 1], d); }
      }
    }
  }

  ghost function Dropped(pool: Pinned.PoolState, bufs: seq<BufId>): Pinned.PoolState {
    if bufs == [] then pool
    else Pinned.Next(Dropped(pool, bufs[..|bufs| - 1]), Pinned.Drop(bufs[|bufs| - 1].id))
  }

  lemma {:induction false} DroppedSafe(pool: Pinned.PoolState, bufs: seq<BufId>)
    requires Pinned.Safe(pool)
    ensures Pinned.Safe(Dropped(pool, bufs)) && Dropped(pool, bufs).capacity == pool.capacity
  {
    hide Pinned.Safe, GiveBack;
    if bufs != [] {
      DroppedSafe(pool, bufs[..|bufs| - 1]);
      Pinned.StepSafe(Dropped(pool, bufs[..|bufs| - 1]), Pinned.Drop(bufs[|bufs| - 1].id));
    }
  }

  /** Dropping the references to buffers takes exactly these off the live ones. */
  lemma {:induction false} DroppedExactly(pool: Pinned.PoolState, bufs: seq<BufId>)
    ensures Dropped(pool, bufs).live == pool.live - (set b | b in bufs :: b.id)
  {
    hide GiveBack;
    if bufs != [] {
      var front, last := bufs[..|bufs| - 1], bufs[|bufs| - 1];
      DroppedExactly(pool, front);
      assert bufs == front + [last];
      assert (set b | b in bufs :: b.id) == (set b | b in front :: b.id) + {last.id};
    }
  }

  lemma {:induction false} BufsMembers(rs: seq<Replica>, d: Device, b: BufId)
    ensures b in PinnedBufs(rs, d) <==> exists r :: r in rs && r.device == d && r.data == Data.Pinned(b)
  {
    if rs != [] {
      BufsMembers(rs[1..], d, b);
      assert rs == [rs[0]] + rs[1..];
    }
  }

  /** The buffers whose replicas a scan drops. */
  ghost function ScanBufs(objects: Objects, queue: seq<Entry>, d: Device, key: Key): seq<BufId>
    decreases |queue|
  {
    if queue == [] then []
    else
      var e, rest := queue[0], queue[1..];
      if e.key == key || !Evictable(objects, e.key) then ScanBufs(objects, rest, d, key)
      else if e.slot >= |objects[e.key].slots| then []
      else if HasPinned(objects[e.key].slots[e.slot], d) then PinnedBufs(objects[e.key].slots[e.slot].replicas, d)
      else ScanBufs(Evict(objects, e, d), rest, d, key)
  }

  /** They are those of the first victim's slot on the node. */
  lemma {:induction false} ScanBufsExactly(objects: Objects, queue: seq<Entry>, n: nat, key: Key, j: nat)
    requires LocalData.Scan(objects, queue, Cpu(n), key).Scanned? && FirstVictim(objects, queue, n, key, j)
    ensures ScanBufs(objects, queue, Cpu(n), key)
         == if j < |queue| then PinnedBufs(objects[queue[j].key].slots[queue[j].slot].replicas, Cpu(n)) else []
    decreases |queue|
  {
    hide Evict, PinnedBufs;
    if queue != [] {
      var e, rest := queue[0], queue[1..];
      if e.key == key || !Evictable(objects, e.key) {
        TailVictim(objects, queue, n, key, j);
        ScanBufsExactly(objects, rest, n, key, j - 1);
      } else if !HasPinned(objects[e.key].slots[e.slot], Cpu(n)) {
        TailVictim(objects, queue, n, key, j);
        var now := Evict(objects, e, Cpu(n));
        EvictOnly(objects, e, n);
        EvictIdle(objects, e, n);
        SameVictim(objects, now, rest, n, key, e, j - 1);
        ScanBufsExactly(now, rest, n, key, j - 1);
      }
    }
  }

  lemma TailVictim(objects: Objects, queue: seq<Entry>, n: nat, key: Key, j: nat)
    requires queue != [] && !Victim(objects, queue, n, key, 0) && FirstVictim(objects, queue, n, key, j)
    ensures j > 0 && FirstVictim(objects, queue[1..], n, key, j - 1)
    ensures j < |queue| ==> queue[1..][j - 1] == queue[j]
  {
    hide Spare;
    var rest := queue[1..];
    forall i | 0 <= i < |rest|
      ensures Victim(objects, rest, n, key, i) <==> Victim(objects, queue, n, key, i + 1)
    {
      assert rest[i] == queue[i + 1];
    }
  }

  lemma SameVictim(was: Objects, now: Objects, queue: seq<Entry>, n: nat, key: Key, e: Entry, j: nat)
    requires OnlyGone(was, now, n, Some(e)) && !Spare(was, n, e.key, e.slot) && FirstVictim(was, queue, n, key, j)
    requires forall k | k in now :: k in was && now[k] == was[k]
    ensures FirstVictim(now, queue, n, key, j)
    ensures j < |queue| ==> queue[j].key in was && queue[j].key in now && now[queue[j].key] == was[queue[j].key]
  {
    forall i: nat | i < |queue|
      ensures Victim(was, queue, n, key, i) <==> Victim(now, queue, n, key, i)
    {
      assert Spare(now, n, queue[i].key, queue[i].slot) <==> Spare(was, n, queue[i].key, queue[i].slot);
    }
  }

  /** What a node's scans work on. */
  datatype Round = Round(objects: Objects, queue: seq<Entry>, pool: Pinned.PoolState)

  /** After `k` scans in a row, each returning the buffers it drops. */
  ghost function Rounds(start: Round, n: nat, key: Key, k: nat): Round {
    if k == 0 then start
    else
      var was := Rounds(start, n, key, k - 1);
      var r := LocalData.Scan(was.objects, was.queue, Cpu(n), key);
      if r.Panicked? then was
      else Round(r.objects, r.queue, Dropped(was.pool, ScanBufs(was.objects, was.queue, Cpu(n), key)))
  }

  /** No more scans than needed: before each of the `k` the request did not fit, and after them it does, or
      there is nothing to drop; none at all for a request larger than the pool. */
  ghost predicate Course(start: Round, n: nat, key: Key, len: nat, k: nat, b: Result<BufId>, end: Round) {
    var last := Rounds(start, n, key, k);
    && (forall m: nat | m < k :: !Fits(Rounds(start, n, key, m).pool, RoundUp(len)))
    && (len > start.pool.capacity && !Fits(start.pool, RoundUp(len)) ==> k == 0)
    && end.objects == last.objects && end.queue == last.queue
    && if b.Ok? then
         Fits(last.pool, RoundUp(len)) && b.value == BufId(n, last.pool.next) && end.pool == Pinned.Next(last.pool, Pinned.Take(len))
       else !Fits(last.pool, RoundUp(len)) && end.pool == last.pool
  }

  // ---------------------------------------------------------------------
  // The backend

  class Local {
    var objects: Objects
    var fifo: map<nat, seq<Entry>>
    var pools: map<nat, Pinned.PoolState>

    /** Phase 1 of put: reserve the key and claim every slot that has no replica and no writer. */
    method ClaimSlots(key: Key, spec: ObjectSpec) returns (r: Result<seq<bool>>)
      requires Shaped(objects)
      modifies this`objects
      ensures r.Ok? <==> key !in old(objects) || old(objects)[key].spec == spec
      ensures r.Err? ==> r.kind == SpecMismatch && objects == old(objects)
      ensures r.Ok? ==> objects == LocalData.Claim(old(objects), key, spec)
                        && r.value == Writable(Reserved(old(objects), key, spec))
    {
      if key in objects && objects[key].spec != spec {
        return Err(SpecMismatch);
      }
      if key !in objects {
        objects := objects[key := Blank(spec)];
      }
      ghost var o := Reserved(old(objects), key, spec);
      var slots: seq<Slot>, writable: seq<bool> := objects[key].slots, [];
      for i := 0 to |slots|
        invariant |slots| == |o.slots| && |writable| == i
        invariant forall j | 0 <= j < i :: writable[j] == Free(o.slots[j])
        invariant forall j | 0 <= j < i :: slots[j] == Claimed(o).slots[j]
        invariant forall j | i <= j < |slots| :: slots[j] == o.slots[j]
      {
        var w := slots[i].replicas == [] && !slots[i].writing;
        if w { slots := slots[i := slots[i].(writing := true)]; }
        writable := writable + [w];
      }
      assert slots == Claimed(o).slots;
      objects := objects[key := objects[key].(slots := slots)];
      r := Ok(writable);
    }

    /** Phase 3 of put: look the key up again, show the filled buffers, clear the mark, queue the slot. */
    method InstallSlot(key: Key, i: nat, placed: seq<Placed>) returns (r: Result<()>)
      requires key in objects ==> i < |objects[key].slots|
      requires forall j | 0 <= j < |placed| :: placed[j].buf.numa in fifo
      modifies this`objects, this`fifo
      ensures r.Ok? <==> key in old(objects)
      ensures r.Err? ==> r.kind == NotFound && objects == old(objects) && fifo == old(fifo)
      ensures r.Ok? ==> objects == LocalData.Install(old(objects), key, i, FreshReplicas(placed))
                        && fifo == Queue(old(fifo), placed, Entry(key, i))
      ensures r.Ok? ==> OnlySlot(old(objects), objects, key, i) && !objects[key].slots[i].writing
      ensures r.Ok? ==>
                var was, now := old(objects)[key].slots[i].replicas, objects[key].slots[i].replicas;
                && |now| == |was| + |placed| && now[..|was|] == was
                && forall j | 0 <= j < |placed| ::
                     now[|was| + j] == Replica(Cpu(placed[j].buf.numa), Dram, placed[j].misplaced, Data.Pinned(placed[j].buf))
      ensures r.Ok? ==>
                && fifo.Keys == old(fifo).Keys
                && forall n | n in fifo :: Behind(old(fifo)[n], fifo[n], Entry(key, i), PlacedOn(placed, n))
    {
      hide Queue;
      if key !in objects {
        return Err(NotFound);
      }
      var o := objects[key];
      var rs := o.slots[i].replicas;
      for j := 0 to |placed|
        invariant rs == o.slots[i].replicas + FreshReplicas(placed[..j])
        invariant objects == old(objects) && fifo == old(fifo)
      {
        var p := placed[j];
        rs := rs + [Replica(Cpu(p.buf.numa), Dram, p.misplaced, Data.Pinned(p.buf))];
        assert FreshReplicas(placed[..j + 1]) ==
               FreshReplicas(placed[..j]) + [Replica(Cpu(p.buf.numa), Dram, p.misplaced, Data.Pinned(p.buf))];
      }
      assert placed[..|placed|] == placed;
      objects := objects[key := o.(slots := o.slots[i := Slot(rs, false)])];
      InstallExactly(old(objects), key, i, FreshReplicas(placed));
      ChargeQueues(key, i, placed);
      QueueExactly(old(fifo), placed, Entry(key, i));
      r := Ok(());
    }

    method ChargeQueues(key: Key, i: nat, placed: seq<Placed>)
      requires forall j | 0 <= j < |placed| :: placed[j].buf.numa in fifo
      modifies this`fifo
      ensures fifo == Queue(old(fifo), placed, Entry(key, i))
    {
      assert placed[..0] == [];
      for j := 0 to |placed|
        invariant fifo == Queue(old(fifo), placed[..j], Entry(key, i))
        invariant fifo.Keys == old(fifo.Keys)
      {
        var n := placed[j].buf.numa;
        QueueSnoc(old(fifo), placed[..j], placed[j], Entry(key, i));
        assert placed[..j + 1] == placed[..j] + [placed[j]];
        fifo := fifo[n := fifo[n] + [Entry(key, i)]];
      }
      assert placed[..|placed|] == placed;
    }

    /** The error path of put: the mark goes, if the object is still there. */
    method ReleaseClaim(key: Key, i: nat)
      requires key in objects ==> i < |objects[key].slots|
      modifies this`objects
      ensures objects == Unclaim(old(objects), key, i)
      ensures key in old(objects) ==>
                && OnlySlot(old(objects), objects, key, i)
                && objects[key].slots[i] == old(objects)[key].slots[i].(writing := false)
      ensures key !in old(objects) ==> objects == old(objects)
    {
      if key in objects {
        var o := objects[key];
        objects := objects[key := o.(slots := o.slots[i := o.slots[i].(writing := false)])];
      }
    }

    method RetainSlot(rs: seq<Replica>, region: nat) returns (keep: seq<Replica>)
      ensures keep == Retained(rs, region)
    {
      keep := [];
      for j := 0 to |rs|
        invariant keep == Retained(rs[..j], region)
      {
        TakeSlot(rs, j);
        RetainedSnoc(rs[..j], rs[j], region);
        if rs[j].data != Lent(region) { keep := keep + [rs[j]]; }
      }
      assert rs[..|rs|] == rs;
    }

    /** A region goes away: every slot of every object loses exactly the replicas it lent. */
    method RetireRegion(region: nat)
      modifies this`objects
      ensures objects == LocalData.Retire(old(objects), region)
    {
      hide Retained;
      var todo := objects.Keys;
      while todo != {}
        invariant todo <= objects.Keys == old(objects.Keys)
        invariant forall k | k in objects ::
                    objects[k] == if k in todo then old(objects)[k] else RetiredObject(old(objects)[k], region)
        decreases |todo|
      {
        var k :| k in todo;
        todo := todo - {k};
        var o := RetireObject(objects[k], region);
        objects := objects[k := o];
      }
    }

    method RetireObject(o: Object, region: nat) returns (r: Object)
      ensures r == RetiredObject(o, region)
    {
      hide Retained;
      var slots: seq<Slot> := o.slots;
      for i := 0 to |slots|
        invariant |slots| == |o.slots|
        invariant forall j | 0 <= j < |slots| ::
                    slots[j] == if j < i then RetiredObject(o, region).slots[j] else o.slots[j]
      {
        var keep := RetainSlot(slots[i].replicas, region);
        slots := slots[i := slots[i].(replicas := keep)];
      }
      assert slots == RetiredObject(o, region).slots;
      r := o.(slots := slots);
    }

    method Remove(keys: seq<Key>)
      modifies this`objects
      ensures objects == old(objects) - (set k | k in keys)
    {
      for i := 0 to |keys|
        invariant objects == old(objects) - (set k | k in keys[..i])
      {
        objects := objects - {keys[i]};
        assert keys[..i + 1] == keys[..i] + [keys[i]];
      }
      assert keys[..|keys|] == keys;
    }

    /** Walk the keys from the prefix on while they start with it; remove them and count them. */
    method RemovePrefix(prefix: Key) returns (n: nat)
      modifies this`objects
      ensures forall k :: k in objects <==> k in old(objects) && !(prefix <= k)
      ensures forall k | k in objects :: objects[k] == old(objects)[k]
      ensures n == |set k | k in old(objects).Keys && prefix <= k|
    {
      hide KeyOrder.PrefixRun;
      var keys := KeyOrder.PrefixRun(objects.Keys, prefix);
      KeyOrder.PrefixRunExact(objects.Keys, prefix);
      n := |keys|;
      Remove(keys);
    }

    /** Drop a slot's pinned replicas on one node, and with them the last references to their buffers. */
    method Retain(key: Key, i: nat, d: Device) returns (dropped: seq<BufId>)
      requires key in objects && i < |objects[key].slots|
      modifies this`objects
      ensures objects == old(objects)[key := Thin(old(objects)[key], i, d)]
      ensures dropped == PinnedBufs(old(objects)[key].slots[i].replicas, d)
    {
      var o := objects[key];
      var rs := o.slots[i].replicas;
      var keep: seq<Replica>;
      keep, dropped := [], [];
      for j := 0 to |rs|
        invariant objects == old(objects)
        invariant keep == Without(rs[..j], d) && dropped == PinnedBufs(rs[..j], d)
      {
        TakeSlot(rs, j);
        WithoutSnoc(rs[..j], rs[j], d);
        if PinnedOn(rs[j], d) { dropped := dropped + [rs[j].data.buf]; } else { keep := keep + [rs[j]]; }
      }
      assert rs[..|rs|] == rs;
      objects := objects[key := o.(slots := o.slots[i := o.slots[i].(replicas := keep)])];
    }

    method IsDeserted(o: Object) returns (r: bool)
      ensures r == Deserted(o)
    {
      for i := 0 to |o.slots|
        invariant forall j | 0 <= j < i :: Free(o.slots[j])
      {
        if !(o.slots[i].replicas == [] && !o.slots[i].writing) {
          assert !Free(o.slots[i]);
          return false;
        }
      }
      r := true;
    }

    method EvictEntry(e: Entry, d: Device) returns (dropped: seq<BufId>)
      requires Evictable(objects, e.key) && e.slot < |objects[e.key].slots|
      modifies this`objects
      ensures objects == Evict(old(objects), e, d)
      ensures dropped != [] <==> HasPinned(old(objects)[e.key].slots[e.slot], d)
      ensures dropped == PinnedBufs(old(objects)[e.key].slots[e.slot].replicas, d)
    {
      hide Without, Deserted, PinnedBufs;
      dropped := Retain(e.key, e.slot, d);
      BufsIffPinned(old(objects)[e.key].slots[e.slot].replicas, d);
      var gone := IsDeserted(objects[e.key]);
      if gone { objects := objects - {e.key}; }
      assert old(objects)[e.key := Thin(old(objects)[e.key], e.slot, d)] - {e.key} == old(objects) - {e.key};
    }

    /** One locked scan: pop entries until a replica goes, then put the protected ones back in front. */
    method EvictOne(n: nat, key: Key) returns (evicted: bool, dropped: seq<BufId>)
      requires n in fifo && LocalData.Scan(objects, fifo[n], Cpu(n), key).Scanned?
      modifies this`objects, this`fifo
      ensures var r := LocalData.Scan(old(objects), old(fifo[n]), Cpu(n), key);
              objects == r.objects && fifo == old(fifo)[n := r.queue] && evicted == r.evicted
      ensures evicted <==> dropped != []
      ensures dropped == ScanBufs(old(objects), old(fifo[n]), Cpu(n), key)
    {
      hide Evict, HasPinned, PinnedBufs;
      var queue, deferred: seq<Entry> := fifo[n], [];
      ghost var all, bufs := LocalData.Scan(objects, queue, Cpu(n), key), ScanBufs(objects, queue, Cpu(n), key);
      evicted, dropped := false, [];
      while queue != [] && !evicted
        invariant fifo == old(fifo)
        invariant evicted <==> dropped != []
        invariant !evicted ==> all == Ahead(deferred, LocalData.Scan(objects, queue, Cpu(n), key))
        invariant evicted ==> all == Scanned(objects, deferred + queue, true)
        invariant bufs == if evicted then dropped else ScanBufs(objects, queue, Cpu(n), key)
        decreases |queue|
      {
        var e := queue[0];
        queue := queue[1..];
        if e.key == key {
          AheadStep(deferred, e, LocalData.Scan(objects, queue, Cpu(n), key));
          deferred := deferred + [e];
        } else if e.key in objects && objects[e.key].spec.retention == Cache {
          dropped := EvictEntry(e, Cpu(n));
          evicted := dropped != [];
        }
      }
      fifo := fifo[n := deferred + queue];
    }

    /** Buffers whose last reference went return to their pool. */
    method ReturnBuffers(n: nat, bufs: seq<BufId>)
      requires n in pools
      modifies this`pools
      ensures pools == old(pools)[n := Dropped(old(pools)[n], bufs)]
    {
      hide Pinned.Next;
      assert bufs[..0] == [];
      for i := 0 to |bufs|
        invariant pools == old(pools)[n := Dropped(old(pools)[n], bufs[..i])]
      {
        pools := pools[n := Pinned.Next(pools[n], Pinned.Drop(bufs[i].id))];
        assert bufs[..i + 1][..i] == bufs[..i];
      }
      assert bufs[..|bufs|] == bufs;
    }

    method TryTake(n: nat, len: nat) returns (b: Option<BufId>)
      requires n in pools && Pinned.Safe(pools[n])
      modifies this`pools
      ensures b.Some? <==> Fits(old(pools)[n], RoundUp(len))
      ensures b.None? ==> pools == old(pools)
      ensures b.Some? ==> b.value == BufId(n, old(pools)[n].next)
                          && pools == old(pools)[n := Pinned.Next(old(pools)[n], Pinned.Take(len))]
      ensures n in pools && Pinned.Safe(pools[n]) && pools[n].capacity == old(pools)[n].capacity
    {
      hide Pinned.Safe, Carve;
      Pinned.StepSafe(pools[n], Pinned.Take(len));
      if FirstFit(pools[n].free, RoundUp(len)) < |pools[n].free| {
        b := Some(BufId(n, pools[n].next));
        pools := pools[n := Pinned.Next(pools[n], Pinned.Take(len))];
      } else {
        b := None;
      }
    }

    ghost predicate Ready(n: nat)
      reads this
    {
      n in pools && n in fifo && Pinned.Safe(pools[n]) && Covered(objects, fifo) && AllFit(objects, fifo[n])
    }

    /** Run without interference: it ends, because every round that goes on has shortened the node's
        queue; it fails only for a request larger than the pool or when every pinned replica on the node
        is Explicit or the protected key's; and it touches neither kind. */
    method AllocOrEvict(n: nat, len: nat, key: Key) returns (b: Result<BufId>)
      requires n in pools ==> Ready(n)
      modifies this
      ensures n !in old(pools) <==> b == Err(InvalidInput)
      ensures b == Err(InvalidInput) ==> objects == old(objects) && fifo == old(fifo) && pools == old(pools)
      ensures n in old(pools) ==> Ready(n) && pools[n].capacity == old(pools)[n].capacity
      ensures b.Err? && n in old(pools) ==>
                && b.kind == NoSpace && !Fits(pools[n], RoundUp(len))
                && (len > pools[n].capacity || Exhausted(objects, n, key))
      ensures b.Ok? ==> b.value.numa == n && b.value.id in pools[n].live
                        && pools[n].live[b.value.id].len == RoundUp(len)
      ensures forall k | k in old(objects) && (k == key || old(objects)[k].spec.retention == Explicit) ::
                k in objects && objects[k] == old(objects)[k]
      ensures n in old(pools) ==>
                && pools == old(pools)[n := pools[n]] && fifo == old(fifo)[n := fifo[n]]
                && exists k: nat ::
                     Course(Round(old(objects), old(fifo)[n], old(pools)[n]), n, key, len, k, b, Round(objects, fifo[n], pools[n]))
    {
      hide Pinned.Next, Pinned.Safe, Covered, AllFit, Exhausted, Fits, RoundUp, LocalData.Scan, Dropped, ScanBufs;
      if n !in pools {
        return Err(InvalidInput);
      }
      TakeFacts(pools[n], len);
      assert fifo == fifo[n := fifo[n]] && pools == pools[n := pools[n]];
      ghost var start, rounds: nat := Round(objects, fifo[n], pools[n]), 0;
      assert Rounds(start, n, key, 0) == start;
      var first := TryTake(n, len);
      if first.Some? {
        assert Course(start, n, key, len, 0, Ok(first.value), Round(objects, fifo[n], pools[n]));
        return Ok(first.value);
      }
      if len > pools[n].capacity {
        assert Course(start, n, key, len, 0, Err(NoSpace), Round(objects, fifo[n], pools[n]));
        return Err(NoSpace);
      }
      while true
        invariant Ready(n) && pools[n].capacity == old(pools)[n].capacity && len <= pools[n].capacity
        invariant start == Round(old(objects), old(fifo)[n], old(pools)[n])
        invariant Rounds(start, n, key, rounds) == Round(objects, fifo[n], pools[n])
        invariant forall m: nat | m <= rounds :: !Fits(Rounds(start, n, key, m).pool, RoundUp(len))
        invariant fifo == old(fifo)[n := fifo[n]] && pools == old(pools)[n := pools[n]]
        invariant forall k | k in old(objects) && (k == key || old(objects)[k].spec.retention == Explicit) ::
                    k in objects && objects[k] == old(objects)[k]
        decreases |fifo[n]|
      {
        ghost var was, queue := objects, fifo[n];
        ScanFits(objects, fifo[n], Cpu(n), key);
        ScanFacts(objects, fifo, n, key);
        var evicted, dropped := EvictOne(n, key);
        forall k | k in old(objects) && (k == key || old(objects)[k].spec.retention == Explicit)
          ensures k in objects && objects[k] == old(objects)[k]
        {
          ScanSpares(was, queue, Cpu(n), key, k);
        }
        DroppedSafe(pools[n], dropped);
        ReturnBuffers(n, dropped);
        rounds := rounds + 1;
        assert Rounds(start, n, key, rounds) == Round(objects, fifo[n], pools[n]);
        TakeFacts(pools[n], len);
        var next := TryTake(n, len);
        if next.Some? {
          assert Course(start, n, key, len, rounds, Ok(next.value), Round(objects, fifo[n], pools[n]));
          return Ok(next.value);
        }
        if !evicted {
          assert Course(start, n, key, len, rounds, Err(NoSpace), Round(objects, fifo[n], pools[n]));
          return Err(NoSpace);
        }
      }
    }
  }

  lemma {:induction false} QueueSnoc(fifo: map<nat, seq<Entry>>, placed: seq<Placed>, p: Placed, e: Entry)
    ensures var q := Queue(fifo, placed, e);
            Queue(fifo, placed + [p], e) ==
            q[p.buf.numa := (if p.buf.numa in q then q[p.buf.numa] else []) + [e]]
    decreases |placed|
  {
    if placed == [] {
      assert ([p])[1..] == [] && placed + [p] == [p];
    } else {
      var n := placed[0].buf.numa;
      QueueSnoc(fifo[n := (if n in fifo then fifo[n] else []) + [e]], placed[1..], p, e);
      assert (placed + [p])[1..] == placed[1..] + [p];
    }
  }

  lemma {:induction false} RetainedSnoc(rs: seq<Replica>, r: Replica, region: nat)
    ensures Retained(rs + [r], region) == Retained(rs, region) + (if r.data == Lent(region) then [] else [r])
  {
    if rs != [] {
      RetainedSnoc(rs[1..], r, region);
      assert (rs + [r])[1..] == rs[1..] + [r];
    }
  }

  lemma TakeFacts(pool: Pinned.PoolState, len: nat)
    requires Pinned.Safe(pool)
    ensures Fits(pool, RoundUp(len)) ==>
              var q := Pinned.Next(pool, Pinned.Take(len));
              pool.next in q.live && q.live[pool.next].len == RoundUp(len)
  {
    hide Carve, RoundUp;
  }

  /** What one scan means for the loop around it. */
  lemma ScanFacts(objects: Objects, fifo: map<nat, seq<Entry>>, n: nat, key: Key)
    requires n in fifo && Covered(objects, fifo) && LocalData.Scan(objects, fifo[n], Cpu(n), key).Scanned?
    ensures var r := LocalData.Scan(objects, fifo[n], Cpu(n), key);
            && Covered(r.objects, fifo[n := r.queue])
            && (r.evicted ==> |r.queue| < |fifo[n]|)
            && (!r.evicted ==> Exhausted(r.objects, n, key))
  {
    hide LocalData.Scan, Spare;
    var r := LocalData.Scan(objects, fifo[n], Cpu(n), key);
    assert Covers(objects, fifo[n], {}, n);
    ScanEvictsIff(objects, fifo[n], n, key);
    ScanCovers(objects, fifo[n], n, key, {});
    FewerSpare(objects, r.objects, fifo);
    if !r.evicted { OnlyProtected(r.objects, r.queue, n, key); }
  }
}
