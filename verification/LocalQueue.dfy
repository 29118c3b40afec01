/** The eviction queues of the single-node backend: what they cover, what a scan drops, when a put
    is told there is no space. */
module LocalQueue {
  import opened Types
  import opened LocalData
  import opened LocalMachine
  import opened LocalSafety
  import LocalRuns
  import Pinned = PinnedRuns

  // ---------------------------------------------------------------------
  // Coverage

  /** A pinned replica on node `n` that eviction may drop. */
  ghost predicate Spare(objects: Objects, n: nat, k: Key, i: int) {
    Evictable(objects, k) && 0 <= i < |objects[k].slots| && HasPinned(objects[k].slots[i], Cpu(n))
  }

  /** Every spare replica on node `n` has an entry in the queue or among those set aside. */
  ghost predicate Covers(objects: Objects, queue: seq<Entry>, aside: set<Entry>, n: nat) {
    forall k, i: nat | Spare(objects, n, k, i) :: Entry(k, i) in queue || Entry(k, i) in aside
  }

  ghost predicate Covered(objects: Objects, fifo: map<nat, seq<Entry>>) {
    forall n | n in fifo :: Covers(objects, fifo[n], {}, n)
  }

  ghost predicate NoNewSpare(was: Objects, now: Objects) {
    forall n, k, i | Spare(now, n, k, i) :: Spare(was, n, k, i)
  }

  /** Slots keep at most the pinned replicas they had. */
  lemma HasFewer(s: Slot, t: Slot, d: Device)
    requires forall r | r in t.replicas && r.data.Pinned? :: r in s.replicas
    ensures HasPinned(t, d) ==> HasPinned(s, d)
  {
    if HasPinned(t, d) {
      var j :| 0 <= j < |t.replicas| && PinnedOn(t.replicas[j], d);
      assert t.replicas[j] in s.replicas;
    }
  }

  lemma WithoutHasNone(s: Slot, t: Slot, d: Device)
    requires t.replicas == Without(s.replicas, d)
    ensures !HasPinned(t, d)
  {
    forall r | r in t.replicas
      ensures !PinnedOn(r, d)
    {
      WithoutMembers(s.replicas, d, r);
    }
  }

  lemma EvictSpare(objects: Objects, e: Entry, d: Device)
    requires Evictable(objects, e.key) && e.slot < |objects[e.key].slots|
    ensures NoNewSpare(objects, Evict(objects, e, d))
    ensures d.Cpu? ==> !Spare(Evict(objects, e, d), d.numa, e.key, e.slot)
  {
    hide Without, HasPinned;
    var now := Evict(objects, e, d);
    var s := objects[e.key].slots[e.slot];
    var t := s.(replicas := Without(s.replicas, d));
    forall r | r in t.replicas ensures r in s.replicas { WithoutMembers(s.replicas, d, r); }
    WithoutHasNone(s, t, d);
    forall n, k, i | Spare(now, n, k, i)
      ensures Spare(objects, n, k, i)
    {
      HasFewer(s, t, Cpu(n));
    }
  }

  /** Evicting at an entry whose slot has nothing on the device takes no spare replica away. */
  lemma EvictNothing(objects: Objects, e: Entry, d: Device)
    requires Evictable(objects, e.key) && e.slot < |objects[e.key].slots|
    requires d.Cpu? && !HasPinned(objects[e.key].slots[e.slot], d)
    ensures forall k, i | Spare(objects, d.numa, k, i) :: Spare(Evict(objects, e, d), d.numa, k, i)
  {
    var s := objects[e.key].slots[e.slot];
    NothingDropped(s.replicas, d);
    var now := Thin(objects[e.key], e.slot, d);
    assert now.slots[e.slot] == s && now.slots == objects[e.key].slots;
    forall k, i | Spare(objects, d.numa, k, i)
      ensures Spare(Evict(objects, e, d), d.numa, k, i)
    {
      if k == e.key { assert !Free(now.slots[i]); }
    }
  }

  lemma {:induction false} NothingDropped(rs: seq<Replica>, d: Device)
    requires forall j | 0 <= j < |rs| :: !PinnedOn(rs[j], d)
    ensures Without(rs, d) == rs
  {
    if rs != [] {
      NothingDropped(rs[1..], d);
      assert rs == [rs[0]] + rs[1..];
    }
  }

  /** A scan keeps its queue covering; nothing becomes spare. */
  lemma {:induction false} ScanCovers(objects: Objects, queue: seq<Entry>, n: nat, key: Key, aside: set<Entry>)
    requires Covers(objects, queue, aside, n)
    ensures var r := LocalData.Scan(objects, queue, Cpu(n), key);
            r.Scanned? ==> Covers(r.objects, r.queue, aside, n) && NoNewSpare(objects, r.objects)
    decreases |queue|
  {
    hide Evict, Spare;
    if queue != [] {
      var e, rest := queue[0], queue[1..];
      assert forall x | x in queue :: x == e || x in rest;
      if e.key == key {
        ScanCovers(objects, rest, n, key, aside + {e});
      } else if !Evictable(objects, e.key) {
        NotSpare(objects, n, e);
        ScanCovers(objects, rest, n, key, aside);
      } else if e.slot < |objects[e.key].slots| {
        EvictSpare(objects, e, Cpu(n));
        ScanCovers(Evict(objects, e, Cpu(n)), rest, n, key, aside);
      }
    }
  }

  lemma NotSpare(objects: Objects, n: nat, e: Entry)
    requires !Evictable(objects, e.key)
    ensures !Spare(objects, n, e.key, e.slot)
  {
  }

  // ---------------------------------------------------------------------
  // What a scan drops

  /** It never touches the protected key or an object that is not a Cache object. */
  lemma {:induction false} ScanSpares(objects: Objects, queue: seq<Entry>, d: Device, key: Key, k: Key)
    requires k in objects && (k == key || objects[k].spec.retention == Explicit)
    ensures var r := LocalData.Scan(objects, queue, d, key);
            r.Scanned? ==> k in r.objects && r.objects[k] == objects[k]
    decreases |queue|
  {
    hide HasPinned, Deserted, Thin;
    if queue != [] {
      var e, rest := queue[0], queue[1..];
      if e.key == key || !Evictable(objects, e.key) {
        ScanSpares(objects, rest, d, key, k);
      } else if e.slot < |objects[e.key].slots| {
        ScanSpares(Evict(objects, e, d), rest, d, key, k);
      }
    }
  }

  /** Entry `j` names a spare replica outside the protected key. */
  ghost predicate Victim(objects: Objects, queue: seq<Entry>, n: nat, key: Key, j: int) {
    0 <= j < |queue| && queue[j].key != key && Spare(objects, n, queue[j].key, queue[j].slot)
  }

  /** A scan drops replicas exactly when its queue names a spare one outside the protected key; it
      shortens the queue whenever it does, and otherwise leaves only the protected key's entries. */
  lemma {:induction false} ScanEvictsIff(objects: Objects, queue: seq<Entry>, n: nat, key: Key)
    ensures var r := LocalData.Scan(objects, queue, Cpu(n), key);
            r.Scanned? ==>
              && (r.evicted <==> exists j :: Victim(objects, queue, n, key, j))
              && |r.queue| <= |queue| && (r.evicted ==> |r.queue| < |queue|)
              && (!r.evicted ==> forall j | 0 <= j < |r.queue| :: r.queue[j].key == key)
    decreases |queue|
  {
    hide Evict, HasPinned;
    var r := LocalData.Scan(objects, queue, Cpu(n), key);
    if queue != [] {
      var e, rest := queue[0], queue[1..];
      if e.key == key {
        ScanEvictsIff(objects, rest, n, key);
        VictimTail(objects, queue, n, key);
      } else if !Evictable(objects, e.key) {
        ScanEvictsIff(objects, rest, n, key);
        NotSpare(objects, n, e);
        VictimTail(objects, queue, n, key);
      } else if e.slot < |objects[e.key].slots| {
        if HasPinned(objects[e.key].slots[e.slot], Cpu(n)) {
          assert Victim(objects, queue, n, key, 0);
        } else {
          ScanEvictsIff(Evict(objects, e, Cpu(n)), rest, n, key);
          EvictSpare(objects, e, Cpu(n));
          EvictNothing(objects, e, Cpu(n));
          SameVictims(objects, Evict(objects, e, Cpu(n)), rest, n, key);
          VictimTail(objects, queue, n, key);
        }
      }
    }
  }

  lemma VictimTail(objects: Objects, queue: seq<Entry>, n: nat, key: Key)
    requires queue != [] && !Victim(objects, queue, n, key, 0)
    ensures (exists j :: Victim(objects, queue, n, key, j)) <==> exists j :: Victim(objects, queue[1..], n, key, j)
  {
    hide Spare;
    if j :| Victim(objects, queue, n, key, j) {
      assert Victim(objects, queue[1..], n, key, j - 1);
    }
    if j :| Victim(objects, queue[1..], n, key, j) {
      assert Victim(objects, queue, n, key, j + 1);
    }
  }

  lemma SameVictims(was: Objects, now: Objects, queue: seq<Entry>, n: nat, key: Key)
    requires forall k, i | Spare(was, n, k, i) :: Spare(now, n, k, i)
    requires NoNewSpare(was, now)
    ensures (exists j :: Victim(was, queue, n, key, j)) <==> exists j :: Victim(now, queue, n, key, j)
  {
    hide Spare;
    if j :| Victim(was, queue, n, key, j) { assert Victim(now, queue, n, key, j); }
    if j :| Victim(now, queue, n, key, j) { assert Victim(was, queue, n, key, j); }
  }

  /** Only the replicas of entry `e` on node `n` are gone; `None`: nothing is. */
  ghost predicate OnlyGone(was: Objects, now: Objects, n: nat, e: Option<Entry>) {
    forall m, k, i: nat :: Spare(now, m, k, i) <==> Spare(was, m, k, i) && !(m == n && e == Some(Entry(k, i)))
  }

  lemma EvictOnly(objects: Objects, e: Entry, n: nat)
    requires Evictable(objects, e.key) && e.slot < |objects[e.key].slots|
    ensures OnlyGone(objects, Evict(objects, e, Cpu(n)), n, Some(e))
  {
    hide Without, HasPinned;
    var now := Evict(objects, e, Cpu(n));
    var s := objects[e.key].slots[e.slot];
    var t := s.(replicas := Without(s.replicas, Cpu(n)));
    EvictSpare(objects, e, Cpu(n));
    forall m, k, i: nat | Spare(objects, m, k, i) && !(m == n && e == Entry(k, i))
      ensures Spare(now, m, k, i)
    {
      if k == e.key {
        if m != n { OthersStay(s, t, n, m); }
        StillThere(objects[k], e, n, i, m);
      }
    }
  }

  lemma OthersStay(s: Slot, t: Slot, n: nat, m: nat)
    requires t.replicas == Without(s.replicas, Cpu(n)) && m != n
    ensures HasPinned(s, Cpu(m)) ==> HasPinned(t, Cpu(m))
  {
    hide Without;
    if HasPinned(s, Cpu(m)) {
      var j :| 0 <= j < |s.replicas| && PinnedOn(s.replicas[j], Cpu(m));
      WithoutMembers(s.replicas, Cpu(n), s.replicas[j]);
      assert s.replicas[j] in t.replicas;
    }
  }

  lemma StillThere(o: Object, e: Entry, n: nat, i: nat, m: nat)
    requires e.slot < |o.slots| && i < |o.slots| && HasPinned(o.slots[i], Cpu(m)) && !(m == n && i == e.slot)
    requires i == e.slot ==> HasPinned(Thin(o, e.slot, Cpu(n)).slots[i], Cpu(m))
    ensures HasPinned(Thin(o, e.slot, Cpu(n)).slots[i], Cpu(m)) && !Deserted(Thin(o, e.slot, Cpu(n)))
  {
    hide Without;
    assert !Free(Thin(o, e.slot, Cpu(n)).slots[i]);
  }

  lemma OnlyTwice(a: Objects, b: Objects, c: Objects, n: nat, e: Option<Entry>, f: Entry)
    requires OnlyGone(a, b, n, Some(f)) && !Spare(a, n, f.key, f.slot) && OnlyGone(b, c, n, e)
    ensures OnlyGone(a, c, n, e)
  {
    hide Spare;
  }

  /** Entry `j` is the first that names a spare replica outside the protected key. */
  ghost predicate FirstVictim(objects: Objects, queue: seq<Entry>, n: nat, key: Key, j: nat) {
    j <= |queue| && (j < |queue| ==> Victim(objects, queue, n, key, j))
    && forall i | 0 <= i < j :: !Victim(objects, queue, n, key, i)
  }

  /** What a scan that reaches its first victim `j` leaves behind. */
  ghost predicate DropsAt(objects: Objects, queue: seq<Entry>, n: nat, key: Key, j: nat, r: Scanned) {
    && FirstVictim(objects, queue, n, key, j) && r.Scanned?
    && r.evicted == (j < |queue|)
    && r.queue == EntriesOf(queue[..j], key) + (if j < |queue| then queue[j + 1..] else [])
    && OnlyGone(objects, r.objects, n, if j < |queue| then Some(queue[j]) else None)
  }

  /** First in, first out, one slot at a time: a scan drops exactly the pinned replicas on the node of
      the first queued slot that it may drop, keeps the protected entries before it in order, and leaves
      the rest of the queue as it was. */
  lemma {:induction false} ScanDropsFirst(objects: Objects, queue: seq<Entry>, n: nat, key: Key) returns (j: nat)
    requires LocalData.Scan(objects, queue, Cpu(n), key).Scanned?
    ensures DropsAt(objects, queue, n, key, j, LocalData.Scan(objects, queue, Cpu(n), key))
    decreases |queue|
  {
    hide Evict, DropsAt, HasPinned;
    if queue == [] {
      NoneToDrop(objects, n, key);
      return 0;
    }
    var e, rest := queue[0], queue[1..];
    if e.key == key {
      j := ScanDropsFirst(objects, rest, n, key);
      PastEntry(objects, queue, n, key, j, LocalData.Scan(objects, rest, Cpu(n), key));
      j := j + 1;
    } else if !Evictable(objects, e.key) {
      j := ScanDropsFirst(objects, rest, n, key);
      PastEntry(objects, queue, n, key, j, LocalData.Scan(objects, rest, Cpu(n), key));
      j := j + 1;
    } else if HasPinned(objects[e.key].slots[e.slot], Cpu(n)) {
      DropHead(objects, queue, n, key);
      j := 0;
    } else {
      var now := Evict(objects, e, Cpu(n));
      var r := LocalData.Scan(now, rest, Cpu(n), key);
      j := ScanDropsFirst(now, rest, n, key);
      EvictOnly(objects, e, n);
      SameDrop(objects, now, rest, n, key, e, j, r);
      PastEntry(objects, queue, n, key, j, r);
      j := j + 1;
    }
  }

  lemma NoneToDrop(objects: Objects, n: nat, key: Key)
    ensures DropsAt(objects, [], n, key, 0, Scanned(objects, [], false))
  {
    hide Spare;
  }

  lemma DropHead(objects: Objects, queue: seq<Entry>, n: nat, key: Key)
    requires queue != [] && Victim(objects, queue, n, key, 0)
    ensures DropsAt(objects, queue, n, key, 0, Scanned(Evict(objects, queue[0], Cpu(n)), queue[1..], true))
  {
    hide OnlyGone, Evict;
    EvictOnly(objects, queue[0], n);
    assert queue[..0] == [];
  }

  /** Going past an entry that names no victim. */
  lemma PastEntry(objects: Objects, queue: seq<Entry>, n: nat, key: Key, i: nat, r: Scanned)
    requires queue != [] && !Victim(objects, queue, n, key, 0) && DropsAt(objects, queue[1..], n, key, i, r)
    ensures DropsAt(objects, queue, n, key, i + 1, if queue[0].key == key then Requeue(queue[0], r) else r)
  {
    hide OnlyGone, Victim;
    var e, rest := queue[0], queue[1..];
    ShiftFirst(objects, queue, n, key, i);
    var front := queue[..i + 1];
    assert front[0] == e && front[1..] == rest[..i];
    assert i < |rest| ==> queue[i + 2..] == rest[i + 1..] && queue[i + 1] == rest[i];
  }

  lemma SameDrop(was: Objects, now: Objects, queue: seq<Entry>, n: nat, key: Key, e: Entry, j: nat, r: Scanned)
    requires OnlyGone(was, now, n, Some(e)) && !Spare(was, n, e.key, e.slot) && DropsAt(now, queue, n, key, j, r)
    ensures DropsAt(was, queue, n, key, j, r)
  {
    hide OnlyGone, FirstVictim;
    SameFirst(was, now, queue, n, key, e, j);
    OnlyTwice(was, now, r.objects, n, if j < |queue| then Some(queue[j]) else None, e);
  }

  lemma SameFirst(was: Objects, now: Objects, queue: seq<Entry>, n: nat, key: Key, e: Entry, j: nat)
    requires OnlyGone(was, now, n, Some(e)) && !Spare(was, n, e.key, e.slot) && FirstVictim(now, queue, n, key, j)
    ensures FirstVictim(was, queue, n, key, j)
  {
    hide Spare;
    forall i: nat | i < |queue|
      ensures Victim(was, queue, n, key, i) <==> Victim(now, queue, n, key, i)
    {
      assert Spare(now, n, queue[i].key, queue[i].slot) <==> Spare(was, n, queue[i].key, queue[i].slot);
    }
  }

  lemma ShiftFirst(objects: Objects, queue: seq<Entry>, n: nat, key: Key, i: nat)
    requires queue != [] && !Victim(objects, queue, n, key, 0) && FirstVictim(objects, queue[1..], n, key, i)
    ensures FirstVictim(objects, queue, n, key, i + 1)
  {
    hide Spare;
    forall m | 0 < m < |queue|
      ensures Victim(objects, queue, n, key, m) <==> Victim(objects, queue[1..], n, key, m - 1)
    {
      assert queue[1..][m - 1] == queue[m];
    }
  }

  /** With a covering queue: a scan drops something exactly when some Cache object other than the
      protected one has a pinned replica on the node. */
  lemma ScanEvictsExactly(objects: Objects, queue: seq<Entry>, n: nat, key: Key)
    requires Covers(objects, queue, {}, n) && LocalData.Scan(objects, queue, Cpu(n), key).Scanned?
    ensures LocalData.Scan(objects, queue, Cpu(n), key).evicted <==>
            exists k, i: nat :: k != key && Spare(objects, n, k, i)
  {
    hide Spare, LocalData.Scan;
    ScanEvictsIff(objects, queue, n, key);
    if j :| Victim(objects, queue, n, key, j) {
      assert queue[j].key != key && Spare(objects, n, queue[j].key, queue[j].slot);
    }
    if k, i: nat :| k != key && Spare(objects, n, k, i) {
      assert Entry(k, i) in queue;
      var j :| 0 <= j < |queue| && queue[j] == Entry(k, i);
      assert Victim(objects, queue, n, key, j);
    }
  }

  // ---------------------------------------------------------------------
  // Coverage over runs

  lemma FewerSpare(was: Objects, now: Objects, fifo: map<nat, seq<Entry>>)
    requires Covered(was, fifo) && NoNewSpare(was, now)
    ensures Covered(now, fifo)
  {
    hide Spare;
    forall n | n in fifo
      ensures Covers(now, fifo[n], {}, n)
    {
      assert Covers(was, fifo[n], {}, n);
    }
  }

  lemma ClaimSpare(objects: Objects, key: Key, spec: ObjectSpec)
    ensures NoNewSpare(objects, LocalData.Claim(objects, key, spec))
  {
    var now := LocalData.Claim(objects, key, spec);
    forall n, k, i | Spare(now, n, k, i)
      ensures Spare(objects, n, k, i)
    {
      var o := Reserved(objects, key, spec);
      assert k == key ==> now[k].slots[i].replicas == o.slots[i].replicas;
      assert k == key ==> HasPinned(o.slots[i], Cpu(n));
    }
  }

  lemma UnclaimSpare(objects: Objects, key: Key, i: nat)
    requires key in objects ==> i < |objects[key].slots|
    ensures NoNewSpare(objects, Unclaim(objects, key, i))
  {
    var now := Unclaim(objects, key, i);
    forall n, k, j | Spare(now, n, k, j)
      ensures Spare(objects, n, k, j)
    {
      HasFewer(objects[k].slots[j], now[k].slots[j], Cpu(n));
    }
  }

  lemma PublishSpare(objects: Objects, key: Key, i: nat, device: Device, region: nat)
    requires key in objects && i < |objects[key].slots|
    ensures NoNewSpare(objects, LocalData.Publish(objects, key, i, device, region))
  {
    var now := LocalData.Publish(objects, key, i, device, region);
    forall n, k, j | Spare(now, n, k, j)
      ensures Spare(objects, n, k, j)
    {
      HasFewer(objects[k].slots[j], now[k].slots[j], Cpu(n));
    }
  }

  lemma RetireSpare(objects: Objects, region: nat)
    ensures NoNewSpare(objects, LocalData.Retire(objects, region))
  {
    hide Retained;
    var now := LocalData.Retire(objects, region);
    forall n, k, j | Spare(now, n, k, j)
      ensures Spare(objects, n, k, j)
    {
      var s, t := objects[k].slots[j], now[k].slots[j];
      forall r | r in t.replicas ensures r in s.replicas { RetainedMembers(s.replicas, region, r); }
      HasFewer(s, t, Cpu(n));
    }
  }

  lemma {:induction false} QueueHas(fifo: map<nat, seq<Entry>>, placed: seq<Placed>, e: Entry, n: nat)
    requires n in fifo
    ensures n in Queue(fifo, placed, e)
    ensures forall x | x in fifo[n] :: x in Queue(fifo, placed, e)[n]
    ensures forall j | 0 <= j < |placed| && placed[j].buf.numa == n :: e in Queue(fifo, placed, e)[n]
    decreases |placed|
  {
    if placed != [] {
      var m := placed[0].buf.numa;
      var now := fifo[m := (if m in fifo then fifo[m] else []) + [e]];
      QueueHas(now, placed[1..], e, n);
      assert forall x | x in fifo[n] :: x in now[n];
      assert m == n ==> e in now[n];
      forall j | 0 <= j < |placed| && placed[j].buf.numa == n
        ensures e in Queue(fifo, placed, e)[n]
      {
        if j > 0 { assert placed[1..][j - 1] == placed[j]; }
      }
    }
  }

  lemma {:induction false} QueueOnly(fifo: map<nat, seq<Entry>>, placed: seq<Placed>, e: Entry, n: nat)
    requires n in Queue(fifo, placed, e)
    ensures n in fifo || exists j | 0 <= j < |placed| :: placed[j].buf.numa == n
    decreases |placed|
  {
    if placed != [] {
      var m := placed[0].buf.numa;
      var now := fifo[m := (if m in fifo then fifo[m] else []) + [e]];
      QueueOnly(now, placed[1..], e, n);
      if n !in now {
        var j :| 0 <= j < |placed[1..]| && placed[1..][j].buf.numa == n;
        assert placed[j + 1].buf.numa == n;
      } else if n == m {
        assert placed[0].buf.numa == n;
      }
    }
  }

  /** How many of the buffers are on node `n`. */
  ghost function PlacedOn(placed: seq<Placed>, n: nat): nat {
    if placed == [] then 0 else (if placed[0].buf.numa == n then 1 else 0) + PlacedOn(placed[1..], n)
  }

  /** The queue has gained `n` times `e`, at its end. */
  ghost predicate Behind(was: seq<Entry>, now: seq<Entry>, e: Entry, n: nat) {
    |now| == |was| + n && now[..|was|] == was && forall i | |was| <= i < |now| :: now[i] == e
  }

  /** Every node's queue gains one entry at its end per buffer installed from it, and no other queue changes. */
  lemma {:induction false} QueueExactly(fifo: map<nat, seq<Entry>>, placed: seq<Placed>, e: Entry)
    requires forall j | 0 <= j < |placed| :: placed[j].buf.numa in fifo
    ensures Queue(fifo, placed, e).Keys == fifo.Keys
    ensures forall n | n in fifo :: Behind(fifo[n], Queue(fifo, placed, e)[n], e, PlacedOn(placed, n))
    decreases |placed|
  {
    if placed != [] {
      var m := placed[0].buf.numa;
      var now := fifo[m := fifo[m] + [e]];
      assert placed[0].buf.numa in fifo && now.Keys == fifo.Keys;
      forall j | 0 <= j < |placed[1..]| ensures placed[1..][j].buf.numa in now { assert placed[1..][j] == placed[j + 1]; }
      QueueExactly(now, placed[1..], e);
      forall n | n in fifo
        ensures Behind(fifo[n], Queue(fifo, placed, e)[n], e, PlacedOn(placed, n))
      {
        BehindOne(fifo[n], Queue(now, placed[1..], e)[n], e, PlacedOn(placed[1..], n), n == m);
      }
    }
  }

  lemma BehindOne(was: seq<Entry>, now: seq<Entry>, e: Entry, n: nat, more: bool)
    requires Behind(if more then was + [e] else was, now, e, n)
    ensures Behind(was, now, e, if more then n + 1 else n)
  {
    if more {
      assert now[..|was|] == now[..|was| + 1][..|was|];
      assert now[|was|] == now[..|was| + 1][|was|];
    }
  }

  /** Installing shows replicas on the nodes of the placed buffers only. */
  lemma InstallSpare(objects: Objects, key: Key, i: nat, placed: seq<Placed>, n: nat, k: Key, q: int)
    requires key in objects && i < |objects[key].slots|
    requires Spare(LocalData.Install(objects, key, i, FreshReplicas(placed)), n, k, q)
    ensures Spare(objects, n, k, q)
            || (k == key && q == i && exists j | 0 <= j < |placed| :: placed[j].buf.numa == n)
  {
    var now := LocalData.Install(objects, key, i, FreshReplicas(placed));
    if k == key && q == i {
      var rs, added := objects[key].slots[i].replicas, FreshReplicas(placed);
      var x :| 0 <= x < |rs + added| && PinnedOn((rs + added)[x], Cpu(n));
      if x < |rs| {
        assert PinnedOn(rs[x], Cpu(n));
      } else {
        assert placed[x - |rs|].buf.numa == n;
      }
    }
  }

  lemma InstallCovered(st: State, t: nat)
    requires Covered(st.objects, st.fifo) && Enabled(st, Step.Install(t))
    requires forall j | 0 <= j < |st.puts[t].placed| :: st.puts[t].placed[j].buf.numa in st.fifo
    ensures Covered(Installed(st, t).objects, Installed(st, t).fifo)
  {
    hide Spare, Queue, LocalData.Install, Sealed;
    var p, now := st.puts[t], Installed(st, t);
    if p.key in st.objects {
      forall n | n in now.fifo
        ensures Covers(now.objects, now.fifo[n], {}, n)
      {
        QueueOnly(st.fifo, p.placed, Request(st, t), n);
        QueueHas(st.fifo, p.placed, Request(st, t), n);
        forall k, i: nat | Spare(now.objects, n, k, i)
          ensures Entry(k, i) in now.fifo[n]
        {
          InstallSpare(st.objects, p.key, p.slot, p.placed, n, k, i);
          assert Covers(st.objects, st.fifo[n], {}, n);
        }
      }
    }
  }

  lemma ScanCovered(st: State, t: nat)
    requires Covered(st.objects, st.fifo) && Enabled(st, Step.Scan(t))
    ensures Covered(ScanDone(st, t).objects, ScanDone(st, t).fifo)
  {
    hide LocalData.Scan, Spare;
    var n := Todo(st.puts[t].stage)[0].numa;
    var r := Sweep(st, t);
    ScanCovers(st.objects, st.fifo[n], n, st.puts[t].key, {});
    FewerSpare(st.objects, r.objects, st.fifo);
  }

  lemma RemoveSpare(objects: Objects, keys: set<Key>)
    ensures NoNewSpare(objects, objects - keys)
  {
  }

  /** The locked sections outside a put's own slot leave every queue alone. */
  lemma MetadataCovered(st: State, s: Step)
    requires Enabled(st, s) && Covered(st.objects, st.fifo)
    requires s.Claim? || s.Abandon? || s.Publish? || s.Retire? || s.Remove?
    ensures Covered(Next(st, s).objects, Next(st, s).fifo)
  {
    hide Covered, NoNewSpare, LocalData.Claim, Unclaim, LocalData.Publish, LocalData.Retire;
    match s {
      case Claim(key, spec, data) => ClaimSpare(st.objects, key, spec);
      case Abandon(t) => UnclaimSpare(st.objects, st.puts[t].key, st.puts[t].slot);
      case Publish(key, i, device, region) => PublishSpare(st.objects, key, i, device, region);
      case Retire(region) => RetireSpare(st.objects, region);
      case Remove(keys) => RemoveSpare(st.objects, keys);
    }
    FewerSpare(st.objects, Next(st, s).objects, st.fifo);
  }

  lemma StepCovered(st: State, s: Step)
    requires Safe(st) && Covered(st.objects, st.fifo)
    ensures Covered(Apply(st, s).objects, Apply(st, s).fifo)
  {
    hide Safe, Covered, ClaimDone, Unclaim, LocalData.Publish, LocalData.Retire,
         Started, Answered, Sweep, Installed, ScanDone, Where, Write, Fits, Pinned.Next;
    if Enabled(st, s) {
      match s
      case Scan(t) => ScanCovered(st, t);
      case Install(t) =>
        PlacedQueues(st, t);
        InstallCovered(st, t);
      case _ =>
        if s.Claim? || s.Abandon? || s.Publish? || s.Retire? || s.Remove? { MetadataCovered(st, s); }
    }
  }

  lemma PlacedQueues(st: State, t: nat)
    requires Safe(st) && t in st.puts
    ensures forall j | 0 <= j < |st.puts[t].placed| :: st.puts[t].placed[j].buf.numa in st.fifo
  {
    hide HeapOk, PutOk, ObjectsOk, GetsOk, Shaped;
    PutAt(st, t);
    PlacedPools(st.puts[t], t, st.pools, st.mem, st.info);
  }

  /** In every interleaving each pinned replica of a Cache object has an entry in its node's queue,
      whatever stale, deferred and discarded entries there are. */
  lemma {:induction false} RunCovered(st: State, steps: seq<Step>)
    requires Initial(st)
    ensures Covered(Exec(st, steps).objects, Exec(st, steps).fifo)
  {
    hide Safe, Apply, Covered, Initial;
    if steps == [] {
      InitialCovered(st);
    } else {
      var init := steps[..|steps| - 1];
      RunCovered(st, init);
      LocalRuns.RunSafe(st, init);
      StepCovered(Exec(st, init), steps[|steps| - 1]);
    }
  }

  lemma InitialCovered(st: State)
    requires Initial(st)
    ensures Covered(st.objects, st.fifo)
  {
  }

  // ---------------------------------------------------------------------
  // No space

  /** Every pinned replica on node `n` belongs to an Explicit object or to `key`. */
  ghost predicate Exhausted(objects: Objects, n: nat, key: Key) {
    forall k, i | k in objects && 0 <= i < |objects[k].slots| && HasPinned(objects[k].slots[i], Cpu(n)) ::
      k == key || objects[k].spec.retention == Explicit
  }

  /** A scan that drops nothing leaves the node exhausted. */
  lemma FruitlessScan(st: State, t: nat)
    requires Covered(st.objects, st.fifo) && Enabled(st, Step.Scan(t)) && !Sweep(st, t).evicted
    ensures Exhausted(ScanDone(st, t).objects, Todo(st.puts[t].stage)[0].numa, st.puts[t].key)
  {
    hide LocalData.Scan, HasPinned;
    var n, key := Todo(st.puts[t].stage)[0].numa, st.puts[t].key;
    ScanEvictsIff(st.objects, st.fifo[n], n, key);
    ScanCovered(st, t);
    var now := ScanDone(st, t);
    assert Covers(now.objects, now.fifo[n], {}, n);
    OnlyProtected(now.objects, now.fifo[n], n, key);
  }

  lemma OnlyProtected(objects: Objects, queue: seq<Entry>, n: nat, key: Key)
    requires Covers(objects, queue, {}, n) && forall j | 0 <= j < |queue| :: queue[j].key == key
    ensures Exhausted(objects, n, key)
  {
    hide HasPinned;
    forall k, i: nat | k in objects && 0 <= i < |objects[k].slots| && HasPinned(objects[k].slots[i], Cpu(n))
      ensures k == key || objects[k].spec.retention == Explicit
    {
      if objects[k].spec.retention == Cache {
        assert Spare(objects, n, k, i) && Entry(k, i) in queue;
      }
    }
  }

  /** The one step that brings a put to a fruitless retry is its own scan. */
  lemma RetryComesFromScan(st: State, s: Step, t: nat)
    requires t in Apply(st, s).puts && Apply(st, s).puts[t].stage.Retrying?
    ensures (s == Step.Scan(t) && Enabled(st, s)) || (t in st.puts && Apply(st, s).puts[t] == st.puts[t])
  {
    hide LocalData.Claim, Writable, Started, ScanDone, Sweep, Installed, Unclaim, Wrote, Allocated, ReadOn, Released,
         LocalData.Publish, LocalData.Retire, GiveUp, Advance;
    if Enabled(st, s) {
      if s.TryAlloc? {
        NoRetry(st, s.put);
      } else if s.Skip? || s.Begin? || s.Scan? || s.Copy? || s.CopyFails? || s.Install? || s.Abandon? {
        LocalRuns.OtherPuts(st, s);
        if !s.Scan? { NotRetrying(st, s); }
      } else {
        LocalRuns.PutsAlone(st, s);
      }
    }
  }

  lemma NotRetrying(st: State, s: Step)
    requires Enabled(st, s) && (s.Skip? || s.Begin? || s.Copy? || s.CopyFails? || s.Install? || s.Abandon?)
    ensures s.put in Next(st, s).puts && !Next(st, s).puts[s.put].stage.Retrying?
  {
    hide Targets, Queue, Sealed, LocalData.Install, Unclaim, Write, Where;
  }

  lemma NoRetry(st: State, t: nat)
    requires Enabled(st, TryAlloc(t))
    ensures var now := Allocated(st, t); now.puts == st.puts[t := now.puts[t]] && !now.puts[t].stage.Retrying?
  {
    hide Fits, Pinned.Next;
  }

  ghost predicate SamePut(a: State, b: State, t: nat) {
    t in a.puts && t in b.puts && a.puts[t] == b.puts[t]
  }

  /** A put that waits to retry after a fruitless scan made its last scan at a moment when every pinned
      replica on the node was Explicit or its own key's. */
  lemma {:induction false} LastScanWasFruitless(st: State, steps: seq<Step>, t: nat) returns (i: nat)
    requires Initial(st) && t in Exec(st, steps).puts
    requires Exec(st, steps).puts[t].stage.Retrying? && !Exec(st, steps).puts[t].stage.evicted
    requires Todo(Exec(st, steps).puts[t].stage) != []
    ensures 0 < i <= |steps| && steps[i - 1] == Step.Scan(t)
    ensures var p := Exec(st, steps).puts[t];
            Exhausted(Exec(st, steps[..i]).objects, Todo(p.stage)[0].numa, p.key)
    ensures forall m | i <= m <= |steps| :: SamePut(Exec(st, steps[..m]), Exec(st, steps), t)
  {
    hide Apply, Initial, Covered, Exhausted;
    assert steps[..|steps|] == steps;
    if steps == [] {
      assert false by { NothingYet(st); }
    } else {
      var init, last := steps[..|steps| - 1], steps[|steps| - 1];
      var was := Exec(st, init);
      RetryComesFromScan(was, last, t);
      if last == Step.Scan(t) && Enabled(was, last) {
        i := |steps|;
        assert steps[..i] == steps;
        RunCovered(st, init);
        ScanOutcome(was, t);
      } else {
        i := LastScanWasFruitless(st, init, t);
        assert steps[..i] == init[..i];
        forall m | i <= m <= |steps|
          ensures SamePut(Exec(st, steps[..m]), Exec(st, steps), t)
        {
          if m < |steps| { assert steps[..m] == init[..m]; }
        }
      }
    }
  }

  lemma NothingYet(st: State)
    requires Initial(st)
    ensures st.puts == map[]
  {
  }

  lemma ScanOutcome(st: State, t: nat)
    requires Covered(st.objects, st.fifo) && Enabled(st, Step.Scan(t))
    ensures var now := Apply(st, Step.Scan(t));
            && t in now.puts && Todo(now.puts[t].stage) == Todo(st.puts[t].stage) && now.puts[t].key == st.puts[t].key
            && now.puts[t].stage.Retrying?
            && (!now.puts[t].stage.evicted ==>
                  Exhausted(now.objects, Todo(st.puts[t].stage)[0].numa, st.puts[t].key))
  {
    hide LocalData.Scan, Covered, Exhausted;
    if !Sweep(st, t).evicted { FruitlessScan(st, t); }
  }

  /** What a pool's answer leads to: a buffer exactly when the pool fits the request; a scan exactly when
      the request could fit and either none has been made or the last one dropped something; the target
      is given up in the remaining cases, an oversized request or a fruitless scan. */
  lemma AnswerExactly(p: Put, pool: Pinned.PoolState)
    requires Working(p) && Todo(p.stage) != [] && (p.stage.Asking? || p.stage.Retrying?)
    ensures var q := Answered(p, pool);
            && (|q.placed| > |p.placed| <==> Fits(pool, Need(p)))
            && (q.stage.Scanning? <==>
                  !Fits(pool, Need(p))
                  && ((p.stage.Asking? && |p.data[p.slot]| <= pool.capacity) || (p.stage.Retrying? && p.stage.evicted)))
            && (q.stage.Scanning? ==> Todo(q.stage) == Todo(p.stage))
            && (!q.stage.Scanning? && !Fits(pool, Need(p)) ==> |Todo(q.stage)| < |Todo(p.stage)|)
  {
  }

  /** The step cost the put a target, and no buffer was cut. */
  ghost predicate TargetLost(was: State, now: State, t: nat) {
    && t in was.puts && t in now.puts && now.info == was.info
    && |Todo(now.puts[t].stage)| < |Todo(was.puts[t].stage)|
  }

  /** After `i` steps put `t` had just scanned, the node was exhausted, and the put has not moved since. */
  ghost predicate ExhaustedAt(st: State, steps: seq<Step>, t: nat, n: nat, key: Key, i: int) {
    && 0 < i <= |steps| && steps[i - 1] == Step.Scan(t) && Exhausted(Exec(st, steps[..i]).objects, n, key)
    && forall m | i <= m <= |steps| :: SamePut(Exec(st, steps[..m]), Exec(st, steps), t)
  }

  /** A buffer that is cut shows. */
  lemma CutShows(st: State, t: nat)
    requires Safe(st) && Enabled(st, TryAlloc(t))
    ensures Fits(st.pools[Todo(st.puts[t].stage)[0].numa], Need(st.puts[t])) ==> Allocated(st, t).info != st.info
  {
    hide HeapOk, ObjectsOk, PutsOk, GetsOk, Shaped, OrderOk, Fits, Keeps, Pinned.Next, Holds, Answered;
    var p := st.puts[t];
    var n := Todo(p.stage)[0].numa;
    if Fits(st.pools[n], Need(p)) {
      AllocHeap(st.pools, st.mem, st.info, n, Info(t, p.key, p.slot, p.data[p.slot], false));
      assert BufId(n, st.pools[n].next) in Allocated(st, t).info;
    }
  }

  lemma AllocAnswer(st: State, t: nat)
    requires Enabled(st, TryAlloc(t))
    ensures Allocated(st, t).puts[t] == Answered(st.puts[t], st.pools[Todo(st.puts[t].stage)[0].numa])
  {
    hide Fits, Pinned.Next, Answered;
  }

  /** Under any interleaving a put gives up on a node only if its slot is longer than the pool, or if at
      its last scan of the node every pinned replica there was Explicit or its own key's. */
  lemma NoSpaceOnlyWhenExhausted(st: State, steps: seq<Step>, t: nat)
    requires Initial(st) && Enabled(Exec(st, steps), TryAlloc(t))
    requires TargetLost(Exec(st, steps), Next(Exec(st, steps), TryAlloc(t)), t)
    ensures var p := Exec(st, steps).puts[t];
            var n := Todo(p.stage)[0].numa;
            || |p.data[p.slot]| > Exec(st, steps).pools[n].capacity
            || exists i :: ExhaustedAt(st, steps, t, n, p.key, i)
  {
    hide Exec, Initial, Safe, Exhausted, Fits, Answered, Allocated;
    var was := Exec(st, steps);
    var p := was.puts[t];
    var pool := was.pools[Todo(p.stage)[0].numa];
    LocalRuns.RunSafe(st, steps);
    assert Next(was, TryAlloc(t)) == Allocated(was, t);
    CutShows(was, t);
    AllocAnswer(was, t);
    AnswerExactly(p, pool);
    if |p.data[p.slot]| <= pool.capacity {
      assert p.stage.Retrying? && !p.stage.evicted;
      var i := LastScanWasFruitless(st, steps, t);
      assert ExhaustedAt(st, steps, t, Todo(p.stage)[0].numa, p.key, i);
    }
  }
}
