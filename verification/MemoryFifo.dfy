/** First in, first out: what putting one slot leaves in the eviction queues, and in the slot. */
module MemoryFifo {
  import opened Types
  import opened MemoryData
  import opened MemoryEvict
  import opened MemoryPut
  import opened MemoryRequest

  /** Some entries have been popped off the front, those of `key` excepted. */
  ghost predicate Popped(was: seq<Entry>, now: seq<Entry>, key: Key) {
    exists n: nat :: n <= |was| && now == EntriesOf(was[..n], key) + was[n..]
  }

  lemma EntriesFront(e: Entry, a: seq<Entry>, key: Key)
    ensures EntriesOf([e] + a, key) == (if e.key == key then [e] else []) + EntriesOf(a, key)
  {
    assert ([e] + a)[1..] == a;
  }

  lemma Regroup(a: seq<Entry>, b: seq<Entry>, c: seq<Entry>)
    ensures a + (b + c) == (a + b) + c
  {
  }

  lemma {:induction false} EntriesAppend(a: seq<Entry>, b: seq<Entry>, key: Key)
    ensures EntriesOf(a + b, key) == EntriesOf(a, key) + EntriesOf(b, key)
  {
    if a == [] {
      assert a + b == b;
    } else {
      hide EntriesOf;
      var e, rest := a[0], a[1..];
      EntriesAppend(rest, b, key);
      EntriesFront(e, rest, key);
      EntriesFront(e, rest + b, key);
      assert a == [e] + rest && a + b == [e] + (rest + b);
      Regroup(if e.key == key then [e] else [], EntriesOf(rest, key), EntriesOf(b, key));
    }
  }

  lemma {:induction false} EntriesOnly(a: seq<Entry>, key: Key)
    ensures forall i | 0 <= i < |EntriesOf(a, key)| :: EntriesOf(a, key)[i].key == key
  {
    if a != [] { EntriesOnly(a[1..], key); }
  }

  lemma {:induction false} EntriesAll(a: seq<Entry>, key: Key)
    requires forall i | 0 <= i < |a| :: a[i].key == key
    ensures EntriesOf(a, key) == a
  {
    if a != [] { EntriesAll(a[1..], key); }
  }

  lemma PoppedSelf(queue: seq<Entry>, key: Key)
    ensures Popped(queue, queue, key)
  {
    assert EntriesOf(queue[..0], key) + queue[0..] == queue;
  }

  /** Popping `m` more off what `n` pops left. */
  lemma PoppedMore(was: seq<Entry>, n: nat, m: nat, key: Key)
    requires n <= |was|
    requires var mid := EntriesOf(was[..n], key) + was[n..]; m <= |mid|
    ensures var mid := EntriesOf(was[..n], key) + was[n..]; Popped(was, EntriesOf(mid[..m], key) + mid[m..], key)
  {
    hide EntriesOf;
    var own, rest := EntriesOf(was[..n], key), was[n..];
    var mid := own + rest;
    EntriesOnly(was[..n], key);
    if m <= |own| {
      assert mid[..m] == own[..m];
      EntriesAll(own[..m], key);
      assert own[..m] + mid[m..] == mid;
    } else {
      var k := m - |own|;
      assert mid[..m] == own + rest[..k] && mid[m..] == was[n + k..];
      EntriesAppend(own, rest[..k], key);
      EntriesAll(own, key);
      EntriesAppend(was[..n], rest[..k], key);
      assert was[..n] + rest[..k] == was[..n + k];
      assert EntriesOf(mid[..m], key) + mid[m..] == EntriesOf(was[..n + k], key) + was[n + k..];
    }
  }

  lemma PoppedTwice(a: seq<Entry>, b: seq<Entry>, c: seq<Entry>, key: Key)
    requires Popped(a, b, key) && Popped(b, c, key)
    ensures Popped(a, c, key)
  {
    hide EntriesOf;
    var n: nat :| n <= |a| && b == EntriesOf(a[..n], key) + a[n..];
    var m: nat :| m <= |b| && c == EntriesOf(b[..m], key) + b[m..];
    PoppedMore(a, n, m, key);
  }

  ghost predicate AllPopped(a: State, b: State, key: Key) {
    b.pools.Keys == a.pools.Keys && forall d | d in a.pools :: Popped(a.pools[d].fifo, b.pools[d].fifo, key)
  }

  lemma AllPoppedSelf(st: State, key: Key)
    ensures AllPopped(st, st, key)
  {
    forall d | d in st.pools ensures Popped(st.pools[d].fifo, st.pools[d].fifo, key) { PoppedSelf(st.pools[d].fifo, key); }
  }

  lemma AllPoppedTwice(a: State, b: State, c: State, key: Key)
    requires AllPopped(a, b, key) && AllPopped(b, c, key)
    ensures AllPopped(a, c, key)
  {
    hide Popped;
    forall d | d in a.pools ensures Popped(a.pools[d].fifo, c.pools[d].fifo, key) {
      PoppedTwice(a.pools[d].fifo, b.pools[d].fifo, c.pools[d].fifo, key);
    }
  }

  lemma MakeRoomPops(st: State, d: Device, need: nat, key: Key)
    requires Inv(st) && d in st.pools
    ensures Inv(MakeRoom(st, d, need, key).1) && AllPopped(st, MakeRoom(st, d, need, key).1, key)
  {
    hide Inv, MakeRoom, EntriesOf, EvictFirst, StoreBytes, AllFit, Kept, Thinned, Admits;
    MakeRoomSpec(st, d, need, key);
    AllPoppedSelf(st, key);
    var n := MakeRoomEvicts(st, d, need, key);
    var now := MakeRoom(st, d, need, key).1;
    if st.pools[d].capacity.Some? && need <= st.pools[d].capacity.value {
      assert Popped(st.pools[d].fifo, now.pools[d].fifo, key);
      forall x | x in st.pools ensures Popped(st.pools[x].fifo, now.pools[x].fifo, key) {}
    }
  }

  lemma {:induction false} PlacePops(st: State, key: Key, len: nat, cands: seq<Target>, each: bool)
    requires Inv(st)
    ensures AllPopped(st, Place(st, key, len, cands, each).st, key)
    decreases |cands|
  {
    hide Inv, MakeRoom, AllPopped;
    AllPoppedSelf(st, key);
    if cands != [] {
      var d := cands[0].device;
      if d !in st.pools {
        PlacePops(st, key, len, cands[1..], each);
      } else {
        MakeRoomPops(st, d, len, key);
        var st1 := MakeRoom(st, d, len, key).1;
        PlacePops(st1, key, len, cands[1..], each);
        AllPoppedTwice(st, st1, Place(st1, key, len, cands[1..], each).st, key);
      }
    }
  }

  // ---------------------------------------------------------------------
  // Devices that are not tried

  /** The pool of `d` is as it was, and every replica the store owns there is still in its slot. */
  ghost predicate Intact(a: State, b: State, d: Device) {
    && d in a.pools && d in b.pools && b.pools[d] == a.pools[d]
    && forall k, i, x | k in a.objects && 0 <= i < |a.objects[k].slots| && x in a.objects[k].slots[i] && OwnedOn(x, d) ::
         k in b.objects && i < |b.objects[k].slots| && x in b.objects[k].slots[i]
  }

  lemma IntactTwice(a: State, b: State, c: State, d: Device)
    requires Intact(a, b, d) && Intact(b, c, d)
    ensures Intact(a, c, d)
  {
  }

  lemma ThinnedElsewhere(was: map<Key, Object>, now: map<Key, Object>, d: Device, k: Key, i: nat, x: Replica)
    requires Thinned(was, now, d) && k in was && i < |was[k].slots| && x in was[k].slots[i] && !OwnedOn(x, d)
    ensures k in now && i < |now[k].slots| && x in now[k].slots[i]
  {
    hide Without;
    WithoutMembers(was[k].slots[i], d, x);
  }

  lemma MakeRoomIntact(st: State, d: Device, need: nat, key: Key, x: Device)
    requires Inv(st) && d in st.pools && x in st.pools && x != d
    ensures Intact(st, MakeRoom(st, d, need, key).1, x)
  {
    hide Inv, MakeRoom, Kept, Thinned, Admits;
    MakeRoomSpec(st, d, need, key);
    var now := MakeRoom(st, d, need, key).1;
    forall k, i, y | k in st.objects && 0 <= i < |st.objects[k].slots| && y in st.objects[k].slots[i] && OwnedOn(y, x)
      ensures k in now.objects && i < |now.objects[k].slots| && y in now.objects[k].slots[i]
    {
      ThinnedElsewhere(st.objects, now.objects, d, k, i, y);
    }
  }

  /** Candidate `d` comes up: every one before it answered so that the loop goes on. */
  ghost predicate ComesUp(st: State, key: Key, len: nat, cands: seq<Target>, each: bool, d: Device) {
    exists i | 0 <= i < |cands| :: cands[i].device == d && forall m | 0 <= m < i :: Admits(st, cands[m].device, len, key) == each
  }

  lemma ComesUpLater(st: State, now: State, key: Key, len: nat, cands: seq<Target>, each: bool, d: Device)
    requires cands != [] && cands[0].device != d && Admits(st, cands[0].device, len, key) == each
    requires SameOffer(st, now, key)
    ensures ComesUp(now, key, len, cands[1..], each, d) ==> ComesUp(st, key, len, cands, each, d)
  {
    hide Kept;
    var rest := cands[1..];
    if i :| 0 <= i < |rest| && rest[i].device == d && forall m | 0 <= m < i :: Admits(now, rest[m].device, len, key) == each {
      forall m | 0 <= m < i + 1
        ensures Admits(st, cands[m].device, len, key) == each
      {
        if m > 0 { assert rest[m - 1] == cands[m]; }
      }
      assert cands[i + 1] == rest[i];
    }
  }

  lemma FirstComesUp(st: State, key: Key, len: nat, cands: seq<Target>, each: bool)
    requires cands != []
    ensures ComesUp(st, key, len, cands, each, cands[0].device)
  {
    hide Admits;
  }

  lemma IntactSelf(st: State, d: Device)
    requires d in st.pools
    ensures Intact(st, st, d)
  {
  }

  lemma SameOfferSelf(st: State, key: Key)
    ensures SameOffer(st, st, key)
  {
  }

  lemma {:induction false} PlaceIntact(st: State, key: Key, len: nat, cands: seq<Target>, each: bool, x: Device)
    requires Inv(st) && x in st.pools && !ComesUp(st, key, len, cands, each, x)
    ensures Intact(st, Place(st, key, len, cands, each).st, x)
    decreases |cands|
  {
    hide Inv, MakeRoom, Intact, ComesUp, Admits, Eroded, Kept, SameOffer, Thinned;
    IntactSelf(st, x);
    if cands != [] {
      var d := cands[0].device;
      FirstComesUp(st, key, len, cands, each);
      if d !in st.pools {
        NotServed(st, d, len, key);
        if !each {
          SameOfferSelf(st, key);
          ComesUpLater(st, st, key, len, cands, each, x);
          PlaceIntact(st, key, len, cands[1..], each, x);
        }
      } else {
        MakeRoomSpec(st, d, len, key);
        MakeRoomFrame(st, d, len, key);
        MakeRoomIntact(st, d, len, key, x);
        var (ok, st1) := MakeRoom(st, d, len, key);
        FrameInv(st, st1, key);
        if ok == each {
          ComesUpLater(st, st1, key, len, cands, each, x);
          PlaceIntact(st1, key, len, cands[1..], each, x);
          IntactTwice(st, st1, Place(st1, key, len, cands[1..], each).st, x);
        }
      }
    }
  }

  /** The devices a slot tries: Strict, the one; Prefer, that one and, if it does not admit, the others in
      order up to the first that does; Each, the list up to the first that does not; Anywhere, all in order
      up to the first that does. */
  ghost predicate Tried(st: State, order: seq<Device>, key: Key, spec: SlotSpec, x: Device) {
    match spec.placement
    case Strict(d) => x == d
    case Prefer(d) =>
      x == d || (!Admits(st, d, spec.len, key)
                 && exists i | 0 <= i < |order| ::
                      order[i] == x && forall m | 0 <= m < i && order[m] != d :: !Admits(st, order[m], spec.len, key))
    case Each(ds) => exists i | 0 <= i < |ds| :: ds[i] == x && forall m | 0 <= m < i :: Admits(st, ds[m], spec.len, key)
    case Anywhere =>
      exists i | 0 <= i < |order| :: order[i] == x && forall m | 0 <= m < i :: !Admits(st, order[m], spec.len, key)
  }

  /** What comes before position `i` of the order, `d` apart, is among the first `j` others. */
  ghost predicate Ahead(order: seq<Device>, os: seq<Target>, d: Device, i: nat, j: nat) {
    forall m | 0 <= m < i && m < |order| && order[m] != d :: exists q | 0 <= q < j && q < |os| :: os[q].device == order[m]
  }

  lemma AheadSkip(order: seq<Device>, os: seq<Target>, d: Device, i: nat, j: nat)
    requires order != [] && order[0] == d && Ahead(order[1..], os, d, i, j)
    ensures Ahead(order, os, d, i + 1, j)
  {
    forall m | 0 <= m < i + 1 && m < |order| && order[m] != d
      ensures exists q | 0 <= q < j && q < |os| :: os[q].device == order[m]
    {
      assert order[1..][m - 1] == order[m];
    }
  }

  lemma AheadNext(order: seq<Device>, os: seq<Target>, d: Device, i: nat, j: nat)
    requires order != [] && order[0] != d && Ahead(order[1..], os, d, i, j)
    ensures Ahead(order, [Target(order[0], true)] + os, d, i + 1, j + 1)
  {
    var more := [Target(order[0], true)] + os;
    forall m | 0 <= m < i + 1 && m < |order| && order[m] != d
      ensures exists q | 0 <= q < j + 1 && q < |more| :: more[q].device == order[m]
    {
      if m == 0 {
        assert more[0].device == order[m];
      } else {
        assert order[1..][m - 1] == order[m];
        var q :| 0 <= q < j && q < |os| && os[q].device == order[1..][m - 1];
        assert more[q + 1] == os[q];
      }
    }
  }

  /** Each of the others stands at some place of the order, behind those before it. */
  lemma {:induction false} OthersPlace(order: seq<Device>, d: Device, j: nat) returns (i: nat)
    requires j < |Others(order, d)|
    ensures i < |order| && order[i] == Others(order, d)[j].device != d && Ahead(order, Others(order, d), d, i, j)
  {
    hide Ahead;
    var rest := Others(order[1..], d);
    if order[0] == d {
      assert Others(order, d) == rest;
      i := OthersPlace(order[1..], d, j);
      AheadSkip(order, rest, d, i, j);
      i := i + 1;
    } else {
      assert Others(order, d) == [Target(order[0], true)] + rest;
      if j == 0 {
        i := 0;
        NoneAhead(order, Others(order, d), d);
      } else {
        i := OthersPlace(order[1..], d, j - 1);
        AheadNext(order, rest, d, i, j - 1);
        i := i + 1;
      }
    }
  }

  lemma NoneAhead(order: seq<Device>, os: seq<Target>, d: Device)
    ensures Ahead(order, os, d, 0, 0)
  {
  }

  lemma TriedComesUp(st: State, order: seq<Device>, key: Key, spec: SlotSpec, x: Device)
    requires ComesUp(st, key, spec.len, Candidates(spec.placement, order), spec.placement.Each?, x)
    ensures Tried(st, order, key, spec, x)
  {
    hide Admits, Others;
    var cands, each := Candidates(spec.placement, order), spec.placement.Each?;
    var i :| 0 <= i < |cands| && cands[i].device == x && forall m | 0 <= m < i :: Admits(st, cands[m].device, spec.len, key) == each;
    if spec.placement.Prefer? && i > 0 {
      PreferTried(st, order, key, spec, x, i);
    }
    if spec.placement.Each? {
      assert forall m | 0 <= m < i :: cands[m].device == spec.placement.devices[m];
    }
    if spec.placement.Anywhere? {
      assert forall m | 0 <= m < i :: cands[m].device == order[m];
    }
  }

  lemma PreferTried(st: State, order: seq<Device>, key: Key, spec: SlotSpec, x: Device, i: nat)
    requires spec.placement.Prefer? && 0 < i < |Candidates(spec.placement, order)|
    requires var cands := Candidates(spec.placement, order);
             cands[i].device == x && forall m | 0 <= m < i :: !Admits(st, cands[m].device, spec.len, key)
    ensures Tried(st, order, key, spec, x)
  {
    hide Admits, Others;
    var d, cands := spec.placement.device, Candidates(spec.placement, order);
    var os := Others(order, d);
    assert cands[0].device == d && os[i - 1] == cands[i];
    var p := OthersPlace(order, d, i - 1);
    forall m | 0 <= m < p && order[m] != d
      ensures !Admits(st, order[m], spec.len, key)
    {
      var q :| 0 <= q < i - 1 && os[q].device == order[m];
      assert cands[q + 1] == os[q];
    }
  }

  /** One new entry per copy, behind everything that was queued and is still. */
  ghost predicate Enqueued(was: seq<Entry>, now: seq<Entry>, key: Key, e: Entry, n: nat) {
    exists left :: Popped(was, left, key) && now == left + Repeat(e, n)
  }

  /** How many of the targets are on a device. */
  ghost function CopiesOn(chosen: Option<seq<Target>>, d: Device): nat {
    if chosen.Some? then CountOn(chosen.value, d) else 0
  }

  /** One writable slot, whole: where it goes is decided placement by placement; the slot then ends with
      one copy of the bytes per target, in order, and every queue with one entry per copy on its device. */
  lemma PutSlotExactly(st: State, order: seq<Device>, key: Key, i: nat, fill: Fill) returns (ts: Option<seq<Target>>)
    requires Inv(st) && key in st.objects && Matches(st.objects[key], i, fill)
    ensures Assigned(st, order, key, fill.spec, ts)
    ensures var (now, reply) := PutSlot(st, order, key, i, fill);
            && (reply.Ok? <==> ts.Some?)
            && (reply.Err? ==> FaultOf(st, order, key, fill.spec, reply.kind))
            && now.pools.Keys == st.pools.Keys
            && (forall d | d in st.pools :: Enqueued(st.pools[d].fifo, now.pools[d].fifo, key, Entry(key, i), CopiesOn(ts, d)))
            && (forall d | d in st.pools && !Tried(st, order, key, fill.spec, d) :: Intact(st, now, d))
    ensures var (now, reply) := PutSlot(st, order, key, i, fill);
            var o, o' := st.objects[key], now.objects[key];
            && o'.spec == o.spec && |o'.slots| == |o.slots|
            && (forall j | 0 <= j < |o.slots| && j != i :: o'.slots[j] == o.slots[j])
            && var added := if ts.Some? then |ts.value| else 0;
               && |o'.slots[i]| == |o.slots[i]| + added && o'.slots[i][..|o.slots[i]|] == o.slots[i]
               && forall j | 0 <= j < added ::
                    o'.slots[i][|o.slots[i]| + j]
                    == Replica(ts.value[j].device, Dram, ts.value[j].misplaced, Owned(fill.bytes))
  {
    hide Inv, PutSlot, Chosen, Fault, Assigned, FaultOf, Eroded, Enqueued, Intact, Tried;
    ts := Chosen(st, order, key, fill.spec);
    ChosenExactly(st, order, key, fill.spec);
    PutSlotSpec(st, order, key, i, fill);
    if ts.None? { FaultExactly(st, order, key, fill.spec); }
    forall d | d in st.pools
      ensures Enqueued(st.pools[d].fifo, PutSlot(st, order, key, i, fill).0.pools[d].fifo, key, Entry(key, i), CopiesOn(ts, d))
    {
      SlotQueues(st, order, key, i, fill, d);
    }
    forall d | d in st.pools && !Tried(st, order, key, fill.spec, d)
      ensures Intact(st, PutSlot(st, order, key, i, fill).0, d)
    {
      SlotIntact(st, order, key, i, fill, d);
    }
  }

  lemma SlotIntact(st: State, order: seq<Device>, key: Key, i: nat, fill: Fill, x: Device)
    requires Inv(st) && key in st.objects && Matches(st.objects[key], i, fill) && x in st.pools
    requires !Tried(st, order, key, fill.spec, x)
    ensures Intact(st, PutSlot(st, order, key, i, fill).0, x)
  {
    hide Inv, Place, Candidates, FirstWith, Admits, ChargeAll, Copies, CountOn, Kept, Roomy, Frame, ComesUp, Tried, Intact;
    var cands, each := Candidates(fill.spec.placement, order), fill.spec.placement.Each?;
    if ComesUp(st, key, fill.spec.len, cands, each, x) { TriedComesUp(st, order, key, fill.spec, x); }
    PlaceIntact(st, key, fill.spec.len, cands, each, x);
    PlaceSpec(st, key, fill.spec.len, cands, each);
    var p := Place(st, key, fill.spec.len, cands, each);
    if Succeeded(p, each) {
      TargetsComeUp(st, key, fill.spec.len, cands, each, p, x);
      InstallIntact(p.st, key, i, fill.bytes, p.targets, x);
      IntactTwice(st, p.st, Install(p.st, key, i, fill.bytes, p.targets), x);
    }
  }

  lemma TargetsComeUp(st: State, key: Key, len: nat, cands: seq<Target>, each: bool, p: Placing, x: Device)
    requires Placed(st, key, len, cands, each, p) && Succeeded(p, each) && !ComesUp(st, key, len, cands, each, x)
    ensures forall j | 0 <= j < |p.targets| :: p.targets[j].device != x
  {
    hide Admits, FirstWith;
    var j := FirstWith(st, key, len, cands, !each);
    forall t | 0 <= t < |p.targets|
      ensures p.targets[t].device != x
    {
      var c := if each then t else j;
      assert p.targets[t] == cands[c];
      assert forall m | 0 <= m < c :: Admits(st, cands[m].device, len, key) == each;
    }
  }

  lemma {:induction false} NoneCounted(ts: seq<Target>, x: Device)
    requires forall j | 0 <= j < |ts| :: ts[j].device != x
    ensures CountOn(ts, x) == 0 && forall len: nat :: BytesOn(ts, x, len) == 0
  {
    if ts != [] { NoneCounted(ts[1..], x); }
  }

  lemma InstallIntact(st: State, key: Key, i: nat, bytes: seq<Byte>, ts: seq<Target>, x: Device)
    requires key in st.objects && i < |st.objects[key].slots| && Served(ts, st.pools.Keys) && x in st.pools
    requires forall j | 0 <= j < |ts| :: ts[j].device != x
    ensures Intact(st, Install(st, key, i, bytes, ts), x)
  {
    hide ChargeAll, BytesOn, CountOn, Copies;
    NoneCounted(ts, x);
    ChargeAllSpec(st.pools, ts, key, i, |bytes|, x);
    assert st.pools[x].fifo + Repeat(Entry(key, i), 0) == st.pools[x].fifo;
    assert BytesOn(ts, x, |bytes|) == 0;
  }

  lemma SlotQueues(st: State, order: seq<Device>, key: Key, i: nat, fill: Fill, d: Device)
    requires Inv(st) && key in st.objects && Matches(st.objects[key], i, fill) && d in st.pools
    ensures Enqueued(st.pools[d].fifo, PutSlot(st, order, key, i, fill).0.pools[d].fifo, key, Entry(key, i),
                     CopiesOn(Chosen(st, order, key, fill.spec), d))
  {
    hide Inv, Place, Candidates, FirstWith, Admits, ChargeAll, Copies, Popped, CountOn, Kept, Roomy, Frame;
    var cands, each := Candidates(fill.spec.placement, order), fill.spec.placement.Each?;
    PlaceSpec(st, key, fill.spec.len, cands, each);
    PlacePops(st, key, fill.spec.len, cands, each);
    var p := Place(st, key, fill.spec.len, cands, each);
    assert cands[..|cands|] == cands;
    var left := p.st.pools[d].fifo;
    if Succeeded(p, each) {
      ChargeAllSpec(p.st.pools, p.targets, key, i, |fill.bytes|, d);
    } else {
      assert left + Repeat(Entry(key, i), 0) == left;
    }
  }
}
