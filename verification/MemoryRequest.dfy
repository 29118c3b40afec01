/** The whole-request contract of `Memory::put`. */
module MemoryRequest {
  import opened Types
  import opened MemoryData
  import opened MemoryEvict
  import opened MemoryPut

  // ---------------------------------------------------------------------
  // Charging

  function CountOn(targets: seq<Target>, d: Device): nat {
    if targets == [] then 0 else (if targets[0].device == d then 1 else 0) + CountOn(targets[1..], d)
  }

  function Repeat(e: Entry, n: nat): (r: seq<Entry>)
    ensures |r| == n && forall i | 0 <= i < n :: r[i] == e
  {
    seq(n, i => e)
  }

  function BytesOn(targets: seq<Target>, d: Device, len: nat): nat {
    if targets == [] then 0 else (if targets[0].device == d then len else 0) + BytesOn(targets[1..], d, len)
  }

  /** Each copy is charged and queued once on its own device. */
  lemma {:induction false} ChargeAllSpec(pools: map<Device, Pool>, targets: seq<Target>, key: Key, i: nat, len: nat, d: Device)
    requires Served(targets, pools.Keys) && d in pools
    ensures ChargeAll(pools, targets, key, i, len).Keys == pools.Keys
    ensures ChargeAll(pools, targets, key, i, len)[d]
         == Pool(pools[d].capacity, pools[d].used + BytesOn(targets, d, len),
                 pools[d].fifo + Repeat(Entry(key, i), CountOn(targets, d)))
    decreases |targets|
  {
    if targets == [] {
      assert pools[d].fifo + Repeat(Entry(key, i), 0) == pools[d].fifo;
    } else {
      var pools1 := Charge(pools, targets[0].device, key, i, len);
      assert pools1.Keys == pools.Keys;
      ChargeAllSpec(pools1, targets[1..], key, i, len, d);
      var e, n := Entry(key, i), CountOn(targets[1..], d);
      assert [e] + Repeat(e, n) == Repeat(e, n + 1);
      assert (pools[d].fifo + [e]) + Repeat(e, n) == pools[d].fifo + ([e] + Repeat(e, n));
    }
  }

  lemma {:induction false} CopiesBytes(targets: seq<Target>, bytes: seq<Byte>, d: Device)
    ensures SlotBytes(Copies(targets, bytes), d) == BytesOn(targets, d, |bytes|)
  {
    if targets != [] {
      CopiesBytes(targets[1..], bytes, d);
      assert Copies(targets, bytes)[1..] == Copies(targets[1..], bytes);
    }
  }

  lemma {:induction false} AppendBytes(s: Slot, t: Slot, d: Device)
    ensures SlotBytes(s + t, d) == SlotBytes(s, d) + SlotBytes(t, d)
  {
    if s == [] {
      assert s + t == t;
    } else {
      AppendBytes(s[1..], t, d);
      assert (s + t)[1..] == s[1..] + t;
    }
  }

  lemma {:induction false} CountedOn(targets: seq<Target>, j: nat)
    requires j < |targets|
    ensures CountOn(targets, targets[j].device) > 0
  {
    if j > 0 { CountedOn(targets[1..], j - 1); }
  }

  function Filled(o: Object, i: nat, extra: Slot): Object
    requires i < |o.slots|
  {
    o.(slots := o.slots[i := o.slots[i] + extra])
  }

  /** Installing charges each device what its copies take. */
  lemma InstallBytes(st: State, key: Key, i: nat, bytes: seq<Byte>, targets: seq<Target>, d: Device)
    requires key in st.objects && i < |st.objects[key].slots| && Served(targets, st.pools.Keys)
    requires d in st.pools && st.pools[d].used == StoreBytes(st.objects, d)
    ensures var st' := Install(st, key, i, bytes, targets);
            d in st'.pools && st'.pools[d].used == StoreBytes(st'.objects, d)
  {
    hide StoreBytes, ObjectBytes, SlotBytes, ChargeAll, BytesOn, CountOn, Copies;
    var o := st.objects[key];
    var extra := Copies(targets, bytes);
    ChargeAllSpec(st.pools, targets, key, i, |bytes|, d);
    StoreBytesPut(st.objects, d, key, Filled(o, i, extra));
    SlotUpdateBytes(o.slots, i, o.slots[i] + extra, d);
    AppendBytes(o.slots[i], extra, d);
    CopiesBytes(targets, bytes, d);
  }

  lemma InstallPool(st: State, key: Key, i: nat, bytes: seq<Byte>, targets: seq<Target>, d: Device)
    requires key in st.objects && i < |st.objects[key].slots| && Served(targets, st.pools.Keys)
    requires d in st.pools && PoolInv(st.objects, st.pools[d], d)
    ensures var st' := Install(st, key, i, bytes, targets);
            d in st'.pools && PoolInv(st'.objects, st'.pools[d], d)
  {
    hide StoreBytes, ChargeAll, BytesOn, CountOn, Copies;
    var o' := Filled(st.objects[key], i, Copies(targets, bytes));
    ChargeAllSpec(st.pools, targets, key, i, |bytes|, d);
    InstallBytes(st, key, i, bytes, targets, d);
    InstallQueued(st, key, i, bytes, targets, d);
    var fifo := st.pools[d].fifo + Repeat(Entry(key, i), CountOn(targets, d));
    forall q | st.pools[d].capacity.Some? && 0 <= q < |fifo|
      ensures Fits(st.objects[key := o'], fifo[q])
    {
      if q < |st.pools[d].fifo| { assert Fits(st.objects, st.pools[d].fifo[q]); }
    }
  }

  lemma InstallQueued(st: State, key: Key, i: nat, bytes: seq<Byte>, targets: seq<Target>, d: Device)
    requires key in st.objects && i < |st.objects[key].slots| && d in st.pools
    requires Queued(st.objects, st.pools[d].fifo, d)
    ensures var extra := Copies(targets, bytes);
            Queued(st.objects[key := Filled(st.objects[key], i, extra)],
                   st.pools[d].fifo + Repeat(Entry(key, i), CountOn(targets, d)), d)
  {
    hide CountOn;
    var extra := Copies(targets, bytes);
    var queue := st.pools[d].fifo;
    var fifo := queue + Repeat(Entry(key, i), CountOn(targets, d));
    var now := st.objects[key := Filled(st.objects[key], i, extra)];
    forall k, j | Evictable(now, k) && 0 <= j < |now[k].slots| && SlotHas(now[k].slots[j], d)
      ensures Entry(k, j) in fifo
    {
      if k == key && j == i {
        var s := st.objects[key].slots[i];
        var q :| 0 <= q < |s + extra| && OwnedOn((s + extra)[q], d);
        if q < |s| {
          assert OwnedOn(s[q], d);
          assert SlotHas(st.objects[k].slots[j], d) && Entry(k, j) in queue;
        } else {
          CountedOn(targets, q - |s|);
          assert fifo[|queue|] == Entry(k, j);
        }
      } else {
        assert SlotHas(st.objects[k].slots[j], d) && Entry(k, j) in queue;
      }
    }
  }

  lemma InstallInv(st: State, key: Key, i: nat, bytes: seq<Byte>, targets: seq<Target>)
    requires Inv(st) && key in st.objects && i < |st.objects[key].slots| && Served(targets, st.pools.Keys)
    requires |bytes| == st.objects[key].spec.slots[i].len
    ensures Inv(Install(st, key, i, bytes, targets))
    ensures Install(st, key, i, bytes, targets).pools.Keys == st.pools.Keys
  {
    hide PoolInv, ChargeAll, Shaped;
    var st' := Install(st, key, i, bytes, targets);
    ChargedKeys(st.pools, targets, key, i, |bytes|);
    forall d | d in st'.pools
      ensures PoolInv(st'.objects, st'.pools[d], d)
    {
      InstallPool(st, key, i, bytes, targets, d);
    }
    FilledShaped(st.objects[key], i, bytes, targets, st.pools.Keys);
  }

  lemma {:induction false} ChargedKeys(pools: map<Device, Pool>, targets: seq<Target>, key: Key, i: nat, len: nat)
    requires Served(targets, pools.Keys)
    ensures ChargeAll(pools, targets, key, i, len).Keys == pools.Keys
    decreases |targets|
  {
    if targets != [] {
      var pools1 := Charge(pools, targets[0].device, key, i, len);
      assert pools1.Keys == pools.Keys;
      ChargedKeys(pools1, targets[1..], key, i, len);
    }
  }

  lemma FilledShaped(o: Object, i: nat, bytes: seq<Byte>, targets: seq<Target>, devices: set<Device>)
    requires Shaped(o, devices) && i < |o.slots| && |bytes| == o.spec.slots[i].len && Served(targets, devices)
    ensures Shaped(Filled(o, i, Copies(targets, bytes)), devices)
  {
  }

  // ---------------------------------------------------------------------
  // One slot

  /** The targets a slot gets, or none: decided by who admits before the slot is tried. */
  ghost function Chosen(st: State, order: seq<Device>, key: Key, spec: SlotSpec): Option<seq<Target>> {
    var cands := Candidates(spec.placement, order);
    var each := spec.placement.Each?;
    var j := FirstWith(st, key, spec.len, cands, !each);
    if each then (if cands != [] && j == |cands| then Some(cands) else None)
    else if j < |cands| then Some([cands[j]])
    else None
  }

  /** The error of a slot that gets no targets. */
  ghost function Fault(st: State, order: seq<Device>, key: Key, spec: SlotSpec): ErrorKind {
    var cands := Candidates(spec.placement, order);
    var j := FirstWith(st, key, spec.len, cands, !spec.placement.Each?);
    if cands == [] then NoSpace
    else if spec.placement.Each? && j < |cands| then Refusal(st, cands[j])
    else Refusal(st, cands[|cands| - 1])
  }

  /** Apart from `key` itself, only evictions happened. */
  ghost predicate Around(was: map<Key, Object>, now: map<Key, Object>, key: Key) {
    key in was && key in now && Eroded(was, now[key := was[key]], key)
  }

  lemma AroundTwice(a: map<Key, Object>, b: map<Key, Object>, c: map<Key, Object>, key: Key)
    requires Around(a, b, key) && Around(b, c, key) && a[key].spec == b[key].spec
    ensures Around(a, c, key)
  {
    var b', c' := b[key := a[key]], c[key := a[key]];
    assert Kept(c', key) == Kept(b', key) by {
      var ck := c[key := b[key]];
      assert Kept(ck, key) == Kept(b, key);
      forall k ensures (k in Kept(c', key) <==> k in Kept(b', key)) && (k in Kept(c', key) ==> Kept(c', key)[k] == Kept(b', key)[k]) {
        assert k in Kept(ck, key) <==> k in Kept(b, key);
        assert k in Kept(ck, key) ==> Kept(ck, key)[k] == Kept(b, key)[k];
      }
    }
    assert Eroded(b', c', key);
    ErodedTwice(a, b', c', key);
  }

  ghost predicate Matches(o: Object, i: nat, fill: Fill) {
    && i < |o.slots| && i < |o.spec.slots|
    && o.spec.slots[i] == fill.spec && |fill.bytes| == fill.spec.len
  }

  /** One writable slot: it ends with a copy on exactly the chosen targets, or stays as it was. */
  lemma PutSlotSpec(st: State, order: seq<Device>, key: Key, i: nat, fill: Fill)
    requires Inv(st) && key in st.objects && Matches(st.objects[key], i, fill)
    ensures var (st', res) := PutSlot(st, order, key, i, fill);
            var chosen := Chosen(st, order, key, fill.spec);
            && Inv(st')
            && st'.pools.Keys == st.pools.Keys
            && Around(st.objects, st'.objects, key)
            && (res.Ok? <==> chosen.Some?)
            && (res.Err? ==> res.kind == Fault(st, order, key, fill.spec))
            && st'.objects[key] == (if chosen.Some? then Filled(st.objects[key], i, Copies(chosen.value, fill.bytes))
                                    else st.objects[key])
  {
    hide Inv, Place, Kept, Candidates, FirstWith, Admits, ChargeAll, Copies;
    var cands, each := Candidates(fill.spec.placement, order), fill.spec.placement.Each?;
    PlaceSpec(st, key, fill.spec.len, cands, each);
    var p := Place(st, key, fill.spec.len, cands, each);
    FrameInv(st, p.st, key);
    ErodedOwn(st.objects, p.st.objects, key);
    assert p.st.objects[key := st.objects[key]] == p.st.objects;
    assert cands[..|cands|] == cands;
    if Succeeded(p, each) {
      InstallInv(p.st, key, i, fill.bytes, p.targets);
      var st' := Install(p.st, key, i, fill.bytes, p.targets);
      assert st'.objects[key := st.objects[key]] == p.st.objects;
    }
  }

  // ---------------------------------------------------------------------
  // All slots

  ghost predicate Ready(st: State, key: Key, fills: seq<Fill>) {
    && Inv(st) && key in st.objects
    && |st.objects[key].slots| == |fills|
    && forall i | 0 <= i < |fills| :: Matches(st.objects[key], i, fills[i])
  }

  function Writable(slots: seq<Slot>): (r: seq<bool>)
    ensures |r| == |slots|
    ensures forall i | 0 <= i < |r| :: r[i] == (slots[i] == [])
  {
    seq(|slots|, i requires 0 <= i < |slots| => slots[i] == [])
  }

  /** The state and the replies after the first `n` slots. */
  function PutPrefix(st: State, order: seq<Device>, key: Key, fills: seq<Fill>, writable: seq<bool>, n: nat)
    : (r: (State, seq<Result<()>>))
    requires key in st.objects && |st.objects[key].slots| == |writable| == |fills| && n <= |fills|
    ensures |r.1| == n && r.0.pools.Keys == st.pools.Keys && key in r.0.objects
    ensures r.0.objects[key].spec == st.objects[key].spec && |r.0.objects[key].slots| == |fills|
  {
    if n == 0 then (st, [])
    else
      var (s, replies) := PutPrefix(st, order, key, fills, writable, n - 1);
      if !writable[n - 1] then (s, replies + [Err(AlreadyExists)])
      else
        var (s', reply) := PutSlot(s, order, key, n - 1, fills[n - 1]);
        (s', replies + [reply])
  }

  lemma {:induction false} PutPrefixReady(st: State, order: seq<Device>, key: Key, fills: seq<Fill>, writable: seq<bool>, n: nat)
    requires Ready(st, key, fills) && |writable| == |fills| && n <= |fills|
    ensures Ready(PutPrefix(st, order, key, fills, writable, n).0, key, fills)
  {
    hide Ready, PutSlot;
    ReadyShape(st, key, fills);
    if n > 0 {
      PutPrefixReady(st, order, key, fills, writable, n - 1);
      if writable[n - 1] { ReadyAfter(PutPrefix(st, order, key, fills, writable, n - 1).0, order, key, fills, n - 1); }
    }
  }

  lemma ReadyShape(st: State, key: Key, fills: seq<Fill>)
    requires Ready(st, key, fills)
    ensures key in st.objects && |st.objects[key].slots| == |fills|
  {
  }

  lemma ReadySlot(st: State, key: Key, fills: seq<Fill>, i: nat)
    requires Ready(st, key, fills) && i < |fills|
    ensures Inv(st) && key in st.objects && Matches(st.objects[key], i, fills[i])
  {
  }

  lemma ReadyAfter(st: State, order: seq<Device>, key: Key, fills: seq<Fill>, i: nat)
    requires Ready(st, key, fills) && i < |fills|
    ensures Ready(PutSlot(st, order, key, i, fills[i]).0, key, fills)
  {
    hide Inv, PutSlot, Chosen, Copies, Eroded;
    PutSlotSpec(st, order, key, i, fills[i]);
    var st' := PutSlot(st, order, key, i, fills[i]).0;
    forall j | 0 <= j < |fills|
      ensures Matches(st'.objects[key], j, fills[j])
    {
      assert Matches(st.objects[key], j, fills[j]);
    }
  }

  /** What slot `i` must look like once it has been tried, given the state it was tried in. */
  ghost predicate SlotOutcome(before: Slot, after: Slot, reply: Result<()>, chosen: Option<seq<Target>>, fault: ErrorKind,
                              bytes: seq<Byte>) {
    if before != [] then reply == Err(AlreadyExists) && after == before
    else if chosen.Some? then reply.Ok? && after == Copies(chosen.value, bytes)
    else reply == Err(fault) && fault != AlreadyExists && after == []
  }

  /** Slots are treated one by one and independently, and nothing but evictions happens elsewhere. */
  lemma {:induction false} PutPrefixSpec(st: State, order: seq<Device>, key: Key, fills: seq<Fill>, n: nat)
    requires Ready(st, key, fills) && n <= |fills|
    ensures var w := Writable(st.objects[key].slots);
            var (s, replies) := PutPrefix(st, order, key, fills, w, n);
            && Around(st.objects, s.objects, key)
            && s.pools.Keys == st.pools.Keys
            && s.objects[key].spec == st.objects[key].spec
            && (forall i | n <= i < |fills| :: s.objects[key].slots[i] == st.objects[key].slots[i])
            && (forall i | 0 <= i < n ::
                  SlotOutcome(st.objects[key].slots[i], s.objects[key].slots[i], replies[i],
                              Chosen(PutPrefix(st, order, key, fills, w, i).0, order, key, fills[i].spec),
                              Fault(PutPrefix(st, order, key, fills, w, i).0, order, key, fills[i].spec), fills[i].bytes))
  {
    hide Inv, PutSlot, Chosen, Copies, Around, Matches, PutPrefix, Fault;
    var w := Writable(st.objects[key].slots);
    PutPrefixStep(st, order, key, fills, w, n);
    if n == 0 {
      AroundSelf(st.objects, key);
    } else {
      PutPrefixSpec(st, order, key, fills, n - 1);
      var (s, replies) := PutPrefix(st, order, key, fills, w, n - 1);
      PutPrefixReady(st, order, key, fills, w, n - 1);
      ReadySlot(s, key, fills, n - 1);
      if w[n - 1] {
        PutSlotSpec(s, order, key, n - 1, fills[n - 1]);
        FaultKind(s, order, key, fills[n - 1].spec);
        FilledBlank(s.objects[key], n - 1);
        AroundTwice(st.objects, s.objects, PutSlot(s, order, key, n - 1, fills[n - 1]).0.objects, key);
      }
    }
  }

  lemma FaultKind(st: State, order: seq<Device>, key: Key, spec: SlotSpec)
    ensures Fault(st, order, key, spec) == NoSpace || Fault(st, order, key, spec) == InvalidInput
  {
    hide FirstWith, Candidates;
  }

  lemma FilledBlank(o: Object, i: nat)
    requires i < |o.slots| && o.slots[i] == []
    ensures forall extra :: Filled(o, i, extra).slots[i] == extra
  {
    forall extra: Slot ensures Filled(o, i, extra).slots[i] == extra { assert [] + extra == extra; }
  }

  lemma PutPrefixStep(st: State, order: seq<Device>, key: Key, fills: seq<Fill>, w: seq<bool>, n: nat)
    requires Ready(st, key, fills) && |w| == |fills| && n <= |fills|
    ensures n == 0 ==> PutPrefix(st, order, key, fills, w, n) == (st, [])
    ensures n > 0 ==>
              var (s, replies) := PutPrefix(st, order, key, fills, w, n - 1);
              && key in s.objects && n - 1 < |s.objects[key].slots|
              && PutPrefix(st, order, key, fills, w, n)
              == if !w[n - 1] then (s, replies + [Err(AlreadyExists)])
                 else (PutSlot(s, order, key, n - 1, fills[n - 1]).0, replies + [PutSlot(s, order, key, n - 1, fills[n - 1]).1])
  {
    hide Inv, PutSlot;
  }

  lemma AroundSelf(objects: map<Key, Object>, key: Key)
    requires key in objects
    ensures Around(objects, objects, key)
  {
    assert objects[key := objects[key]] == objects;
    ErodedSelf(objects, key);
  }

  // ---------------------------------------------------------------------
  // The request

  function SpecOf(retention: Retention, fills: seq<Fill>): ObjectSpec {
    ObjectSpec(retention, seq(|fills|, i requires 0 <= i < |fills| => fills[i].spec))
  }

  function Blank(spec: ObjectSpec): Object {
    Object(spec, seq(|spec.slots|, i => []))
  }

  /** Every slot index queued for the pool under `key` is below `n`, or the pool is never scanned. */
  ghost predicate QueuedBelow(pool: Pool, key: Key, n: nat) {
    pool.capacity.Some? ==> forall i | 0 <= i < |pool.fifo| && pool.fifo[i].key == key :: pool.fifo[i].slot < n
  }

  /** A Cache key that is created anew must have room for every slot index that a bounded pool still
      queues under its name; otherwise a later scan can index past the end of its slots. */
  ghost predicate Reusable(st: State, key: Key, spec: ObjectSpec) {
    key in st.objects || spec.retention == Explicit ||
    forall d | d in st.pools :: QueuedBelow(st.pools[d], key, |spec.slots|)
  }

  function Reserve(st: State, key: Key, spec: ObjectSpec): State {
    if key in st.objects then st else st.(objects := st.objects[key := Blank(spec)])
  }

  ghost predicate Sized(fills: seq<Fill>) {
    forall i | 0 <= i < |fills| :: |fills[i].bytes| == fills[i].spec.len
  }

  lemma ReserveReady(st: State, key: Key, retention: Retention, fills: seq<Fill>)
    requires Inv(st) && Sized(fills) && Reusable(st, key, SpecOf(retention, fills))
    requires key in st.objects ==> st.objects[key].spec == SpecOf(retention, fills)
    ensures Ready(Reserve(st, key, SpecOf(retention, fills)), key, fills)
  {
    var spec := SpecOf(retention, fills);
    var st' := Reserve(st, key, spec);
    if key in st.objects {
      assert Shaped(st.objects[key], st.pools.Keys);
    } else {
      forall d | d in st'.pools
        ensures PoolInv(st'.objects, st'.pools[d], d)
      {
        ReservePool(st, key, spec, d);
      }
    }
    forall i | 0 <= i < |fills| ensures Matches(st'.objects[key], i, fills[i]) { assert |fills[i].bytes| == fills[i].spec.len; }
  }

  lemma ReservePool(st: State, key: Key, spec: ObjectSpec, d: Device)
    requires Reusable(st, key, spec) && key !in st.objects && d in st.pools && PoolInv(st.objects, st.pools[d], d)
    ensures PoolInv(st.objects[key := Blank(spec)], st.pools[d], d)
  {
    hide StoreBytes, ObjectBytes;
    var now := st.objects[key := Blank(spec)];
    StoreBytesPut(st.objects, d, key, Blank(spec));
    EmptyObjectBytes(Blank(spec).slots, d);
    forall k, i | Evictable(now, k) && 0 <= i < |now[k].slots| && SlotHas(now[k].slots[i], d)
      ensures Entry(k, i) in st.pools[d].fifo
    {
      assert k != key;
      assert SlotHas(st.objects[k].slots[i], d);
    }
    forall i | st.pools[d].capacity.Some? && 0 <= i < |st.pools[d].fifo|
      ensures Fits(now, st.pools[d].fifo[i])
    {
      assert QueuedBelow(st.pools[d], key, |spec.slots|) || spec.retention == Explicit;
      assert Fits(st.objects, st.pools[d].fifo[i]);
    }
  }

  /** Every object has one list of replicas per slot of its spec. */
  ghost predicate Squared(st: State) {
    forall k | k in st.objects :: |st.objects[k].slots| == |st.objects[k].spec.slots|
  }

  lemma InvSquared(st: State)
    requires Inv(st)
    ensures Squared(st)
  {
    hide PoolInv;
    forall k | k in st.objects ensures |st.objects[k].slots| == |st.objects[k].spec.slots| {
      assert Shaped(st.objects[k], st.pools.Keys);
    }
  }

  function Put(st: State, order: seq<Device>, key: Key, retention: Retention, fills: seq<Fill>): (State, Result<seq<Result<()>>>)
    requires Squared(st)
  {
    var spec := SpecOf(retention, fills);
    if key in st.objects && st.objects[key].spec != spec then (st, Err(SpecMismatch))
    else
      var s := Reserve(st, key, spec);
      var (s', replies) := PutPrefix(s, order, key, fills, Writable(s.objects[key].slots), |fills|);
      (s', Ok(replies))
  }

  /** The slots of `key` when a request for it starts. */
  function SlotAt(st: State, key: Key, i: nat): Slot {
    if key in st.objects && i < |st.objects[key].slots| then st.objects[key].slots[i] else []
  }

  /** The contract of `put`. A different spec is refused and changes nothing. Otherwise the slots
      resident at entry, and only those, answer AlreadyExists and are unchanged; every other slot
      ends with one copy per chosen target, or empty; the object's own replicas are never evicted;
      and every other object only loses evictable replicas. */
  lemma PutContract(st: State, order: seq<Device>, key: Key, retention: Retention, fills: seq<Fill>)
    requires Inv(st) && Sized(fills) && Reusable(st, key, SpecOf(retention, fills))
    ensures Squared(st)
    ensures var spec := SpecOf(retention, fills);
            var (s', reply) := Put(st, order, key, retention, fills);
            && Inv(s') && s'.pools.Keys == st.pools.Keys
            && (reply == Err(SpecMismatch) <==> key in st.objects && st.objects[key].spec != spec)
            && (reply.Err? ==> reply.kind == SpecMismatch && s' == st)
            && (reply.Ok? ==>
                  && |reply.value| == |fills|
                  && key in s'.objects && s'.objects[key].spec == spec && |s'.objects[key].slots| == |fills|
                  && Around(Reserve(st, key, spec).objects, s'.objects, key)
                  && forall i | 0 <= i < |fills| ::
                       && (reply.value[i] == Err(AlreadyExists) <==> SlotAt(st, key, i) != [])
                       && (SlotAt(st, key, i) != [] ==> s'.objects[key].slots[i] == SlotAt(st, key, i))
                       && (SlotAt(st, key, i) == [] && reply.value[i].Err? ==> s'.objects[key].slots[i] == [])
                       && (reply.value[i].Ok? ==>
                             exists ts :: GoodTargets(ts, fills[i].spec.placement, order)
                                          && s'.objects[key].slots[i] == Copies(ts, fills[i].bytes)))
  {
    hide Inv, PutPrefix, Chosen, Copies, Around, Candidates, FirstWith, Reusable, GoodTargets;
    InvSquared(st);
    var spec := SpecOf(retention, fills);
    if !(key in st.objects && st.objects[key].spec != spec) {
      ReserveReady(st, key, retention, fills);
      var s := Reserve(st, key, spec);
      var w := Writable(s.objects[key].slots);
      PutPrefixReady(s, order, key, fills, w, |fills|);
      PutPrefixSpec(s, order, key, fills, |fills|);
      var (s', replies) := PutPrefix(s, order, key, fills, w, |fills|);
      forall i | 0 <= i < |fills| && replies[i].Ok?
        ensures exists ts :: GoodTargets(ts, fills[i].spec.placement, order) && s'.objects[key].slots[i] == Copies(ts, fills[i].bytes)
      {
        var chosen := Chosen(PutPrefix(s, order, key, fills, w, i).0, order, key, fills[i].spec);
        ChosenIsGood(PutPrefix(s, order, key, fills, w, i).0, order, key, fills[i].spec);
        assert s'.objects[key].slots[i] == Copies(chosen.value, fills[i].bytes);
      }
      assert forall i | 0 <= i < |fills| :: SlotAt(st, key, i) == s.objects[key].slots[i];
    }
  }

  /** What each placement demands of a successful slot. */
  ghost predicate GoodTargets(ts: seq<Target>, p: Placement, order: seq<Device>) {
    match p
    case Strict(d) => ts == [Target(d, false)]
    case Prefer(d) => |ts| == 1 && (ts[0].misplaced <==> ts[0].device != d) && (ts[0].device == d || ts[0].device in order)
    case Each(ds) => ds != [] && ts == Plain(ds)
    case Anywhere => |ts| == 1 && !ts[0].misplaced && ts[0].device in order
  }

  lemma {:induction false} OthersAt(order: seq<Device>, d: Device, j: nat)
    requires j < |Others(order, d)|
    ensures Others(order, d)[j].misplaced && Others(order, d)[j].device != d && Others(order, d)[j].device in order
  {
    if order[0] != d {
      if j > 0 { OthersAt(order[1..], d, j - 1); }
    } else {
      OthersAt(order[1..], d, j);
    }
  }

  lemma ChosenIsGood(st: State, order: seq<Device>, key: Key, spec: SlotSpec)
    ensures var chosen := Chosen(st, order, key, spec);
            chosen.Some? ==> GoodTargets(chosen.value, spec.placement, order)
  {
    hide FirstWith, Others;
    var cands := Candidates(spec.placement, order);
    var j := FirstWith(st, key, spec.len, cands, !spec.placement.Each?);
    if spec.placement.Prefer? && 0 < j < |cands| {
      OthersAt(order, spec.placement.device, j - 1);
    }
  }

  // ---------------------------------------------------------------------
  // Where a slot goes, placement by placement

  /** Position `j` of the backend's device order is the first that admits the slot, `but` left out. */
  ghost predicate FirstAdmitting(st: State, order: seq<Device>, key: Key, len: nat, but: Option<Device>, j: int) {
    && 0 <= j < |order| && Admits(st, order[j], len, key) && but != Some(order[j])
    && forall i | 0 <= i < j && but != Some(order[i]) :: !Admits(st, order[i], len, key)
  }

  ghost predicate NoneAdmits(st: State, order: seq<Device>, key: Key, len: nat, but: Option<Device>) {
    forall i | 0 <= i < |order| && but != Some(order[i]) :: !Admits(st, order[i], len, key)
  }

  /** Strict: the device, if it admits. Prefer: the device if it admits, else, marked misplaced, the first
      other one in order that does. Each: all of them, if all admit. Anywhere: the first in order. */
  ghost predicate Assigned(st: State, order: seq<Device>, key: Key, spec: SlotSpec, r: Option<seq<Target>>) {
    match spec.placement
    case Strict(d) => r == (if Admits(st, d, spec.len, key) then Some([Target(d, false)]) else None)
    case Prefer(d) =>
      if Admits(st, d, spec.len, key) then r == Some([Target(d, false)])
      else if r.None? then NoneAdmits(st, order, key, spec.len, Some(d))
      else exists j :: FirstAdmitting(st, order, key, spec.len, Some(d), j) && r.value == [Target(order[j], true)]
    case Each(ds) =>
      && (r.Some? <==> ds != [] && forall i | 0 <= i < |ds| :: Admits(st, ds[i], spec.len, key))
      && (r.Some? ==> |r.value| == |ds| && forall i | 0 <= i < |ds| :: r.value[i] == Target(ds[i], false))
    case Anywhere =>
      if r.None? then NoneAdmits(st, order, key, spec.len, None)
      else exists j :: FirstAdmitting(st, order, key, spec.len, None, j) && r.value == [Target(order[j], false)]
  }

  ghost predicate OtherFound(st: State, order: seq<Device>, d: Device, key: Key, len: nat, os: seq<Target>) {
    var j := FirstWith(st, key, len, os, true);
    if j == |os| then NoneAdmits(st, order, key, len, Some(d))
    else exists i :: FirstAdmitting(st, order, key, len, Some(d), i) && os[j] == Target(order[i], true)
  }

  lemma OtherLater(st: State, order: seq<Device>, d: Device, key: Key, len: nat, os: seq<Target>)
    requires order != [] && OtherFound(st, order[1..], d, key, len, os)
    requires order[0] == d || !Admits(st, order[0], len, key)
    ensures OtherFound(st, order, d, key, len, os)
  {
    hide Admits, FirstWith, NoneAdmits;
    var j := FirstWith(st, key, len, os, true);
    if j == |os| {
      NoneEarlier(st, order, key, len, Some(d));
    } else {
      var i :| FirstAdmitting(st, order[1..], key, len, Some(d), i) && os[j] == Target(order[1..][i], true);
      FirstLater(st, order, key, len, Some(d), i);
    }
  }

  lemma {:induction false} OthersFirst(st: State, order: seq<Device>, d: Device, key: Key, len: nat)
    ensures OtherFound(st, order, d, key, len, Others(order, d))
  {
    hide Admits, OtherFound;
    if order == [] {
      NoOther(st, d, key, len);
    } else {
      var rest := Others(order[1..], d);
      OthersFirst(st, order[1..], d, key, len);
      if order[0] == d {
        OtherLater(st, order, d, key, len, rest);
        assert Others(order, d) == rest;
      } else if Admits(st, order[0], len, key) {
        OtherHere(st, order, d, key, len, rest);
      } else {
        OtherLater(st, order, d, key, len, rest);
        OtherSkipped(st, order, d, key, len, rest);
      }
    }
  }

  lemma NoOther(st: State, d: Device, key: Key, len: nat)
    ensures OtherFound(st, [], d, key, len, [])
  {
  }

  lemma OtherHere(st: State, order: seq<Device>, d: Device, key: Key, len: nat, os: seq<Target>)
    requires order != [] && order[0] != d && Admits(st, order[0], len, key)
    ensures OtherFound(st, order, d, key, len, [Target(order[0], true)] + os)
  {
    hide Admits;
    assert FirstAdmitting(st, order, key, len, Some(d), 0);
  }

  lemma OtherSkipped(st: State, order: seq<Device>, d: Device, key: Key, len: nat, os: seq<Target>)
    requires order != [] && !Admits(st, order[0], len, key) && OtherFound(st, order, d, key, len, os)
    ensures OtherFound(st, order, d, key, len, [Target(order[0], true)] + os)
  {
    hide Admits, FirstAdmitting, NoneAdmits;
    var more := [Target(order[0], true)] + os;
    assert more[1..] == os;
    assert FirstWith(st, key, len, more, true) == 1 + FirstWith(st, key, len, os, true);
  }

  lemma FirstLater(st: State, order: seq<Device>, key: Key, len: nat, but: Option<Device>, i: int)
    requires order != [] && FirstAdmitting(st, order[1..], key, len, but, i)
    requires but == Some(order[0]) || !Admits(st, order[0], len, key)
    ensures FirstAdmitting(st, order, key, len, but, i + 1) && order[i + 1] == order[1..][i]
  {
    hide Admits;
    forall p | 0 <= p < i + 1 && but != Some(order[p])
      ensures !Admits(st, order[p], len, key)
    {
      if p > 0 { assert order[1..][p - 1] == order[p]; }
    }
  }

  lemma NoneEarlier(st: State, order: seq<Device>, key: Key, len: nat, but: Option<Device>)
    requires order != [] && NoneAdmits(st, order[1..], key, len, but)
    requires but == Some(order[0]) || !Admits(st, order[0], len, key)
    ensures NoneAdmits(st, order, key, len, but)
  {
    hide Admits;
    forall p | 0 <= p < |order| && but != Some(order[p])
      ensures !Admits(st, order[p], len, key)
    {
      if p > 0 { assert order[1..][p - 1] == order[p]; }
    }
  }

  lemma ChosenExactly(st: State, order: seq<Device>, key: Key, spec: SlotSpec)
    ensures Assigned(st, order, key, spec, Chosen(st, order, key, spec))
  {
    hide Admits, Others, NoneAdmits, FirstAdmitting;
    var cands := Candidates(spec.placement, order);
    match spec.placement
    case Strict(d) =>
      assert cands[1..] == [];
    case Prefer(d) =>
      OthersFirst(st, order, d, key, spec.len);
      assert cands[1..] == Others(order, d);
    case Each(ds) =>
    case Anywhere =>
      PlainFirst(st, order, key, spec.len);
  }

  lemma PlainFirst(st: State, order: seq<Device>, key: Key, len: nat)
    ensures var j := FirstWith(st, key, len, Plain(order), true);
            if j == |order| then NoneAdmits(st, order, key, len, None) else FirstAdmitting(st, order, key, len, None, j)
  {
    hide Admits, FirstWith;
    var j := FirstWith(st, key, len, Plain(order), true);
    assert forall i | 0 <= i < j :: Plain(order)[i].device == order[i];
  }

  /** The kind of refusal of a device: unknown, or without room. */
  ghost predicate RefusedAs(st: State, d: Device, kind: ErrorKind) {
    kind == (if d in st.pools then NoSpace else InvalidInput)
  }

  /** The error of a slot that goes nowhere: of the device (Strict), of the first in the list that does not
      admit (Each), of the last device tried (Prefer, Anywhere); NoSpace where there was none to try. */
  ghost predicate FaultOf(st: State, order: seq<Device>, key: Key, spec: SlotSpec, kind: ErrorKind) {
    match spec.placement
    case Strict(d) => RefusedAs(st, d, kind)
    case Each(ds) =>
      if ds == [] then kind == NoSpace
      else exists j | 0 <= j < |ds| ::
             && !Admits(st, ds[j], spec.len, key) && RefusedAs(st, ds[j], kind)
             && forall i | 0 <= i < j :: Admits(st, ds[i], spec.len, key)
    case Prefer(d) =>
      if forall i | 0 <= i < |order| :: order[i] == d then RefusedAs(st, d, kind)
      else exists j | 0 <= j < |order| ::
             order[j] != d && RefusedAs(st, order[j], kind) && forall i | j < i < |order| :: order[i] == d
    case Anywhere => if order == [] then kind == NoSpace else RefusedAs(st, order[|order| - 1], kind)
  }

  lemma FaultExactly(st: State, order: seq<Device>, key: Key, spec: SlotSpec)
    requires Chosen(st, order, key, spec).None?
    ensures FaultOf(st, order, key, spec, Fault(st, order, key, spec))
  {
    hide Admits, Others;
    var cands := Candidates(spec.placement, order);
    match spec.placement
    case Strict(d) =>
    case Each(ds) =>
    case Prefer(d) =>
      OthersLast(order, d);
    case Anywhere =>
  }

  lemma {:induction false} OthersLast(order: seq<Device>, d: Device)
    ensures Others(order, d) == [] <==> forall i | 0 <= i < |order| :: order[i] == d
    ensures var os := Others(order, d);
            os != [] ==> exists j | 0 <= j < |order| ::
                           order[j] != d && os[|os| - 1].device == order[j] && forall i | j < i < |order| :: order[i] == d
  {
    if order != [] {
      var rest := order[1..];
      OthersLast(rest, d);
      var os, more := Others(order, d), Others(rest, d);
      assert order == [order[0]] + rest;
      if more != [] {
        assert os[|os| - 1] == more[|more| - 1];
        var j :| 0 <= j < |rest| && rest[j] != d && more[|more| - 1].device == rest[j] && forall i | j < i < |rest| :: rest[i] == d;
        assert order[j + 1] == rest[j];
        assert forall i | j + 1 < i < |order| :: order[i] == rest[i - 1];
      } else if order[0] != d {
        assert order[0] != d && os[|os| - 1].device == order[0] && forall i | 0 < i < |order| :: order[i] == d by {
          assert forall i | 0 < i < |order| :: order[i] == rest[i - 1];
        }
      } else {
        assert forall i | 0 < i < |order| :: order[i] == rest[i - 1];
      }
    }
  }
}
