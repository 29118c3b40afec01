/** The reference backend as the object it is: its methods update the object map and the pools in
    place, and each is proved against the function of the same step. */
module MemoryStore {
  import opened Types
  import Segments
  import opened KeyOrder
  import opened MemoryData
  import opened MemoryEvict
  import opened MemoryPut
  import opened MemoryRequest
  import opened MemoryOps

  datatype Region = Region(id: nat, addr: nat, len: nat, device: Device)

  datatype Iov = Iov(region: Region, offset: nat, len: nat)

  datatype SlotRequest = SlotRequest(spec: SlotSpec, src: seq<Iov>)

  function SegOf(v: Iov): Segments.Seg { Segments.Seg(v.region.addr + v.offset, v.len) }

  function SegsOf(iovs: seq<Iov>): (r: seq<Segments.Seg>)
    ensures |r| == |iovs|
    ensures forall i | 0 <= i < |r| :: r[i] == SegOf(iovs[i])
  {
    seq(|iovs|, i requires 0 <= i < |iovs| => SegOf(iovs[i]))
  }

  /** `validate_iovs`: non-empty, in bounds, on one device, and a total that fits 64 bits. */
  predicate ValidIovs(iovs: seq<Iov>) {
    && iovs != []
    && (forall i | 0 <= i < |iovs| ::
          iovs[i].offset + iovs[i].len <= iovs[i].region.len && iovs[i].region.device == iovs[0].region.device)
    && Segments.Total(SegsOf(iovs)) <= U64_MAX
  }

  /** The registration contract: a region's bytes are mapped. */
  predicate Mapped(iovs: seq<Iov>, size: nat) {
    forall i | 0 <= i < |iovs| :: iovs[i].region.addr + iovs[i].region.len <= size
  }

  lemma MappedInBounds(iovs: seq<Iov>, size: nat)
    requires ValidIovs(iovs) && Mapped(iovs, size)
    ensures Segments.InBounds(SegsOf(iovs), size)
  {
  }

  /** Lent replicas have their slot's length and lie in mapped memory. */
  ghost predicate LentSound(objects: map<Key, Object>, size: nat) {
    forall k, i, r | k in objects && 0 <= i < |objects[k].slots| && r in objects[k].slots[i] && r.data.Lent? ::
      && i < |objects[k].spec.slots|
      && Segments.InBounds(r.data.segs, size) && Segments.Total(r.data.segs) == objects[k].spec.slots[i].len
  }

  /** The devices served: the ones asked for, or one unbounded NUMA node. */
  function Devices(asked: seq<(Device, Option<nat>)>): seq<(Device, Option<nat>)> {
    if asked == [] then [(Cpu(0), None)] else asked
  }

  /** Among the first `n` entries, entry `i` is the last for its device. */
  ghost predicate LastListed(ds: seq<(Device, Option<nat>)>, i: int, n: int)
    requires 0 <= i < |ds| && n <= |ds|
  {
    forall j | i < j < n :: ds[j].0 != ds[i].0
  }

  /** One empty pool per device; a device listed twice keeps its last capacity. */
  method BuildPools(ds: seq<(Device, Option<nat>)>) returns (ps: map<Device, Pool>, names: seq<Device>)
    ensures |names| == |ds| && forall i | 0 <= i < |ds| :: names[i] == ds[i].0
    ensures forall d :: d in ps <==> d in names
    ensures forall d | d in ps :: ps[d].used == 0 && ps[d].fifo == []
    ensures forall i | 0 <= i < |ds| && LastListed(ds, i, |ds|) :: ds[i].0 in ps && ps[ds[i].0].capacity == ds[i].1
  {
    hide LastListed;
    ps, names := map[], [];
    for i := 0 to |ds|
      invariant |names| == i && forall j | 0 <= j < i :: names[j] == ds[j].0
      invariant forall d :: d in ps <==> d in names
      invariant forall d | d in ps :: ps[d].used == 0 && ps[d].fifo == []
      invariant forall j | 0 <= j < i && LastListed(ds, j, i) :: ds[j].0 in ps && ps[ds[j].0].capacity == ds[j].1
    {
      forall j | 0 <= j < i ensures LastListed(ds, j, i + 1) ==> LastListed(ds, j, i) && ds[j].0 != ds[i].0 {
        StillLast(ds, j, i);
      }
      ps := ps[ds[i].0 := Pool(ds[i].1, 0, [])];
      names := names + [ds[i].0];
    }
  }

  lemma StillLast(ds: seq<(Device, Option<nat>)>, j: nat, i: nat)
    requires j < i < |ds|
    ensures LastListed(ds, j, i + 1) ==> LastListed(ds, j, i) && ds[j].0 != ds[i].0
  {
  }

  lemma EmptyStore(pools: map<Device, Pool>, size: nat)
    requires forall d | d in pools :: pools[d].used == 0 && pools[d].fifo == []
    ensures Inv(State(map[], pools)) && LentSound(map[], size)
  {
  }

  class Memory {
    const order: seq<Device>
    const gpuNuma: map<nat, nat>
    /** The process memory that registered regions point into. */
    const mem: array<Byte>
    var objects: map<Key, Object>
    var pools: map<Device, Pool>

    ghost function Now(): State
      reads this
    {
      State(objects, pools)
    }

    ghost predicate Valid()
      reads this
    {
      Inv(Now()) && LentSound(objects, mem.Length)
    }

    constructor (devices: seq<(Device, Option<nat>)>, gpuNuma: map<nat, nat>, mem: array<Byte>)
      ensures Valid() && objects == map[] && this.mem == mem && this.gpuNuma == gpuNuma
      ensures forall d | d in pools :: pools[d].used == 0 && pools[d].fifo == []
      ensures forall d :: d in pools <==> d in order
      ensures var ds := Devices(devices);
              && |order| == |ds| && (forall i | 0 <= i < |ds| :: order[i] == ds[i].0)
              && (forall i | 0 <= i < |ds| && LastListed(ds, i, |ds|) :: pools[ds[i].0].capacity == ds[i].1)
    {
      hide LastListed, Inv;
      var ps, names := BuildPools(Devices(devices));
      EmptyStore(ps, mem.Length);
      this.order := names;
      this.gpuNuma := gpuNuma;
      this.mem := mem;
      this.objects := map[];
      this.pools := ps;
    }

    method MakeRoom(d: Device, need: nat, key: Key) returns (ok: bool)
      requires Inv(Now()) && d in pools
      modifies this`objects, this`pools
      ensures Scannable(old(objects), old(pools)[d])
      ensures (ok, Now()) == MemoryEvict.MakeRoom(old(Now()), d, need, key)
    {
      hide Evict, Freed, Inv;
      InvFits(Now(), d);
      if pools[d].capacity.None? {
        return true;
      }
      var cap := pools[d].capacity.value;
      if need > cap {
        return false;
      }
      var deferred: seq<Entry> := [];
      ghost var was, room := pools[d], cap - need;
      ghost var goal := Reclaim(objects, was.used, was.fifo, d, room, key);
      while pools[d].used + need > cap && pools[d].fifo != []
        invariant d in pools && pools == old(pools)[d := was.(used := pools[d].used, fifo := pools[d].fifo)]
        invariant AllFit(objects, pools[d].fifo)
        invariant var r := Reclaim(objects, pools[d].used, pools[d].fifo, d, room, key);
                  goal == r.(queue := deferred + r.queue)
        decreases |pools[d].fifo|
      {
        ghost var objects0, pool0 := objects, pools[d];
        FrontFits(objects0, pool0.fifo);
        var e := pools[d].fifo[0];
        pools := pools[d := pools[d].(fifo := pools[d].fifo[1..])];
        if e.key == key {
          deferred := deferred + [e];
        } else if e.key in objects && objects[e.key].spec.retention == Cache {
          EvictFits(objects0, e, d, pool0.fifo[1..]);
          EvictSlot(e, d);
        } else {
          NotEvicted(objects0, e, d);
        }
      }
      assert goal == Reclaimed(objects, pools[d].used, deferred + pools[d].fifo);
      var pool := pools[d];
      pools := pools[d := pool.(fifo := deferred + pool.fifo)];
      assert pools == old(pools)[d := was.(used := goal.used, fifo := goal.queue)];
      ok := pool.used + need <= cap;
    }

    /** The eviction of one popped entry of a live Cache object. */
    method EvictSlot(e: Entry, d: Device)
      requires d in pools && Evictable(objects, e.key) && Fits(objects, e)
      modifies this`objects, this`pools
      ensures objects == Evict(old(objects), e, d)
      ensures pools == old(pools)[d := old(pools)[d].(used := old(pools)[d].used - Freed(old(objects), e, d))]
    {
      var o := objects[e.key];
      var freed := SlotBytes(o.slots[e.slot], d);
      var slots := o.slots[e.slot := Without(o.slots[e.slot], d)];
      objects := objects[e.key := o.(slots := slots)];
      pools := pools[d := pools[d].(used := pools[d].used - freed)];
      if forall i | 0 <= i < |slots| :: slots[i] == [] {
        objects := objects - {e.key};
      }
    }

    /** The candidate loop of `put`. */
    method PlaceSlot(key: Key, len: nat, cands: seq<Target>, each: bool)
      returns (targets: seq<Target>, err: Option<ErrorKind>)
      requires Inv(Now())
      modifies this`objects, this`pools
      ensures var p := Place(old(Now()), key, len, cands, each);
              && Now() == p.st && targets == p.targets
              && Succeeded(Placing(Now(), targets, err), each) == Succeeded(p, each)
              && (!Succeeded(p, each) ==> err == p.err)
    {
      hide Inv, MemoryEvict.MakeRoom, Frame, Place;
      targets, err := [], None;
      ghost var goal := Place(Now(), key, len, cands, each);
      var i := 0;
      while i < |cands|
        invariant 0 <= i <= |cands| && Inv(Now())
        invariant each ==> err.None?
        invariant !each ==> targets == []
        invariant var r := Place(Now(), key, len, cands[i..], each);
                  goal == if each then r.(targets := targets + r.targets)
                          else if err.None? then r else Blame(r, err.value)
      {
        var t := cands[i];
        assert cands[i..][0] == t && cands[i..][1..] == cands[i + 1..];
        PlaceStep(Now(), key, len, cands[i..], each);
        if t.device !in pools {
          err := Some(InvalidInput);
          if each {
            return;
          }
        } else {
          MakeRoomFrame(Now(), t.device, len, key);
          ghost var before := Now();
          var ok := MakeRoom(t.device, len, key);
          FrameInv(before, Now(), key);
          if ok {
            targets := targets + [t];
            if !each {
              return;
            }
          } else {
            err := Some(NoSpace);
            if each {
              return;
            }
          }
        }
        i := i + 1;
      }
      PlaceStep(Now(), key, len, cands[i..], each);
    }

    /** Push one replica per target, then charge each target's pool. */
    method InstallSlot(key: Key, i: nat, bytes: seq<Byte>, targets: seq<Target>)
      requires key in objects && i < |objects[key].slots| && Served(targets, pools.Keys)
      modifies this`objects, this`pools
      ensures Now() == Install(old(Now()), key, i, bytes, targets)
    {
      hide ChargeAll, Copies;
      var o := objects[key];
      var slot := PushCopies(o.slots[i], targets, bytes);
      objects := objects[key := o.(slots := o.slots[i := slot])];
      ChargeTargets(targets, key, i, |bytes|);
    }

    static method PushCopies(slot: Slot, targets: seq<Target>, bytes: seq<Byte>) returns (r: Slot)
      ensures r == slot + Copies(targets, bytes)
    {
      r := slot;
      for j := 0 to |targets|
        invariant r == slot + Copies(targets[..j], bytes)
      {
        var copy := Replica(targets[j].device, Dram, targets[j].misplaced, Owned(bytes));
        assert Copies(targets[..j + 1], bytes) == Copies(targets[..j], bytes) + [copy];
        r := r + [copy];
      }
      assert targets[..|targets|] == targets;
    }

    method ChargeTargets(targets: seq<Target>, key: Key, i: nat, len: nat)
      requires Served(targets, pools.Keys)
      modifies this`pools
      ensures pools == ChargeAll(old(pools), targets, key, i, len)
    {
      for j := 0 to |targets|
        invariant pools.Keys == old(pools).Keys
        invariant ChargeAll(old(pools), targets, key, i, len) == ChargeAll(pools, targets[j..], key, i, len)
      {
        var d := targets[j].device;
        assert targets[j..][0] == targets[j] && targets[j..][1..] == targets[j + 1..];
        pools := pools[d := pools[d].(used := pools[d].used + len, fifo := pools[d].fifo + [Entry(key, i)])];
      }
    }

    /** `put`: reserve the key, then treat the slots one by one. */
    method Put(key: Key, retention: Retention, slots: seq<SlotRequest>) returns (reply: Result<seq<Result<()>>>)
      requires Valid()
      requires forall i | 0 <= i < |slots| :: Mapped(slots[i].src, mem.Length)
      requires Reusable(Now(), key, SpecOf(retention, FillsOf(slots, mem[..])))
      modifies this`objects, this`pools
      ensures Valid()
      ensures !ValidRequest(slots) ==> reply == Err(InvalidInput) && Now() == old(Now())
      ensures ValidRequest(slots) ==>
                && Sized(FillsOf(slots, mem[..]))
                && (Now(), reply) == MemoryRequest.Put(old(Now()), order, key, retention, FillsOf(slots, mem[..]))
    {
      hide Inv, PutPrefix, Copies, MemoryPut.PutSlot, LentSound;
      if !ValidRequest(slots) {
        return Err(InvalidInput);
      }
      ghost var fills := FillsOf(slots, mem[..]);
      FillsSized(slots, mem[..]);
      PutLent(Now(), order, key, retention, fills, mem.Length);
      var spec := ObjectSpec(retention, seq(|slots|, i requires 0 <= i < |slots| => slots[i].spec));
      assert spec == SpecOf(retention, fills);
      if key in objects && objects[key].spec != spec {
        return Err(SpecMismatch);
      }
      ReserveReady(Now(), key, retention, fills);
      if key !in objects {
        objects := objects[key := Object(spec, seq(|spec.slots|, i => []))];
      }
      ghost var start := Now();
      assert start == Reserve(old(Now()), key, spec);
      var cur := objects[key].slots;
      var writable := seq(|cur|, i requires 0 <= i < |cur| => cur[i] == []);
      assert writable == Writable(start.objects[key].slots);
      var replies := FillSlots(key, slots, writable, fills);
      reply := Ok(replies);
    }

    method FillSlots(key: Key, slots: seq<SlotRequest>, writable: seq<bool>, ghost fills: seq<Fill>)
      returns (replies: seq<Result<()>>)
      requires fills == FillsOf(slots, mem[..]) && Ready(Now(), key, fills) && |writable| == |fills|
      requires ValidRequest(slots) && forall i | 0 <= i < |slots| :: Mapped(slots[i].src, mem.Length)
      modifies this`objects, this`pools
      ensures (Now(), replies) == PutPrefix(old(Now()), order, key, fills, writable, |slots|)
    {
      hide Inv, PutPrefix, MemoryPut.PutSlot, Matches;
      replies := [];
      PutPrefixStep(Now(), order, key, fills, writable, 0);
      for i := 0 to |slots|
        invariant (Now(), replies) == PutPrefix(old(Now()), order, key, fills, writable, i)
      {
        PutPrefixStep(old(Now()), order, key, fills, writable, i + 1);
        if !writable[i] {
          replies := replies + [Err(AlreadyExists)];
        } else {
          PutPrefixReady(old(Now()), order, key, fills, writable, i);
          var r := PutOne(key, i, slots[i]);
          replies := replies + [r];
        }
      }
    }

    method PutOne(key: Key, i: nat, req: SlotRequest) returns (r: Result<()>)
      requires Inv(Now()) && key in objects && i < |objects[key].slots|
      requires ValidIovs(req.src) && Mapped(req.src, mem.Length)
      modifies this`objects, this`pools
      ensures (Now(), r) == MemoryPut.PutSlot(old(Now()), order, key, i, FillOf(req, mem[..]))
    {
      hide Inv, Place, ChargeAll, Frame, Placed, Segments.Flatten;
      var cands := Candidates(req.spec.placement, order);
      var each := req.spec.placement.Each?;
      PlaceSpec(Now(), key, req.spec.len, cands, each);
      ghost var before := Now();
      var targets, err := PlaceSlot(key, req.spec.len, cands, each);
      FrameOwn(before, Now(), key);
      var ok := if each then err.None? && targets != [] else targets != [];
      if !ok {
        return Err(if err.Some? then err.value else NoSpace);
      }
      MappedInBounds(req.src, mem.Length);
      var bytes := Segments.Gather(mem, SegsOf(req.src));
      InstallSlot(key, i, bytes, targets);
      r := Ok(());
    }

    /** `publish`: lend a segment list as one more replica of a slot. */
    method Publish(key: Key, slot: nat, src: seq<Iov>) returns (reply: Result<()>)
      requires Valid() && Mapped(src, mem.Length)
      modifies this`objects
      ensures Valid()
      ensures !ValidIovs(src) ==> reply == Err(InvalidInput) && Now() == old(Now())
      ensures ValidIovs(src) ==> (Now(), reply) == MemoryOps.Publish(old(Now()), key, slot, LoanOf(src))
      ensures reply.Ok? ==>
                && key in objects && slot < |objects[key].slots| && |objects[key].slots[slot]| > 0
                && var s := objects[key].slots[slot];
                   s[|s| - 1] == Replica(src[0].region.device, External, false, Lent(SegsOf(src), src[0].region.id))
    {
      hide Inv, LentSound;
      if !ValidIovs(src) {
        return Err(InvalidInput);
      }
      InvSlots(Now(), key);
      PublishInv(Now(), key, slot, LoanOf(src));
      PublishLent(Now(), key, slot, src, mem.Length);
      if key !in objects {
        return Err(NotFound);
      }
      var o := objects[key];
      if slot >= |o.spec.slots| {
        return Err(InvalidInput);
      }
      if o.spec.slots[slot].len != Segments.Total(SegsOf(src)) {
        return Err(InvalidInput);
      }
      var lent := Replica(src[0].region.device, External, false, Lent(SegsOf(src), src[0].region.id));
      objects := objects[key := o.(slots := o.slots[slot := o.slots[slot] + [lent]])];
      reply := Ok(());
    }

    /** Dropping a region: visit every object and drop the replicas recorded for it. */
    method RetireRegion(region: nat)
      requires Valid()
      modifies this`objects
      ensures Valid()
      ensures Now() == Retire(old(Now()), region)
    {
      hide Inv, RetireObject, LentSound;
      RetireInv(Now(), region);
      RetireLent(Now(), region, mem.Length);
      var todo := objects.Keys;
      while todo != {}
        invariant todo <= objects.Keys == old(objects).Keys
        invariant forall k | k in objects ::
                    objects[k] == if k in todo then old(objects)[k] else RetireObject(old(objects)[k], region)
        decreases |todo|
      {
        var k :| k in todo;
        objects := objects[k := RetireObject(objects[k], region)];
        todo := todo - {k};
      }
      assert objects == Retire(old(Now()), region).objects;
    }

    /** Give back the bytes of a removed object, replica by replica. */
    method ReleaseObject(slots: seq<Slot>)
      requires forall d | d in pools :: ObjectBytes(slots, d) <= pools[d].used
      modifies this`pools
      ensures pools == Release(old(pools), slots)
    {
      hide ObjectBytes;
      NoSlots(pools);
      for i := 0 to |slots|
        invariant pools == Release(old(pools), slots[..i])
      {
        ReleaseSlot(slots[i], slots, i, old(pools));
      }
      assert slots[..|slots|] == slots;
    }

    /** The inner loop: no subtraction takes a counter below zero. */
    method ReleaseSlot(s: Slot, ghost slots: seq<Slot>, ghost i: nat, ghost start: map<Device, Pool>)
      requires i < |slots| && s == slots[i] && pools == Release(start, slots[..i])
      requires forall d | d in start :: ObjectBytes(slots, d) <= start[d].used
      modifies this`pools
      ensures pools == Release(start, slots[..i + 1])
    {
      hide ObjectBytes, SlotBytes;
      SlotStart(s, start, slots, i);
      for j := 0 to |s|
        invariant pools == ReleasePart(start, slots[..i], s[..j])
      {
        SlotNext(s, j);
        StaysPositive(start, slots, i, j);
        var r := s[j];
        if r.data.Owned? && r.device in pools {
          pools := pools[r.device := pools[r.device].(used := pools[r.device].used - |r.data.bytes|)];
          assert pools[r.device].used >= 0;
        }
      }
      SlotDone(s, start, slots, i);
    }

    method RemoveKey(k: Key)
      requires Inv(Now())
      modifies this`objects, this`pools
      ensures Now() == RemoveOne(old(Now()), k)
    {
      if k in objects {
        RemovalFits(Now(), k);
        var o := objects[k];
        objects := objects - {k};
        ReleaseObject(o.slots);
      }
    }

    method Remove(keys: seq<Key>)
      requires Valid()
      modifies this`objects, this`pools
      ensures Valid()
      ensures Now() == MemoryOps.Remove(old(Now()), keys)
    {
      hide Inv, RemoveOne, LentSound;
      RemoveInv(Now(), keys);
      RemoveLent(Now(), keys, mem.Length);
      for i := 0 to |keys|
        invariant Inv(Now())
        invariant MemoryOps.Remove(old(Now()), keys) == MemoryOps.Remove(Now(), keys[i..])
      {
        assert keys[i..][0] == keys[i] && keys[i..][1..] == keys[i + 1..];
        RemoveOneInv(Now(), keys[i]);
        RemoveKey(keys[i]);
      }
    }

    method RemovePrefix(prefix: Key) returns (n: nat)
      requires Valid()
      modifies this`objects, this`pools
      ensures Valid()
      ensures (Now(), n) == MemoryOps.RemovePrefix(old(Now()), prefix)
    {
      var keys := PrefixRun(objects.Keys, prefix);
      n := |keys|;
      Remove(keys);
    }

    /** `min_by_key`: the first of the nearest replicas. */
    method Source(s: Slot, dst: Device) returns (j: nat)
      requires s != []
      ensures IsSource(gpuNuma, dst, s, j)
    {
      j := 0;
      for i := 1 to |s|
        invariant j < i
        invariant forall k | 0 <= k < i :: !Nearer(gpuNuma, dst, s[k], s[j])
        invariant forall k | 0 <= k < j :: Nearer(gpuNuma, dst, s[j], s[k])
      {
        if Nearer(gpuNuma, dst, s[i], s[j]) {
          j := i;
        }
      }
      forall a, b | 0 <= a < |s| && 0 <= b < |s|
        ensures Nearer(gpuNuma, dst, s[a], s[b]) <==> Preferred(gpuNuma, dst, s[a], s[b])
      {
        NearerIsPreferred(gpuNuma, dst, s[a], s[b]);
      }
    }

    /** `get`: read a range of the nearest replica into the destination list. */
    method Get(key: Key, slot: nat, offset: nat, dst: seq<Iov>) returns (reply: Result<(Device, Tier)>)
      requires Valid() && Mapped(dst, mem.Length)
      modifies mem
      ensures reply.Err? ==> mem[..] == old(mem[..])
      ensures reply.Err? ==> reply.kind == GetError(Now(), key, slot, offset, dst)
      ensures reply.Ok? <==> Readable(Now(), key, slot, offset, dst)
      ensures reply.Ok? ==>
                exists j: nat | IsSource(gpuNuma, dst[0].region.device, objects[key].slots[slot], j) ::
                  var r := objects[key].slots[slot][j];
                  && reply.value == (r.device, r.tier)
                  && Segments.InBounds(SegsOf(dst), mem.Length)
                  && (r.data.Lent? ==> Segments.InBounds(r.data.segs, mem.Length))
                  && offset + Segments.Total(SegsOf(dst)) <= DataLen(r.data)
                  && mem[..] == Segments.Lay(old(mem[..]), SegsOf(dst),
                                             DataSlice(old(mem[..]), r.data, offset, Segments.Total(SegsOf(dst))))
    {
      hide Inv, Segments.Lay, Segments.Flatten, Segments.Total, IsSource;
      if !ValidIovs(dst) {
        return Err(InvalidInput);
      }
      if key !in objects {
        return Err(NotFound);
      }
      InvSlots(Now(), key);
      var o := objects[key];
      if slot >= |o.spec.slots| {
        return Err(InvalidInput);
      }
      var len := Segments.Total(SegsOf(dst));
      if offset + len > o.spec.slots[slot].len {
        return Err(InvalidInput);
      }
      if o.slots[slot] == [] {
        return Err(Evicted);
      }
      var j := Source(o.slots[slot], dst[0].region.device);
      SourceInRange(gpuNuma, dst[0].region.device, o.slots[slot], j);
      var r := o.slots[slot][j];
      MappedInBounds(dst, mem.Length);
      ReplicaLength(Now(), key, slot, j, mem.Length);
      var bytes := ReadReplica(r.data, offset, len);
      assert bytes[..len] == bytes;
      Segments.Scatter(mem, bytes, SegsOf(dst));
      reply := Ok((r.device, r.tier));
    }

    /** `ReplicaData::read`. */
    method ReadReplica(data: Data, offset: nat, len: nat) returns (bytes: seq<Byte>)
      requires data.Lent? ==> Segments.InBounds(data.segs, mem.Length)
      requires offset + len <= DataLen(data)
      ensures bytes == DataSlice(mem[..], data, offset, len)
    {
      match data
      case Owned(b) => bytes := b[offset..offset + len];
      case Lent(segs, _) => {
        assert Segments.Total([Segments.Seg(0, len)]) == len;
        bytes := Segments.ReadSegments(mem, segs, offset, len);
      }
    }
  }

  // ---------------------------------------------------------------------
  // Reading

  function DataLen(data: Data): nat {
    match data
    case Owned(b) => |b|
    case Lent(segs, _) => Segments.Total(segs)
  }

  /** The bytes `[offset, offset + n)` of a replica. */
  ghost function DataSlice(mem: seq<Byte>, data: Data, offset: nat, n: nat): (r: seq<Byte>)
    requires data.Lent? ==> Segments.InBounds(data.segs, |mem|)
    requires offset + n <= DataLen(data)
    ensures |r| == n
  {
    match data
    case Owned(b) => b[offset..offset + n]
    case Lent(segs, _) => Segments.Slice(mem, segs, offset, n)
  }

  /** A get succeeds exactly on a resident slot with the range inside it. */
  ghost predicate Readable(st: State, key: Key, slot: nat, offset: nat, dst: seq<Iov>) {
    && ValidIovs(dst) && key in st.objects && slot < |st.objects[key].spec.slots| && slot < |st.objects[key].slots|
    && offset + Segments.Total(SegsOf(dst)) <= st.objects[key].spec.slots[slot].len
    && st.objects[key].slots[slot] != []
  }

  /** The error of a get that does not: the first check that fails, in the source's order. */
  ghost function GetError(st: State, key: Key, slot: nat, offset: nat, dst: seq<Iov>): ErrorKind {
    if !ValidIovs(dst) then InvalidInput
    else if key !in st.objects then NotFound
    else if slot >= |st.objects[key].spec.slots| then InvalidInput
    else if offset + Segments.Total(SegsOf(dst)) > st.objects[key].spec.slots[slot].len then InvalidInput
    else Evicted
  }

  lemma SourceInRange(gpuNuma: map<nat, nat>, dst: Device, s: Slot, j: nat)
    requires IsSource(gpuNuma, dst, s, j)
    ensures j < |s|
  {
  }

  lemma InvSlots(st: State, key: Key)
    requires Inv(st)
    ensures key in st.objects ==> |st.objects[key].slots| == |st.objects[key].spec.slots|
  {
  }

  /** Every replica of a slot holds as many bytes as the slot's spec says. */
  lemma ReplicaLength(st: State, key: Key, slot: nat, j: nat, size: nat)
    requires Inv(st) && LentSound(st.objects, size)
    requires key in st.objects && slot < |st.objects[key].slots| && j < |st.objects[key].slots[slot]|
    ensures var data := st.objects[key].slots[slot][j].data;
            && slot < |st.objects[key].spec.slots|
            && DataLen(data) == st.objects[key].spec.slots[slot].len
            && (data.Lent? ==> Segments.InBounds(data.segs, size))
  {
    hide PoolInv, Segments.InBounds, Segments.Total;
    assert Shaped(st.objects[key], st.pools.Keys);
    var r := st.objects[key].slots[slot][j];
    assert r in st.objects[key].slots[slot];
  }

  // ---------------------------------------------------------------------
  // Lent replicas

  function LoanOf(src: seq<Iov>): Loan
    requires src != []
  {
    Loan(src[0].region.device, SegsOf(src), src[0].region.id)
  }

  lemma PublishLent(st: State, key: Key, slot: nat, src: seq<Iov>, size: nat)
    requires LentSound(st.objects, size) && ValidIovs(src) && Mapped(src, size)
    ensures LentSound(MemoryOps.Publish(st, key, slot, LoanOf(src)).0.objects, size)
  {
    hide Segments.Total, Segments.InBounds;
    MappedInBounds(src, size);
  }

  lemma RetireLent(st: State, region: nat, size: nat)
    requires LentSound(st.objects, size)
    ensures LentSound(Retire(st, region).objects, size)
  {
    hide Segments.Total, Segments.InBounds, Retained;
    var now := Retire(st, region).objects;
    forall k, i, r | k in now && 0 <= i < |now[k].slots| && r in now[k].slots[i] && r.data.Lent?
      ensures r in st.objects[k].slots[i]
    {
      RetainedMembers(st.objects[k].slots[i], region, r);
    }
  }

  lemma RemoveLent(st: State, keys: seq<Key>, size: nat)
    requires Inv(st) && LentSound(st.objects, size)
    ensures LentSound(MemoryOps.Remove(st, keys).objects, size)
  {
    hide Inv, MemoryOps.Remove, Segments.Total, Segments.InBounds;
    RemoveInv(st, keys);
  }

  /** A published list survives the retirement of a region it uses exactly when its first segment
      lies elsewhere; so retirement is complete for it if and only if every region it uses is the
      first segment's. */
  lemma RetirementExactly(st: State, key: Key, slot: nat, src: seq<Iov>)
    requires src != [] && MemoryOps.Publish(st, key, slot, LoanOf(src)).1.Ok?
    ensures var loan := LoanOf(src);
            var lent := Replica(loan.device, External, false, Lent(loan.segs, loan.region));
            var published := MemoryOps.Publish(st, key, slot, loan).0;
            (forall i | 0 <= i < |src| :: lent !in Retire(published, src[i].region.id).objects[key].slots[slot])
            <==> (forall i | 0 <= i < |src| :: src[i].region.id == src[0].region.id)
  {
    hide Retained;
    forall i | 0 <= i < |src|
      ensures var loan := LoanOf(src);
              var lent := Replica(loan.device, External, false, Lent(loan.segs, loan.region));
              lent in Retire(MemoryOps.Publish(st, key, slot, loan).0, src[i].region.id).objects[key].slots[slot]
              <==> src[i].region.id != src[0].region.id
    {
      PublishThenRetire(st, key, slot, LoanOf(src), src[i].region.id);
    }
  }

  // ---------------------------------------------------------------------
  // Releasing an object step by step

  ghost function ReleasePart(pools: map<Device, Pool>, slots: seq<Slot>, s: Slot): map<Device, Pool> {
    map d | d in pools :: pools[d].(used := pools[d].used - ObjectBytes(slots, d) - SlotBytes(s, d))
  }

  lemma NoSlots(pools: map<Device, Pool>)
    ensures forall slots: seq<Slot> :: Release(pools, slots[..0]) == pools
  {
  }

  lemma {:induction false} SlotNext(s: Slot, j: nat)
    requires j < |s|
    ensures forall d :: SlotBytes(s[..j + 1], d) == SlotBytes(s[..j], d) + ReplicaBytes(s[j], d)
  {
    forall d
      ensures SlotBytes(s[..j + 1], d) == SlotBytes(s[..j], d) + ReplicaBytes(s[j], d)
    {
      assert s[..j + 1] == s[..j] + [s[j]];
      AppendBytes(s[..j], [s[j]], d);
      assert SlotBytes([s[j]], d) == ReplicaBytes(s[j], d);
    }
  }

  lemma {:induction false} ObjectNext(slots: seq<Slot>, i: nat, d: Device)
    requires i < |slots|
    ensures ObjectBytes(slots[..i + 1], d) == ObjectBytes(slots[..i], d) + SlotBytes(slots[i], d) <= ObjectBytes(slots, d)
  {
    if i == 0 {
      assert slots[..1] == [slots[0]];
    } else {
      ObjectNext(slots[1..], i - 1, d);
      assert slots[1..][..i - 1] == slots[..i][1..] && slots[1..][..i] == slots[..i + 1][1..];
    }
  }

  lemma SlotStart(s: Slot, pools: map<Device, Pool>, slots: seq<Slot>, i: nat)
    requires i <= |slots|
    ensures ReleasePart(pools, slots[..i], s[..0]) == Release(pools, slots[..i])
  {
  }

  lemma SlotDone(s: Slot, pools: map<Device, Pool>, slots: seq<Slot>, i: nat)
    requires i < |slots| && s == slots[i]
    ensures ReleasePart(pools, slots[..i], s[..|s|]) == Release(pools, slots[..i + 1])
  {
    hide ObjectBytes, SlotBytes;
    assert s[..|s|] == s;
    forall d | d in pools
      ensures ObjectBytes(slots[..i + 1], d) == ObjectBytes(slots[..i], d) + SlotBytes(s, d)
    {
      ObjectNext(slots, i, d);
    }
  }

  lemma StaysPositive(pools: map<Device, Pool>, slots: seq<Slot>, i: nat, j: nat)
    requires i < |slots| && j < |slots[i]| && forall d | d in pools :: ObjectBytes(slots, d) <= pools[d].used
    ensures forall d | d in pools ::
              ReplicaBytes(slots[i][j], d) <= pools[d].used - ObjectBytes(slots[..i], d) - SlotBytes(slots[i][..j], d)
  {
    hide ObjectBytes, SlotBytes;
    SlotNext(slots[i], j);
    forall d | d in pools
      ensures ReplicaBytes(slots[i][j], d) <= pools[d].used - ObjectBytes(slots[..i], d) - SlotBytes(slots[i][..j], d)
    {
      ObjectNext(slots, i, d);
      AppendBytes(slots[i][..j + 1], slots[i][j + 1..], d);
      assert slots[i] == slots[i][..j + 1] + slots[i][j + 1..];
    }
  }

  lemma RemovalFits(st: State, k: Key)
    requires Inv(st) && k in st.objects
    ensures forall d | d in st.pools :: ObjectBytes(st.objects[k].slots, d) <= st.pools[d].used
  {
    hide StoreBytes, ObjectBytes;
    forall d | d in st.pools
      ensures ObjectBytes(st.objects[k].slots, d) <= st.pools[d].used
    {
      assert PoolInv(st.objects, st.pools[d], d);
      StoreBytesAt(st.objects, d, k);
    }
  }

  ghost function FillOf(req: SlotRequest, mem: seq<Byte>): Fill {
    if ValidIovs(req.src) && Mapped(req.src, |mem|) then
      MappedInBounds(req.src, |mem|);
      Fill(req.spec, Segments.Flatten(mem, SegsOf(req.src)))
    else Fill(req.spec, [])
  }

  ghost function FillsOf(slots: seq<SlotRequest>, mem: seq<Byte>): (r: seq<Fill>)
    ensures |r| == |slots|
    ensures forall i | 0 <= i < |r| :: r[i] == FillOf(slots[i], mem)
  {
    seq(|slots|, i requires 0 <= i < |slots| => FillOf(slots[i], mem))
  }

  /** `OpPut::validate`. */
  predicate ValidRequest(slots: seq<SlotRequest>) {
    && slots != []
    && forall i | 0 <= i < |slots| ::
         ValidIovs(slots[i].src) && Segments.Total(SegsOf(slots[i].src)) == slots[i].spec.len
  }

  lemma FillsSized(slots: seq<SlotRequest>, mem: seq<Byte>)
    requires ValidRequest(slots) && forall i | 0 <= i < |slots| :: Mapped(slots[i].src, |mem|)
    ensures Sized(FillsOf(slots, mem))
  {
    hide Segments.Flatten;
    forall i | 0 <= i < |slots|
      ensures |FillsOf(slots, mem)[i].bytes| == FillsOf(slots, mem)[i].spec.len
    {
      MappedInBounds(slots[i].src, |mem|);
    }
  }

  lemma FrameOwn(a: State, b: State, key: Key)
    requires Frame(a, b, key)
    ensures Inv(b) && (key in a.objects ==> key in b.objects && b.objects[key] == a.objects[key])
  {
    ErodedOwn(a.objects, b.objects, key);
  }

  /** A put brings no lent replica and moves none between slots. */
  lemma PutLent(st: State, order: seq<Device>, key: Key, retention: Retention, fills: seq<Fill>, size: nat)
    requires Inv(st) && Sized(fills) && Reusable(st, key, SpecOf(retention, fills)) && LentSound(st.objects, size)
    ensures var st' := MemoryRequest.Put(st, order, key, retention, fills).0;
            Inv(st') && LentSound(st'.objects, size)
  {
    hide Inv, Reusable, MemoryRequest.Put, GoodTargets, Kept, Segments.InBounds, Segments.Total;
    PutContract(st, order, key, retention, fills);
    var (st', reply) := MemoryRequest.Put(st, order, key, retention, fills);
    if reply.Ok? {
      var was := Reserve(st, key, SpecOf(retention, fills)).objects;
      forall k, i, r | k in st'.objects && 0 <= i < |st'.objects[k].slots| && r in st'.objects[k].slots[i] && r.data.Lent?
        ensures k in st.objects && st.objects[k].spec == st'.objects[k].spec && i < |st.objects[k].slots| && r in st.objects[k].slots[i]
      {
        if k == key {
          PutLentOwn(st, order, key, retention, fills, i, r);
        } else {
          var mid := st'.objects[key := was[key]];
          assert k in mid && r in mid[k].slots[i];
          assert k in was && r in was[k].slots[i];
        }
      }
    }
  }

  lemma PutLentOwn(st: State, order: seq<Device>, key: Key, retention: Retention, fills: seq<Fill>, i: nat, r: Replica)
    requires Inv(st) && Sized(fills) && Reusable(st, key, SpecOf(retention, fills))
    requires MemoryRequest.Put(st, order, key, retention, fills).1.Ok?
    requires var now := MemoryRequest.Put(st, order, key, retention, fills).0.objects;
             key in now && i < |now[key].slots| && r in now[key].slots[i] && r.data.Lent?
    ensures key in st.objects && st.objects[key].spec == SpecOf(retention, fills)
    ensures i < |st.objects[key].slots| && r in st.objects[key].slots[i]
  {
    hide Inv, Reusable, MemoryRequest.Put, GoodTargets, Around;
    PutContract(st, order, key, retention, fills);
    var (st', reply) := MemoryRequest.Put(st, order, key, retention, fills);
    assert i < |fills|;
    forall ts
      ensures r !in Copies(ts, fills[i].bytes)
    {
    }
    assert SlotAt(st, key, i) != [];
  }

  /** One turn of the candidate loop. */
  lemma PlaceStep(st: State, key: Key, len: nat, cands: seq<Target>, each: bool)
    requires Inv(st)
    ensures cands == [] ==> Place(st, key, len, cands, each) == Placing(st, [], None)
    ensures cands != [] && cands[0].device !in st.pools ==>
              (Place(st, key, len, cands, each)
               == if each then Placing(st, [], Some(InvalidInput)) else Blame(Place(st, key, len, cands[1..], each), InvalidInput))
    ensures cands != [] && cands[0].device in st.pools ==>
              && Scannable(st.objects, st.pools[cands[0].device])
              && var (ok, st1) := MemoryEvict.MakeRoom(st, cands[0].device, len, key);
                 && Inv(st1)
                 && Place(st, key, len, cands, each)
                 == if !ok && each then Placing(st1, [], Some(NoSpace))
                    else if ok && !each then Placing(st1, [cands[0]], None)
                    else
                      var r := Place(st1, key, len, cands[1..], each);
                      if each then r.(targets := [cands[0]] + r.targets) else Blame(r, NoSpace)
  {
    hide Inv, MemoryEvict.MakeRoom;
    if cands != [] && cands[0].device in st.pools {
      MakeRoomFrame(st, cands[0].device, len, key);
    }
  }

  lemma NotEvicted(objects: map<Key, Object>, e: Entry, d: Device)
    requires !Evictable(objects, e.key)
    ensures Evict(objects, e, d) == objects && Freed(objects, e, d) == 0
  {
  }
}
