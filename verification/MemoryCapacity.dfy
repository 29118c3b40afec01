/** When a put keeps every pool within its capacity, and how admission evolves inside a request. */
module MemoryCapacity {
  import opened Types
  import opened MemoryData
  import opened MemoryEvict
  import opened MemoryPut
  import opened MemoryRequest

  ghost predicate WithinCapacity(st: State) {
    forall d | d in st.pools && st.pools[d].capacity.Some? :: st.pools[d].used <= st.pools[d].capacity.value
  }

  /** A slot whose copies go to different devices, or weigh nothing. */
  ghost predicate Spread(spec: SlotSpec) {
    spec.placement.Each? ==> spec.len == 0 || NoDuplicates(spec.placement.devices)
  }

  ghost predicate DistinctTargets(targets: seq<Target>) {
    forall i, j | 0 <= i < j < |targets| :: targets[i].device != targets[j].device
  }

  lemma {:induction false} BytesOnNone(targets: seq<Target>, d: Device, len: nat)
    requires len == 0 || forall i | 0 <= i < |targets| :: targets[i].device != d
    ensures BytesOn(targets, d, len) == 0
  {
    if targets != [] { BytesOnNone(targets[1..], d, len); }
  }

  lemma {:induction false} BytesOnDistinct(targets: seq<Target>, d: Device, len: nat)
    requires len == 0 || DistinctTargets(targets)
    ensures BytesOn(targets, d, len) <= len
  {
    if targets != [] {
      if targets[0].device == d && len > 0 { BytesOnNone(targets[1..], d, len); }
      else { BytesOnDistinct(targets[1..], d, len); }
    }
  }

  lemma InstallWithin(st: State, key: Key, i: nat, bytes: seq<Byte>, targets: seq<Target>)
    requires key in st.objects && i < |st.objects[key].slots|
    requires WithinCapacity(st) && Roomy(st, targets, |bytes|)
    requires |bytes| == 0 || DistinctTargets(targets)
    ensures WithinCapacity(Install(st, key, i, bytes, targets))
  {
    hide ChargeAll, BytesOn;
    var st' := Install(st, key, i, bytes, targets);
    ChargedKeys(st.pools, targets, key, i, |bytes|);
    forall d | d in st'.pools && st'.pools[d].capacity.Some?
      ensures st'.pools[d].used <= st'.pools[d].capacity.value
    {
      ChargeAllSpec(st.pools, targets, key, i, |bytes|, d);
      BytesOnDistinct(targets, d, |bytes|);
      if j :| 0 <= j < |targets| && targets[j].device == d {
      } else {
        BytesOnNone(targets, d, |bytes|);
      }
    }
  }

  lemma PlainDistinct(ds: seq<Device>)
    requires NoDuplicates(ds)
    ensures DistinctTargets(Plain(ds))
  {
    hide Plain;
  }

  /** One slot keeps the capacity bound unless its `Each` list names a device twice. */
  lemma PutSlotWithin(st: State, order: seq<Device>, key: Key, i: nat, fill: Fill)
    requires Inv(st) && key in st.objects && Matches(st.objects[key], i, fill)
    requires WithinCapacity(st) && Spread(fill.spec)
    ensures WithinCapacity(PutSlot(st, order, key, i, fill).0)
  {
    hide Inv, Place, Kept, FirstWith, Admits, Install, Others, Eroded, Plain;
    var cands, each := Candidates(fill.spec.placement, order), fill.spec.placement.Each?;
    PlaceSpec(st, key, fill.spec.len, cands, each);
    var p := Place(st, key, fill.spec.len, cands, each);
    ErodedOwn(st.objects, p.st.objects, key) by { FrameKept(st, p.st, key); }
    if Succeeded(p, each) {
      if each && fill.spec.len > 0 {
        PlainDistinct(fill.spec.placement.devices);
        assert cands[..|cands|] == cands;
      }
      InstallWithin(p.st, key, i, fill.bytes, p.targets);
    }
  }

  lemma FrameKept(a: State, b: State, key: Key)
    requires Frame(a, b, key)
    ensures Kept(b.objects, key) == Kept(a.objects, key)
  {
  }

  // ---------------------------------------------------------------------
  // Repeated devices

  /** From every sound state within capacity, a slot with this `Each` list leaves one. */
  ghost predicate EachKeepsCapacity(len: nat, ds: seq<Device>, order: seq<Device>) {
    forall st: State, key: Key, i: nat, fill: Fill
      | Inv(st) && WithinCapacity(st) && key in st.objects && Matches(st.objects[key], i, fill)
        && fill.spec == SlotSpec(len, Each(ds)) ::
      WithinCapacity(PutSlot(st, order, key, i, fill).0)
  }

  /** A store whose pools hold exactly one copy each, with one empty slot to fill. */
  ghost function TightStore(len: nat, ds: seq<Device>, key: Key): State {
    State(map[key := Blank(ObjectSpec(Cache, [SlotSpec(len, Each(ds))]))], map d | d in ds :: Pool(Some(len), 0, []))
  }

  lemma TightStoreInv(len: nat, ds: seq<Device>, key: Key)
    ensures Inv(TightStore(len, ds, key)) && WithinCapacity(TightStore(len, ds, key))
    ensures forall d | d in ds :: Admits(TightStore(len, ds, key), d, len, key)
  {
    hide StoreBytes, ObjectBytes;
    var st := TightStore(len, ds, key);
    var o := st.objects[key];
    forall d | d in st.pools
      ensures PoolInv(st.objects, st.pools[d], d) && KeptBytes(st.objects, key, d) == 0
    {
      EmptyObjectBytes(o.slots, d);
      NoBytes(st.objects, d);
      NoBytes(Kept(st.objects, key), d);
    }
  }

  lemma {:induction false} BytesOnTwice(targets: seq<Target>, a: nat, b: nat, len: nat)
    requires a < b < |targets| && targets[a].device == targets[b].device
    ensures BytesOn(targets, targets[a].device, len) >= 2 * len
  {
    if a > 0 {
      BytesOnTwice(targets[1..], a - 1, b - 1, len);
    } else {
      BytesOnOnce(targets[1..], b - 1, len);
    }
  }

  lemma {:induction false} BytesOnOnce(targets: seq<Target>, b: nat, len: nat)
    requires b < |targets|
    ensures BytesOn(targets, targets[b].device, len) >= len
  {
    if b > 0 { BytesOnOnce(targets[1..], b - 1, len); }
  }

  /** The counterexample: room is checked per listed device before anything is charged, so a device
      listed twice is charged twice what was checked. */
  lemma RepeatedDeviceOverflows(len: nat, ds: seq<Device>, order: seq<Device>, key: Key, bytes: seq<Byte>)
    requires len > 0 && !NoDuplicates(ds) && |bytes| == len
    ensures var st := TightStore(len, ds, key);
            var fill := Fill(SlotSpec(len, Each(ds)), bytes);
            && Inv(st) && WithinCapacity(st) && Matches(st.objects[key], 0, fill)
            && !WithinCapacity(PutSlot(st, order, key, 0, fill).0)
  {
    hide Inv, Place, Kept, FirstWith, ChargeAll, BytesOn, Eroded, Admits, Plain;
    TightStoreInv(len, ds, key);
    var st := TightStore(len, ds, key);
    var fill := Fill(SlotSpec(len, Each(ds)), bytes);
    var cands := Plain(ds);
    PlaceSpec(st, key, len, cands, true);
    var p := Place(st, key, len, cands, true);
    ErodedOwn(st.objects, p.st.objects, key) by { FrameKept(st, p.st, key); }
    assert cands[..|cands|] == cands;
    assert p.targets == cands && Succeeded(p, true);
    var a, b :| 0 <= a < b < |ds| && ds[a] == ds[b];
    ChargedKeys(p.st.pools, cands, key, 0, len);
    ChargeAllSpec(p.st.pools, cands, key, 0, len, ds[a]);
    BytesOnTwice(cands, a, b, len);
    UsedNotNegative(p.st, ds[a]);
    var s' := PutSlot(st, order, key, 0, fill).0;
    assert s'.pools[ds[a]].used >= 2 * len;
    assert s'.pools[ds[a]].capacity == Some(len);
  }

  lemma UsedNotNegative(st: State, d: Device)
    requires Inv(st) && d in st.pools
    ensures st.pools[d].used >= 0
  {
    assert PoolInv(st.objects, st.pools[d], d);
  }

  /** Exactly which `Each` lists keep every pool within capacity, whatever the store looks like. */
  lemma EachCapacityExactly(len: nat, ds: seq<Device>, order: seq<Device>)
    ensures EachKeepsCapacity(len, ds, order) <==> len == 0 || NoDuplicates(ds)
  {
    hide Inv, WithinCapacity, PutSlot;
    if len == 0 || NoDuplicates(ds) {
      forall st: State, key: Key, i: nat, fill: Fill
        | Inv(st) && WithinCapacity(st) && key in st.objects && Matches(st.objects[key], i, fill)
          && fill.spec == SlotSpec(len, Each(ds))
        ensures WithinCapacity(PutSlot(st, order, key, i, fill).0)
      {
        PutSlotWithin(st, order, key, i, fill);
      }
    } else {
      RepeatedDeviceOverflows(len, ds, order, [], seq(len, i => 0));
    }
  }

  // ---------------------------------------------------------------------
  // Whole requests

  lemma {:induction false} PutPrefixWithin(st: State, order: seq<Device>, key: Key, fills: seq<Fill>, w: seq<bool>, n: nat)
    requires Ready(st, key, fills) && |w| == |fills| && n <= |fills|
    requires WithinCapacity(st) && forall i | 0 <= i < |fills| :: Spread(fills[i].spec)
    ensures WithinCapacity(PutPrefix(st, order, key, fills, w, n).0)
  {
    hide Inv, PutSlot, PutPrefix, WithinCapacity, Spread, Matches;
    PutPrefixStep(st, order, key, fills, w, n);
    if n > 0 {
      PutPrefixWithin(st, order, key, fills, w, n - 1);
      var s := PutPrefix(st, order, key, fills, w, n - 1).0;
      PutPrefixReady(st, order, key, fills, w, n - 1);
      ReadySlot(s, key, fills, n - 1);
      if w[n - 1] { PutSlotWithin(s, order, key, n - 1, fills[n - 1]); }
    }
  }

  lemma PutWithin(st: State, order: seq<Device>, key: Key, retention: Retention, fills: seq<Fill>)
    requires Inv(st) && Sized(fills) && Reusable(st, key, SpecOf(retention, fills))
    requires WithinCapacity(st) && forall i | 0 <= i < |fills| :: Spread(fills[i].spec)
    ensures WithinCapacity(Put(st, order, key, retention, fills).0)
  {
    hide Inv, PutPrefix, Reusable, Spread, Ready;
    var spec := SpecOf(retention, fills);
    if !(key in st.objects && st.objects[key].spec != spec) {
      ReserveReady(st, key, retention, fills);
      var s := Reserve(st, key, spec);
      PutPrefixWithin(s, order, key, fills, Writable(s.objects[key].slots), |fills|);
    }
  }

  /** Inside a request, a slot that lands adds its own bytes, and nothing else, to what its key
      keeps on each device; so the whole request's answers follow from the kept bytes at entry. */
  lemma KeptAfterSlot(st: State, order: seq<Device>, key: Key, i: nat, fill: Fill, d: Device)
    requires Inv(st) && key in st.objects && Matches(st.objects[key], i, fill)
    ensures var chosen := Chosen(st, order, key, fill.spec);
            var added := if chosen.Some? then BytesOn(chosen.value, d, fill.spec.len) else 0;
            KeptBytes(PutSlot(st, order, key, i, fill).0.objects, key, d) == KeptBytes(st.objects, key, d) + added
  {
    hide Inv, PutSlot, Chosen, StoreBytes, ObjectBytes, SlotBytes, BytesOn, Copies;
    PutSlotSpec(st, order, key, i, fill);
    var was, now := st.objects, PutSlot(st, order, key, i, fill).0.objects;
    var chosen := Chosen(st, order, key, fill.spec);
    assert Kept(now, key) == Kept(was, key)[key := now[key]] by { KeptUpdate(was, now, key); }
    StoreBytesPut(Kept(was, key), d, key, now[key]);
    assert Kept(was, key)[key] == was[key];
    if chosen.Some? {
      var extra := Copies(chosen.value, fill.bytes);
      SlotUpdateBytes(was[key].slots, i, was[key].slots[i] + extra, d);
      AppendBytes(was[key].slots[i], extra, d);
      CopiesBytes(chosen.value, fill.bytes, d);
    }
  }

  lemma KeptUpdate(was: map<Key, Object>, now: map<Key, Object>, key: Key)
    requires Around(was, now, key)
    ensures Kept(now, key) == Kept(was, key)[key := now[key]]
  {
    var mid := now[key := was[key]];
    assert Kept(mid, key) == Kept(was, key);
    forall k
      ensures k in Kept(now, key) <==> k == key || k in Kept(was, key)
      ensures k in Kept(now, key) && k != key ==> Kept(now, key)[k] == Kept(was, key)[k]
    {
      assert k in Kept(mid, key) <==> k in Kept(was, key);
      assert k in Kept(mid, key) ==> Kept(mid, key)[k] == Kept(was, key)[k];
    }
  }
}
