/** `Memory::put`: reserving the key, placing each writable slot, charging the pools. */
module MemoryPut {
  import opened Types
  import opened MemoryData
  import opened MemoryEvict

  datatype Target = Target(device: Device, misplaced: bool)

  /** One slot of a request: its spec and the bytes gathered from its segments. */
  datatype Fill = Fill(spec: SlotSpec, bytes: seq<Byte>)

  function Others(order: seq<Device>, d: Device): seq<Target> {
    if order == [] then []
    else (if order[0] != d then [Target(order[0], true)] else []) + Others(order[1..], d)
  }

  function Plain(devices: seq<Device>): (r: seq<Target>)
    ensures |r| == |devices|
    ensures forall i | 0 <= i < |r| :: r[i] == Target(devices[i], false)
  {
    if devices == [] then [] else [Target(devices[0], false)] + Plain(devices[1..])
  }

  /** The devices to try for a slot, in order, with the flag their replica would carry. */
  function Candidates(p: Placement, order: seq<Device>): seq<Target> {
    match p
    case Strict(d) => [Target(d, false)]
    case Prefer(d) => [Target(d, false)] + Others(order, d)
    case Each(ds) => Plain(ds)
    case Anywhere => Plain(order)
  }

  datatype Placing = Placing(st: State, targets: seq<Target>, err: Option<ErrorKind>)

  /** The candidate loop: `each` wants room on every candidate and stops at the first failure, the
      other placements stop at the first success. The error is the last one met. */
  function Place(st: State, key: Key, len: nat, cands: seq<Target>, each: bool): (r: Placing)
    ensures r.st.pools.Keys == st.pools.Keys && SameObject(st.objects, r.st.objects, key)
    ensures Served(r.targets, st.pools.Keys)
    decreases |cands|
  {
    if cands == [] then Placing(st, [], None)
    else
      var d := cands[0].device;
      if d !in st.pools then
        if each then Placing(st, [], Some(InvalidInput))
        else Blame(Place(st, key, len, cands[1..], each), InvalidInput)
      else
        var (ok, st1) := MakeRoom(st, d, len, key);
        if ok && each then
          var r := Place(st1, key, len, cands[1..], each);
          r.(targets := [cands[0]] + r.targets)
        else if ok then Placing(st1, [cands[0]], None)
        else if each then Placing(st1, [], Some(NoSpace))
        else Blame(Place(st1, key, len, cands[1..], each), NoSpace)
  }

  function Blame(p: Placing, e: ErrorKind): Placing {
    if p.err.None? then p.(err := Some(e)) else p
  }

  predicate Succeeded(p: Placing, each: bool) {
    p.targets != [] && (each ==> p.err.None?)
  }

  function Copies(targets: seq<Target>, bytes: seq<Byte>): (r: Slot)
    ensures |r| == |targets|
    ensures forall i | 0 <= i < |r| :: r[i] == Replica(targets[i].device, Dram, targets[i].misplaced, Owned(bytes))
  {
    if targets == [] then []
    else [Replica(targets[0].device, Dram, targets[0].misplaced, Owned(bytes))] + Copies(targets[1..], bytes)
  }

  function Charge(pools: map<Device, Pool>, d: Device, key: Key, i: nat, len: nat): map<Device, Pool>
    requires d in pools
  {
    pools[d := pools[d].(used := pools[d].used + len, fifo := pools[d].fifo + [Entry(key, i)])]
  }

  predicate Served(targets: seq<Target>, devices: set<Device>) {
    forall i | 0 <= i < |targets| :: targets[i].device in devices
  }

  function ChargeAll(pools: map<Device, Pool>, targets: seq<Target>, key: Key, i: nat, len: nat): (r: map<Device, Pool>)
    requires Served(targets, pools.Keys)
    ensures r.Keys == pools.Keys
  {
    if targets == [] then pools
    else
      var pools1 := Charge(pools, targets[0].device, key, i, len);
      assert pools1.Keys == pools.Keys;
      ChargeAll(pools1, targets[1..], key, i, len)
  }

  function Install(st: State, key: Key, i: nat, bytes: seq<Byte>, targets: seq<Target>): State
    requires key in st.objects && i < |st.objects[key].slots| && Served(targets, st.pools.Keys)
  {
    var o := st.objects[key];
    State(st.objects[key := o.(slots := o.slots[i := o.slots[i] + Copies(targets, bytes)])],
          ChargeAll(st.pools, targets, key, i, |bytes|))
  }

  /** Slot `i` of a request whose slot was found writable. */
  function PutSlot(st: State, order: seq<Device>, key: Key, i: nat, fill: Fill): (r: (State, Result<()>))
    requires key in st.objects && i < |st.objects[key].slots|
    ensures r.0.pools.Keys == st.pools.Keys && key in r.0.objects
    ensures r.0.objects[key].spec == st.objects[key].spec && |r.0.objects[key].slots| == |st.objects[key].slots|
  {
    var each := fill.spec.placement.Each?;
    var cands := Candidates(fill.spec.placement, order);
    var p := Place(st, key, fill.spec.len, cands, each);
    if Succeeded(p, each) then (Install(p.st, key, i, fill.bytes, p.targets), Ok(()))
    else (p.st, Err(if p.err.Some? then p.err.value else NoSpace))
  }

  // ---------------------------------------------------------------------
  // Placement, decided by the state before the call

  /** The least candidate that admits (or, with `want == false`, that does not); `|cands|` if none. */
  ghost function FirstWith(st: State, key: Key, len: nat, cands: seq<Target>, want: bool): (j: nat)
    ensures j <= |cands|
    ensures j < |cands| ==> Admits(st, cands[j].device, len, key) == want
    ensures forall i | 0 <= i < j :: Admits(st, cands[i].device, len, key) != want
  {
    if cands == [] || Admits(st, cands[0].device, len, key) == want then 0
    else 1 + FirstWith(st, key, len, cands[1..], want)
  }

  /** Why a candidate was refused. */
  function Refusal(st: State, t: Target): ErrorKind {
    if t.device in st.pools then NoSpace else InvalidInput
  }

  /** Eviction for `key` never changes who admits. */
  ghost predicate SameOffer(a: State, b: State, key: Key) {
    && Kept(a.objects, key) == Kept(b.objects, key)
    && a.pools.Keys == b.pools.Keys
    && forall d | d in a.pools :: a.pools[d].capacity == b.pools[d].capacity
  }

  lemma {:induction false} SameFirst(a: State, b: State, key: Key, len: nat, cands: seq<Target>, want: bool)
    requires SameOffer(a, b, key)
    ensures FirstWith(a, key, len, cands, want) == FirstWith(b, key, len, cands, want)
  {
    hide Kept;
    if cands != [] { SameFirst(a, b, key, len, cands[1..], want); }
  }

  /** Every target has room for one copy. */
  ghost predicate Roomy(st: State, targets: seq<Target>, len: nat) {
    && Served(targets, st.pools.Keys)
    && forall i | 0 <= i < |targets| && st.pools[targets[i].device].capacity.Some? ::
         st.pools[targets[i].device].used + len <= st.pools[targets[i].device].capacity.value
  }

  /** Replicas that eviction may not remove are still there; nothing else changed but evictions. */
  ghost predicate Eroded(was: map<Key, Object>, now: map<Key, Object>, key: Key) {
    && Kept(now, key) == Kept(was, key)
    && (forall k | k in now ::
          && k in was && now[k].spec == was[k].spec && |now[k].slots| == |was[k].slots|
          && forall i, r | 0 <= i < |now[k].slots| && r in now[k].slots[i] :: r in was[k].slots[i])
    && (forall k, i, r | k in was && 0 <= i < |was[k].slots| && r in was[k].slots[i] && r.data.Lent? ::
          k in now && i < |now[k].slots| && r in now[k].slots[i])
  }

  lemma ThinnedErodes(was: map<Key, Object>, now: map<Key, Object>, d: Device, key: Key)
    requires Thinned(was, now, d) && Kept(now, key) == Kept(was, key)
    ensures Eroded(was, now, key)
  {
    hide Without, Kept;
    forall k, i, r | k in now && 0 <= i < |now[k].slots| && r in now[k].slots[i]
      ensures r in was[k].slots[i]
    {
      WithoutMembers(was[k].slots[i], d, r);
    }
    forall k, i, r | k in was && 0 <= i < |was[k].slots| && r in was[k].slots[i] && r.data.Lent?
      ensures k in now && r in now[k].slots[i]
    {
      WithoutMembers(was[k].slots[i], d, r);
    }
  }

  lemma ErodedSelf(objects: map<Key, Object>, key: Key)
    ensures Eroded(objects, objects, key)
  {
  }

  lemma ErodedTwice(a: map<Key, Object>, b: map<Key, Object>, c: map<Key, Object>, key: Key)
    requires Eroded(a, b, key) && Eroded(b, c, key)
    ensures Eroded(a, c, key)
  {
    hide Kept;
  }

  /** The object being put is itself protected. */
  lemma ErodedOwn(was: map<Key, Object>, now: map<Key, Object>, key: Key)
    requires Kept(now, key) == Kept(was, key)
    ensures key in was <==> key in now
    ensures key in was ==> now[key] == was[key]
  {
    assert key in was <==> key in Kept(was, key);
    assert key in now <==> key in Kept(now, key);
  }

  ghost predicate Placed(st: State, key: Key, len: nat, cands: seq<Target>, each: bool, p: Placing) {
    var j := FirstWith(st, key, len, cands, !each);
    if each then
      && p.targets == cands[..j]
      && p.err == (if j == |cands| then None else Some(Refusal(st, cands[j])))
    else if j < |cands| then
      p.targets == [cands[j]]
    else
      && p.targets == []
      && p.err == (if cands == [] then None else Some(Refusal(st, cands[|cands| - 1])))
  }

  lemma InvFits(st: State, d: Device)
    requires Inv(st) && d in st.pools
    ensures Scannable(st.objects, st.pools[d])
  {
    assert PoolInv(st.objects, st.pools[d], d);
  }

  ghost predicate Frame(a: State, b: State, key: Key) {
    && Inv(b) && SameOffer(a, b, key) && Eroded(a.objects, b.objects, key)
    && forall d | d in a.pools :: b.pools[d].used <= a.pools[d].used
  }

  lemma MakeRoomFrame(st: State, d: Device, need: nat, key: Key)
    requires Inv(st) && d in st.pools
    ensures Scannable(st.objects, st.pools[d]) && Frame(st, MakeRoom(st, d, need, key).1, key)
  {
    hide Inv, Kept, Eroded, Thinned, MakeRoom;
    InvFits(st, d);
    MakeRoomSpec(st, d, need, key);
    ThinnedErodes(st.objects, MakeRoom(st, d, need, key).1.objects, d, key);
  }

  lemma FrameSelf(st: State, key: Key)
    requires Inv(st)
    ensures Frame(st, st, key)
  {
    hide Inv;
    ErodedSelf(st.objects, key);
  }

  lemma FrameTwice(a: State, b: State, c: State, key: Key)
    requires Frame(a, b, key) && Frame(b, c, key)
    ensures Frame(a, c, key)
  {
    hide Inv, Eroded, Kept;
    ErodedTwice(a.objects, b.objects, c.objects, key);
  }

  lemma {:induction false} PlaceFrame(st: State, key: Key, len: nat, cands: seq<Target>, each: bool)
    requires Inv(st)
    ensures Frame(st, Place(st, key, len, cands, each).st, key)
    decreases |cands|
  {
    hide Inv, MakeRoom, Frame, Admits;
    FrameSelf(st, key);
    if cands != [] {
      var d := cands[0].device;
      if d !in st.pools {
        if !each { PlaceFrame(st, key, len, cands[1..], each); }
      } else {
        MakeRoomFrame(st, d, len, key);
        var (ok, st1) := MakeRoom(st, d, len, key);
        FrameInv(st, st1, key);
        if ok == each {
          PlaceFrame(st1, key, len, cands[1..], each);
          FrameTwice(st, st1, Place(st1, key, len, cands[1..], each).st, key);
        }
      }
    }
  }

  lemma FrameInv(a: State, b: State, key: Key)
    requires Frame(a, b, key)
    ensures Inv(b) && SameOffer(a, b, key) && Eroded(a.objects, b.objects, key)
    ensures forall d | d in a.pools :: b.pools[d].used <= a.pools[d].used
  {
  }

  lemma {:induction false} PlaceRoomy(st: State, key: Key, len: nat, cands: seq<Target>, each: bool)
    requires Inv(st)
    ensures Roomy(Place(st, key, len, cands, each).st, Place(st, key, len, cands, each).targets, len)
    decreases |cands|
  {
    hide Inv, MakeRoom, Admits, Kept, Eroded, Thinned;
    if cands != [] {
      var d := cands[0].device;
      if d !in st.pools {
        if !each { PlaceRoomy(st, key, len, cands[1..], each); }
      } else {
        InvFits(st, d);
        MakeRoomSpec(st, d, len, key);
        var (ok, st1) := MakeRoom(st, d, len, key);
        if ok == each {
          PlaceFrame(st1, key, len, cands[1..], each);
          PlaceRoomy(st1, key, len, cands[1..], each);
        }
      }
    }
  }

  lemma {:induction false} PlaceEach(st: State, key: Key, len: nat, cands: seq<Target>)
    requires Inv(st)
    ensures var p, j := Place(st, key, len, cands, true), FirstWith(st, key, len, cands, false);
            && p.targets == cands[..j]
            && p.err == (if j == |cands| then None else Some(Refusal(st, cands[j])))
    decreases |cands|
  {
    hide Inv, MakeRoom, Admits, Kept, Eroded, Thinned;
    if cands != [] {
      var d := cands[0].device;
      if d !in st.pools {
        NotServed(st, d, len, key);
      } else {
        InvFits(st, d);
        MakeRoomSpec(st, d, len, key);
        var (ok, st1) := MakeRoom(st, d, len, key);
        if ok {
          PlaceEach(st1, key, len, cands[1..]);
          SameFirst(st, st1, key, len, cands[1..], false);
        }
      }
    }
  }

  lemma {:induction false} PlaceFirst(st: State, key: Key, len: nat, cands: seq<Target>)
    requires Inv(st)
    ensures var p, j := Place(st, key, len, cands, false), FirstWith(st, key, len, cands, true);
            && p.targets == (if j < |cands| then [cands[j]] else [])
            && (j == |cands| ==> p.err == (if cands == [] then None else Some(Refusal(st, cands[|cands| - 1]))))
    decreases |cands|
  {
    hide Inv, MakeRoom, Admits, Kept, Eroded, Thinned;
    if cands != [] {
      var d := cands[0].device;
      if d !in st.pools {
        NotServed(st, d, len, key);
        PlaceFirst(st, key, len, cands[1..]);
      } else {
        InvFits(st, d);
        MakeRoomSpec(st, d, len, key);
        var (ok, st1) := MakeRoom(st, d, len, key);
        if !ok {
          PlaceFirst(st1, key, len, cands[1..]);
          SameFirst(st, st1, key, len, cands[1..], true);
        }
      }
    }
  }

  /** The loop's answer is a function of who admits in the state before it: the first admitting
      candidate, or for `Each` the candidates before the first that does not. */
  lemma PlaceAnswer(st: State, key: Key, len: nat, cands: seq<Target>, each: bool)
    requires Inv(st)
    ensures Placed(st, key, len, cands, each, Place(st, key, len, cands, each))
  {
    hide Inv, Place, FirstWith;
    if each { PlaceEach(st, key, len, cands); } else { PlaceFirst(st, key, len, cands); }
  }

  lemma NotServed(st: State, d: Device, len: nat, key: Key)
    requires d !in st.pools
    ensures !Admits(st, d, len, key)
  {
  }

  lemma PlaceSpec(st: State, key: Key, len: nat, cands: seq<Target>, each: bool)
    requires Inv(st)
    ensures var p := Place(st, key, len, cands, each);
            && Frame(st, p.st, key)
            && Roomy(p.st, p.targets, len)
            && Placed(st, key, len, cands, each, p)
  {
    hide *;
    PlaceFrame(st, key, len, cands, each);
    PlaceRoomy(st, key, len, cands, each);
    PlaceAnswer(st, key, len, cands, each);
  }
}
