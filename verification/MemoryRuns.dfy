/** Every run of the reference backend. */
module MemoryRuns {
  import opened Types
  import opened MemoryData
  import opened MemoryEvict
  import opened MemoryPut
  import opened MemoryRequest
  import opened MemoryCapacity
  import opened MemoryOps

  datatype Op =
    | OpPut(key: Key, retention: Retention, fills: seq<Fill>)
    | OpPublish(key: Key, slot: nat, loan: Loan)
    | OpRetire(region: nat)
    | OpRemove(keys: seq<Key>)
    | OpRemovePrefix(prefix: Key)

  /** The devices of the backend, in the order they were added, with their capacities. */
  datatype Config = Config(order: seq<Device>, capacity: map<Device, Option<nat>>)

  function Start(c: Config): State {
    State(map[], map d | d in c.capacity :: Pool(c.capacity[d], 0, []))
  }

  /** What the source asks of the caller: gathered bytes of the announced length, and a re-created
      key no narrower than what is still queued under its name. */
  ghost predicate Legal(st: State, op: Op) {
    op.OpPut? ==> Sized(op.fills) && Reusable(st, op.key, SpecOf(op.retention, op.fills))
  }

  function Apply(c: Config, st: State, op: Op): State
    requires Squared(st)
  {
    match op
    case OpPut(key, retention, fills) => Put(st, c.order, key, retention, fills).0
    case OpPublish(key, slot, loan) => Publish(st, key, slot, loan).0
    case OpRetire(region) => Retire(st, region)
    case OpRemove(keys) => Remove(st, keys)
    case OpRemovePrefix(prefix) => RemovePrefix(st, prefix).0
  }

  lemma StartInv(c: Config)
    ensures Inv(Start(c))
  {
  }

  /** Every operation keeps the bookkeeping exact: each counter is the sum of the owned bytes on its
      device, every evictable owned replica is queued there, and every queued index is in range. */
  lemma ApplyInv(c: Config, st: State, op: Op)
    requires Inv(st) && Legal(st, op)
    ensures Squared(st) && Inv(Apply(c, st, op)) && Apply(c, st, op).pools.Keys == st.pools.Keys
  {
    hide Inv, Put, Publish, Retire, Remove, Reusable;
    InvSquared(st);
    match op
    case OpPut(key, retention, fills) => PutContract(st, c.order, key, retention, fills);
    case OpPublish(key, slot, loan) =>
      PublishInv(st, key, slot, loan);
      PublishPools(st, key, slot, loan);
    case OpRetire(region) =>
      RetireInv(st, region);
      RetirePools(st, region);
    case OpRemove(keys) => RemoveInv(st, keys);
    case OpRemovePrefix(prefix) => RemoveInv(st, KeyOrder.PrefixRun(st.objects.Keys, prefix));
  }

  lemma PublishPools(st: State, key: Key, slot: nat, loan: Loan)
    ensures Publish(st, key, slot, loan).0.pools == st.pools
  {
  }

  lemma RetirePools(st: State, region: nat)
    ensures Retire(st, region).pools == st.pools
  {
  }

  /** The state after a run, as long as every operation was legal when it came. */
  ghost function Exec(c: Config, ops: seq<Op>): (r: Option<State>)
    ensures r.Some? ==> Inv(r.value)
  {
    if ops == [] then
      StartInv(c);
      Some(Start(c))
    else
      var before := Exec(c, ops[..|ops| - 1]);
      var op := ops[|ops| - 1];
      if before.None? || !Legal(before.value, op) then None
      else
        ApplyInv(c, before.value, op);
        Some(Apply(c, before.value, op))
  }

  /** No counter underflows: in every reachable state each is the sum of what is owned. */
  lemma RunAccounting(c: Config, ops: seq<Op>, d: Device)
    requires Exec(c, ops).Some? && d in Exec(c, ops).value.pools
    ensures var st := Exec(c, ops).value;
            0 <= st.pools[d].used == StoreBytes(st.objects, d)
  {
    var st := Exec(c, ops).value;
    assert PoolInv(st.objects, st.pools[d], d);
  }

  // ---------------------------------------------------------------------
  // Capacity

  ghost predicate AllSpread(ops: seq<Op>) {
    forall i | 0 <= i < |ops| && ops[i].OpPut? ::
      forall j | 0 <= j < |ops[i].fills| :: Spread(ops[i].fills[j].spec)
  }

  lemma ApplyWithin(c: Config, st: State, op: Op)
    requires Inv(st) && Legal(st, op) && WithinCapacity(st)
    requires op.OpPut? ==> forall j | 0 <= j < |op.fills| :: Spread(op.fills[j].spec)
    ensures WithinCapacity(Apply(c, st, op))
  {
    hide Inv, Put, Publish, Retire, Remove, Reusable, Spread;
    match op
    case OpPut(key, retention, fills) => PutWithin(st, c.order, key, retention, fills);
    case OpPublish(key, slot, loan) => PublishPools(st, key, slot, loan);
    case OpRetire(region) => RetirePools(st, region);
    case OpRemove(keys) => RemoveInv(st, keys);
    case OpRemovePrefix(prefix) => RemoveInv(st, KeyOrder.PrefixRun(st.objects.Keys, prefix));
  }

  /** As long as no `Each` list repeats a device, no run takes a pool over its capacity. */
  lemma {:induction false} RunWithinCapacity(c: Config, ops: seq<Op>)
    requires Exec(c, ops).Some? && AllSpread(ops)
    ensures WithinCapacity(Exec(c, ops).value)
  {
    hide Inv, Apply, Legal, Spread;
    if ops != [] {
      var front := ops[..|ops| - 1];
      assert forall i | 0 <= i < |front| :: front[i] == ops[i];
      RunWithinCapacity(c, front);
      ApplyWithin(c, Exec(c, front).value, ops[|ops| - 1]);
    }
  }

  // ---------------------------------------------------------------------
  // Contents

  function Reply(c: Config, st: State, op: Op): Result<seq<Result<()>>>
    requires Inv(st) && Legal(st, op) && op.OpPut?
  {
    Put(st, c.order, op.key, op.retention, op.fills).1
  }

  /** The operation, applied in `st`, landed bytes in slot `i` of `key`. */
  ghost predicate Lands(c: Config, st: State, op: Op, key: Key, i: nat) {
    && Inv(st) && Legal(st, op) && op.OpPut? && op.key == key
    && Reply(c, st, op).Ok? && i < |Reply(c, st, op).value| && i < |op.fills|
    && Reply(c, st, op).value[i].Ok?
  }

  /** The bytes gathered by the last put of the run that landed in slot `i` of `key`. */
  ghost function LastFill(c: Config, ops: seq<Op>, key: Key, i: nat): Option<seq<Byte>> {
    if ops == [] then None
    else
      var front, op := ops[..|ops| - 1], ops[|ops| - 1];
      var before := Exec(c, front);
      if before.Some? && Lands(c, before.value, op, key, i) then Some(op.fills[i].bytes)
      else LastFill(c, front, key, i)
  }

  /** One step: an owned replica was there before, or the put that just landed made it. */
  lemma OwnedComesFrom(c: Config, st: State, op: Op, key: Key, i: nat, r: Replica)
    requires Inv(st) && Legal(st, op)
    requires var now := Apply(c, st, op).objects;
             key in now && i < |now[key].slots| && r in now[key].slots[i] && r.data.Owned?
    ensures if Lands(c, st, op, key, i) then r.data.bytes == op.fills[i].bytes
            else key in st.objects && i < |st.objects[key].slots| && r in st.objects[key].slots[i]
  {
    hide Inv, Reusable, Copies, Put, Remove;
    match op
    case OpPut(k, retention, fills) =>
      PutContract(st, c.order, k, retention, fills);
      if Put(st, c.order, k, retention, fills).1.Ok? {
        if k == key { PutOwn(c, st, op, i, r); } else { PutElsewhere(c, st, op, key, i, r); }
      }
    case OpPublish(k, slot, loan) =>
    case OpRetire(region) =>
      assert key in st.objects;
      RetainedMembers(st.objects[key].slots[i], region, r);
    case OpRemove(keys) => RemoveInv(st, keys);
    case OpRemovePrefix(prefix) => RemoveInv(st, KeyOrder.PrefixRun(st.objects.Keys, prefix));
  }

  lemma PutOwn(c: Config, st: State, op: Op, i: nat, r: Replica)
    requires Inv(st) && Legal(st, op) && op.OpPut? && Reply(c, st, op).Ok?
    requires var now := Apply(c, st, op).objects;
             op.key in now && i < |now[op.key].slots| && r in now[op.key].slots[i] && r.data.Owned?
    ensures if Lands(c, st, op, op.key, i) then r.data.bytes == op.fills[i].bytes
            else op.key in st.objects && i < |st.objects[op.key].slots| && r in st.objects[op.key].slots[i]
  {
    hide Inv, Reusable, Put, Around, GoodTargets;
    PutContract(st, c.order, op.key, op.retention, op.fills);
    var slot := Apply(c, st, op).objects[op.key].slots[i];
    assert i < |op.fills|;
    if Reply(c, st, op).value[i].Ok? {
      var ts :| GoodTargets(ts, op.fills[i].spec.placement, c.order) && slot == Copies(ts, op.fills[i].bytes);
    } else {
      assert slot == SlotAt(st, op.key, i);
    }
  }

  lemma PutElsewhere(c: Config, st: State, op: Op, key: Key, i: nat, r: Replica)
    requires Inv(st) && Legal(st, op) && op.OpPut? && Reply(c, st, op).Ok? && op.key != key
    requires var now := Apply(c, st, op).objects;
             key in now && i < |now[key].slots| && r in now[key].slots[i]
    ensures key in st.objects && i < |st.objects[key].slots| && r in st.objects[key].slots[i]
  {
    hide Inv, Reusable, Put, GoodTargets, Copies, Kept;
    PutContract(st, c.order, op.key, op.retention, op.fills);
    var spec := SpecOf(op.retention, op.fills);
    var was, now := Reserve(st, op.key, spec).objects, Apply(c, st, op).objects;
    var mid := now[op.key := was[op.key]];
    assert key in mid && r in mid[key].slots[i];
    assert key in was && r in was[key].slots[i];
  }

  /** In every reachable state, each owned replica of a slot holds the bytes gathered by the put
      that last filled it. In particular the owned replicas of a slot never differ. */
  lemma {:induction false} RunContents(c: Config, ops: seq<Op>, key: Key, i: nat, r: Replica)
    requires Exec(c, ops).Some?
    requires var now := Exec(c, ops).value.objects;
             key in now && i < |now[key].slots| && r in now[key].slots[i] && r.data.Owned?
    ensures LastFill(c, ops, key, i) == Some(r.data.bytes)
  {
    hide Inv, Apply, Legal, Lands;
    if ops != [] {
      var front, op := ops[..|ops| - 1], ops[|ops| - 1];
      var st := Exec(c, front).value;
      OwnedComesFrom(c, st, op, key, i, r);
      if !Lands(c, st, op, key, i) { RunContents(c, front, key, i, r); }
    }
  }

  // ---------------------------------------------------------------------
  // Explicit objects

  /** The operation names `k` for removal. */
  predicate Removes(op: Op, k: Key) {
    match op
    case OpRemove(keys) => k in keys
    case OpRemovePrefix(prefix) => prefix <= k
    case _ => false
  }

  /** An owned replica of an Explicit object disappears only by removal of its key. */
  lemma ExplicitStays(c: Config, st: State, op: Op, k: Key, i: nat, r: Replica)
    requires Inv(st) && Legal(st, op) && !Removes(op, k)
    requires k in st.objects && st.objects[k].spec.retention == Explicit
    requires i < |st.objects[k].slots| && r in st.objects[k].slots[i] && r.data.Owned?
    ensures var now := Apply(c, st, op).objects;
            k in now && now[k].spec == st.objects[k].spec && i < |now[k].slots| && r in now[k].slots[i]
  {
    hide Inv, Reusable, Copies, Put, Remove, RemovePrefix, Around;
    match op
    case OpPut(key, retention, fills) =>
      PutContract(st, c.order, key, retention, fills);
      InvShaped(st, k);
      if Put(st, c.order, key, retention, fills).1.Ok? && k != key { ExplicitElsewhere(c, st, op, k); }
    case OpPublish(key, slot, loan) =>
    case OpRetire(region) => RetainedMembers(st.objects[k].slots[i], region, r);
    case OpRemove(keys) => RemoveInv(st, keys);
    case OpRemovePrefix(prefix) => RemovePrefixExact(st, prefix);
  }

  lemma InvShaped(st: State, k: Key)
    requires Inv(st) && k in st.objects
    ensures |st.objects[k].slots| == |st.objects[k].spec.slots|
  {
  }

  lemma ExplicitElsewhere(c: Config, st: State, op: Op, k: Key)
    requires Inv(st) && Legal(st, op) && op.OpPut? && Reply(c, st, op).Ok? && op.key != k
    requires k in st.objects && st.objects[k].spec.retention == Explicit
    ensures k in Apply(c, st, op).objects && Apply(c, st, op).objects[k] == st.objects[k]
  {
    hide Inv, Reusable, Put, GoodTargets, Copies;
    PutContract(st, c.order, op.key, op.retention, op.fills);
    var spec := SpecOf(op.retention, op.fills);
    var was, now := Reserve(st, op.key, spec).objects, Apply(c, st, op).objects;
    var mid := now[op.key := was[op.key]];
    assert Kept(mid, op.key) == Kept(was, op.key);
    assert k in Kept(was, op.key);
    assert k in Kept(mid, op.key) && Kept(mid, op.key)[k] == Kept(was, op.key)[k];
  }

  // ---------------------------------------------------------------------
  // Stale queue entries

  /** Removing does not purge the queues: whenever a Cache object holds a copy of slot `i` on a bounded
      pool, removing it and re-creating the key with at most `i` slots leaves a queued entry past the new
      object's slots. This is what `Legal` asks callers to avoid. */
  lemma RemoveLeavesStaleEntry(st: State, k: Key, i: nat, d: Device, spec: ObjectSpec)
    requires Inv(st) && d in st.pools && st.pools[d].capacity.Some? && Evictable(st.objects, k)
    requires i < |st.objects[k].slots| && SlotHas(st.objects[k].slots[i], d)
    requires spec.retention == Cache && |spec.slots| <= i
    ensures var gone := Remove(st, [k]);
            && Inv(gone) && k !in gone.objects && !Reusable(gone, k, spec)
            && d in gone.pools && Entry(k, i) in gone.pools[d].fifo && !Fits(Reserve(gone, k, spec).objects, Entry(k, i))
  {
    hide StoreBytes, ObjectBytes, SlotHas;
    assert PoolInv(st.objects, st.pools[d], d);
    RemoveInv(st, [k]);
    var gone := Remove(st, [k]);
    assert [k][1..] == [] && gone == RemoveOne(st, k);
    assert gone.pools[d].fifo == st.pools[d].fifo && gone.pools[d].capacity.Some?;
    var j :| 0 <= j < |gone.pools[d].fifo| && gone.pools[d].fifo[j] == Entry(k, i);
    assert !QueuedBelow(gone.pools[d], k, |spec.slots|);
  }
}
