/** The single-node backend as a machine over atomic steps. Every section that runs under the state
    lock, every pool call and every chunk of an unlocked copy is one step; threads interleave freely. */
module LocalMachine {
  import opened Types
  import opened LocalData
  import Pinned = PinnedRuns
  import opened PinnedPool

  // ---------------------------------------------------------------------
  // State

  /** What is known of a live buffer: the put and slot it was cut for, the bytes that put supplies,
      and whether it has been installed in the metadata. */
  datatype Info = Info(put: nat, key: Key, slot: nat, bytes: seq<Byte>, installed: bool)

  datatype Target = Target(numa: nat, misplaced: bool)

  datatype Placed = Placed(misplaced: bool, buf: BufId)

  /** Where a put is within the slot it works on. */
  datatype Stage =
    | Idle
    | Asking(todo: seq<Target>)
    | Scanning(todo: seq<Target>)
    | Retrying(todo: seq<Target>, evicted: bool)
    | Copying(target: nat, done: nat)
    | Failed

  datatype Put = Put(key: Key, spec: ObjectSpec, data: seq<seq<Byte>>, writable: seq<bool>,
                     slot: nat, stage: Stage, placed: seq<Placed>)

  datatype Get = Get(key: Key, slot: nat, buf: BufId, offset: nat, len: nat, out: seq<Byte>)

  datatype State = State(
    objects: Objects,
    fifo: map<nat, seq<Entry>>,
    order: seq<nat>,
    pools: map<nat, Pinned.PoolState>,
    mem: map<nat, seq<Byte>>,
    info: map<BufId, Info>,
    puts: map<nat, Put>,
    gets: map<nat, Get>,
    next: nat)

  datatype Step =
    | Claim(key: Key, spec: ObjectSpec, data: seq<seq<Byte>>)
    | Skip(put: nat)
    | Begin(put: nat)
    | TryAlloc(put: nat)
    | Scan(put: nat)
    | Copy(put: nat, n: nat)
    | CopyFails(put: nat)
    | Install(put: nat)
    | Abandon(put: nat)
    | Return(put: nat)
    | Open(key: Key, slot: nat, replica: nat, offset: nat, len: nat)
    | Read(get: nat, n: nat)
    | Close(get: nat)
    | Publish(key: Key, slot: nat, device: Device, region: nat)
    | Retire(region: nat)
    | Remove(keys: set<Key>)
    | Release(buf: BufId)

  // ---------------------------------------------------------------------
  // Placement

  /** The node of a device that has a pool; `order` lists the pools' nodes. */
  function NumaOf(order: seq<nat>, d: Device): (r: Option<nat>)
    ensures r.Some? <==> d.Cpu? && d.numa in order
    ensures r.Some? ==> d == Cpu(r.value)
  {
    if d.Cpu? && d.numa in order then Some(d.numa) else None
  }

  function Listed(order: seq<nat>, ds: seq<Device>): (r: Option<seq<Target>>)
    ensures r.Some? ==> |r.value| == |ds|
    ensures r.Some? ==>
              forall i | 0 <= i < |ds| :: r.value[i].numa in order && ds[i] == Cpu(r.value[i].numa) && !r.value[i].misplaced
  {
    if ds == [] then Some([])
    else
      match (NumaOf(order, ds[0]), Listed(order, ds[1..]))
      case (Some(n), Some(rest)) => Some([Target(n, false)] + rest)
      case _ => None
  }

  function Others(order: seq<nat>, n: nat): (r: seq<Target>)
    ensures forall i | 0 <= i < |r| :: r[i].numa in order && r[i].numa != n && r[i].misplaced
  {
    if order == [] then []
    else (if order[0] == n then [] else [Target(order[0], true)]) + Others(order[1..], n)
  }

  function Targets(order: seq<nat>, p: Placement): Option<seq<Target>> {
    match p
    case Strict(d) => (match NumaOf(order, d) case Some(n) => Some([Target(n, false)]) case None => None)
    case Each(ds) => Listed(order, ds)
    case Prefer(d) => (match NumaOf(order, d) case Some(n) => Some([Target(n, false)] + Others(order, n)) case None => None)
    case Anywhere => Some(seq(|order|, i requires 0 <= i < |order| => Target(order[i], false)))
  }

  // ---------------------------------------------------------------------
  // A put between its steps

  predicate Working(p: Put) { p.slot < |p.data| && p.slot < |p.spec.slots| }

  predicate EachPlaced(p: Put)
    requires Working(p)
  {
    p.spec.slots[p.slot].placement.Each?
  }

  function GiveUp(p: Put): Put { p.(stage := Failed, placed := []) }

  function Advance(p: Put): Put { p.(slot := p.slot + 1, stage := Idle, placed := []) }

  function Todo(s: Stage): seq<Target> {
    match s
    case Asking(todo) => todo
    case Scanning(todo) => todo
    case Retrying(todo, _) => todo
    case _ => []
  }

  /** The current target got a buffer: go on to the next one only under `Each`. */
  function Got(p: Put, b: BufId): Put
    requires Working(p) && Todo(p.stage) != []
  {
    var todo := Todo(p.stage);
    var q := p.(placed := p.placed + [Placed(todo[0].misplaced, b)]);
    if EachPlaced(p) && |todo| > 1 then q.(stage := Asking(todo[1..])) else q.(stage := Copying(0, 0))
  }

  /** The current target is out: fatal under `Each`, otherwise try the next one. */
  function Missed(p: Put): Put
    requires Working(p) && Todo(p.stage) != []
  {
    var todo := Todo(p.stage);
    if EachPlaced(p) || |todo| == 1 then GiveUp(p) else p.(stage := Asking(todo[1..]))
  }

  function Started(st: State, p: Put): Put
    requires Working(p)
  {
    match Targets(st.order, p.spec.slots[p.slot].placement)
    case Some(todo) => if todo == [] then GiveUp(p) else p.(stage := Asking(todo))
    case None => GiveUp(p)
  }

  function Copied(p: Put, n: nat): Put
    requires p.stage.Copying? && Working(p)
  {
    var done := p.stage.done + n;
    p.(stage := if done == |p.data[p.slot]| then Copying(p.stage.target + 1, 0) else Copying(p.stage.target, done))
  }

  // ---------------------------------------------------------------------
  // Memory

  function Write(m: seq<Byte>, a: nat, bs: seq<Byte>): (r: seq<Byte>)
    requires a + |bs| <= |m|
    ensures |r| == |m|
    ensures forall k | 0 <= k < |r| :: r[k] == if a <= k < a + |bs| then bs[k - a] else m[k]
  {
    m[..a] + bs + m[a + |bs|..]
  }

  predicate Live(pools: map<nat, Pinned.PoolState>, b: BufId) {
    b.numa in pools && b.id in pools[b.numa].live
  }

  function Where(pools: map<nat, Pinned.PoolState>, b: BufId): Range
    requires Live(pools, b)
  {
    pools[b.numa].live[b.id]
  }

  /** The first `len` bytes of a buffer are inside its pool's memory. */
  predicate Mapped(st: State, b: BufId, len: nat) {
    Live(st.pools, b) && b.numa in st.mem && len <= Where(st.pools, b).len
    && Where(st.pools, b).off + len <= |st.mem[b.numa]|
  }

  function Need(p: Put): nat
    requires Working(p)
  {
    RoundUp(|p.data[p.slot]|)
  }

  predicate Fits(pool: Pinned.PoolState, need: nat) { FirstFit(pool.free, need) < |pool.free| }

  function FreshReplicas(placed: seq<Placed>): (r: seq<Replica>)
    ensures |r| == |placed|
    ensures forall i | 0 <= i < |r| ::
              r[i] == Replica(Cpu(placed[i].buf.numa), Dram, placed[i].misplaced, Pinned(placed[i].buf))
  {
    seq(|placed|, i requires 0 <= i < |placed| =>
          Replica(Cpu(placed[i].buf.numa), Dram, placed[i].misplaced, Data.Pinned(placed[i].buf)))
  }

  function Queue(fifo: map<nat, seq<Entry>>, placed: seq<Placed>, e: Entry): map<nat, seq<Entry>>
    decreases |placed|
  {
    if placed == [] then fifo
    else
      var n := placed[0].buf.numa;
      Queue(fifo[n := (if n in fifo then fifo[n] else []) + [e]], placed[1..], e)
  }

  function Sealed(info: map<BufId, Info>, placed: seq<Placed>): map<BufId, Info> {
    map b | b in info :: if exists j | 0 <= j < |placed| :: placed[j].buf == b then info[b].(installed := true) else info[b]
  }

  // ---------------------------------------------------------------------
  // References to a buffer

  ghost predicate HeldByPut(puts: map<nat, Put>, b: BufId) {
    exists t, j | t in puts && 0 <= j < |puts[t].placed| :: puts[t].placed[j].buf == b
  }

  ghost predicate Shown(objects: Objects, b: BufId) {
    exists k, i :: ShownAt(objects, k, i, b)
  }

  ghost predicate HeldByGet(gets: map<nat, Get>, b: BufId) {
    exists g | g in gets :: gets[g].buf == b
  }

  /** A reference from metadata, from a put that has not installed it, or from a running get. */
  ghost predicate Referenced(st: State, b: BufId) {
    Shown(st.objects, b) || HeldByPut(st.puts, b) || HeldByGet(st.gets, b)
  }

  // ---------------------------------------------------------------------
  // Steps

  predicate At(st: State, t: nat) { t in st.puts && Working(st.puts[t]) }

  function Request(st: State, t: nat): Entry
    requires t in st.puts
  {
    Entry(st.puts[t].key, st.puts[t].slot)
  }

  function Sweep(st: State, t: nat): LocalData.Scanned
    requires At(st, t) && Todo(st.puts[t].stage) != [] && Todo(st.puts[t].stage)[0].numa in st.fifo
  {
    var n := Todo(st.puts[t].stage)[0].numa;
    LocalData.Scan(st.objects, st.fifo[n], Cpu(n), st.puts[t].key)
  }

  /** The metadata still has the slot a put works on, or has lost the whole object. A put that finds
      the object with fewer slots panics while it holds the lock; the run has no such step. */
  predicate Indexable(st: State, t: nat)
    requires t in st.puts
  {
    var p := st.puts[t];
    p.key in st.objects ==> p.slot < |st.objects[p.key].slots|
  }

  ghost predicate Enabled(st: State, s: Step) {
    match s
    case Claim(key, spec, data) =>
      && (key in st.objects ==> st.objects[key].spec == spec)
      && |data| == |spec.slots| && (forall i | 0 <= i < |data| :: |data[i]| == spec.slots[i].len)
    case Skip(t) =>
      t in st.puts && var p := st.puts[t]; p.stage.Idle? && p.slot < |p.writable| && !p.writable[p.slot]
    case Begin(t) =>
      At(st, t) && var p := st.puts[t]; p.stage.Idle? && p.slot < |p.writable| && p.writable[p.slot]
    case TryAlloc(t) =>
      At(st, t) && var p := st.puts[t];
      (p.stage.Asking? || p.stage.Retrying?) && Todo(p.stage) != [] && Todo(p.stage)[0].numa in st.pools
    case Scan(t) =>
      && At(st, t) && st.puts[t].stage.Scanning? && Todo(st.puts[t].stage) != []
      && Todo(st.puts[t].stage)[0].numa in st.fifo && Sweep(st, t).Scanned?
    case Copy(t, n) =>
      At(st, t) && var p := st.puts[t];
      && p.stage.Copying? && p.stage.target < |p.placed| && p.stage.done + n <= |p.data[p.slot]|
      && Mapped(st, p.placed[p.stage.target].buf, |p.data[p.slot]|)
    case CopyFails(t) =>
      At(st, t) && var p := st.puts[t]; p.stage.Copying? && p.stage.target < |p.placed|
    case Install(t) =>
      At(st, t) && Indexable(st, t) && var p := st.puts[t]; p.stage.Copying? && p.stage.target == |p.placed|
    case Abandon(t) =>
      At(st, t) && Indexable(st, t) && st.puts[t].stage.Failed?
    case Return(t) =>
      t in st.puts && st.puts[t].stage.Idle? && st.puts[t].slot == |st.puts[t].writable|
    case Open(key, i, j, offset, len) =>
      && key in st.objects && i < |st.objects[key].slots| && i < |st.objects[key].spec.slots|
      && j < |st.objects[key].slots[i].replicas| && st.objects[key].slots[i].replicas[j].data.Pinned?
      && offset + len <= st.objects[key].spec.slots[i].len
    case Read(g, n) =>
      g in st.gets && var r := st.gets[g];
      && r.buf in st.info && |r.out| + n <= r.len && r.offset + |r.out| + n <= |st.info[r.buf].bytes|
      && Mapped(st, r.buf, |st.info[r.buf].bytes|)
    case Close(g) => g in st.gets
    case Publish(key, i, device, region) => key in st.objects && i < |st.objects[key].slots|
    case Retire(region) => true
    case Remove(keys) => true
    case Release(b) => b in st.info && Live(st.pools, b) && !Referenced(st, b)
  }

  function ClaimDone(st: State, key: Key, spec: ObjectSpec, data: seq<seq<Byte>>): State {
    var writable := Writable(Reserved(st.objects, key, spec));
    st.(objects := LocalData.Claim(st.objects, key, spec),
        puts := st.puts[st.next := Put(key, spec, data, writable, 0, Idle, [])],
        next := st.next + 1)
  }

  /** What a pool's answer makes of a put that asks for its current slot. */
  function Answered(p: Put, pool: Pinned.PoolState): Put
    requires Working(p) && Todo(p.stage) != []
  {
    if Fits(pool, Need(p)) then Got(p, BufId(Todo(p.stage)[0].numa, pool.next))
    else if (p.stage.Asking? && |p.data[p.slot]| <= pool.capacity) || (p.stage.Retrying? && p.stage.evicted) then
      p.(stage := Scanning(Todo(p.stage)))
    else Missed(p)
  }

  function Allocated(st: State, t: nat): State
    requires At(st, t) && Todo(st.puts[t].stage) != [] && Todo(st.puts[t].stage)[0].numa in st.pools
  {
    var p := st.puts[t];
    var n := Todo(p.stage)[0].numa;
    var pool := st.pools[n];
    var puts := st.puts[t := Answered(p, pool)];
    if Fits(pool, Need(p)) then
      st.(pools := st.pools[n := Pinned.Next(pool, Pinned.Take(|p.data[p.slot]|))],
          info := st.info[BufId(n, pool.next) := Info(t, p.key, p.slot, p.data[p.slot], false)],
          puts := puts)
    else st.(puts := puts)
  }

  function ScanDone(st: State, t: nat): State
    requires At(st, t) && Todo(st.puts[t].stage) != [] && Todo(st.puts[t].stage)[0].numa in st.fifo
    requires Sweep(st, t).Scanned?
  {
    var r := Sweep(st, t);
    var p := st.puts[t];
    st.(objects := r.objects, fifo := st.fifo[Todo(p.stage)[0].numa := r.queue],
        puts := st.puts[t := p.(stage := Retrying(Todo(p.stage), r.evicted))])
  }

  function Wrote(st: State, t: nat, n: nat): State
    requires Enabled(st, Copy(t, n))
  {
    var p := st.puts[t];
    var b := p.placed[p.stage.target].buf;
    var chunk := p.data[p.slot][p.stage.done..p.stage.done + n];
    st.(mem := st.mem[b.numa := Write(st.mem[b.numa], Where(st.pools, b).off + p.stage.done, chunk)],
        puts := st.puts[t := Copied(p, n)])
  }

  function Installed(st: State, t: nat): State
    requires At(st, t) && Indexable(st, t)
  {
    var p := st.puts[t];
    if p.key !in st.objects then st.(puts := st.puts[t := GiveUp(p)])
    else
      st.(objects := LocalData.Install(st.objects, p.key, p.slot, FreshReplicas(p.placed)),
          fifo := Queue(st.fifo, p.placed, Request(st, t)),
          info := Sealed(st.info, p.placed),
          puts := st.puts[t := Advance(p)])
  }

  function Opened(st: State, key: Key, i: nat, j: nat, offset: nat, len: nat): State
    requires key in st.objects && i < |st.objects[key].slots| && j < |st.objects[key].slots[i].replicas|
    requires st.objects[key].slots[i].replicas[j].data.Pinned?
  {
    var b := st.objects[key].slots[i].replicas[j].data.buf;
    st.(gets := st.gets[st.next := Get(key, i, b, offset, len, [])], next := st.next + 1)
  }

  function ReadOn(st: State, g: nat, n: nat): State
    requires Enabled(st, Read(g, n))
  {
    var r := st.gets[g];
    var a := Where(st.pools, r.buf).off + r.offset + |r.out|;
    st.(gets := st.gets[g := r.(out := r.out + st.mem[r.buf.numa][a..a + n])])
  }

  function Released(st: State, b: BufId): State
    requires Live(st.pools, b)
  {
    st.(pools := st.pools[b.numa := Pinned.Next(st.pools[b.numa], Pinned.Drop(b.id))], info := st.info - {b})
  }

  function Next(st: State, s: Step): State
    requires Enabled(st, s)
  {
    match s
    case Claim(key, spec, data) => ClaimDone(st, key, spec, data)
    case Skip(t) => st.(puts := st.puts[t := Advance(st.puts[t])])
    case Begin(t) => st.(puts := st.puts[t := Started(st, st.puts[t])])
    case TryAlloc(t) => Allocated(st, t)
    case Scan(t) => ScanDone(st, t)
    case Copy(t, n) => Wrote(st, t, n)
    case CopyFails(t) => st.(puts := st.puts[t := GiveUp(st.puts[t])])
    case Install(t) => Installed(st, t)
    case Abandon(t) =>
      st.(objects := Unclaim(st.objects, st.puts[t].key, st.puts[t].slot),
          puts := st.puts[t := Advance(st.puts[t])])
    case Return(t) => st.(puts := st.puts - {t})
    case Open(key, i, j, offset, len) => Opened(st, key, i, j, offset, len)
    case Read(g, n) => ReadOn(st, g, n)
    case Close(g) => st.(gets := st.gets - {g})
    case Publish(key, i, device, region) => st.(objects := LocalData.Publish(st.objects, key, i, device, region))
    case Retire(region) => st.(objects := LocalData.Retire(st.objects, region))
    case Remove(keys) => st.(objects := st.objects - keys)
    case Release(b) => Released(st, b)
  }

  // ---------------------------------------------------------------------
  // Runs

  predicate Ascending(order: seq<nat>) {
    forall i, j | 0 <= i < j < |order| :: order[i] < order[j]
  }

  /** An empty store over one pool per listed NUMA node, with whatever bytes the pools hold. */
  ghost predicate Initial(st: State) {
    && st.objects == map[] && st.info == map[] && st.puts == map[] && st.gets == map[]
    && Ascending(st.order)
    && st.pools.Keys == st.fifo.Keys == st.mem.Keys == (set n | n in st.order)
    && (forall n | n in st.pools ::
          && st.fifo[n] == []
          && |st.mem[n]| == st.pools[n].capacity
          && exists bytes :: st.pools[n] == Pinned.Start(bytes))
  }

  ghost function Apply(st: State, s: Step): State {
    if Enabled(st, s) then Next(st, s) else st
  }

  /** Any schedule: a step that is not enabled when its turn comes does nothing. */
  ghost function Exec(st: State, steps: seq<Step>): State {
    if steps == [] then st else Apply(Exec(st, steps[..|steps| - 1]), steps[|steps| - 1])
  }

  lemma ExecSnoc(st: State, steps: seq<Step>, s: Step)
    ensures Exec(st, steps + [s]) == Apply(Exec(st, steps), s)
  {
    assert (steps + [s])[..|steps|] == steps;
  }

  lemma ExecOne(st: State, a: Step)
    ensures Exec(st, [a]) == Apply(st, a)
  {
    assert [a][..0] == [];
  }

  lemma ExecPair(st: State, a: Step, b: Step)
    ensures Exec(st, [a, b]) == Apply(Apply(st, a), b)
  {
    hide Apply;
    ExecOne(st, a);
    assert [a, b][..1] == [a];
  }

  lemma {:induction false} ExecAppend(st: State, a: seq<Step>, b: seq<Step>)
    ensures Exec(st, a + b) == Exec(Exec(st, a), b)
  {
    hide Apply;
    if b == [] {
      assert a + b == a;
    } else {
      var front, last := b[..|b| - 1], b[|b| - 1];
      ExecAppend(st, a, front);
      assert (a + b)[..|a + b| - 1] == a + front && (a + b)[|a + b| - 1] == last;
    }
  }
}
