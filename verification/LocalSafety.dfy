/** No interleaving hands out a referenced range again, so unlocked copies read what was written. */
module LocalSafety {
  import opened Types
  import opened LocalData
  import opened LocalMachine
  import opened PinnedPool
  import Pinned = PinnedRuns

  type Pools = map<nat, Pinned.PoolState>
  type Mem = map<nat, seq<Byte>>

  // ---------------------------------------------------------------------
  // The invariant

  /** The first `n` bytes of buffer `b` are the first `n` of `bytes`. */
  ghost predicate Holds(pools: Pools, mem: Mem, b: BufId, bytes: seq<Byte>, n: nat) {
    && Live(pools, b) && b.numa in mem && n <= |bytes| <= Where(pools, b).len
    && Where(pools, b).End() <= |mem[b.numa]|
    && forall k | 0 <= k < n :: mem[b.numa][Where(pools, b).off + k] == bytes[k]
  }

  ghost predicate PoolsOk(pools: Pools, mem: Mem) {
    forall n | n in pools :: n in mem && |mem[n]| == pools[n].capacity && Pinned.Safe(pools[n])
  }

  ghost predicate InfoOk(pools: Pools, info: map<BufId, Info>) {
    && (forall b | b in info :: Live(pools, b) && |info[b].bytes| <= Where(pools, b).len)
    && (forall b | Live(pools, b) :: b in info)
  }

  ghost predicate SealedOk(pools: Pools, mem: Mem, info: map<BufId, Info>) {
    forall b | b in info && info[b].installed :: Holds(pools, mem, b, info[b].bytes, |info[b].bytes|)
  }

  ghost predicate ObjectsOk(objects: Objects, info: map<BufId, Info>) {
    forall k, i, b | ShownAt(objects, k, i, b) ::
      b in info && info[b].installed && info[b].key == k && info[b].slot == i
  }

  ghost predicate PutShape(p: Put, pools: Pools) {
    && |p.data| == |p.spec.slots| == |p.writable| && p.slot <= |p.data|
    && (forall i | 0 <= i < |p.data| :: |p.data[i]| == p.spec.slots[i].len)
    && (!p.stage.Idle? ==> p.slot < |p.data| && p.writable[p.slot])
    && (p.stage.Idle? || p.stage.Failed? ==> p.placed == [])
    && (p.stage.Asking? || p.stage.Scanning? || p.stage.Retrying? ==> Todo(p.stage) != [])
    && (forall i | 0 <= i < |Todo(p.stage)| :: Todo(p.stage)[i].numa in pools)
  }

  ghost predicate PlacedOk(p: Put, t: nat, info: map<BufId, Info>) {
    && (forall j | 0 <= j < |p.placed| :: p.placed[j].buf in info)
    && (forall j | 0 <= j < |p.placed| :: p.slot < |p.data|
          && info[p.placed[j].buf] == Info(t, p.key, p.slot, p.data[p.slot], false))
    && (forall i, j | 0 <= i < j < |p.placed| :: p.placed[i].buf != p.placed[j].buf)
  }

  ghost predicate Progress(p: Put, pools: Pools, mem: Mem) {
    p.stage.Copying? && p.slot < |p.data| ==>
      && p.stage.target <= |p.placed|
      && (forall j | 0 <= j < p.stage.target ::
            Holds(pools, mem, p.placed[j].buf, p.data[p.slot], |p.data[p.slot]|))
      && (p.stage.target < |p.placed| ==>
            p.stage.done <= |p.data[p.slot]|
            && Holds(pools, mem, p.placed[p.stage.target].buf, p.data[p.slot], p.stage.done))
      && p.placed != []
  }

  ghost predicate PutOk(p: Put, t: nat, pools: Pools, mem: Mem, info: map<BufId, Info>) {
    PutShape(p, pools) && PlacedOk(p, t, info) && Progress(p, pools, mem)
  }

  ghost predicate GetOk(r: Get, info: map<BufId, Info>) {
    && r.buf in info && info[r.buf].installed && info[r.buf].key == r.key && info[r.buf].slot == r.slot
    && |r.out| <= r.len
    && forall k | 0 <= k < |r.out| ::
         r.offset + k < |info[r.buf].bytes| && r.out[k] == info[r.buf].bytes[r.offset + k]
  }

  ghost predicate HeapOk(pools: Pools, mem: Mem, info: map<BufId, Info>) {
    PoolsOk(pools, mem) && InfoOk(pools, info) && SealedOk(pools, mem, info)
  }

  ghost predicate PutsOk(puts: map<nat, Put>, next: nat, pools: Pools, mem: Mem, info: map<BufId, Info>) {
    forall t | t in puts :: t < next && PutOk(puts[t], t, pools, mem, info)
  }

  ghost predicate GetsOk(gets: map<nat, Get>, info: map<BufId, Info>) {
    forall g | g in gets :: GetOk(gets[g], info)
  }

  ghost predicate OrderOk(order: seq<nat>, pools: set<nat>, fifo: set<nat>) {
    pools == fifo == (set n | n in order)
  }

  ghost predicate Safe(st: State) {
    && HeapOk(st.pools, st.mem, st.info)
    && ObjectsOk(st.objects, st.info) && Shaped(st.objects)
    && PutsOk(st.puts, st.next, st.pools, st.mem, st.info)
    && GetsOk(st.gets, st.info)
    && OrderOk(st.order, st.pools.Keys, st.fifo.Keys)
  }

  // ---------------------------------------------------------------------
  // Steps that leave pools, memory and buffers alone

  lemma FewerRefs(was: Objects, now: Objects, info: map<BufId, Info>)
    requires ObjectsOk(was, info) && NoNewRefs(was, now)
    ensures ObjectsOk(now, info)
  {
    forall k, i, b | ShownAt(now, k, i, b)
      ensures b in info && info[b].installed && info[b].key == k && info[b].slot == i
    {
      assert ShownAt(was, k, i, b);
    }
  }

  lemma PutChanges(st: State, t: nat, p: Put)
    requires PutsOk(st.puts, st.next, st.pools, st.mem, st.info)
    requires t in st.puts && PutOk(p, t, st.pools, st.mem, st.info)
    ensures PutsOk(st.puts[t := p], st.next, st.pools, st.mem, st.info)
  {
    hide PutOk;
  }

  lemma GiveUpOk(p: Put, t: nat, pools: Pools, mem: Mem, info: map<BufId, Info>)
    requires PutOk(p, t, pools, mem, info) && !p.stage.Idle?
    ensures PutOk(GiveUp(p), t, pools, mem, info)
  {
  }

  lemma AdvanceOk(p: Put, t: nat, pools: Pools, mem: Mem, info: map<BufId, Info>)
    requires PutOk(p, t, pools, mem, info) && p.slot < |p.data|
    ensures PutOk(Advance(p), t, pools, mem, info)
  {
  }

  lemma TargetsKnown(order: seq<nat>, pools: Pools, p: Placement)
    requires pools.Keys == (set n | n in order)
    ensures Targets(order, p).Some? ==>
              forall i | 0 <= i < |Targets(order, p).value| :: Targets(order, p).value[i].numa in pools
  {
    assert forall n | n in order :: n in pools.Keys;
  }

  lemma StartedOk(st: State, t: nat)
    requires Safe(st) && Enabled(st, Begin(t))
    ensures PutOk(Started(st, st.puts[t]), t, st.pools, st.mem, st.info)
  {
    hide Holds, HeapOk, ObjectsOk, GetsOk, Targets;
    var p := st.puts[t];
    assert PutOk(p, t, st.pools, st.mem, st.info);
    TargetsKnown(st.order, st.pools, p.spec.slots[p.slot].placement);
  }

  lemma MissedOk(p: Put, t: nat, pools: Pools, mem: Mem, info: map<BufId, Info>)
    requires PutOk(p, t, pools, mem, info) && Working(p) && Todo(p.stage) != []
    ensures PutOk(Missed(p), t, pools, mem, info)
  {
    hide Holds;
    if EachPlaced(p) || |Todo(p.stage)| == 1 {
      GiveUpOk(p, t, pools, mem, info);
    } else {
      var q := Missed(p);
      assert forall i | 0 <= i < |Todo(q.stage)| :: Todo(q.stage)[i] == Todo(p.stage)[i + 1];
    }
  }

  lemma RestageOk(p: Put, t: nat, s: Stage, pools: Pools, mem: Mem, info: map<BufId, Info>)
    requires PutOk(p, t, pools, mem, info) && Todo(p.stage) != []
    requires Todo(s) == Todo(p.stage)
    ensures PutOk(p.(stage := s), t, pools, mem, info)
  {
    hide Holds;
  }

  lemma PutAt(st: State, t: nat)
    requires Safe(st) && t in st.puts
    ensures PutOk(st.puts[t], t, st.pools, st.mem, st.info) && t < st.next
    ensures st.puts[t].slot <= |st.puts[t].data| == |st.puts[t].spec.slots| == |st.puts[t].writable|
  {
    hide HeapOk, ObjectsOk, GetsOk;
  }

  lemma ShapedAt(st: State)
    requires Safe(st)
    ensures Shaped(st.objects)
  {
  }

  /** The metadata loses references, one put moves on. */
  lemma MetaStep(st: State, objects: Objects, fifo: map<nat, seq<Entry>>, t: nat, p: Put)
    requires Safe(st) && NoNewRefs(st.objects, objects) && Shaped(objects) && fifo.Keys == st.fifo.Keys
    requires t in st.puts && PutOk(p, t, st.pools, st.mem, st.info)
    ensures Safe(st.(objects := objects, fifo := fifo, puts := st.puts[t := p]))
  {
    hide HeapOk, ObjectsOk, GetsOk, PutsOk, PutOk, NoNewRefs;
    FewerRefs(st.objects, objects, st.info);
    PutChanges(st, t, p);
  }

  lemma MetaOnly(st: State, objects: Objects)
    requires Safe(st) && NoNewRefs(st.objects, objects) && Shaped(objects)
    ensures Safe(st.(objects := objects))
  {
    hide HeapOk, ObjectsOk, GetsOk, PutsOk, NoNewRefs;
    FewerRefs(st.objects, objects, st.info);
  }

  lemma PutStep(st: State, t: nat, p: Put)
    requires Safe(st) && t in st.puts && PutOk(p, t, st.pools, st.mem, st.info)
    ensures Safe(st.(puts := st.puts[t := p]))
  {
    hide HeapOk, ObjectsOk, GetsOk, PutsOk, PutOk;
    PutChanges(st, t, p);
  }

  lemma ClaimSafe(st: State, key: Key, spec: ObjectSpec, data: seq<seq<Byte>>)
    requires Safe(st) && Enabled(st, Step.Claim(key, spec, data))
    ensures Safe(ClaimDone(st, key, spec, data))
  {
    hide HeapOk, GetsOk, Holds, ObjectsOk, LocalData.Claim, NoNewRefs;
    ClaimRefs(st.objects, key, spec);
    ClaimShaped(st.objects, key, spec);
    FewerRefs(st.objects, LocalData.Claim(st.objects, key, spec), st.info);
  }

  lemma ScanSafe(st: State, t: nat)
    requires Safe(st) && Enabled(st, Step.Scan(t))
    ensures Safe(ScanDone(st, t))
  {
    hide Safe, PutOk, LocalData.Scan, NoNewRefs, Shaped;
    PutAt(st, t);
    var p := st.puts[t];
    var n := Todo(p.stage)[0].numa;
    ShapedAt(st);
    ScanShaped(st.objects, st.fifo[n], Cpu(n), p.key);
    ScanRefs(st.objects, st.fifo[n], Cpu(n), p.key);
    var r := Sweep(st, t);
    RestageOk(p, t, Retrying(Todo(p.stage), r.evicted), st.pools, st.mem, st.info);
    MetaStep(st, r.objects, st.fifo[n := r.queue], t, p.(stage := Retrying(Todo(p.stage), r.evicted)));
  }

  lemma AbandonSafe(st: State, t: nat)
    requires Safe(st) && Enabled(st, Abandon(t))
    ensures Safe(Next(st, Abandon(t)))
  {
    hide Safe, PutOk, Unclaim, NoNewRefs, Shaped;
    PutAt(st, t);
    var p := st.puts[t];
    ShapedAt(st);
    UnclaimShaped(st.objects, p.key, p.slot);
    UnclaimRefs(st.objects, p.key, p.slot);
    AdvanceOk(p, t, st.pools, st.mem, st.info);
    MetaStep(st, Unclaim(st.objects, p.key, p.slot), st.fifo, t, Advance(p));
  }

  lemma ReturnSafe(st: State, t: nat)
    requires Safe(st) && t in st.puts
    ensures Safe(st.(puts := st.puts - {t}))
  {
    hide HeapOk, ObjectsOk, GetsOk, PutOk;
  }

  // ---------------------------------------------------------------------
  // Allocation

  /** A successful allocation adds one live range and moves nothing. */
  lemma TakeEffect(pool: Pinned.PoolState, bytes: nat)
    requires Pinned.Safe(pool) && Fits(pool, RoundUp(bytes))
    ensures var q := Pinned.Next(pool, Pinned.Take(bytes));
            && Pinned.Safe(q) && q.capacity == pool.capacity && pool.next !in pool.live
            && pool.next in q.live && q.live[pool.next].len == RoundUp(bytes)
            && q.live == pool.live[pool.next := q.live[pool.next]]
  {
    hide Laid, Full, FirstFit, Carve, RoundUp;
    Pinned.StepSafe(pool, Pinned.Take(bytes));
  }

  lemma LiveInside(pools: Pools, mem: Mem, b: BufId)
    requires PoolsOk(pools, mem) && Live(pools, b)
    ensures b.numa in mem && Where(pools, b).End() <= |mem[b.numa]|
  {
    assert Pinned.Safe(pools[b.numa]);
  }

  /** `q` extends `p`: every buffer of `p` is where it was. */
  ghost predicate Keeps(p: Pools, q: Pools) {
    forall b | Live(p, b) :: Live(q, b) && Where(q, b) == Where(p, b)
  }

  lemma HoldsStays(p: Pools, q: Pools, mem: Mem, b: BufId, bytes: seq<Byte>, n: nat)
    requires Keeps(p, q) && Holds(p, mem, b, bytes, n)
    ensures Holds(q, mem, b, bytes, n)
  {
  }

  lemma AllocHeap(pools: Pools, mem: Mem, info: map<BufId, Info>, n: nat, i: Info)
    requires HeapOk(pools, mem, info) && n in pools && Fits(pools[n], RoundUp(|i.bytes|)) && !i.installed
    ensures var b := BufId(n, pools[n].next);
            var pools' := pools[n := Pinned.Next(pools[n], Pinned.Take(|i.bytes|))];
            && b !in info && Keeps(pools, pools')
            && HeapOk(pools', mem, info[b := i])
            && Holds(pools', mem, b, i.bytes, 0)
  {
    hide Pinned.Safe, Pinned.Next, Fits, RoundUp, Holds;
    var b, q := BufId(n, pools[n].next), Pinned.Next(pools[n], Pinned.Take(|i.bytes|));
    var pools' := pools[n := q];
    TakeEffect(pools[n], |i.bytes|);
    assert !Live(pools, b);
    forall c | Live(pools', c)
      ensures c in info[b := i]
    {
      assert c == b || Live(pools, c);
    }
    assert Keeps(pools, pools');
    forall c | c in info[b := i] && info[b := i][c].installed
      ensures Holds(pools', mem, c, info[c].bytes, |info[c].bytes|)
    {
      HoldsStays(pools, pools', mem, c, info[c].bytes, |info[c].bytes|);
    }
    FreshHolds(pools', mem, b, i.bytes);
  }

  lemma FreshHolds(pools: Pools, mem: Mem, b: BufId, bytes: seq<Byte>)
    requires PoolsOk(pools, mem) && Live(pools, b) && Where(pools, b).len == RoundUp(|bytes|)
    ensures Holds(pools, mem, b, bytes, 0)
  {
    LiveInside(pools, mem, b);
  }

  /** What a put knows survives when buffers are only added. */
  lemma PutStays(p: Put, t: nat, pools: Pools, pools': Pools, mem: Mem, info: map<BufId, Info>, info': map<BufId, Info>)
    requires PutOk(p, t, pools, mem, info)
    requires Keeps(pools, pools') && pools.Keys <= pools'.Keys
    requires forall j | 0 <= j < |p.placed| :: p.placed[j].buf in info' && info'[p.placed[j].buf] == info[p.placed[j].buf]
    ensures PutOk(p, t, pools', mem, info')
  {
    hide Holds, Keeps;
    if p.stage.Copying? && p.slot < |p.data| {
      forall j | 0 <= j < p.stage.target
        ensures Holds(pools', mem, p.placed[j].buf, p.data[p.slot], |p.data[p.slot]|)
      {
        HoldsStays(pools, pools', mem, p.placed[j].buf, p.data[p.slot], |p.data[p.slot]|);
      }
      if p.stage.target < |p.placed| {
        HoldsStays(pools, pools', mem, p.placed[p.stage.target].buf, p.data[p.slot], p.stage.done);
      }
    }
  }

  lemma GotOk(p: Put, t: nat, b: BufId, pools: Pools, mem: Mem, info: map<BufId, Info>)
    requires PutOk(p, t, pools, mem, info) && Working(p) && Todo(p.stage) != []
    requires b in info && info[b] == Info(t, p.key, p.slot, p.data[p.slot], false)
    requires Holds(pools, mem, b, p.data[p.slot], 0)
    requires forall j | 0 <= j < |p.placed| :: p.placed[j].buf != b
    requires forall j | 0 <= j < |p.placed| :: Holds(pools, mem, p.placed[j].buf, p.data[p.slot], 0)
    ensures PutOk(Got(p, b), t, pools, mem, info)
  {
    hide Holds;
    var todo, q := Todo(p.stage), Got(p, b);
    assert forall j | 0 <= j < |p.placed| :: q.placed[j] == p.placed[j];
    if q.stage.Asking? {
      assert forall i | 0 <= i < |Todo(q.stage)| :: Todo(q.stage)[i] == todo[i + 1];
    } else {
      assert Holds(pools, mem, q.placed[0].buf, p.data[p.slot], 0);
    }
  }

  lemma AllBlank(p: Put, t: nat, pools: Pools, mem: Mem, info: map<BufId, Info>)
    requires PutOk(p, t, pools, mem, info) && HeapOk(pools, mem, info)
    ensures forall j | 0 <= j < |p.placed| :: p.slot < |p.data| && Holds(pools, mem, p.placed[j].buf, p.data[p.slot], 0)
  {
    forall j | 0 <= j < |p.placed|
      ensures p.slot < |p.data| && Holds(pools, mem, p.placed[j].buf, p.data[p.slot], 0)
    {
      BlankAt(p, t, pools, mem, info, j);
    }
  }

  lemma GetsStay(gets: map<nat, Get>, info: map<BufId, Info>, info': map<BufId, Info>)
    requires GetsOk(gets, info)
    requires forall b | b in info && info[b].installed :: b in info' && info'[b] == info[b]
    ensures GetsOk(gets, info')
  {
    forall g | g in gets
      ensures GetOk(gets[g], info')
    {
      assert GetOk(gets[g], info) && info'[gets[g].buf] == info[gets[g].buf];
    }
  }

  lemma ObjectsStay(objects: Objects, info: map<BufId, Info>, info': map<BufId, Info>)
    requires ObjectsOk(objects, info)
    requires forall b | b in info && info[b].installed :: b in info' && info'[b] == info[b]
    ensures ObjectsOk(objects, info')
  {
  }

  lemma PlacedIn(p: Put, t: nat, pools: Pools, mem: Mem, info: map<BufId, Info>)
    requires PutOk(p, t, pools, mem, info)
    ensures forall j | 0 <= j < |p.placed| :: p.placed[j].buf in info
  {
  }

  lemma TakeSafeStep(st: State, t: nat)
    requires Safe(st) && Enabled(st, TryAlloc(t))
    requires Fits(st.pools[Todo(st.puts[t].stage)[0].numa], Need(st.puts[t]))
    ensures Safe(Allocated(st, t))
  {
    hide HeapOk, ObjectsOk, GetsOk, PutOk, Holds, Fits, Keeps, Pinned.Next, Targets, Got;
    var p := st.puts[t];
    var n := Todo(p.stage)[0].numa;
    var b, i := BufId(n, st.pools[n].next), Info(t, p.key, p.slot, p.data[p.slot], false);
    var pools', info' := st.pools[n := Pinned.Next(st.pools[n], Pinned.Take(|p.data[p.slot]|))], st.info[b := i];
    AllocHeap(st.pools, st.mem, st.info, n, i);
    forall u | u in st.puts
      ensures u < st.next && PutOk(st.puts[u], u, pools', st.mem, info')
      ensures forall j | 0 <= j < |st.puts[u].placed| :: st.puts[u].placed[j].buf != b
    {
      PlacedIn(st.puts[u], u, st.pools, st.mem, st.info);
      PutStays(st.puts[u], u, st.pools, pools', st.mem, st.info, info');
    }
    AllBlank(p, t, pools', st.mem, info');
    GotOk(p, t, b, pools', st.mem, info');
    GetsStay(st.gets, st.info, info');
    ObjectsStay(st.objects, st.info, info');
    assert Allocated(st, t) == st.(pools := pools', info := info', puts := st.puts[t := Got(p, b)]);
  }

  lemma AllocSafe(st: State, t: nat)
    requires Safe(st) && Enabled(st, TryAlloc(t))
    ensures Safe(Allocated(st, t))
  {
    hide Safe, PutOk, Fits, Pinned.Next, Got, Missed;
    PutAt(st, t);
    var p := st.puts[t];
    var pool := st.pools[Todo(p.stage)[0].numa];
    if Fits(pool, Need(p)) {
      TakeSafeStep(st, t);
    } else {
      RestageOk(p, t, Scanning(Todo(p.stage)), st.pools, st.mem, st.info);
      MissedOk(p, t, st.pools, st.mem, st.info);
      PutStep(st, t, Answered(p, pool));
    }
  }

  // ---------------------------------------------------------------------
  // The unlocked copy into a buffer

  /** No byte of one live buffer lies in the range of another. */
  lemma RangesApart(pools: Pools, mem: Mem, b: BufId, c: BufId, k: nat)
    requires PoolsOk(pools, mem) && Live(pools, b) && Live(pools, c) && b != c && b.numa == c.numa
    requires k < Where(pools, c).len
    ensures !Where(pools, b).Has(Where(pools, c).off + k)
  {
    assert Pinned.Safe(pools[b.numa]);
    var live := pools[b.numa].live;
    assert b.id in live && c.id in live && Apart(live[b.id], live[c.id]);
  }

  /** Writing inside one buffer does not touch another. */
  lemma WriteElsewhere(pools: Pools, mem: Mem, b: BufId, at: nat, chunk: seq<Byte>, c: BufId, bytes: seq<Byte>, n: nat)
    requires PoolsOk(pools, mem) && Live(pools, b) && b.numa in mem && b != c
    requires at + |chunk| <= Where(pools, b).len && Where(pools, b).End() <= |mem[b.numa]|
    requires Holds(pools, mem, c, bytes, n)
    ensures Holds(pools, mem[b.numa := Write(mem[b.numa], Where(pools, b).off + at, chunk)], c, bytes, n)
  {
    hide PoolsOk;
    if c.numa == b.numa {
      var m := Write(mem[b.numa], Where(pools, b).off + at, chunk);
      forall k | 0 <= k < n
        ensures m[Where(pools, c).off + k] == bytes[k]
      {
        RangesApart(pools, mem, b, c, k);
      }
    }
  }

  /** Writing the next chunk of a buffer extends what it holds. */
  lemma WriteHere(pools: Pools, mem: Mem, b: BufId, bytes: seq<Byte>, done: nat, n: nat)
    requires Holds(pools, mem, b, bytes, done) && done + n <= |bytes|
    ensures Holds(pools, mem[b.numa := Write(mem[b.numa], Where(pools, b).off + done, bytes[done..done + n])],
                  b, bytes, done + n)
  {
  }

  lemma WriteHeap(pools: Pools, mem: Mem, info: map<BufId, Info>, b: BufId, at: nat, chunk: seq<Byte>)
    requires HeapOk(pools, mem, info) && b in info && !info[b].installed && Live(pools, b) && b.numa in mem
    requires at + |chunk| <= Where(pools, b).len && Where(pools, b).End() <= |mem[b.numa]|
    ensures HeapOk(pools, mem[b.numa := Write(mem[b.numa], Where(pools, b).off + at, chunk)], info)
  {
    hide Holds, Pinned.Safe;
    var mem' := mem[b.numa := Write(mem[b.numa], Where(pools, b).off + at, chunk)];
    forall c | c in info && info[c].installed
      ensures Holds(pools, mem', c, info[c].bytes, |info[c].bytes|)
    {
      WriteElsewhere(pools, mem, b, at, chunk, c, info[c].bytes, |info[c].bytes|);
    }
  }

  lemma WritePut(p: Put, t: nat, pools: Pools, mem: Mem, info: map<BufId, Info>, b: BufId, at: nat, chunk: seq<Byte>)
    requires HeapOk(pools, mem, info) && PutOk(p, t, pools, mem, info) && b in info && info[b].put != t
    requires Live(pools, b) && b.numa in mem
    requires at + |chunk| <= Where(pools, b).len && Where(pools, b).End() <= |mem[b.numa]|
    ensures PutOk(p, t, pools, mem[b.numa := Write(mem[b.numa], Where(pools, b).off + at, chunk)], info)
  {
    hide Holds, PoolsOk, InfoOk, SealedOk;
    var mem' := mem[b.numa := Write(mem[b.numa], Where(pools, b).off + at, chunk)];
    if p.stage.Copying? && p.slot < |p.data| {
      forall j | 0 <= j < p.stage.target
        ensures Holds(pools, mem', p.placed[j].buf, p.data[p.slot], |p.data[p.slot]|)
      {
        WriteElsewhere(pools, mem, b, at, chunk, p.placed[j].buf, p.data[p.slot], |p.data[p.slot]|);
      }
      if p.stage.target < |p.placed| {
        WriteElsewhere(pools, mem, b, at, chunk, p.placed[p.stage.target].buf, p.data[p.slot], p.stage.done);
      }
    }
  }

  /** The copying put itself: earlier targets keep their bytes, the current one gets `n` more. */
  lemma CopiedOk(p: Put, t: nat, pools: Pools, mem: Mem, info: map<BufId, Info>, n: nat)
    requires HeapOk(pools, mem, info) && PutOk(p, t, pools, mem, info)
    requires p.stage.Copying? && p.stage.target < |p.placed| && Working(p) && p.stage.done + n <= |p.data[p.slot]|
    requires Holds(pools, mem, p.placed[p.stage.target].buf, p.data[p.slot], p.stage.done)
    ensures var b, bytes := p.placed[p.stage.target].buf, p.data[p.slot];
            var mem' := mem[b.numa := Write(mem[b.numa], Where(pools, b).off + p.stage.done, bytes[p.stage.done..p.stage.done + n])];
            PutOk(Copied(p, n), t, pools, mem', info)
  {
    hide PoolsOk, InfoOk, SealedOk, Holds;
    var b, bytes, at := p.placed[p.stage.target].buf, p.data[p.slot], p.stage.done;
    HoldsInside(pools, mem, b, bytes, at);
    var chunk := bytes[at..at + n];
    var mem' := mem[b.numa := Write(mem[b.numa], Where(pools, b).off + at, chunk)];
    WriteHere(pools, mem, b, bytes, at, n);
    forall j | 0 <= j < p.stage.target
      ensures Holds(pools, mem', p.placed[j].buf, bytes, |bytes|)
    {
      WriteElsewhere(pools, mem, b, at, chunk, p.placed[j].buf, bytes, |bytes|);
    }
    WriteHeap(pools, mem, info, b, at, chunk);
    NextTarget(p, t, pools, mem', info, n);
  }

  lemma HoldsInside(pools: Pools, mem: Mem, b: BufId, bytes: seq<Byte>, n: nat)
    requires Holds(pools, mem, b, bytes, n)
    ensures Live(pools, b) && b.numa in mem && |bytes| <= Where(pools, b).len
    ensures Where(pools, b).End() <= |mem[b.numa]|
  {
  }

  lemma NextTarget(p: Put, t: nat, pools: Pools, mem: Mem, info: map<BufId, Info>, n: nat)
    requires PutShape(p, pools) && PlacedOk(p, t, info)
    requires p.stage.Copying? && p.stage.target < |p.placed| && Working(p) && p.stage.done + n <= |p.data[p.slot]|
    requires HeapOk(pools, mem, info)
    requires forall j | 0 <= j < p.stage.target :: Holds(pools, mem, p.placed[j].buf, p.data[p.slot], |p.data[p.slot]|)
    requires Holds(pools, mem, p.placed[p.stage.target].buf, p.data[p.slot], p.stage.done + n)
    ensures PutOk(Copied(p, n), t, pools, mem, info)
  {
    hide Holds, PoolsOk, InfoOk, SealedOk;
    var q := Copied(p, n);
    if q.stage.target < |q.placed| && q.stage.target > p.stage.target {
      BlankAt(p, t, pools, mem, info, q.stage.target);
    }
  }

  lemma BlankAt(p: Put, t: nat, pools: Pools, mem: Mem, info: map<BufId, Info>, j: nat)
    requires HeapOk(pools, mem, info) && PlacedOk(p, t, info) && j < |p.placed|
    ensures p.slot < |p.data| && Holds(pools, mem, p.placed[j].buf, p.data[p.slot], 0)
  {
    var b := p.placed[j].buf;
    assert b in info && info[b].bytes == p.data[p.slot];
    LiveInside(pools, mem, b);
  }

  lemma CopySafe(st: State, t: nat, n: nat)
    requires Safe(st) && Enabled(st, Copy(t, n))
    ensures Safe(Wrote(st, t, n))
  {
    hide HeapOk, ObjectsOk, GetsOk, PutOk, Holds, Copied, Shaped, OrderOk, Where;
    PutAt(st, t);
    var p := st.puts[t];
    var b, bytes, at := p.placed[p.stage.target].buf, p.data[p.slot], p.stage.done;
    var chunk := bytes[at..at + n];
    CopyTarget(p, t, st.pools, st.mem, st.info);
    HoldsInside(st.pools, st.mem, b, bytes, at);
    var mem' := st.mem[b.numa := Write(st.mem[b.numa], Where(st.pools, b).off + at, chunk)];
    WriteHeap(st.pools, st.mem, st.info, b, at, chunk);
    CopiedOk(p, t, st.pools, st.mem, st.info, n);
    forall u | u in st.puts && u != t
      ensures PutOk(st.puts[u], u, st.pools, mem', st.info)
    {
      WritePut(st.puts[u], u, st.pools, st.mem, st.info, b, at, chunk);
    }
    assert Wrote(st, t, n) == st.(mem := mem', puts := st.puts[t := Copied(p, n)]);
  }

  lemma CopyTarget(p: Put, t: nat, pools: Pools, mem: Mem, info: map<BufId, Info>)
    requires PutOk(p, t, pools, mem, info) && p.stage.Copying? && p.stage.target < |p.placed|
    ensures var b := p.placed[p.stage.target].buf;
            && Working(p) && b in info && info[b] == Info(t, p.key, p.slot, p.data[p.slot], false)
            && Holds(pools, mem, b, p.data[p.slot], p.stage.done)
  {
    hide Holds;
  }

  // ---------------------------------------------------------------------
  // Installing

  lemma SealedAt(info: map<BufId, Info>, placed: seq<Placed>, b: BufId)
    requires b in info
    ensures var out := Sealed(info, placed);
            && out.Keys == info.Keys
            && out[b] == info[b].(installed := out[b].installed)
            && ((exists j | 0 <= j < |placed| :: placed[j].buf == b) ==> out[b].installed)
            && ((forall j | 0 <= j < |placed| :: placed[j].buf != b) ==> out[b] == info[b])
  {
  }

  lemma SealHeap(pools: Pools, mem: Mem, info: map<BufId, Info>, p: Put, t: nat)
    requires HeapOk(pools, mem, info) && PutOk(p, t, pools, mem, info)
    requires p.stage.Copying? && p.stage.target == |p.placed|
    ensures HeapOk(pools, mem, Sealed(info, p.placed))
  {
    hide Holds, PoolsOk, Sealed;
    var out := Sealed(info, p.placed);
    forall b | b in info
      ensures b in out && out[b].bytes == info[b].bytes
      ensures out[b].installed ==> Holds(pools, mem, b, info[b].bytes, |info[b].bytes|)
    {
      SealedAt(info, p.placed, b);
    }
    SealedKeys(info, p.placed);
  }

  lemma SealedKeys(info: map<BufId, Info>, placed: seq<Placed>)
    ensures Sealed(info, placed).Keys == info.Keys
  {
  }

  /** A buffer that another put holds is not among the ones being installed. */
  lemma SealPut(p: Put, t: nat, q: Put, u: nat, pools: Pools, mem: Mem, info: map<BufId, Info>)
    requires PutOk(p, t, pools, mem, info) && PutOk(q, u, pools, mem, info) && t != u
    ensures PutOk(q, u, pools, mem, Sealed(info, p.placed))
  {
    hide Holds, Sealed;
    forall j | 0 <= j < |q.placed|
      ensures q.placed[j].buf in Sealed(info, p.placed)
      ensures Sealed(info, p.placed)[q.placed[j].buf] == info[q.placed[j].buf]
    {
      SealedAt(info, p.placed, q.placed[j].buf);
    }
  }

  lemma SealObjects(objects: Objects, info: map<BufId, Info>, p: Put, t: nat, pools: Pools, mem: Mem)
    requires ObjectsOk(objects, info) && PutOk(p, t, pools, mem, info)
    requires p.key in objects && p.slot < |objects[p.key].slots|
    ensures ObjectsOk(LocalData.Install(objects, p.key, p.slot, FreshReplicas(p.placed)), Sealed(info, p.placed))
  {
    hide Holds, Sealed, LocalData.Install;
    var now, out := LocalData.Install(objects, p.key, p.slot, FreshReplicas(p.placed)), Sealed(info, p.placed);
    InstallRefs(objects, p.key, p.slot, FreshReplicas(p.placed));
    forall k, i, b | ShownAt(now, k, i, b)
      ensures b in out && out[b].installed && out[b].key == k && out[b].slot == i
    {
      if ShownAt(objects, k, i, b) {
        SealedAt(info, p.placed, b);
      } else {
        var q :| 0 <= q < |p.placed| && FreshReplicas(p.placed)[q].data == Data.Pinned(b);
        assert p.placed[q].buf == b;
        SealedAt(info, p.placed, b);
      }
    }
  }

  lemma SealGets(gets: map<nat, Get>, info: map<BufId, Info>, placed: seq<Placed>)
    requires GetsOk(gets, info)
    ensures GetsOk(gets, Sealed(info, placed))
  {
    hide Sealed;
    forall g | g in gets
      ensures GetOk(gets[g], Sealed(info, placed))
    {
      assert GetOk(gets[g], info);
      SealedAt(info, placed, gets[g].buf);
    }
  }

  lemma {:induction false} QueueKeys(fifo: map<nat, seq<Entry>>, placed: seq<Placed>, e: Entry)
    requires forall j | 0 <= j < |placed| :: placed[j].buf.numa in fifo
    ensures Queue(fifo, placed, e).Keys == fifo.Keys
    decreases |placed|
  {
    if placed != [] {
      var n := placed[0].buf.numa;
      var now := fifo[n := fifo[n] + [e]];
      assert placed[0].buf.numa in fifo && now.Keys == fifo.Keys;
      forall j | 0 <= j < |placed[1..]|
        ensures placed[1..][j].buf.numa in now
      {
        assert placed[1..][j] == placed[j + 1];
      }
      QueueKeys(now, placed[1..], e);
    }
  }

  lemma PlacedPools(p: Put, t: nat, pools: Pools, mem: Mem, info: map<BufId, Info>)
    requires HeapOk(pools, mem, info) && PutOk(p, t, pools, mem, info)
    ensures forall j | 0 <= j < |p.placed| :: p.placed[j].buf.numa in pools
  {
    forall j | 0 <= j < |p.placed|
      ensures p.placed[j].buf.numa in pools
    {
      assert p.placed[j].buf in info && Live(pools, p.placed[j].buf);
    }
  }

  lemma InstallShaped(objects: Objects, key: Key, i: nat, added: seq<Replica>)
    requires Shaped(objects) && key in objects && i < |objects[key].slots|
    ensures Shaped(LocalData.Install(objects, key, i, added))
  {
  }

  lemma InstallSafe(st: State, t: nat)
    requires Safe(st) && Enabled(st, Step.Install(t))
    ensures Safe(Installed(st, t))
  {
    hide HeapOk, ObjectsOk, GetsOk, PutOk, Holds, Shaped, Sealed, Queue, LocalData.Install, GiveUp, Advance;
    PutAt(st, t);
    var p := st.puts[t];
    if p.key !in st.objects {
      GiveUpOk(p, t, st.pools, st.mem, st.info);
    } else {
      var info' := Sealed(st.info, p.placed);
      SealHeap(st.pools, st.mem, st.info, p, t);
      SealObjects(st.objects, st.info, p, t, st.pools, st.mem);
      SealGets(st.gets, st.info, p.placed);
      InstallShaped(st.objects, p.key, p.slot, FreshReplicas(p.placed));
      PlacedPools(p, t, st.pools, st.mem, st.info);
      QueueKeys(st.fifo, p.placed, Request(st, t));
      forall u | u in st.puts && u != t
        ensures PutOk(st.puts[u], u, st.pools, st.mem, info')
      {
        SealPut(p, t, st.puts[u], u, st.pools, st.mem, st.info);
      }
      AdvanceAny(p, t, st.pools, st.mem, st.info, info');
    }
  }

  lemma AdvanceAny(p: Put, t: nat, pools: Pools, mem: Mem, info: map<BufId, Info>, info': map<BufId, Info>)
    requires PutOk(p, t, pools, mem, info) && p.slot < |p.data|
    ensures PutOk(Advance(p), t, pools, mem, info')
  {
  }

  // ---------------------------------------------------------------------
  // Gets

  lemma OpenSafe(st: State, key: Key, i: nat, j: nat, offset: nat, len: nat)
    requires Safe(st) && Enabled(st, Open(key, i, j, offset, len))
    ensures Safe(Opened(st, key, i, j, offset, len))
  {
    hide HeapOk, PutOk, Shaped, OrderOk;
    var b := st.objects[key].slots[i].replicas[j].data.buf;
    assert ShownAt(st.objects, key, i, b);
  }

  /** What an installed buffer's memory reads as. */
  lemma ReadBack(pools: Pools, mem: Mem, info: map<BufId, Info>, b: BufId, at: nat, n: nat)
    requires HeapOk(pools, mem, info) && b in info && info[b].installed && at + n <= |info[b].bytes|
    ensures Live(pools, b) && b.numa in mem && Where(pools, b).off + at + n <= |mem[b.numa]|
    ensures var a := Where(pools, b).off + at; mem[b.numa][a..a + n] == info[b].bytes[at..at + n]
  {
    hide Pinned.Safe;
    assert Holds(pools, mem, b, info[b].bytes, |info[b].bytes|);
    var a := Where(pools, b).off + at;
    var x, y := mem[b.numa][a..a + n], info[b].bytes[at..at + n];
    forall k | 0 <= k < n
      ensures x[k] == y[k]
    {
      assert info[b].bytes[at + k] == mem[b.numa][Where(pools, b).off + (at + k)];
    }
  }

  lemma ReadSafe(st: State, g: nat, n: nat)
    requires Safe(st) && Enabled(st, Read(g, n))
    ensures Safe(ReadOn(st, g, n))
  {
    hide HeapOk, PutsOk, Shaped, OrderOk, ObjectsOk, Where;
    var r := st.gets[g];
    assert GetOk(r, st.info);
    ReadBack(st.pools, st.mem, st.info, r.buf, r.offset + |r.out|, n);
    assert GetOk(ReadOn(st, g, n).gets[g], st.info);
  }

  lemma CloseSafe(st: State, g: nat)
    requires Safe(st)
    ensures Safe(st.(gets := st.gets - {g}))
  {
    hide HeapOk, PutsOk, Shaped, OrderOk, ObjectsOk, GetOk;
  }

  // ---------------------------------------------------------------------
  // The last reference goes

  lemma DropEffect(pool: Pinned.PoolState, b: nat)
    requires Pinned.Safe(pool) && b in pool.live
    ensures var q := Pinned.Next(pool, Pinned.Drop(b));
            Pinned.Safe(q) && q.capacity == pool.capacity && q.live == pool.live - {b}
  {
    hide Laid, Full, GiveBack;
    Pinned.StepSafe(pool, Pinned.Drop(b));
  }

  ghost predicate KeepsBut(p: Pools, q: Pools, b: BufId) {
    forall c | Live(p, c) && c != b :: Live(q, c) && Where(q, c) == Where(p, c)
  }

  lemma HoldsBut(p: Pools, q: Pools, mem: Mem, b: BufId, c: BufId, bytes: seq<Byte>, n: nat)
    requires KeepsBut(p, q, b) && b != c && Holds(p, mem, c, bytes, n)
    ensures Holds(q, mem, c, bytes, n)
  {
  }

  lemma ReleaseHeap(pools: Pools, mem: Mem, info: map<BufId, Info>, b: BufId)
    requires HeapOk(pools, mem, info) && Live(pools, b)
    ensures var pools' := pools[b.numa := Pinned.Next(pools[b.numa], Pinned.Drop(b.id))];
            KeepsBut(pools, pools', b) && HeapOk(pools', mem, info - {b})
  {
    hide Pinned.Safe, Pinned.Next, Holds;
    var pools' := pools[b.numa := Pinned.Next(pools[b.numa], Pinned.Drop(b.id))];
    DropEffect(pools[b.numa], b.id);
    assert !Live(pools', b);
    assert KeepsBut(pools, pools', b);
    forall c | Live(pools', c)
      ensures c in info - {b}
    {
      assert Live(pools, c);
    }
    forall c | c in info - {b} && info[c].installed
      ensures Holds(pools', mem, c, info[c].bytes, |info[c].bytes|)
    {
      HoldsBut(pools, pools', mem, b, c, info[c].bytes, |info[c].bytes|);
    }
  }

  lemma ReleasePut(p: Put, t: nat, pools: Pools, pools': Pools, mem: Mem, info: map<BufId, Info>, b: BufId)
    requires PutOk(p, t, pools, mem, info) && KeepsBut(pools, pools', b) && pools.Keys <= pools'.Keys
    requires forall j | 0 <= j < |p.placed| :: p.placed[j].buf != b
    ensures PutOk(p, t, pools', mem, info - {b})
  {
    hide Holds, KeepsBut;
    if p.stage.Copying? && p.slot < |p.data| {
      forall j | 0 <= j < p.stage.target
        ensures Holds(pools', mem, p.placed[j].buf, p.data[p.slot], |p.data[p.slot]|)
      {
        HoldsBut(pools, pools', mem, b, p.placed[j].buf, p.data[p.slot], |p.data[p.slot]|);
      }
      if p.stage.target < |p.placed| {
        HoldsBut(pools, pools', mem, b, p.placed[p.stage.target].buf, p.data[p.slot], p.stage.done);
      }
    }
  }

  lemma ReleaseSafe(st: State, b: BufId)
    requires Safe(st) && Enabled(st, Release(b))
    ensures Safe(Released(st, b))
  {
    hide HeapOk, PutOk, Shaped, KeepsBut, Pinned.Next;
    var pools' := st.pools[b.numa := Pinned.Next(st.pools[b.numa], Pinned.Drop(b.id))];
    ReleaseHeap(st.pools, st.mem, st.info, b);
    forall t | t in st.puts
      ensures PutOk(st.puts[t], t, pools', st.mem, st.info - {b})
    {
      forall j | 0 <= j < |st.puts[t].placed|
        ensures st.puts[t].placed[j].buf != b
      {
        assert !HeldByPut(st.puts, b);
      }
      ReleasePut(st.puts[t], t, st.pools, pools', st.mem, st.info, b);
    }
    ReleaseRefs(st, b);
  }

  lemma ReleaseRefs(st: State, b: BufId)
    requires ObjectsOk(st.objects, st.info) && GetsOk(st.gets, st.info) && !Referenced(st, b)
    ensures ObjectsOk(st.objects, st.info - {b}) && GetsOk(st.gets, st.info - {b})
  {
    assert !Shown(st.objects, b);
    forall g | g in st.gets
      ensures GetOk(st.gets[g], st.info - {b})
    {
      assert !HeldByGet(st.gets, b);
      assert GetOk(st.gets[g], st.info);
    }
  }
}
