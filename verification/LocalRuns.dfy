/** Every schedule of the single-node backend: memory safety and the bytes a get copies. */
module LocalRuns {
  import opened Types
  import opened LocalData
  import opened LocalMachine
  import opened LocalSafety
  import opened PinnedPool
  import Pinned = PinnedRuns

  // ---------------------------------------------------------------------
  // The invariant over runs

  lemma MetadataStepSafe(st: State, s: Step)
    requires Safe(st) && Enabled(st, s) && (s.Publish? || s.Retire? || s.Remove?)
    ensures Safe(Next(st, s))
  {
    hide Safe, NoNewRefs, Shaped, LocalData.Publish, LocalData.Retire;
    ShapedAt(st);
    match s
    case Publish(key, i, device, region) =>
      PublishRefs(st.objects, key, i, device, region);
      PublishShaped(st.objects, key, i, device, region);
      MetaOnly(st, LocalData.Publish(st.objects, key, i, device, region));
    case Retire(region) =>
      RetireRefs(st.objects, region);
      RetireShaped(st.objects, region);
      MetaOnly(st, LocalData.Retire(st.objects, region));
    case Remove(keys) =>
      RemoveRefs(st.objects, keys);
      RemoveShaped(st.objects, keys);
      MetaOnly(st, st.objects - keys);
  }

  lemma PutStepSafe(st: State, s: Step)
    requires Safe(st) && Enabled(st, s) && (s.Skip? || s.Begin? || s.CopyFails? || s.Return?)
    ensures Safe(Next(st, s))
  {
    hide Safe, PutOk, Started, GiveUp, Advance;
    PutAt(st, s.put);
    var p := st.puts[s.put];
    match s
    case Skip(t) =>
      AdvanceOk(p, t, st.pools, st.mem, st.info);
      PutStep(st, t, Advance(p));
    case Begin(t) =>
      StartedOk(st, t);
      PutStep(st, t, Started(st, p));
    case CopyFails(t) =>
      GiveUpOk(p, t, st.pools, st.mem, st.info);
      PutStep(st, t, GiveUp(p));
    case Return(t) => ReturnSafe(st, t);
  }

  lemma StepSafe(st: State, s: Step)
    requires Safe(st)
    ensures Safe(Apply(st, s))
  {
    hide Safe, ClaimDone, Allocated, ScanDone, Wrote, Installed, Opened, ReadOn, Released;
    if Enabled(st, s) {
      match s
      case Claim(key, spec, data) => ClaimSafe(st, key, spec, data);
      case TryAlloc(t) => AllocSafe(st, t);
      case Scan(t) => ScanSafe(st, t);
      case Copy(t, n) => CopySafe(st, t, n);
      case Install(t) => InstallSafe(st, t);
      case Abandon(t) => AbandonSafe(st, t);
      case Open(key, i, j, offset, len) => OpenSafe(st, key, i, j, offset, len);
      case Read(g, n) => ReadSafe(st, g, n);
      case Close(g) => CloseSafe(st, g);
      case Release(b) => ReleaseSafe(st, b);
      case Skip(_) => PutStepSafe(st, s);
      case Begin(_) => PutStepSafe(st, s);
      case CopyFails(_) => PutStepSafe(st, s);
      case Return(_) => PutStepSafe(st, s);
      case Publish(_, _, _, _) => MetadataStepSafe(st, s);
      case Retire(_) => MetadataStepSafe(st, s);
      case Remove(_) => MetadataStepSafe(st, s);
    }
  }

  lemma InitialSafe(st: State)
    requires Initial(st)
    ensures Safe(st)
  {
    hide Pinned.Safe, RoundUp;
    forall n | n in st.pools
      ensures Pinned.Safe(st.pools[n]) && st.pools[n].live == map[]
    {
      var bytes :| st.pools[n] == Pinned.Start(bytes);
      Pinned.RunSafe(bytes, []);
    }
  }

  /** In every interleaving the invariant holds. */
  lemma {:induction false} RunSafe(st: State, steps: seq<Step>)
    requires Initial(st)
    ensures Safe(Exec(st, steps))
  {
    hide Safe, Initial, Apply;
    if steps == [] {
      InitialSafe(st);
    } else {
      RunSafe(st, steps[..|steps| - 1]);
      StepSafe(Exec(st, steps[..|steps| - 1]), steps[|steps| - 1]);
    }
  }

  // ---------------------------------------------------------------------
  // A referenced range is never handed out again

  lemma ReferencedLive(st: State, b: BufId)
    requires Safe(st) && Referenced(st, b)
    ensures b in st.info && Live(st.pools, b)
  {
    hide Pinned.Safe, Holds;
    if Shown(st.objects, b) {
      var k, i :| ShownAt(st.objects, k, i, b);
    } else if HeldByPut(st.puts, b) {
      var t, j :| t in st.puts && 0 <= j < |st.puts[t].placed| && st.puts[t].placed[j].buf == b;
      PutAt(st, t);
    } else {
      var g :| g in st.gets && st.gets[g].buf == b;
      assert GetOk(st.gets[g], st.info);
    }
  }

  ghost predicate Stays(p: Pools, q: Pools, b: BufId) {
    Live(p, b) && Live(q, b) && Where(q, b) == Where(p, b)
  }

  lemma TakeKeeps(pools: Pools, mem: Mem, n: nat, bytes: nat, b: BufId)
    requires PoolsOk(pools, mem) && n in pools && Fits(pools[n], RoundUp(bytes)) && Live(pools, b)
    ensures Stays(pools, pools[n := Pinned.Next(pools[n], Pinned.Take(bytes))], b)
  {
    hide Pinned.Next, Fits, Pinned.Safe;
    TakeEffect(pools[n], bytes);
  }

  lemma DropKeeps(pools: Pools, mem: Mem, c: BufId, b: BufId)
    requires PoolsOk(pools, mem) && Live(pools, c) && Live(pools, b) && b != c
    ensures Stays(pools, pools[c.numa := Pinned.Next(pools[c.numa], Pinned.Drop(c.id))], b)
  {
    hide Pinned.Next, Pinned.Safe;
    DropEffect(pools[c.numa], c.id);
  }

  lemma SamePools(st: State, s: Step)
    requires Enabled(st, s) && !s.TryAlloc? && !s.Release?
    ensures Next(st, s).pools == st.pools
  {
    hide Enabled, LocalData.Claim, Writable, Started, LocalData.Scan, Queue, Sealed, LocalData.Install, Unclaim, Write;
  }

  lemma SafePools(st: State)
    requires Safe(st)
    ensures PoolsOk(st.pools, st.mem)
  {
    hide ObjectsOk, PutsOk, GetsOk, Shaped, OrderOk, InfoOk, SealedOk, PoolsOk;
  }

  /** While anything refers to a buffer no step moves or frees its range. */
  lemma ReferencedStays(st: State, s: Step, b: BufId)
    requires Safe(st) && Referenced(st, b)
    ensures Stays(st.pools, Apply(st, s).pools, b)
  {
    hide Safe, Referenced, Pinned.Next, Next, Fits, PoolsOk;
    ReferencedLive(st, b);
    SafePools(st);
    if Enabled(st, s) {
      if s.TryAlloc? {
        AllocatedKeeps(st, s.put, b);
      } else if s.Release? {
        DropKeeps(st.pools, st.mem, s.buf, b);
        NextRelease(st, s.buf);
      } else {
        SamePools(st, s);
      }
    }
  }

  lemma NextRelease(st: State, c: BufId)
    requires Enabled(st, Release(c))
    ensures Next(st, Release(c)) == Released(st, c) && !Referenced(st, c) && Live(st.pools, c)
  {
    hide Referenced;
  }

  lemma AllocatedKeeps(st: State, t: nat, b: BufId)
    requires Enabled(st, TryAlloc(t)) && PoolsOk(st.pools, st.mem) && Live(st.pools, b)
    ensures Stays(st.pools, Next(st, TryAlloc(t)).pools, b)
  {
    hide Pinned.Next, Fits, PoolsOk, Answered;
    var p := st.puts[t];
    var n := Todo(p.stage)[0].numa;
    if Fits(st.pools[n], Need(p)) {
      TakeKeeps(st.pools, st.mem, n, |p.data[p.slot]|, b);
    }
  }

  ghost predicate SharesNothing(pools: Pools, b: BufId, c: BufId) {
    b != c && Live(pools, b) && Live(pools, c) && (b.numa == c.numa ==> Apart(Where(pools, b), Where(pools, c)))
  }

  /** A buffer that a step brings to life is distinct from every referenced one and shares no byte with it. */
  lemma NeverHandedOutAgain(st: State, s: Step, b: BufId, c: BufId)
    requires Safe(st) && Referenced(st, b) && !Live(st.pools, c) && Live(Apply(st, s).pools, c)
    ensures SharesNothing(Apply(st, s).pools, b, c)
  {
    hide Safe, Apply, Referenced;
    ReferencedStays(st, s, b);
    StepSafe(st, s);
    if c.numa == b.numa { LiveApart(Apply(st, s), b, c); }
  }

  lemma LiveApart(st: State, b: BufId, c: BufId)
    requires Safe(st) && Live(st.pools, b) && Live(st.pools, c) && b != c && b.numa == c.numa
    ensures Apart(Where(st.pools, b), Where(st.pools, c))
  {
    assert Pinned.Safe(st.pools[b.numa]);
  }

  /** An unlocked copy is never stuck: what it addresses is live and inside its pool's memory. */
  lemma CopiesStayInside(st: State, t: nat, n: nat)
    requires Safe(st) && t in st.puts && st.puts[t].stage.Copying? && st.puts[t].stage.target < |st.puts[t].placed|
    requires st.puts[t].slot < |st.puts[t].data| && st.puts[t].stage.done + n <= |st.puts[t].data[st.puts[t].slot]|
    ensures Enabled(st, Copy(t, n))
  {
    hide Safe, PutOk, Holds;
    PutAt(st, t);
    var p := st.puts[t];
    CopyTarget(p, t, st.pools, st.mem, st.info);
    HoldsInside(st.pools, st.mem, p.placed[p.stage.target].buf, p.data[p.slot], p.stage.done);
  }

  lemma ReadsStayInside(st: State, g: nat, n: nat)
    requires Safe(st) && g in st.gets && st.gets[g].buf in st.info && |st.gets[g].out| + n <= st.gets[g].len
    requires st.gets[g].offset + |st.gets[g].out| + n <= |st.info[st.gets[g].buf].bytes|
    ensures Enabled(st, Read(g, n))
  {
    hide Pinned.Safe, Holds, PutOk, ObjectsOk;
    var b := st.gets[g].buf;
    assert GetOk(st.gets[g], st.info);
    HoldsInside(st.pools, st.mem, b, st.info[b].bytes, |st.info[b].bytes|);
  }

  // ---------------------------------------------------------------------
  // Where the bytes come from

  /** Put number `t` of the run supplied `bytes` for that slot of that key. */
  ghost predicate Supplied(first: State, steps: seq<Step>, t: nat, key: Key, slot: nat, bytes: seq<Byte>) {
    exists i | 0 <= i < |steps| :: Supplies(Exec(first, steps[..i]), steps[i], t, key, slot, bytes)
  }

  /** The claim that becomes put number `t`. */
  ghost predicate Supplies(st: State, s: Step, t: nat, key: Key, slot: nat, bytes: seq<Byte>) {
    s.Claim? && Enabled(st, s) && st.next == t && s.key == key && slot < |s.data| && s.data[slot] == bytes
  }

  lemma SuppliedLater(first: State, steps: seq<Step>, s: Step, t: nat, key: Key, slot: nat, bytes: seq<Byte>)
    ensures Supplied(first, steps, t, key, slot, bytes) ==> Supplied(first, steps + [s], t, key, slot, bytes)
    ensures Supplies(Exec(first, steps), s, t, key, slot, bytes) ==> Supplied(first, steps + [s], t, key, slot, bytes)
  {
    hide Exec, Supplies;
    var all := steps + [s];
    if Supplied(first, steps, t, key, slot, bytes) {
      var i :| 0 <= i < |steps| && Supplies(Exec(first, steps[..i]), steps[i], t, key, slot, bytes);
      assert all[i] == steps[i] && all[..i] == steps[..i];
    }
    assert all[|steps|] == s && all[..|steps|] == steps;
  }

  ghost predicate PutTraced(first: State, steps: seq<Step>, t: nat, p: Put) {
    forall i | 0 <= i < |p.data| :: Supplied(first, steps, t, p.key, i, p.data[i])
  }

  ghost predicate InfoTraced(first: State, steps: seq<Step>, i: Info) {
    Supplied(first, steps, i.put, i.key, i.slot, i.bytes)
  }

  ghost predicate Traced(first: State, steps: seq<Step>, st: State) {
    && (forall b | b in st.info :: InfoTraced(first, steps, st.info[b]))
    && (forall t | t in st.puts :: PutTraced(first, steps, t, st.puts[t]))
  }

  /** A step keeps each put's request and each buffer's bytes; only a claim brings in new ones. */
  ghost predicate SameRequest(p: Put, q: Put) { p.key == q.key && p.data == q.data }

  ghost predicate OnePut(was: map<nat, Put>, now: map<nat, Put>, t: nat) {
    t in was && t in now && now == was[t := now[t]] && SameRequest(was[t], now[t])
  }

  lemma AllocPuts(st: State, t: nat)
    requires Enabled(st, TryAlloc(t))
    ensures OnePut(st.puts, Allocated(st, t).puts, t)
  {
    hide Fits, Pinned.Next, Answered;
    AnsweredKeeps(st.puts[t], st.pools[Todo(st.puts[t].stage)[0].numa]);
  }

  lemma AnsweredKeeps(p: Put, pool: Pinned.PoolState)
    requires Working(p) && Todo(p.stage) != []
    ensures SameRequest(p, Answered(p, pool))
  {
    hide Fits;
  }

  lemma AllocInfo(st: State, t: nat, b: BufId)
    requires Enabled(st, TryAlloc(t)) && b in Allocated(st, t).info
    ensures var i, p := Allocated(st, t).info[b], st.puts[t];
            (b in st.info && i == st.info[b]) || i == Info(t, p.key, p.slot, p.data[p.slot], false)
  {
    hide Fits, Pinned.Next, Answered;
  }

  lemma OtherPuts(st: State, s: Step)
    requires Enabled(st, s) && (s.Skip? || s.Begin? || s.Scan? || s.Copy? || s.CopyFails? || s.Install? || s.Abandon?)
    ensures OnePut(st.puts, Next(st, s).puts, s.put)
  {
    hide Targets, LocalData.Scan, Queue, Sealed, LocalData.Install, Unclaim, Write;
  }

  /** Steps that are not a put's own leave every put alone; a claim adds one that has not begun. */
  lemma PutsAlone(st: State, s: Step)
    requires Enabled(st, s)
    requires s.Claim? || s.Return? || s.Open? || s.Read? || s.Close? || s.Publish? || s.Retire? || s.Remove? || s.Release?
    ensures forall t | t in Next(st, s).puts ::
              (t in st.puts && Next(st, s).puts[t] == st.puts[t])
              || (Next(st, s).puts[t].stage.Idle? && Next(st, s).puts[t].placed == [])
  {
    hide Enabled, LocalData.Claim, Writable, LocalData.Publish, LocalData.Retire, Where, Pinned.Next;
  }

  lemma PutKept(st: State, s: Step, t: nat)
    requires Enabled(st, s) && t in Next(st, s).puts
    ensures || (t in st.puts && SameRequest(st.puts[t], Next(st, s).puts[t]))
            || (s.Claim? && t == st.next && Next(st, s).puts[t].key == s.key && Next(st, s).puts[t].data == s.data)
  {
    hide LocalData.Claim, Allocated, Started, ScanDone, Wrote, Installed, Sealed, LocalData.Install, Unclaim, GiveUp, Advance;
    if s.TryAlloc? {
      AllocPuts(st, s.put);
    } else if s.Skip? || s.Begin? || s.Scan? || s.Copy? || s.CopyFails? || s.Install? || s.Abandon? {
      OtherPuts(st, s);
    }
  }

  ghost predicate SameInfo(i: Info, j: Info) { i.(installed := j.installed) == j }

  lemma InstallInfo(st: State, t: nat, b: BufId)
    requires Enabled(st, Step.Install(t)) && b in Installed(st, t).info
    ensures b in st.info && SameInfo(st.info[b], Installed(st, t).info[b])
  {
    hide Queue, LocalData.Install, GiveUp, Advance;
  }

  lemma InfoKept(st: State, s: Step, b: BufId)
    requires Enabled(st, s) && b in Next(st, s).info
    ensures var i := Next(st, s).info[b];
            || (b in st.info && SameInfo(st.info[b], i))
            || (s.TryAlloc? && s.put in st.puts && i.put == s.put && st.puts[s.put].key == i.key
                && i.slot < |st.puts[s.put].data| && st.puts[s.put].data[i.slot] == i.bytes)
  {
    hide LocalData.Claim, Writable, Started, LocalData.Scan, Allocated, Installed, Unclaim, Write;
    if s.TryAlloc? {
      AllocInfo(st, s.put, b);
    } else if s.Install? {
      InstallInfo(st, s.put, b);
    }
  }

  lemma StepTraced(first: State, steps: seq<Step>, s: Step)
    requires Traced(first, steps, Exec(first, steps))
    ensures Traced(first, steps + [s], Apply(Exec(first, steps), s))
  {
    hide Next, Enabled, Exec, Supplied, Supplies, PutTraced;
    var st := Exec(first, steps);
    var now, all := Apply(st, s), steps + [s];
    forall b | b in now.info
      ensures InfoTraced(first, all, now.info[b])
    {
      InfoStepTraced(first, steps, s, b);
    }
    forall t | t in now.puts
      ensures PutTraced(first, all, t, now.puts[t])
    {
      PutStepTraced(first, steps, s, t);
    }
  }

  lemma InfoStepTraced(first: State, steps: seq<Step>, s: Step, b: BufId)
    requires Traced(first, steps, Exec(first, steps)) && b in Apply(Exec(first, steps), s).info
    ensures InfoTraced(first, steps + [s], Apply(Exec(first, steps), s).info[b])
  {
    hide Next, Enabled, Exec, Supplied, Supplies;
    var st := Exec(first, steps);
    var i := Apply(st, s).info[b];
    SuppliedLater(first, steps, s, i.put, i.key, i.slot, i.bytes);
    if Enabled(st, s) { InfoKept(st, s, b); }
    if b in st.info && SameInfo(st.info[b], i) {
      assert InfoTraced(first, steps, st.info[b]);
    } else {
      assert PutTraced(first, steps, s.put, st.puts[s.put]);
    }
  }

  lemma PutStepTraced(first: State, steps: seq<Step>, s: Step, t: nat)
    requires Traced(first, steps, Exec(first, steps)) && t in Apply(Exec(first, steps), s).puts
    ensures PutTraced(first, steps + [s], t, Apply(Exec(first, steps), s).puts[t])
  {
    hide Next, Enabled, Exec, Supplied;
    var st := Exec(first, steps);
    var q := Apply(st, s).puts[t];
    if Enabled(st, s) { PutKept(st, s, t); }
    forall i | 0 <= i < |q.data|
      ensures Supplied(first, steps + [s], t, q.key, i, q.data[i])
    {
      SuppliedLater(first, steps, s, t, q.key, i, q.data[i]);
      if t in st.puts && SameRequest(st.puts[t], q) {
        assert PutTraced(first, steps, t, st.puts[t]);
      }
    }
  }

  lemma {:induction false} RunTraced(st: State, steps: seq<Step>)
    requires Initial(st)
    ensures Traced(st, steps, Exec(st, steps))
  {
    hide Apply, Supplied;
    if steps != [] {
      var init, last := steps[..|steps| - 1], steps[|steps| - 1];
      RunTraced(st, init);
      StepTraced(st, init, last);
      assert init + [last] == steps;
    }
  }

  lemma GetSlice(st: State, g: nat)
    requires Safe(st) && g in st.gets
    ensures var r := st.gets[g];
            && r.buf in st.info && st.info[r.buf].key == r.key && st.info[r.buf].slot == r.slot
            && (r.out != [] ==> r.offset + |r.out| <= |st.info[r.buf].bytes|
                                && r.out == st.info[r.buf].bytes[r.offset..r.offset + |r.out|])
  {
    hide HeapOk, ObjectsOk, PutsOk, Shaped, OrderOk;
    var r := st.gets[g];
    assert GetOk(r, st.info);
    if r.out != [] {
      var last := |r.out| - 1;
      assert r.out[last] in r.out && r.offset + last < |st.info[r.buf].bytes|;
    }
  }

  /** In every interleaving, what a get has copied so far is exactly that part of the bytes which the
      put that made its replica supplied for the very slot of the very key the get asked for. */
  lemma GetCopiesPutBytes(st: State, steps: seq<Step>, g: nat)
    requires Initial(st) && g in Exec(st, steps).gets
    ensures var now := Exec(st, steps);
            var r := now.gets[g];
            r.buf in now.info &&
            exists bytes :: Supplied(st, steps, now.info[r.buf].put, r.key, r.slot, bytes)
              && (r.out != [] ==> r.offset + |r.out| <= |bytes| && r.out == bytes[r.offset..r.offset + |r.out|])
  {
    hide Supplied, Exec, Initial, Safe, PutTraced;
    RunSafe(st, steps);
    RunTraced(st, steps);
    var now := Exec(st, steps);
    var r := now.gets[g];
    GetSlice(now, g);
    assert InfoTraced(st, steps, now.info[r.buf]);
    assert Supplied(st, steps, now.info[r.buf].put, r.key, r.slot, now.info[r.buf].bytes);
  }
}
