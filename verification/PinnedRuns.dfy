/** Every sequence of allocations and drops on one pinned pool. */
module PinnedRuns {
  import opened PinnedPool

  /** The free list together with the ranges of the buffers that have not been dropped. */
  datatype PoolState = PoolState(capacity: nat, free: seq<Range>, live: map<nat, Range>, next: nat)

  datatype Op = Take(bytes: nat) | Drop(buf: nat)

  function Start(bytes: nat): PoolState {
    PoolState(RoundUp(bytes), [Range(0, RoundUp(bytes))], map[], 0)
  }

  function Next(st: PoolState, op: Op): PoolState {
    match op
    case Take(bytes) =>
      var need := RoundUp(bytes);
      var i := FirstFit(st.free, need);
      if i == |st.free| then st
      else PoolState(st.capacity, Carve(st.free, i, need), st.live[st.next := Range(st.free[i].off, need)], st.next + 1)
    case Drop(b) =>
      if b !in st.live then st
      else st.(free := GiveBack(st.free, st.live[b]), live := st.live - {b})
  }

  function Exec(st: PoolState, ops: seq<Op>): PoolState {
    if ops == [] then st else Next(Exec(st, ops[..|ops| - 1]), ops[|ops| - 1])
  }

  ghost predicate Safe(st: PoolState) {
    && Laid(st.free, st.live, st.capacity) && Full(st.free, st.live, st.capacity)
    && (forall b | b in st.live :: b < st.next)
  }

  ghost predicate Exact(st: PoolState) {
    && Tight(st.free) && Aligned(st.free)
    && (forall b | b in st.live ::
          0 < st.live[b].len && st.live[b].off % ALIGN == 0 && st.live[b].len % ALIGN == 0)
  }

  ghost predicate Positive(ops: seq<Op>) {
    forall i | 0 <= i < |ops| :: ops[i].Take? ==> ops[i].bytes > 0
  }

  lemma StepSafe(st: PoolState, op: Op)
    requires Safe(st)
    ensures Safe(Next(st, op))
  {
    hide Laid, Full, FirstFit, Carve, GiveBackAt, RoundUp, Partition;
    match op
    case Take(bytes) =>
      var i := FirstFit(st.free, RoundUp(bytes));
      if i < |st.free| {
        TakeSafe(st.free, st.live, st.capacity, i, RoundUp(bytes), st.next);
      }
    case Drop(b) =>
      if b in st.live {
        GiveSafe(st.free, st.live, st.capacity, Partition(st.free, st.live[b].off), b);
      }
  }

  lemma StepExact(st: PoolState, op: Op)
    requires Safe(st) && Exact(st)
    requires op.Take? ==> op.bytes > 0
    ensures Exact(Next(st, op))
  {
    hide Tight, Aligned, Full, FirstFit, Carve, GiveBackAt, RoundUp, Partition;
    match op
    case Take(bytes) =>
      var i := FirstFit(st.free, RoundUp(bytes));
      if i < |st.free| {
        CarveTight(st.free, i, RoundUp(bytes));
        AlignedAt(st.free, i);
      }
    case Drop(b) =>
      if b in st.live {
        assert Clear(st.free, st.live[b]);
        GiveTight(st.free, st.live[b]);
      }
  }

  lemma AlignedAt(free: seq<Range>, i: nat)
    requires Aligned(free) && i < |free|
    ensures free[i].off % ALIGN == 0
  {
  }

  /** Whatever is asked for and dropped, zero-size requests included, no two of the free entries and
      live buffers overlap, all lie inside the pool, and together they are the whole pool. */
  lemma {:induction false} RunSafe(bytes: nat, ops: seq<Op>)
    ensures Safe(Exec(Start(bytes), ops))
  {
    if ops == [] {
      var st := Start(bytes);
      forall a: nat | a < st.capacity
        ensures InFree(st.free, a)
      {
        assert st.free[0].Has(a);
      }
    } else {
      RunSafe(bytes, ops[..|ops| - 1]);
      StepSafe(Exec(Start(bytes), ops[..|ops| - 1]), ops[|ops| - 1]);
    }
  }

  /** With positive sizes the list is, in addition, sorted, aligned and without adjacent entries. */
  lemma {:induction false} RunExact(bytes: nat, ops: seq<Op>)
    requires bytes > 0 && Positive(ops)
    ensures Exact(Exec(Start(bytes), ops))
  {
    if ops != [] {
      RunSafe(bytes, ops[..|ops| - 1]);
      RunExact(bytes, ops[..|ops| - 1]);
      StepExact(Exec(Start(bytes), ops[..|ops| - 1]), ops[|ops| - 1]);
    }
  }

  lemma {:induction false} RunCapacity(bytes: nat, ops: seq<Op>)
    ensures Exec(Start(bytes), ops).capacity == RoundUp(bytes)
  {
    if ops != [] { RunCapacity(bytes, ops[..|ops| - 1]); }
  }

  /** After any such run an allocation fails exactly when no unused run of bytes is large enough. */
  lemma RunAllocFails(bytes: nat, ops: seq<Op>, ask: nat)
    requires bytes > 0 && Positive(ops) && ask > 0
    ensures var st := Exec(Start(bytes), ops);
            Next(st, Take(ask)) == st <==>
            !exists x: nat | x + RoundUp(ask) <= st.capacity :: Unused(st.live, x, RoundUp(ask))
  {
    hide Exec, Laid, Full, Tight, Unused, RoundUp, FirstFit;
    RunSafe(bytes, ops);
    RunExact(bytes, ops);
    var st := Exec(Start(bytes), ops);
    AllocFailsExactly(st.free, st.live, st.capacity, ask);
  }

  /** After any run of positive-size requests and drops, a request that can be served is given the lowest
      place where it fits, and no other buffer changes. */
  lemma RunAllocLowest(bytes: nat, ops: seq<Op>, ask: nat, x: nat)
    requires bytes > 0 && Positive(ops) && ask > 0
    requires var st := Exec(Start(bytes), ops); x + RoundUp(ask) <= st.capacity && Unused(st.live, x, RoundUp(ask))
    ensures var st := Exec(Start(bytes), ops);
            var now := Next(st, Take(ask));
            && now.live.Keys == st.live.Keys + {st.next} && st.next !in st.live
            && (forall b | b in st.live :: now.live[b] == st.live[b])
            && now.live[st.next].len == RoundUp(ask) && now.live[st.next].off <= x
            && Unused(st.live, now.live[st.next].off, RoundUp(ask))
  {
    hide Exec, Laid, Full, Tight, Unused, RoundUp, FirstFit, Carve;
    RunSafe(bytes, ops);
    RunExact(bytes, ops);
    var st := Exec(Start(bytes), ops);
    FirstFitIsLowest(st.free, st.live, st.capacity, ask, x);
  }

  /** Dropping everything, in whatever order, restores the one range the pool started with. */
  lemma RunDropsAll(bytes: nat, ops: seq<Op>)
    requires bytes > 0 && Positive(ops)
    requires Exec(Start(bytes), ops).live == map[]
    ensures Exec(Start(bytes), ops) == Start(bytes).(next := Exec(Start(bytes), ops).next)
  {
    hide Exec, Laid, Full, Tight;
    RunSafe(bytes, ops);
    RunExact(bytes, ops);
    RunCapacity(bytes, ops);
    NothingLive(Exec(Start(bytes), ops).free, RoundUp(bytes));
  }

  // ---------------------------------------------------------------------
  // Zero-size requests

  lemma ExecAppend(st: PoolState, ops: seq<Op>, op: Op)
    ensures Exec(st, ops + [op]) == Next(Exec(st, ops), op)
  {
    assert (ops + [op])[..|ops|] == ops;
  }

  lemma FragmentsTakes()
    ensures var s1 := PoolState(2 * ALIGN, [Range(0, 2 * ALIGN)], map[0 := Range(0, 0)], 1);
            && Next(Start(2 * ALIGN), Take(0)) == s1
            && Next(s1, Take(ALIGN))
            == PoolState(2 * ALIGN, [Range(ALIGN, ALIGN)], map[0 := Range(0, 0), 1 := Range(0, ALIGN)], 2)
  {
    assert RoundUp(2 * ALIGN) == 2 * ALIGN && RoundUp(0) == 0 && RoundUp(ALIGN) == ALIGN;
  }

  lemma FragmentsDrops()
    ensures var s2 := PoolState(2 * ALIGN, [Range(ALIGN, ALIGN)], map[0 := Range(0, 0), 1 := Range(0, ALIGN)], 2);
            var s3 := PoolState(2 * ALIGN, [Range(0, 0), Range(ALIGN, ALIGN)], map[1 := Range(0, ALIGN)], 2);
            && Next(s2, Drop(0)) == s3
            && Next(s3, Drop(1))
            == PoolState(2 * ALIGN, [Range(0, ALIGN), Range(0, 0), Range(ALIGN, ALIGN)], map[], 2)
  {
    var one := [Range(ALIGN, ALIGN)];
    assert Partition(one, 0) == 0 && one[..0] == [];
    assert GiveBack(one, Range(0, 0)) == [Range(0, 0), Range(ALIGN, ALIGN)];
    var two := [Range(0, 0), Range(ALIGN, ALIGN)];
    assert Partition(two, 0) == 0 && two[..0] == [];
    assert GiveBack(two, Range(0, ALIGN)) == [Range(0, ALIGN), Range(0, 0), Range(ALIGN, ALIGN)];
    assert map[0 := Range(0, 0), 1 := Range(0, ALIGN)] - {0} == map[1 := Range(0, ALIGN)];
    assert map[1 := Range(0, ALIGN)] - {1} == map[];
  }

  /** With one zero-size buffer the promise fails: everything has been dropped, yet the pool is left
      in pieces and cannot serve a request for all of it. */
  lemma ZeroSizeFragments()
    ensures var st := Exec(Start(2 * ALIGN), [Take(0), Take(ALIGN), Drop(0), Drop(1)]);
            && st.live == map[]
            && st.free == [Range(0, ALIGN), Range(0, 0), Range(ALIGN, ALIGN)]
            && FirstFit(st.free, 2 * ALIGN) == |st.free|
  {
    hide Next, Start, GiveBackAt, Carve, Partition;
    var s0 := Start(2 * ALIGN);
    FragmentsTakes();
    FragmentsDrops();
    ExecAppend(s0, [], Take(0));
    ExecAppend(s0, [Take(0)], Take(ALIGN));
    ExecAppend(s0, [Take(0), Take(ALIGN)], Drop(0));
    ExecAppend(s0, [Take(0), Take(ALIGN), Drop(0)], Drop(1));
    assert [] + [Take(0)] == [Take(0)];
    assert [Take(0)] + [Take(ALIGN)] == [Take(0), Take(ALIGN)];
    assert [Take(0), Take(ALIGN)] + [Drop(0)] == [Take(0), Take(ALIGN), Drop(0)];
    assert [Take(0), Take(ALIGN), Drop(0)] + [Drop(1)] == [Take(0), Take(ALIGN), Drop(0), Drop(1)];
  }

  /** Exactly when the damage is done: giving back a zero-size buffer keeps the list tight if and
      only if some free entry starts or ends at its offset. */
  lemma ZeroSizeExactly(free: seq<Range>, off: nat)
    requires Tight(free)
    ensures Tight(GiveBack(free, Range(off, 0))) <==>
            exists j | 0 <= j < |free| :: free[j].off == off || free[j].End() == off
  {
    hide GiveBackAt, Partition, Splice;
    var r := Range(off, 0);
    var i := Partition(free, off);
    GiveBackIsSplice(free, i, r);
    var p, m, q := Low(free, i, r), Grown(free, i, r), High(free, i, r);
    TouchesAtInsertion(free, off);
    if JoinsLeft(free, i, r) || JoinsRight(free, i, r) {
      SpliceUnchanged(free, p, m, q);
    } else {
      SpliceMember(free, p, m, q);
    }
  }

  lemma TouchesAtInsertion(free: seq<Range>, off: nat)
    requires Tight(free)
    ensures var i := Partition(free, off);
            && !(JoinsLeft(free, i, Range(off, 0)) && JoinsRight(free, i, Range(off, 0)))
            && ((exists j | 0 <= j < |free| :: free[j].off == off || free[j].End() == off) <==>
                JoinsLeft(free, i, Range(off, 0)) || JoinsRight(free, i, Range(off, 0)))
  {
    hide Partition;
    var i := Partition(free, off);
    forall j | 0 <= j < |free| && (free[j].off == off || free[j].End() == off)
      ensures JoinsLeft(free, i, Range(off, 0)) || JoinsRight(free, i, Range(off, 0))
    {
      PinnedPool.Sorted(free, j, i);
      PinnedPool.Sorted(free, i, j);
      var before: int := i as int - 1;
      PinnedPool.Sorted(free, j, before);
    }
  }

  lemma SpliceUnchanged(free: seq<Range>, p: nat, m: Range, q: nat)
    requires p <= q <= |free| && q == p + 1 && m == free[p]
    ensures Splice(free, p, m, q) == free
  {
  }

  lemma SpliceMember(free: seq<Range>, p: nat, m: Range, q: nat)
    requires p <= q <= |free| && m.len == 0
    ensures !Tight(Splice(free, p, m, q))
  {
    assert Splice(free, p, m, q)[p] == m;
  }
}
