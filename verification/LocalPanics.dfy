/** A queued entry past its object's slots: some scan meets it, so the hypothesis on claims is exact. */
module LocalPanics {
  import opened Types
  import opened LocalData
  import opened LocalMachine
  import opened LocalSafety
  import opened LocalClaims
  import opened LocalProgress
  import opened PinnedPool
  import KeyOrder
  import LocalRuns
  import Pinned = PinnedRuns

  // ---------------------------------------------------------------------
  // A scan cannot get past such an entry

  /** No scan removes the object: it has no slots, or one that is being written. */
  ghost predicate Anchored(o: Object) {
    o.slots == [] || exists i | 0 <= i < |o.slots| :: o.slots[i].writing
  }

  ghost predicate Lurks(objects: Objects, queue: seq<Entry>, e: Entry) {
    e in queue && Evictable(objects, e.key) && |objects[e.key].slots| <= e.slot && Anchored(objects[e.key])
  }

  lemma EvictLurks(objects: Objects, x: Entry, d: Device, queue: seq<Entry>, e: Entry)
    requires Evictable(objects, x.key) && x.slot < |objects[x.key].slots|
    requires Lurks(objects, queue, e)
    ensures Lurks(Evict(objects, x, d), queue, e)
  {
    hide Without;
    if x.key == e.key {
      var o := Thin(objects[e.key], x.slot, d);
      var i :| 0 <= i < |o.slots| && objects[e.key].slots[i].writing;
      assert o.slots[i].writing && !Free(o.slots[i]);
    }
  }

  /** A scan for another key panics at the entry, or stops before it with an eviction. */
  lemma {:induction false} ScanMeets(objects: Objects, queue: seq<Entry>, d: Device, key: Key, e: Entry)
    requires Lurks(objects, queue, e) && e.key != key
    ensures var r := LocalData.Scan(objects, queue, d, key);
            r.Scanned? ==> r.evicted && |r.queue| < |queue| && Lurks(r.objects, r.queue, e)
    decreases |queue|
  {
    hide Evict, HasPinned, Anchored;
    var x, rest := queue[0], queue[1..];
    assert queue == [x] + rest;
    if x.key == key {
      ScanMeets(objects, rest, d, key, e);
    } else if !Evictable(objects, x.key) {
      ScanMeets(objects, rest, d, key, e);
    } else if x.slot < |objects[x.key].slots| {
      EvictLurks(objects, x, d, rest, e);
      if !HasPinned(objects[x.key].slots[x.slot], d) { ScanMeets(Evict(objects, x, d), rest, d, key, e); }
    }
  }

  // ---------------------------------------------------------------------
  // A put that scans until it meets the entry

  /** The put is about to scan and the scan indexes past an object's slots. */
  ghost predicate Breaks(st: State, t: nat) {
    && At(st, t) && st.puts[t].stage.Scanning? && Todo(st.puts[t].stage) != []
    && Todo(st.puts[t].stage)[0].numa in st.fifo && Sweep(st, t).Panicked?
  }

  /** Neither removes anything nor makes a Cache object. */
  predicate Harmless(s: Step) { !s.Remove? && !(s.Claim? && s.spec.retention == Cache) }

  predicate AllHarmless(steps: seq<Step>) { forall i | 0 <= i < |steps| :: Harmless(steps[i]) }

  lemma {:induction false} HarmlessRun(st: State, steps: seq<Step>)
    requires AllHarmless(steps)
    ensures CalmRun(st, steps) && WideRun(st, steps)
  {
    hide Exec;
    if steps != [] {
      var front := steps[..|steps| - 1];
      assert forall i | 0 <= i < |front| :: front[i] == steps[i];
      HarmlessRun(st, front);
    }
  }

  /** The put waits for a scan of node `n`, whose pool has no room for it. */
  ghost predicate Hungry(st: State, t: nat, n: nat) {
    && At(st, t) && st.puts[t].stage.Scanning? && Todo(st.puts[t].stage) != []
    && Todo(st.puts[t].stage)[0].numa == n && n in st.fifo && n in st.pools && !Fits(st.pools[n], Need(st.puts[t]))
  }

  lemma SweepStep(st: State, t: nat, n: nat)
    requires Hungry(st, t, n) && Sweep(st, t).Scanned?
    ensures Apply(st, Step.Scan(t)) == ScanDone(st, t)
  {
    hide LocalData.Scan, Fits, RoundUp;
  }

  lemma AskAgain(st: State, t: nat, todo: seq<Target>)
    requires At(st, t) && st.puts[t].stage == Retrying(todo, true) && todo != [] && todo[0].numa in st.pools
    requires !Fits(st.pools[todo[0].numa], Need(st.puts[t]))
    ensures Apply(st, TryAlloc(t)) == st.(puts := st.puts[t := st.puts[t].(stage := Scanning(todo))])
  {
    hide Fits, RoundUp;
  }

  lemma SweepOnce(st: State, t: nat, n: nat)
    requires Hungry(st, t, n) && Sweep(st, t).Scanned? && Sweep(st, t).evicted
    ensures var now := Exec(st, [Step.Scan(t), TryAlloc(t)]);
            && Hungry(now, t, n) && now.objects == Sweep(st, t).objects && now.fifo[n] == Sweep(st, t).queue
            && now.puts[t].key == st.puts[t].key
  {
    hide LocalData.Scan, Fits, RoundUp, Exec, Apply;
    ExecPair(st, Step.Scan(t), TryAlloc(t));
    SweepStep(st, t, n);
    AskAgain(ScanDone(st, t), t, Todo(st.puts[t].stage));
  }

  lemma {:induction false} SweepUntil(st: State, t: nat, n: nat, e: Entry) returns (steps: seq<Step>)
    requires Hungry(st, t, n) && Lurks(st.objects, st.fifo[n], e) && st.puts[t].key != e.key
    ensures AllHarmless(steps) && Breaks(Exec(st, steps), t)
    decreases |st.fifo[n]|
  {
    hide Lurks, LocalData.Scan, Fits, Apply;
    ScanMeets(st.objects, st.fifo[n], Cpu(n), st.puts[t].key, e);
    if Sweep(st, t).Panicked? {
      steps := [];
    } else {
      hide Exec, Breaks;
      var two := [Step.Scan(t), TryAlloc(t)];
      SweepOnce(st, t, n);
      var rest := SweepUntil(Exec(st, two), t, n, e);
      ExecAppend(st, two, rest);
      steps := two + rest;
    }
  }

  // ---------------------------------------------------------------------
  // How a put comes to that: it asks for more than the pool has

  /** A put of one Explicit slot as long as node `n`'s pool, to be placed there `m` times. */
  datatype Hog = Hog(key: Key, numa: nat, len: nat, times: nat) {
    function Spec(): ObjectSpec {
      ObjectSpec(Explicit, [SlotSpec(len, Each(seq(times, i => Cpu(numa))))])
    }

    function Data(): seq<seq<Byte>> { [seq(len, i => 0)] }

    function Start(): Step { Step.Claim(key, Spec(), Data()) }

    function At(stage: Stage, placed: seq<Placed>): Put { Put(key, Spec(), Data(), [true], 0, stage, placed) }
  }

  function Here(n: nat, m: nat): (r: seq<Target>)
    ensures |r| == m && forall i | 0 <= i < m :: r[i] == Target(n, false)
  {
    seq(m, i => Target(n, false))
  }

  lemma HogTargets(order: seq<nat>, n: nat, m: nat)
    requires n in order
    ensures Targets(order, Each(seq(m, i => Cpu(n)))) == Some(Here(n, m))
    decreases m
  {
    var ds := seq(m, i => Cpu(n));
    if m > 0 {
      HogTargets(order, n, m - 1);
      assert ds[1..] == seq(m - 1, i => Cpu(n));
      assert Here(n, m) == [Target(n, false)] + Here(n, m - 1);
    }
  }

  lemma HogClaims(st: State, h: Hog)
    requires Safe(st) && h.key !in st.objects
    ensures var now := Apply(st, h.Start());
            && Safe(now) && h.key in now.objects
            && now == st.(objects := st.objects[h.key := now.objects[h.key]],
                          puts := st.puts[st.next := h.At(Idle, [])], next := st.next + 1)
  {
    hide Safe;
    LocalRuns.StepSafe(st, h.Start());
    assert Writable(Blank(h.Spec())) == [true];
  }

  lemma HogBegins(st: State, h: Hog)
    requires Safe(st) && h.key !in st.objects && h.numa in st.order && h.times > 0
    ensures var now, t := Exec(st, [h.Start(), Begin(st.next)]), st.next;
            && Safe(now) && now.pools == st.pools && now.fifo == st.fifo && t in now.puts
            && now.puts[t] == h.At(Asking(Here(h.numa, h.times)), [])
            && h.key in now.objects && now.objects == st.objects[h.key := now.objects[h.key]]
  {
    hide Safe, Targets, Exec;
    ExecPair(st, h.Start(), Begin(st.next));
    HogClaims(st, h);
    var mid := Apply(st, h.Start());
    LocalRuns.StepSafe(mid, Begin(st.next));
    HogTargets(st.order, h.numa, h.times);
  }

  /** A request for the whole pool that fits uses up an entry of the free list. */
  lemma WholeEntry(pool: Pinned.PoolState, len: nat)
    requires Pinned.Safe(pool) && len == pool.capacity && Fits(pool, RoundUp(len))
    ensures |Pinned.Next(pool, Pinned.Take(len)).free| == |pool.free| - 1
    ensures Pinned.Next(pool, Pinned.Take(len)).capacity == pool.capacity
  {
    hide RoundUp, Full;
    var i := FirstFit(pool.free, RoundUp(len));
    assert FreeLaid(pool.free, pool.capacity);
    assert pool.free[i].End() <= pool.capacity;
  }

  /** The put asks for the whole pool more often than the pool has free entries. */
  ghost predicate Pressing(st: State, t: nat, h: Hog, m: nat) {
    && t in st.puts && st.puts[t] == h.At(Asking(Here(h.numa, m)), st.puts[t].placed)
    && h.numa in st.pools && h.numa in st.fifo && h.len == st.pools[h.numa].capacity
    && |st.pools[h.numa].free| < m
  }

  lemma HogAsks(st: State, t: nat, h: Hog, m: nat)
    requires Safe(st) && Pressing(st, t, h, m)
    ensures var now := Apply(st, TryAlloc(t));
            && Safe(now) && now.objects == st.objects && now.fifo == st.fifo
            && t in now.puts && now.puts[t].key == h.key
            && (Hungry(now, t, h.numa) || (m > 1 && Pressing(now, t, h, m - 1)))
  {
    hide Safe, Pinned.Next, Fits, RoundUp;
    LocalRuns.StepSafe(st, TryAlloc(t));
    LocalRuns.SafePools(st);
    var p, n := st.puts[t], h.numa;
    assert Here(n, m)[1..] == Here(n, m - 1);
    if Fits(st.pools[n], RoundUp(h.len)) {
      WholeEntry(st.pools[n], h.len);
      FitsSome(st.pools[n], RoundUp(h.len));
      assert Apply(st, TryAlloc(t)).puts[t] == h.At(Asking(Here(n, m - 1)), p.placed + [Placed(false, BufId(n, st.pools[n].next))]);
    }
  }

  lemma FitsSome(pool: Pinned.PoolState, need: nat)
    requires Fits(pool, need)
    ensures |pool.free| > 0
  {
  }

  lemma {:induction false} HogStarves(st: State, t: nat, h: Hog, m: nat) returns (steps: seq<Step>)
    requires Safe(st) && Pressing(st, t, h, m)
    ensures AllHarmless(steps)
    ensures var now := Exec(st, steps);
            Hungry(now, t, h.numa) && t in now.puts && now.puts[t].key == h.key && now.objects == st.objects && now.fifo == st.fifo
    decreases m
  {
    hide Safe, Hungry, Apply, Pressing;
    HogAsks(st, t, h, m);
    var now := Apply(st, TryAlloc(t));
    ExecOne(st, TryAlloc(t));
    if Hungry(now, t, h.numa) {
      steps := [TryAlloc(t)];
    } else {
      hide Exec;
      var rest := HogStarves(now, t, h, m - 1);
      ExecAppend(st, [TryAlloc(t)], rest);
      steps := [TryAlloc(t)] + rest;
    }
  }

  // ---------------------------------------------------------------------
  // The result

  /** Whatever wide steps follow, no scan panics. */
  ghost predicate NeverPanics(st: State) {
    forall steps, t | WideRun(st, steps) :: !Breaks(Exec(st, steps), t)
  }

  /** The same over runs that are also calm. */
  ghost predicate NeverPanicsCalmly(st: State) {
    forall steps, t | CalmRun(st, steps) && WideRun(st, steps) :: !Breaks(Exec(st, steps), t)
  }

  lemma {:induction false} RunFits(st: State, steps: seq<Step>)
    requires QueuesFit(st.objects, st.fifo) && WideRun(st, steps)
    ensures QueuesFit(Exec(st, steps).objects, Exec(st, steps).fifo)
  {
    hide QueuesFit, Wide, Apply;
    if steps != [] {
      RunFits(st, steps[..|steps| - 1]);
      StepFits(Exec(st, steps[..|steps| - 1]), steps[|steps| - 1]);
    }
  }

  lemma FittingNeverBreaks(st: State)
    requires QueuesFit(st.objects, st.fifo)
    ensures NeverPanics(st)
  {
    hide QueuesFit, WideRun, Exec;
    forall steps, t | WideRun(st, steps)
      ensures !Breaks(Exec(st, steps), t)
    {
      RunFits(st, steps);
      NotBroken(Exec(st, steps), t);
    }
  }

  lemma NotBroken(st: State, t: nat)
    requires QueuesFit(st.objects, st.fifo)
    ensures !Breaks(st, t)
  {
    hide QueuesFit, Sweep;
    if At(st, t) && Todo(st.puts[t].stage) != [] && Todo(st.puts[t].stage)[0].numa in st.fifo { ScanKeepsFit(st, t); }
  }

  lemma OrderKnown(st: State, n: nat)
    requires Safe(st) && n in st.fifo
    ensures n in st.pools && n in st.order
  {
    hide HeapOk, ObjectsOk, Shaped, PutsOk, GetsOk;
  }

  /** From any safe state in which an entry lurks, some harmless run makes a scan panic. */
  lemma LurkingBreaks(st: State, n: nat, e: Entry) returns (steps: seq<Step>, t: nat)
    requires Safe(st) && n in st.fifo && Lurks(st.objects, st.fifo[n], e)
    ensures AllHarmless(steps) && Breaks(Exec(st, steps), t)
  {
    hide Safe, Lurks, Hungry, Exec, Breaks;
    OrderKnown(st, n);
    LurksKey(st.objects, st.fifo[n], e);
    var key := KeyOrder.NewKey(st.objects.Keys);
    var h := Hog(key, n, st.pools[n].capacity, |st.pools[n].free| + 1);
    t := st.next;
    var first := [h.Start(), Begin(t)];
    HogBegins(st, h);
    var asking := Exec(st, first);
    var second := HogStarves(asking, t, h, h.times);
    var hungry := Exec(asking, second);
    HungryQueue(hungry, t, n);
    StillLurks(st.objects, hungry.objects, st.fifo[n], e);
    var third := SweepUntil(hungry, t, n, e);
    ExecAppend(st, first, second);
    ExecAppend(st, first + second, third);
    steps := first + second + third;
  }

  lemma HungryQueue(st: State, t: nat, n: nat)
    requires Hungry(st, t, n)
    ensures n in st.fifo && n in st.pools
  {
  }

  lemma LurksKey(objects: Objects, queue: seq<Entry>, e: Entry)
    requires Lurks(objects, queue, e)
    ensures e.key in objects
  {
  }

  lemma StillLurks(was: Objects, now: Objects, queue: seq<Entry>, e: Entry)
    requires Lurks(was, queue, e) && e.key in now && now[e.key] == was[e.key]
    ensures Lurks(now, queue, e)
  {
  }

  lemma NarrowLurks(objects: Objects, key: Key, spec: ObjectSpec, queue: seq<Entry>, e: Entry)
    requires key !in objects && spec.retention == Cache && e in queue && e.key == key && |spec.slots| <= e.slot
    ensures Lurks(LocalData.Claim(objects, key, spec), queue, e)
  {
    var o := LocalData.Claim(objects, key, spec)[key];
    if o.slots != [] { assert o.slots[0].writing; }
  }

  /** A claim that makes a Cache object leaves a store in which no scan ever panics, on any run whose later
      claims are wide enough, exactly when none of the entries queued under its key is past its slots.
      Runs that also spare the keys being written are no safer. */
  lemma WideExactly(st: State, key: Key, spec: ObjectSpec, data: seq<seq<Byte>>)
    requires Safe(st) && QueuesFit(st.objects, st.fifo)
    requires Enabled(st, Step.Claim(key, spec, data)) && key !in st.objects && spec.retention == Cache
    ensures NeverPanics(Next(st, Step.Claim(key, spec, data))) <==> WideEnough(st.fifo, key, spec)
    ensures NeverPanicsCalmly(Next(st, Step.Claim(key, spec, data))) <==> WideEnough(st.fifo, key, spec)
  {
    hide Safe, QueuesFit, Lurks, WideRun, CalmRun, Exec, Breaks, LocalData.Claim;
    var s := Step.Claim(key, spec, data);
    var now := Next(st, s);
    if WideEnough(st.fifo, key, spec) {
      ClaimFitsExactly(st, key, spec);
      FittingNeverBreaks(now);
    } else {
      var n, j :| n in st.fifo && 0 <= j < |st.fifo[n]| && st.fifo[n][j].key == key && |spec.slots| <= st.fifo[n][j].slot;
      NarrowLurks(st.objects, key, spec, st.fifo[n], st.fifo[n][j]);
      LocalRuns.StepSafe(st, s);
      var steps, t := LurkingBreaks(now, n, st.fifo[n][j]);
      HarmlessRun(now, steps);
    }
  }
}
