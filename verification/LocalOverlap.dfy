/** A remove that hits a key being written: one slot ends up with two writers. */
module LocalOverlap {
  import opened Types
  import opened LocalData
  import opened LocalMachine
  import opened LocalSafety
  import opened LocalClaims
  import opened LocalProgress
  import opened LocalPanics
  import opened LocalWinding
  import opened PinnedPool
  import LocalRuns
  import Pinned = PinnedRuns

  // ---------------------------------------------------------------------
  // Puts that fill one slot

  /** A put of an Explicit object that lands bytes in one slot only, on one node; earlier slots have nowhere
      to go. */
  datatype Upload = Upload(key: Key, slot: nat, numa: nat, bytes: seq<Byte>) {
    function Spec(): (r: ObjectSpec)
      ensures |r.slots| == slot + 1 && r.slots[slot] == SlotSpec(|bytes|, Strict(Cpu(numa)))
      ensures forall j | 0 <= j < slot :: r.slots[j] == SlotSpec(0, Each([]))
    {
      ObjectSpec(Explicit, seq(slot, j => SlotSpec(0, Each([]))) + [SlotSpec(|bytes|, Strict(Cpu(numa)))])
    }

    function Data(): (r: seq<seq<Byte>>)
      ensures |r| == slot + 1 && r[slot] == bytes && forall j | 0 <= j < slot :: r[j] == []
    {
      seq(slot, j => []) + [bytes]
    }

    function Start(): Step { Step.Claim(key, Spec(), Data()) }

    /** The put at slot `j`, having found `w` writable. */
    function At(w: seq<bool>, j: nat, stage: Stage, placed: seq<Placed>): Put { Put(key, Spec(), Data(), w, j, stage, placed) }

    /** The buffer is filled; the put is about to install it. */
    function Full(w: seq<bool>, b: BufId): Put { At(w, slot, Copying(1, 0), [Placed(false, b)]) }

    function Describe(t: nat): Info { Info(t, key, slot, bytes, false) }
  }

  /** The object made for the upload; its slot has these replicas and this mark. */
  ghost predicate Made(st: State, u: Upload, rs: seq<Replica>, writing: bool) {
    && u.key in st.objects && st.objects[u.key].spec == u.Spec() && |st.objects[u.key].slots| == u.slot + 1
    && st.objects[u.key].slots[u.slot] == Slot(rs, writing)
  }

  /** The upload's put has joined, at its first slot, with the claim of the slot it is for. */
  ghost predicate Joined(st: State, now: State, u: Upload, w: seq<bool>) {
    && |w| == u.slot + 1 && w[u.slot]
    && now == st.(objects := now.objects, puts := st.puts[st.next := u.At(w, 0, Idle, [])], next := st.next + 1)
  }

  lemma ClaimFresh(st: State, u: Upload)
    requires Safe(st) && u.key !in st.objects
    ensures var now := Apply(st, u.Start());
            && Safe(now) && Made(now, u, [], true)
            && exists w :: Joined(st, now, u, w)
  {
    hide Safe;
    LocalRuns.StepSafe(st, u.Start());
    var o := Blank(u.Spec());
    var w := Writable(o);
    assert |w| == u.slot + 1 && w[u.slot] && Claimed(o).slots[u.slot] == Slot([], true);
    var now := Apply(st, u.Start());
    assert now.objects == st.objects[u.key := Claimed(o)];
    assert Joined(st, now, u, w);
  }

  /** Claiming again finds the slot free when it shows nothing and is not marked. */
  lemma ClaimAgain(st: State, u: Upload)
    requires Safe(st) && Made(st, u, [], false)
    ensures var now := Apply(st, u.Start());
            && Safe(now) && Made(now, u, [], true)
            && exists w :: Joined(st, now, u, w)
  {
    hide Safe;
    LocalRuns.StepSafe(st, u.Start());
    var o := st.objects[u.key];
    var w := Writable(o);
    assert |w| == u.slot + 1 && w[u.slot] && Claimed(o).slots[u.slot] == Slot([], true);
    var now := Apply(st, u.Start());
    assert now.objects == st.objects[u.key := Claimed(o)];
    assert Joined(st, now, u, w);
  }

  // ---------------------------------------------------------------------
  // Getting to the slot

  /** Only the upload's put and the marks of earlier slots differ. */
  ghost predicate Walked(st: State, now: State, t: nat, p: Put) {
    now == st.(objects := now.objects, puts := st.puts[t := p])
  }

  lemma SkipSlot(st: State, t: nat, u: Upload, w: seq<bool>, j: nat, rs: seq<Replica>, writing: bool)
    requires Safe(st) && Made(st, u, rs, writing) && |w| == u.slot + 1 && j < u.slot && !w[j]
    requires t in st.puts && st.puts[t] == u.At(w, j, Idle, [])
    ensures var now := Exec(st, [Skip(t)]);
            Safe(now) && Made(now, u, rs, writing) && Walked(st, now, t, u.At(w, j + 1, Idle, []))
  {
    hide Safe, Exec;
    ExecOne(st, Skip(t));
    LocalRuns.StepSafe(st, Skip(t));
  }

  lemma NowhereToGo(st: State, t: nat, u: Upload, w: seq<bool>, j: nat)
    requires |w| == u.slot + 1 && j < u.slot && w[j] && t in st.puts && st.puts[t] == u.At(w, j, Idle, [])
    ensures Apply(st, Begin(t)) == st.(puts := st.puts[t := u.At(w, j, Failed, [])])
  {
  }

  lemma FailSlot(st: State, t: nat, u: Upload, w: seq<bool>, j: nat, rs: seq<Replica>, writing: bool)
    requires Safe(st) && Made(st, u, rs, writing) && |w| == u.slot + 1 && j < u.slot && w[j]
    requires t in st.puts && st.puts[t] == u.At(w, j, Idle, [])
    ensures var now := Exec(st, [Begin(t), Abandon(t)]);
            Safe(now) && Made(now, u, rs, writing) && Walked(st, now, t, u.At(w, j + 1, Idle, []))
  {
    hide Safe, Exec;
    ExecPair(st, Begin(t), Abandon(t));
    LocalRuns.StepSafe(st, Begin(t));
    var mid := Apply(st, Begin(t));
    NowhereToGo(st, t, u, w, j);
    LocalRuns.StepSafe(mid, Abandon(t));
    assert mid.puts[t := u.At(w, j + 1, Idle, [])] == st.puts[t := u.At(w, j + 1, Idle, [])];
  }

  function PassSteps(t: nat, writable: bool): (r: seq<Step>)
    ensures AllHarmless(r)
  {
    if writable then [Begin(t), Abandon(t)] else [Skip(t)]
  }

  lemma PassSlot(st: State, t: nat, u: Upload, w: seq<bool>, j: nat, rs: seq<Replica>, writing: bool)
    requires Safe(st) && Made(st, u, rs, writing) && |w| == u.slot + 1 && j < u.slot
    requires t in st.puts && st.puts[t] == u.At(w, j, Idle, [])
    ensures var now := Exec(st, PassSteps(t, w[j]));
            Safe(now) && Made(now, u, rs, writing) && Walked(st, now, t, u.At(w, j + 1, Idle, []))
  {
    hide Safe, Made, Exec, Walked;
    if w[j] { FailSlot(st, t, u, w, j, rs, writing); } else { SkipSlot(st, t, u, w, j, rs, writing); }
  }

  lemma WalkedOn(st: State, mid: State, now: State, t: nat, p: Put, q: Put)
    requires Walked(st, mid, t, p) && Walked(mid, now, t, q)
    ensures Walked(st, now, t, q)
  {
    assert st.puts[t := p][t := q] == st.puts[t := q];
  }

  lemma {:induction false} Reach(st: State, t: nat, u: Upload, w: seq<bool>, j: nat, rs: seq<Replica>, writing: bool)
    returns (steps: seq<Step>)
    requires Safe(st) && Made(st, u, rs, writing) && |w| == u.slot + 1 && j <= u.slot
    requires t in st.puts && st.puts[t] == u.At(w, j, Idle, [])
    ensures AllHarmless(steps)
    ensures var now := Exec(st, steps);
            Safe(now) && Made(now, u, rs, writing) && Walked(st, now, t, u.At(w, u.slot, Idle, []))
    decreases u.slot - j
  {
    hide Safe, Made, Apply;
    if j == u.slot {
      steps := [];
      assert st.puts[t := st.puts[t]] == st.puts;
    } else {
      hide Exec, PassSteps;
      PassSlot(st, t, u, w, j, rs, writing);
      var mid := Exec(st, PassSteps(t, w[j]));
      var rest := Reach(mid, t, u, w, j + 1, rs, writing);
      ExecAppend(st, PassSteps(t, w[j]), rest);
      steps := PassSteps(t, w[j]) + rest;
      WalkedOn(st, mid, Exec(mid, rest), t, u.At(w, j + 1, Idle, []), u.At(w, u.slot, Idle, []));
    }
  }

  // ---------------------------------------------------------------------
  // Filling a buffer and installing it

  ghost predicate Has(st: State, n: nat) { n in st.order && n in st.pools }

  lemma FillBegin(st: State, t: nat, u: Upload, w: seq<bool>)
    requires Has(st, u.numa) && |w| == u.slot + 1 && w[u.slot]
    requires t in st.puts && st.puts[t] == u.At(w, u.slot, Idle, [])
    ensures Apply(st, Begin(t)) == st.(puts := st.puts[t := u.At(w, u.slot, Asking([Target(u.numa, false)]), [])])
  {
  }

  lemma FillTake(st: State, t: nat, u: Upload, w: seq<bool>)
    requires Has(st, u.numa) && t in st.puts && st.puts[t] == u.At(w, u.slot, Asking([Target(u.numa, false)]), [])
    requires Fits(st.pools[u.numa], RoundUp(|u.bytes|))
    ensures var pool := st.pools[u.numa];
            var b := BufId(u.numa, pool.next);
            Apply(st, TryAlloc(t)) == st.(
              pools := st.pools[u.numa := Pinned.Next(pool, Pinned.Take(|u.bytes|))],
              info := st.info[b := u.Describe(t)],
              puts := st.puts[t := u.At(w, u.slot, Copying(0, 0), [Placed(false, b)])])
  {
    hide Fits, Pinned.Next, RoundUp;
    var b := BufId(u.numa, st.pools[u.numa].next);
    assert [] + [Placed(false, b)] == [Placed(false, b)];
    assert Answered(st.puts[t], st.pools[u.numa]) == u.At(w, u.slot, Copying(0, 0), [Placed(false, b)]);
  }

  lemma FillCopy(st: State, t: nat, u: Upload, w: seq<bool>, b: BufId)
    requires Safe(st) && t in st.puts && st.puts[t] == u.At(w, u.slot, Copying(0, 0), [Placed(false, b)])
    ensures var now := Apply(st, Copy(t, |u.bytes|));
            now == st.(mem := now.mem, puts := st.puts[t := u.Full(w, b)])
  {
    hide Safe, Write, Where;
    LocalRuns.CopiesStayInside(st, t, |u.bytes|);
  }

  function FillSteps(t: nat, u: Upload): seq<Step> { [Begin(t), TryAlloc(t)] + [Copy(t, |u.bytes|)] }

  lemma FillDone(st: State, t: nat, u: Upload, w: seq<bool>)
    requires Safe(st) && Has(st, u.numa) && |w| == u.slot + 1 && w[u.slot]
    requires t in st.puts && st.puts[t] == u.At(w, u.slot, Idle, []) && Fits(st.pools[u.numa], RoundUp(|u.bytes|))
    ensures var now, pool := Exec(st, FillSteps(t, u)), st.pools[u.numa];
            var b := BufId(u.numa, pool.next);
            && Safe(now)
            && now == st.(pools := st.pools[u.numa := Pinned.Next(pool, Pinned.Take(|u.bytes|))], mem := now.mem,
                          info := st.info[b := u.Describe(t)], puts := st.puts[t := u.Full(w, b)])
  {
    hide Safe, Apply, Fits, Pinned.Next, Exec, RoundUp;
    var one := Apply(st, Begin(t));
    var two := Apply(one, TryAlloc(t));
    ExecPair(st, Begin(t), TryAlloc(t));
    ExecSnoc(st, [Begin(t), TryAlloc(t)], Copy(t, |u.bytes|));
    LocalRuns.StepSafe(st, Begin(t));
    LocalRuns.StepSafe(one, TryAlloc(t));
    LocalRuns.StepSafe(two, Copy(t, |u.bytes|));
    FillBegin(st, t, u, w);
    FillTake(one, t, u, w);
    FillCopy(two, t, u, w, BufId(u.numa, st.pools[u.numa].next));
  }

  function PinnedAt(b: BufId): Replica { Replica(Cpu(b.numa), Dram, false, Data.Pinned(b)) }

  lemma InstallOne(st: State, t: nat, u: Upload, w: seq<bool>, b: BufId, rs: seq<Replica>, writing: bool)
    requires Safe(st) && t in st.puts && st.puts[t] == u.Full(w, b) && Made(st, u, rs, writing)
    ensures var now := Exec(st, [Step.Install(t)]);
            && Safe(now) && now.puts == st.puts[t := Advance(st.puts[t])] && Made(now, u, rs + [PinnedAt(b)], false)
            && now.info.Keys == st.info.Keys
            && forall c | c in st.info :: now.info[c].bytes == st.info[c].bytes && now.info[c].put == st.info[c].put
  {
    hide Safe, Queue, Exec;
    ExecOne(st, Step.Install(t));
    LocalRuns.StepSafe(st, Step.Install(t));
    assert FreshReplicas([Placed(false, b)]) == [PinnedAt(b)];
  }

  // ---------------------------------------------------------------------
  // Two uploads into one slot

  /** Two uploads that differ in their bytes alone. */
  predicate Rivals(u: Upload, v: Upload) { v == u.(bytes := v.bytes) && |v.bytes| == |u.bytes| }

  lemma MadeForBoth(st: State, u: Upload, v: Upload, rs: seq<Replica>, writing: bool)
    requires Rivals(u, v) && Made(st, u, rs, writing)
    ensures Made(st, v, rs, writing)
  {
    assert u.Spec() == v.Spec();
  }

  /** The held put's failure clears the mark of whoever holds the slot now. */
  lemma FailureUnmarks(st: State, t: nat, u: Upload)
    requires Safe(st) && Made(st, u, [], true)
    requires t in st.puts && st.puts[t].key == u.key && st.puts[t].slot == u.slot && st.puts[t].stage.Failed?
    ensures var now := Apply(st, Abandon(t));
            && Safe(now) && Made(now, u, [], false)
            && now == st.(objects := now.objects, puts := st.puts[t := Advance(st.puts[t])])
  {
    hide Safe;
    LocalRuns.StepSafe(st, Abandon(t));
    PutInShape(st, t);
  }

  /** Both puts have claimed the slot and stand at their first one. */
  ghost predicate Poised(st: State, a: nat, u: Upload, v: Upload, w: seq<bool>, x: seq<bool>) {
    && Safe(st) && Made(st, u, [], true) && Rivals(u, v)
    && |w| == |x| == u.slot + 1 && w[u.slot] && x[u.slot]
    && a in st.puts && st.puts[a] == u.At(w, 0, Idle, [])
    && a + 1 in st.puts && st.puts[a + 1] == v.At(x, 0, Idle, [])
  }

  lemma JoinedBoth(st: State, one: State, two: State, now: State, t: nat, u: Upload, v: Upload, w: seq<bool>, x: seq<bool>)
    requires Joined(st, one, u, w) && Joined(two, now, v, x) && Rivals(u, v)
    requires t in one.puts && t != st.next && two == one.(objects := two.objects, puts := one.puts[t := Advance(one.puts[t])])
    requires Safe(now) && Made(now, u, [], true)
    ensures Poised(now, st.next, u, v, w, x) && now.pools == st.pools && now.order == st.order
  {
    hide Safe, Made;
  }

  lemma JoinedPut(st: State, now: State, u: Upload, w: seq<bool>, t: nat)
    requires Joined(st, now, u, w) && t in st.puts && t != st.next
    ensures t in now.puts && now.puts[t] == st.puts[t]
  {
  }

  lemma TwoClaims(st: State, t: nat, u: Upload, v: Upload)
    requires Safe(st) && u.key !in st.objects && Rivals(u, v)
    requires t in st.puts && st.puts[t].key == u.key && st.puts[t].slot == u.slot && st.puts[t].stage.Failed?
    ensures var now := Exec(st, [u.Start(), Abandon(t)] + [v.Start()]);
            && (exists w, x :: Poised(now, st.next, u, v, w, x)) && now.pools == st.pools && now.order == st.order
  {
    hide Safe, Apply, Exec, Made, Joined, Poised;
    PutAt(st, t);
    ClaimFresh(st, u);
    var one := Apply(st, u.Start());
    var w :| Joined(st, one, u, w);
    JoinedPut(st, one, u, w, t);
    FailureUnmarks(one, t, u);
    var two := Apply(one, Abandon(t));
    MadeForBoth(two, u, v, [], false);
    ClaimAgain(two, v);
    var now := Apply(two, v.Start());
    var x :| Joined(two, now, v, x);
    MadeForBoth(now, v, u, [], true);
    JoinedBoth(st, one, two, now, t, u, v, w, x);
    ExecPair(st, u.Start(), Abandon(t));
    ExecSnoc(st, [u.Start(), Abandon(t)], v.Start());
  }

  /** The pool can serve the length, and once more after that. */
  ghost predicate RoomForTwo(pool: Pinned.PoolState, len: nat) {
    Fits(pool, RoundUp(len)) && Fits(Pinned.Next(pool, Pinned.Take(len)), RoundUp(len))
  }

  lemma TakeNumbers(pool: Pinned.PoolState, len: nat)
    requires Fits(pool, RoundUp(len))
    ensures Pinned.Next(pool, Pinned.Take(len)).next == pool.next + 1
  {
    hide RoundUp;
  }

  /** One upload goes from its first slot to a filled buffer. */
  lemma Fills(st: State, t: nat, u: Upload, w: seq<bool>, rs: seq<Replica>, writing: bool) returns (steps: seq<Step>)
    requires Safe(st) && Made(st, u, rs, writing) && |w| == u.slot + 1 && w[u.slot]
    requires t in st.puts && st.puts[t] == u.At(w, 0, Idle, [])
    requires Has(st, u.numa) && Fits(st.pools[u.numa], RoundUp(|u.bytes|))
    ensures AllHarmless(steps)
    ensures var now, pool := Exec(st, steps), st.pools[u.numa];
            var b := BufId(u.numa, pool.next);
            && Safe(now) && Made(now, u, rs, writing) && now.order == st.order
            && now.pools == st.pools[u.numa := Pinned.Next(pool, Pinned.Take(|u.bytes|))]
            && now.info == st.info[b := u.Describe(t)] && now.puts == st.puts[t := u.Full(w, b)]
  {
    hide Safe, Apply, Exec, Fits, Pinned.Next, RoundUp;
    var first := Reach(st, t, u, w, 0, rs, writing);
    var mid := Exec(st, first);
    FillDone(mid, t, u, w);
    ExecAppend(st, first, FillSteps(t, u));
    steps := first + FillSteps(t, u);
  }

  /** Both buffers are filled. */
  ghost predicate Loaded(st: State, a: nat, u: Upload, v: Upload, w: seq<bool>, x: seq<bool>, i: nat) {
    var b, c := BufId(u.numa, i), BufId(u.numa, i + 1);
    && Safe(st) && Made(st, u, [], true) && Rivals(u, v)
    && a in st.puts && st.puts[a] == u.Full(w, b) && a + 1 in st.puts && st.puts[a + 1] == v.Full(x, c)
    && b in st.info && st.info[b] == u.Describe(a) && c in st.info && st.info[c] == v.Describe(a + 1)
  }

  lemma BothFill(st: State, a: nat, u: Upload, v: Upload, w: seq<bool>, x: seq<bool>) returns (steps: seq<Step>)
    requires Poised(st, a, u, v, w, x) && Has(st, u.numa) && RoomForTwo(st.pools[u.numa], |u.bytes|)
    ensures AllHarmless(steps) && Loaded(Exec(st, steps), a, u, v, w, x, st.pools[u.numa].next)
  {
    hide Safe, Made, Exec, Fits, Pinned.Next, RoundUp;
    TakeNumbers(st.pools[u.numa], |u.bytes|);
    var first := Fills(st, a, u, w, [], true);
    var mid := Exec(st, first);
    MadeForBoth(mid, u, v, [], true);
    var second := Fills(mid, a + 1, v, x, [], true);
    MadeForBoth(Exec(mid, second), v, u, [], true);
    ExecAppend(st, first, second);
    steps := first + second;
  }

  /** One slot shows buffers `i` and `i + 1` of the node's pool, with the bytes of one upload each. */
  ghost predicate Mixed(st: State, u: Upload, v: Upload, i: nat) {
    var b, c := BufId(u.numa, i), BufId(u.numa, i + 1);
    && ShownAt(st.objects, u.key, u.slot, b) && ShownAt(st.objects, u.key, u.slot, c)
    && b in st.info && st.info[b].bytes == u.bytes && c in st.info && st.info[c].bytes == v.bytes
    && st.info[b].put != st.info[c].put
  }

  lemma BothInstall(st: State, a: nat, u: Upload, v: Upload, w: seq<bool>, x: seq<bool>, i: nat)
    requires Loaded(st, a, u, v, w, x, i)
    ensures Mixed(Exec(st, [Step.Install(a)] + [Step.Install(a + 1)]), u, v, i)
  {
    hide Safe, Exec;
    var b, c := BufId(u.numa, i), BufId(u.numa, i + 1);
    InstallOne(st, a, u, w, b, [], true);
    var one := Exec(st, [Step.Install(a)]);
    assert [] + [PinnedAt(b)] == [PinnedAt(b)];
    MadeForBoth(one, u, v, [PinnedAt(b)], false);
    InstallOne(one, a + 1, v, x, c, [PinnedAt(b)], false);
    ExecAppend(st, [Step.Install(a)], [Step.Install(a + 1)]);
    var rs := Exec(one, [Step.Install(a + 1)]).objects[u.key].slots[u.slot].replicas;
    assert rs[0].data == Data.Pinned(b) && rs[1].data == Data.Pinned(c);
  }

  // ---------------------------------------------------------------------
  // The result

  /** Node `n` has room for two buffers of the length whenever the put, left alone, takes a step. */
  ghost predicate Roomy(st: State, t: nat, n: nat, len: nat) {
    forall m: nat :: n in Alone(st, t, m).pools && RoomForTwo(Alone(st, t, m).pools[n], len)
  }

  /** From the failure on: two puts of the key, both into the slot. */
  lemma FailedSlotMixes(st: State, t: nat, u: Upload, v: Upload) returns (steps: seq<Step>)
    requires Safe(st) && u.key !in st.objects && Rivals(u, v)
    requires t in st.puts && st.puts[t].key == u.key && st.puts[t].slot == u.slot && st.puts[t].stage.Failed?
    requires u.numa in st.pools && RoomForTwo(st.pools[u.numa], |u.bytes|)
    ensures AllHarmless(steps) && Mixed(Exec(st, steps), u, v, st.pools[u.numa].next)
  {
    hide Safe, Exec, Poised, Loaded, Mixed, RoomForTwo, AllHarmless;
    TwoClaims(st, t, u, v);
    var a, claims := st.next, [u.Start(), Abandon(t)] + [v.Start()];
    var poised := Exec(st, claims);
    var w, x :| Poised(poised, a, u, v, w, x);
    OrderHas(st, u.numa);
    var fills := BothFill(poised, a, u, v, w, x);
    var installs := [Step.Install(a)] + [Step.Install(a + 1)];
    BothInstall(Exec(poised, fills), a, u, v, w, x, st.pools[u.numa].next);
    ExecAppend(st, claims, fills);
    ExecAppend(st, claims + fills, installs);
    steps := claims + fills + installs;
    ClaimsHarmless(t, u, v);
    HarmlessParts(claims, fills);
    InstallsHarmless(a);
    HarmlessParts(claims + fills, installs);
  }

  /** A put that holds slot `i` of a key which is gone: two later puts of that key, with any bytes of one
      length, can both end up in the slot. */
  lemma HeldSlotMixes(st: State, t: nat, i: nat, n: nat, x: seq<Byte>, y: seq<Byte>) returns (steps: seq<Step>, j: nat)
    requires Winding(st, t, i) && Roomy(st, t, n, |x|) && |x| == |y|
    ensures AllHarmless(steps)
    ensures var k := st.puts[t].key; Mixed(Exec(st, steps), Upload(k, i, n, x), Upload(k, i, n, y), j)
  {
    hide Exec, Mixed, RoomForTwo, AllHarmless, Safe, QueuesFit, Alone;
    var u, v := Upload(st.puts[t].key, i, n, x), Upload(st.puts[t].key, i, n, y);
    var m, first := WindUp(st, t, i);
    var failed := Alone(st, t, m);
    var rest := FailedSlotMixes(failed, t, u, v);
    j := failed.pools[n].next;
    ExecAppend(st, first, rest);
    steps := first + rest;
    HarmlessParts(first, rest);
  }

  lemma OrderHas(st: State, n: nat)
    requires Safe(st) && n in st.pools
    ensures Has(st, n)
  {
    hide HeapOk, ObjectsOk, Shaped, PutsOk, GetsOk;
  }

  lemma ClaimsHarmless(t: nat, u: Upload, v: Upload)
    ensures AllHarmless([u.Start(), Abandon(t)] + [v.Start()])
  {
  }

  lemma InstallsHarmless(a: nat)
    ensures AllHarmless([Step.Install(a)] + [Step.Install(a + 1)])
  {
  }

  lemma HarmlessParts(a: seq<Step>, b: seq<Step>)
    requires AllHarmless(a) && AllHarmless(b)
    ensures AllHarmless(a + b)
  {
  }

  /** Whatever calm steps follow, all pinned replicas of a slot come from one put. */
  ghost predicate StaysOneWriter(st: State) {
    forall steps | CalmRun(st, steps) :: OneWriter(Exec(st, steps).objects, Exec(st, steps).info)
  }

  /** All pinned replicas of a slot hold the same bytes. */
  ghost predicate Alike(st: State) {
    forall k, i, b, c | ShownAt(st.objects, k, i, b) && ShownAt(st.objects, k, i, c) && b in st.info && c in st.info ::
      st.info[b].bytes == st.info[c].bytes
  }

  ghost predicate StaysAlike(st: State) {
    forall steps | CalmRun(st, steps) :: Alike(Exec(st, steps))
  }

  lemma {:induction false} CalmWriteOnce(st: State, steps: seq<Step>)
    requires Safe(st) && WriteOnce(st) && CalmRun(st, steps)
    ensures Safe(Exec(st, steps)) && WriteOnce(Exec(st, steps))
  {
    hide WriteOnce, Calm, Safe, Apply;
    if steps != [] {
      var init := steps[..|steps| - 1];
      CalmWriteOnce(st, init);
      LocalRuns.StepSafe(Exec(st, init), steps[|steps| - 1]);
      StepKeeps(Exec(st, init), steps[|steps| - 1]);
    }
  }

  lemma MixedWriters(st: State, u: Upload, v: Upload, i: nat)
    requires Mixed(st, u, v, i)
    ensures !OneWriter(st.objects, st.info) && (u.bytes != v.bytes ==> !Alike(st))
  {
  }

  lemma RemovedWinds(st: State, keys: set<Key>, t: nat, k: Key, i: int, spec: ObjectSpec)
    requires Sound(st) && Owner(st.puts, t, k, i, spec) && k in keys
    ensures i >= 0 && Winding(Next(st, Remove(keys)), t, i) && Next(st, Remove(keys)).puts[t].key == k
  {
    hide Safe, QueuesFit, WriteOnce;
    LocalRuns.StepSafe(st, Remove(keys));
    StepFits(st, Remove(keys));
  }

  /** After a remove every slot keeps one writer, and the same bytes in all its pinned replicas, on every
      calm continuation, exactly when no put held a claim on a removed key; provided some node keeps room
      for two buffers while such a put winds up. */
  lemma OneWriterExactly(st: State, keys: set<Key>, n: nat, len: nat)
    requires Sound(st)
    requires forall t, k, i, spec | Owner(st.puts, t, k, i, spec) && k in keys :: Roomy(Next(st, Remove(keys)), t, n, len)
    ensures StaysOneWriter(Next(st, Remove(keys))) <==> Calm(st, Remove(keys))
    ensures len > 0 ==> (StaysAlike(Next(st, Remove(keys))) <==> Calm(st, Remove(keys)))
  {
    hide Safe, WriteOnce, QueuesFit, Exec, OneWriter, Roomy, Winding, CalmRun, AllHarmless, Mixed, Alike;
    var now := Next(st, Remove(keys));
    if Calm(st, Remove(keys)) {
      LocalRuns.StepSafe(st, Remove(keys));
      StepKeeps(st, Remove(keys));
      forall steps | CalmRun(now, steps)
        ensures OneWriter(Exec(now, steps).objects, Exec(now, steps).info) && Alike(Exec(now, steps))
      {
        CalmWriteOnce(now, steps);
        WriterOf(Exec(now, steps));
      }
    } else {
      var t, k, i, spec :| Owner(st.puts, t, k, i, spec) && k in keys;
      RemovedWinds(st, keys, t, k, i, spec);
      var x: seq<Byte>, y: seq<Byte> := seq(len, j => 0), seq(len, j => 1);
      assert len > 0 ==> x[0] != y[0];
      var steps, j := HeldSlotMixes(now, t, i, n, x, y);
      HarmlessRun(now, steps);
      MixedWriters(Exec(now, steps), Upload(k, i, n, x), Upload(k, i, n, y), j);
    }
  }

  lemma WriterOf(st: State)
    requires WriteOnce(st)
    ensures OneWriter(st.objects, st.info) && Alike(st)
  {
  }
}
