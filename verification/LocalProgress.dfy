/** Progress: queued entries stay inside their objects, so no step of a put is ever blocked, and a put
    returns as long as no other put installs. */
module LocalProgress {
  import opened Types
  import opened LocalData
  import opened LocalMachine
  import opened LocalSafety
  import opened LocalClaims
  import LocalRuns
  import LocalStore
  import Pinned = PinnedRuns

  // ---------------------------------------------------------------------
  // Queued entries name slots their objects have

  ghost predicate QueuesFit(objects: Objects, fifo: map<nat, seq<Entry>>) {
    forall n | n in fifo :: LocalStore.AllFit(objects, fifo[n])
  }

  /** Every object was there before, with as many slots. */
  ghost predicate NoNarrower(was: Objects, now: Objects) {
    forall k | k in now :: k in was && now[k].spec == was[k].spec && |now[k].slots| == |was[k].slots|
  }

  /** Every entry still queued under a key names one of the spec's slots. */
  ghost predicate WideEnough(fifo: map<nat, seq<Entry>>, key: Key, spec: ObjectSpec) {
    forall n, j | n in fifo && 0 <= j < |fifo[n]| && fifo[n][j].key == key :: fifo[n][j].slot < |spec.slots|
  }

  /** A claim that makes a Cache object gives it a slot for every entry an earlier object left behind. */
  ghost predicate Wide(st: State, s: Step) {
    s.Claim? && s.key !in st.objects && s.spec.retention == Cache ==> WideEnough(st.fifo, s.key, s.spec)
  }

  ghost predicate WideRun(st: State, steps: seq<Step>) {
    steps != [] ==>
      WideRun(st, steps[..|steps| - 1]) && Wide(Exec(st, steps[..|steps| - 1]), steps[|steps| - 1])
  }

  lemma StillFit(was: Objects, now: Objects, queue: seq<Entry>)
    requires LocalStore.AllFit(was, queue) && NoNarrower(was, now)
    ensures LocalStore.AllFit(now, queue)
  {
  }

  lemma AllStillFit(was: Objects, now: Objects, fifo: map<nat, seq<Entry>>)
    requires QueuesFit(was, fifo) && NoNarrower(was, now)
    ensures QueuesFit(now, fifo)
  {
    hide LocalStore.AllFit, NoNarrower;
    forall n | n in fifo ensures LocalStore.AllFit(now, fifo[n]) { StillFit(was, now, fifo[n]); }
  }

  /** Of all steps only a claim that makes a Cache object can leave an entry outside, and it does so
      exactly when the object is narrower than one of the entries queued under its key. */
  lemma ClaimFitsExactly(st: State, key: Key, spec: ObjectSpec)
    requires QueuesFit(st.objects, st.fifo) && key !in st.objects && spec.retention == Cache
    ensures QueuesFit(LocalData.Claim(st.objects, key, spec), st.fifo) <==> WideEnough(st.fifo, key, spec)
  {
    var now := LocalData.Claim(st.objects, key, spec);
    assert |now[key].slots| == |spec.slots| && now[key].spec == spec;
    if QueuesFit(now, st.fifo) {
      forall n, j | n in st.fifo && 0 <= j < |st.fifo[n]| && st.fifo[n][j].key == key
        ensures st.fifo[n][j].slot < |spec.slots|
      {
        assert LocalStore.AllFit(now, st.fifo[n]) && Evictable(now, key);
      }
    }
    if WideEnough(st.fifo, key, spec) {
      forall n | n in st.fifo ensures LocalStore.AllFit(now, st.fifo[n]) {
        assert LocalStore.AllFit(st.objects, st.fifo[n]);
      }
    }
  }

  lemma ClaimFits(st: State, key: Key, spec: ObjectSpec)
    requires QueuesFit(st.objects, st.fifo) && (key in st.objects ==> st.objects[key].spec == spec)
    requires key !in st.objects && spec.retention == Cache ==> WideEnough(st.fifo, key, spec)
    ensures QueuesFit(LocalData.Claim(st.objects, key, spec), st.fifo)
  {
    hide QueuesFit, WideEnough;
    if key in st.objects {
      AllStillFit(st.objects, LocalData.Claim(st.objects, key, spec), st.fifo);
    } else if spec.retention == Cache {
      ClaimFitsExactly(st, key, spec);
    } else {
      ExplicitFits(st, key, spec);
    }
  }

  lemma ExplicitFits(st: State, key: Key, spec: ObjectSpec)
    requires QueuesFit(st.objects, st.fifo) && key !in st.objects && spec.retention != Cache
    ensures QueuesFit(LocalData.Claim(st.objects, key, spec), st.fifo)
  {
    var now := LocalData.Claim(st.objects, key, spec);
    forall n | n in st.fifo ensures LocalStore.AllFit(now, st.fifo[n]) {
      assert LocalStore.AllFit(st.objects, st.fifo[n]);
    }
  }

  lemma ScanKeepsFit(st: State, t: nat)
    requires At(st, t) && Todo(st.puts[t].stage) != [] && Todo(st.puts[t].stage)[0].numa in st.fifo
    requires QueuesFit(st.objects, st.fifo)
    ensures Sweep(st, t).Scanned? && QueuesFit(ScanDone(st, t).objects, ScanDone(st, t).fifo)
  {
    hide LocalStore.AllFit, LocalData.Scan;
    var n := Todo(st.puts[t].stage)[0].numa;
    LocalStore.ScanFits(st.objects, st.fifo[n], Cpu(n), st.puts[t].key);
    LocalStore.ScanSame(st.objects, st.fifo[n], Cpu(n), st.puts[t].key);
    var r := Sweep(st, t);
    AllStillFit(st.objects, r.objects, st.fifo);
  }

  lemma PushFits(objects: Objects, queue: seq<Entry>, e: Entry)
    requires LocalStore.AllFit(objects, queue) && (Evictable(objects, e.key) ==> e.slot < |objects[e.key].slots|)
    ensures LocalStore.AllFit(objects, queue + [e])
  {
  }

  lemma {:induction false} QueueFits(objects: Objects, fifo: map<nat, seq<Entry>>, placed: seq<Placed>, e: Entry)
    requires QueuesFit(objects, fifo) && (Evictable(objects, e.key) ==> e.slot < |objects[e.key].slots|)
    ensures QueuesFit(objects, Queue(fifo, placed, e))
    decreases |placed|
  {
    hide LocalStore.AllFit;
    if placed != [] {
      var n := placed[0].buf.numa;
      LocalStore.EmptyFits(objects);
      PushFits(objects, if n in fifo then fifo[n] else [], e);
      QueueFits(objects, fifo[n := (if n in fifo then fifo[n] else []) + [e]], placed[1..], e);
    }
  }

  lemma InstallFits(st: State, t: nat)
    requires At(st, t) && Indexable(st, t) && QueuesFit(st.objects, st.fifo)
    ensures QueuesFit(Installed(st, t).objects, Installed(st, t).fifo)
  {
    hide QueuesFit, Queue;
    var p := st.puts[t];
    if p.key in st.objects {
      var now := LocalData.Install(st.objects, p.key, p.slot, FreshReplicas(p.placed));
      AllStillFit(st.objects, now, st.fifo);
      QueueFits(now, st.fifo, p.placed, Request(st, t));
    }
  }

  lemma MetadataFits(st: State, s: Step)
    requires Enabled(st, s) && QueuesFit(st.objects, st.fifo)
    requires s.Abandon? || s.Publish? || s.Retire? || s.Remove?
    ensures QueuesFit(Next(st, s).objects, Next(st, s).fifo)
  {
    hide QueuesFit, Retained;
    AllStillFit(st.objects, Next(st, s).objects, st.fifo);
  }

  lemma StepFits(st: State, s: Step)
    requires QueuesFit(st.objects, st.fifo) && Wide(st, s)
    ensures QueuesFit(Apply(st, s).objects, Apply(st, s).fifo)
  {
    hide QueuesFit, WideEnough, LocalData.Claim, Unclaim, LocalData.Publish, LocalData.Retire,
         Started, Answered, Sweep, Installed, ScanDone, Where, Write, Fits;
    if Enabled(st, s) {
      match s
      case Claim(key, spec, data) => ClaimFits(st, key, spec);
      case Scan(t) => ScanKeepsFit(st, t);
      case Install(t) => InstallFits(st, t);
      case _ =>
        if s.Abandon? || s.Publish? || s.Retire? || s.Remove? { MetadataFits(st, s); }
    }
  }

  // ---------------------------------------------------------------------
  // No step of a put is ever blocked

  ghost predicate Sound(st: State) {
    Safe(st) && WriteOnce(st) && QueuesFit(st.objects, st.fifo)
  }

  lemma StepSound(st: State, s: Step)
    requires Sound(st) && Calm(st, s) && Wide(st, s)
    ensures Sound(Apply(st, s))
  {
    hide Safe, WriteOnce, QueuesFit, Calm, Wide, Apply;
    LocalRuns.StepSafe(st, s);
    StepKeeps(st, s);
    StepFits(st, s);
  }

  lemma {:induction false} RunSound(st: State, steps: seq<Step>)
    requires Initial(st) && CalmRun(st, steps) && WideRun(st, steps)
    ensures Sound(Exec(st, steps))
  {
    hide Safe, WriteOnce, Calm, Wide, Apply;
    if steps == [] {
      LocalRuns.InitialSafe(st);
      InitialWriteOnce(st);
    } else {
      var init := steps[..|steps| - 1];
      RunSound(st, init);
      StepSound(Exec(st, init), steps[|steps| - 1]);
    }
  }

  /** What a put does next: one chunk for the rest of a copy. */
  function Upcoming(t: nat, p: Put): Step
    requires InShape(p)
  {
    match p.stage
    case Idle => if p.slot == |p.writable| then Return(t) else if p.writable[p.slot] then Begin(t) else Skip(t)
    case Asking(_) => TryAlloc(t)
    case Scanning(_) => Step.Scan(t)
    case Retrying(_, _) => TryAlloc(t)
    case Copying(j, done) => if j < |p.placed| then Copy(t, |p.data[p.slot]| - done) else Step.Install(t)
    case Failed => Abandon(t)
  }

  predicate InShape(p: Put) {
    && p.slot <= |p.writable| == |p.data| == |p.spec.slots|
    && (!p.stage.Idle? ==> p.slot < |p.data|)
    && (p.stage.Asking? || p.stage.Scanning? || p.stage.Retrying? ==> Todo(p.stage) != [])
    && (p.stage.Copying? ==>
          && p.stage.target <= |p.placed|
          && (p.stage.target < |p.placed| ==> p.stage.done <= |p.data[p.slot]|))
  }

  lemma PutInShape(st: State, t: nat)
    requires Safe(st) && t in st.puts
    ensures InShape(st.puts[t])
    ensures Todo(st.puts[t].stage) != [] ==>
              Todo(st.puts[t].stage)[0].numa in st.pools && Todo(st.puts[t].stage)[0].numa in st.fifo
  {
    hide HeapOk, ObjectsOk, GetsOk, Shaped, Holds, PlacedOk;
  }

  /** A put can always go on, whatever the other threads did. */
  lemma PutReady(st: State, t: nat)
    requires Sound(st) && t in st.puts
    ensures InShape(st.puts[t]) && Enabled(st, Upcoming(t, st.puts[t]))
  {
    hide Safe, ClaimsOk, OneWriter, QueuesFit, NoPinned, LocalData.Scan, Mapped;
    PutInShape(st, t);
    var p := st.puts[t];
    if !p.stage.Idle? { CurrentGuard(st, t); }
    if p.stage.Scanning? { ScanKeepsFit(st, t); }
    if p.stage.Copying? && p.stage.target < |p.placed| {
      LocalRuns.CopiesStayInside(st, t, |p.data[p.slot]| - p.stage.done);
    }
  }

  /** In every run whose removes spare the keys being written and whose claims are wide enough, no put
      is ever stopped by an index that is out of range: its next step is enabled in every state. */
  lemma NeverBlocked(st: State, steps: seq<Step>, t: nat)
    requires Initial(st) && CalmRun(st, steps) && WideRun(st, steps) && t in Exec(st, steps).puts
    ensures var now := Exec(st, steps); InShape(now.puts[t]) && Enabled(now, Upcoming(t, now.puts[t]))
  {
    hide Sound, Exec, InShape, Enabled;
    RunSound(st, steps);
    PutReady(Exec(st, steps), t);
  }

  // ---------------------------------------------------------------------
  // A put returns

  ghost function Go(st: State, t: nat): State {
    if t in st.puts && InShape(st.puts[t]) then Apply(st, Upcoming(t, st.puts[t])) else st
  }

  function Phase(s: Stage): nat {
    match s
    case Idle => 3
    case Copying(_, _) => 1
    case Failed => 0
    case _ => 2
  }

  /** Targets still to ask, or buffers still to fill. */
  function Width(p: Put): nat {
    if p.stage.Copying? && p.stage.target <= |p.placed| then |p.placed| - p.stage.target else |Todo(p.stage)|
  }

  function Backlog(st: State, p: Put): nat {
    if Todo(p.stage) != [] && Todo(p.stage)[0].numa in st.fifo then |st.fifo[Todo(p.stage)[0].numa]| else 0
  }

  function Rank(s: Stage): nat {
    match s
    case Asking(_) => 3
    case Retrying(_, evicted) => if evicted then 2 else 0
    case Scanning(_) => 1
    case _ => 0
  }

  /** The put is nearer its end: slots, then the stage within a slot, then targets, then the entries an
      eviction scan can still pop. */
  ghost predicate Nearer(was: State, p: Put, now: State, q: Put) {
    q.data == p.data && q.slot <= |q.data| &&
    (p.slot < q.slot
     || (p.slot == q.slot &&
         (Phase(q.stage) < Phase(p.stage)
          || (Phase(q.stage) == Phase(p.stage) &&
              (Width(q) < Width(p)
               || (Width(q) == Width(p) &&
                   (Backlog(now, q) < Backlog(was, p)
                    || (Backlog(now, q) == Backlog(was, p) && Rank(q.stage) < Rank(p.stage)))))))))
  }

  /** A scan pops at least the entry whose replica it drops. */
  lemma {:induction false} ScanPops(objects: Objects, queue: seq<Entry>, d: Device, key: Key)
    ensures var r := LocalData.Scan(objects, queue, d, key);
            r.Scanned? ==> |r.queue| <= |queue| && (r.evicted ==> |r.queue| < |queue|)
    decreases |queue|
  {
    hide Evict, HasPinned;
    if queue != [] {
      var e, rest := queue[0], queue[1..];
      if e.key == key || !Evictable(objects, e.key) {
        ScanPops(objects, rest, d, key);
      } else if e.slot < |objects[e.key].slots| {
        ScanPops(Evict(objects, e, d), rest, d, key);
      }
    }
  }

  lemma ScanNearer(st: State, t: nat)
    requires Enabled(st, Step.Scan(t))
    ensures var now := Next(st, Step.Scan(t)); t in now.puts && Nearer(st, st.puts[t], now, now.puts[t])
  {
    hide LocalData.Scan;
    var n := Todo(st.puts[t].stage)[0].numa;
    ScanPops(st.objects, st.fifo[n], Cpu(n), st.puts[t].key);
  }

  lemma AnsweredNearer(st: State, p: Put, pool: Pinned.PoolState, now: State)
    requires Working(p) && (p.stage.Asking? || p.stage.Retrying?) && Todo(p.stage) != [] && now.fifo == st.fifo
    ensures Nearer(st, p, now, Answered(p, pool))
  {
    hide Fits;
  }

  lemma AllocNearer(st: State, t: nat)
    requires Enabled(st, TryAlloc(t))
    ensures var now := Next(st, TryAlloc(t)); t in now.puts && Nearer(st, st.puts[t], now, now.puts[t])
  {
    hide Fits, Pinned.Next, Nearer, Answered;
    AnsweredNearer(st, st.puts[t], st.pools[Todo(st.puts[t].stage)[0].numa], Allocated(st, t));
  }

  /** A slot that was not writable, is installed or has failed is behind the put. */
  lemma SlotDone(st: State, s: Step, t: nat)
    requires Enabled(st, s) && (s == Skip(t) || s == Step.Install(t) || s == Abandon(t))
    requires s.Install? ==> st.puts[t].key in st.objects
    ensures Next(st, s).puts == st.puts[t := Advance(st.puts[t])]
  {
    hide Queue, Sealed, LocalData.Install, Unclaim, FreshReplicas;
  }

  lemma AdvanceNearer(st: State, p: Put, now: State)
    requires p.slot < |p.data|
    ensures Nearer(st, p, now, Advance(p))
  {
  }

  lemma BeginNearer(st: State, t: nat)
    requires Enabled(st, Begin(t))
    ensures var now := Next(st, Begin(t)); t in now.puts && Nearer(st, st.puts[t], now, now.puts[t])
  {
    hide Targets;
  }

  lemma CopyNearer(st: State, t: nat)
    requires t in st.puts && InShape(st.puts[t]) && st.puts[t].stage.Copying?
    requires st.puts[t].stage.target < |st.puts[t].placed|
    requires Enabled(st, Copy(t, |st.puts[t].data[st.puts[t].slot]| - st.puts[t].stage.done))
    ensures var now := Next(st, Copy(t, |st.puts[t].data[st.puts[t].slot]| - st.puts[t].stage.done));
            t in now.puts && Nearer(st, st.puts[t], now, now.puts[t])
  {
    hide Write, Where, Mapped;
  }

  lemma OtherNearer(st: State, t: nat)
    requires t in st.puts && InShape(st.puts[t]) && Enabled(st, Upcoming(t, st.puts[t]))
    requires !st.puts[t].stage.Asking? && !st.puts[t].stage.Scanning? && !st.puts[t].stage.Retrying?
    requires !Upcoming(t, st.puts[t]).Return? && (!st.puts[t].stage.Idle? ==> st.puts[t].key in st.objects)
    ensures var now := Next(st, Upcoming(t, st.puts[t])); t in now.puts && Nearer(st, st.puts[t], now, now.puts[t])
  {
    hide Enabled, Next, Nearer;
    var p := st.puts[t];
    var s := Upcoming(t, p);
    if s.Begin? {
      BeginNearer(st, t);
    } else if s.Copy? {
      CopyNearer(st, t);
    } else {
      SlotDone(st, s, t);
      AdvanceNearer(st, p, Next(st, s));
    }
  }

  lemma GoNearer(st: State, t: nat)
    requires Sound(st) && t in st.puts
    ensures Sound(Go(st, t))
    ensures t in Go(st, t).puts ==> Nearer(st, st.puts[t], Go(st, t), Go(st, t).puts[t])
  {
    hide Safe, ClaimsOk, OneWriter, QueuesFit, Nearer, InShape, Enabled, Next, NoPinned;
    PutReady(st, t);
    PutInShape(st, t);
    var p := st.puts[t];
    var s := Upcoming(t, p);
    assert Calm(st, s) && Wide(st, s);
    StepSound(st, s);
    if !p.stage.Idle? { CurrentGuard(st, t); }
    match p.stage
    case Asking(_) => AllocNearer(st, t);
    case Retrying(_, _) => AllocNearer(st, t);
    case Scanning(_) => ScanNearer(st, t);
    case _ =>
      if s.Return? { ReturnEnds(st, t); } else { OtherNearer(st, t); }
  }

  lemma ReturnEnds(st: State, t: nat)
    requires Enabled(st, Return(t))
    ensures t !in Next(st, Return(t)).puts
  {
  }

  // ---------------------------------------------------------------------
  // What others do meanwhile

  /** No step of put `t`, except that its copy may fail, and no install of another put. */
  predicate Outside(s: Step, t: nat) {
    && !s.Install?
    && (s.Skip? || s.Begin? || s.TryAlloc? || s.Scan? || s.Copy? || s.Abandon? || s.Return? ==> s.put != t)
  }

  ghost predicate NoFarther(was: State, p: Put, now: State, q: Put) {
    || Nearer(was, p, now, q)
    || (q.data == p.data && q.slot == p.slot && Phase(q.stage) == Phase(p.stage) && Width(q) == Width(p)
        && Backlog(now, q) == Backlog(was, p) && Rank(q.stage) == Rank(p.stage))
  }

  lemma NearerAfter(a: State, p: Put, b: State, q: Put, c: State, r: Put)
    requires NoFarther(a, p, b, q) && Nearer(b, q, c, r)
    ensures Nearer(a, p, c, r)
  {
    hide Phase, Width, Backlog, Rank;
  }

  lemma NoFartherTwice(a: State, p: Put, b: State, q: Put, c: State, r: Put)
    requires NoFarther(a, p, b, q) && NoFarther(b, q, c, r)
    ensures NoFarther(a, p, c, r)
  {
    hide Phase, Width, Backlog, Rank;
  }

  lemma AllocFifo(st: State, t: nat)
    requires Enabled(st, TryAlloc(t))
    ensures Allocated(st, t).fifo == st.fifo
  {
    hide Fits, Pinned.Next, Answered;
  }

  lemma SameFifo(st: State, s: Step)
    requires Enabled(st, s) && !s.Scan? && !s.Install?
    ensures Next(st, s).fifo == st.fifo
  {
    if s.TryAlloc? {
      hide Allocated;
      AllocFifo(st, s.put);
    } else {
      hide Enabled, LocalData.Claim, Writable, Started, Unclaim, Write, Pinned.Next, LocalData.Publish, LocalData.Retire;
    }
  }

  lemma ScanFifo(st: State, t: nat)
    requires Enabled(st, Step.Scan(t))
    ensures var now := Next(st, Step.Scan(t));
            now.fifo.Keys == st.fifo.Keys && forall n | n in st.fifo :: |now.fifo[n]| <= |st.fifo[n]|
  {
    hide LocalData.Scan;
    var n := Todo(st.puts[t].stage)[0].numa;
    ScanPops(st.objects, st.fifo[n], Cpu(n), st.puts[t].key);
  }

  lemma OutsidePut(st: State, s: Step, t: nat)
    requires Enabled(st, s) && Outside(s, t) && t in st.puts && t < st.next && s != CopyFails(t)
    ensures t in Next(st, s).puts && Next(st, s).puts[t] == st.puts[t]
  {
    hide LocalData.Claim, Allocated, Started, ScanDone, Wrote, Unclaim, Writable, LocalData.Publish, LocalData.Retire, Pinned.Next;
    if s.TryAlloc? {
      LocalRuns.AllocPuts(st, s.put);
    } else if s.Skip? || s.Begin? || s.Scan? || s.Copy? || s.CopyFails? || s.Abandon? {
      LocalRuns.OtherPuts(st, s);
    }
  }

  lemma SamePutNoFarther(st: State, p: Put, now: State)
    requires now.fifo.Keys == st.fifo.Keys && forall n | n in st.fifo :: |now.fifo[n]| <= |st.fifo[n]|
    requires p.slot <= |p.data|
    ensures NoFarther(st, p, now, p)
  {
  }

  lemma OutsideStep(st: State, s: Step, t: nat)
    requires Safe(st) && t in st.puts && Outside(s, t)
    ensures t in Apply(st, s).puts && NoFarther(st, st.puts[t], Apply(st, s), Apply(st, s).puts[t])
  {
    hide Safe, Enabled, Next, NoFarther, PutOk;
    PutAt(st, t);
    SamePutNoFarther(st, st.puts[t], st);
    if Enabled(st, s) {
      if s == CopyFails(t) {
        FailNearer(st, t);
      } else {
        OutsidePut(st, s, t);
        if s.Scan? { ScanFifo(st, s.put); } else { SameFifo(st, s); }
        SamePutNoFarther(st, st.puts[t], Next(st, s));
      }
    }
  }

  lemma FailNearer(st: State, t: nat)
    requires Enabled(st, CopyFails(t))
    ensures var now := Next(st, CopyFails(t)); t in now.puts && NoFarther(st, st.puts[t], now, now.puts[t])
  {
  }

  /** A stretch of outside steps that is calm and wide. */
  ghost predicate Polite(st: State, t: nat, steps: seq<Step>) {
    (forall i | 0 <= i < |steps| :: Outside(steps[i], t)) && CalmRun(st, steps) && WideRun(st, steps)
  }

  lemma {:induction false} OutsideRun(st: State, t: nat, steps: seq<Step>)
    requires Sound(st) && t in st.puts && Polite(st, t, steps)
    ensures Sound(Exec(st, steps)) && t in Exec(st, steps).puts
    ensures NoFarther(st, st.puts[t], Exec(st, steps), Exec(st, steps).puts[t])
  {
    hide Safe, WriteOnce, QueuesFit, NoFarther, Outside, Calm, Wide, Apply;
    if steps == [] {
      StillThere(st, t);
    } else {
      var front, s := steps[..|steps| - 1], steps[|steps| - 1];
      assert forall i | 0 <= i < |front| :: front[i] == steps[i];
      OutsideRun(st, t, front);
      var mid := Exec(st, front);
      StepSound(mid, s);
      OutsideStep(mid, s, t);
      NoFartherTwice(st, st.puts[t], mid, mid.puts[t], Apply(mid, s), Apply(mid, s).puts[t]);
    }
  }

  lemma StillThere(st: State, t: nat)
    requires t in st.puts
    ensures NoFarther(st, st.puts[t], st, st.puts[t])
  {
  }

  /** `n` steps of put `t`, each after the stretch of outside steps that `plan` has for it. */
  ghost function Shared(st: State, t: nat, plan: nat -> seq<Step>, n: nat): State {
    if n == 0 then st else Go(Exec(Shared(st, t, plan, n - 1), plan(n - 1)), t)
  }

  lemma RoundNearer(st: State, t: nat, steps: seq<Step>)
    requires Sound(st) && t in st.puts && Polite(st, t, steps)
    ensures var now := Go(Exec(st, steps), t);
            Sound(now) && (t in now.puts ==> Nearer(st, st.puts[t], now, now.puts[t]))
  {
    hide Sound, Polite, Nearer, NoFarther, Go, Exec;
    OutsideRun(st, t, steps);
    var mid := Exec(st, steps);
    GoNearer(mid, t);
    var now := Go(mid, t);
    if t in now.puts { NearerAfter(st, st.puts[t], mid, mid.puts[t], now, now.puts[t]); }
  }

  lemma {:induction false} ReturnsFrom(st: State, t: nat, plan: nat -> seq<Step>, i: nat) returns (n: nat)
    requires forall j: nat :: Polite(Shared(st, t, plan, j), t, plan(j))
    requires Sound(Shared(st, t, plan, i)) && t in Shared(st, t, plan, i).puts
    ensures t !in Shared(st, t, plan, n).puts
    decreases var now := Shared(st, t, plan, i);
              if now.puts[t].slot <= |now.puts[t].data| then |now.puts[t].data| - now.puts[t].slot else 0,
              Phase(Shared(st, t, plan, i).puts[t].stage), Width(Shared(st, t, plan, i).puts[t]),
              Backlog(Shared(st, t, plan, i), Shared(st, t, plan, i).puts[t]),
              Rank(Shared(st, t, plan, i).puts[t].stage)
  {
    hide Sound, Polite, Go, Phase, Width, Backlog, Rank, Exec;
    RoundNearer(Shared(st, t, plan, i), t, plan(i));
    if t in Shared(st, t, plan, i + 1).puts {
      n := ReturnsFrom(st, t, plan, i + 1);
    } else {
      n := i + 1;
    }
  }

  /** From every sound state a put returns after finitely many steps of its own, whatever calm and wide
      steps of others come between them, as long as no other put installs: reads, releases, removals,
      claims, and other puts' allocations, scans and copies included. Its eviction loops cannot go round
      forever, because each round consumes a queued entry and only installs queue new ones. */
  lemma PutReturns(st: State, t: nat, plan: nat -> seq<Step>) returns (n: nat)
    requires Sound(st) && t in st.puts
    requires forall j: nat :: Polite(Shared(st, t, plan, j), t, plan(j))
    ensures t !in Shared(st, t, plan, n).puts
  {
    n := ReturnsFrom(st, t, plan, 0);
  }
}
