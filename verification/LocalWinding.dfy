/** A put whose key has been removed under it: it still works off every slot it holds. */
module LocalWinding {
  import opened Types
  import opened LocalData
  import opened LocalMachine
  import opened LocalSafety
  import opened LocalClaims
  import opened LocalProgress
  import opened LocalPanics
  import LocalRuns
  import LocalStore
  import Pinned = PinnedRuns

  ghost function Alone(st: State, t: nat, m: nat): State
    decreases m
  {
    if m == 0 then st else Alone(Go(st, t), t, m - 1)
  }

  /** The object is gone and the put still has to come to slot `i`. */
  ghost predicate Winding(st: State, t: nat, i: nat) {
    && Safe(st) && QueuesFit(st.objects, st.fifo)
    && t in st.puts && st.puts[t].key !in st.objects && Holding(st.puts[t], i)
  }

  lemma WindReady(st: State, t: nat, i: nat)
    requires Winding(st, t, i)
    ensures InShape(st.puts[t]) && Enabled(st, Upcoming(t, st.puts[t])) && !Upcoming(t, st.puts[t]).Return?
  {
    hide Safe, QueuesFit, LocalData.Scan, Mapped;
    PutInShape(st, t);
    var p := st.puts[t];
    if p.stage.Scanning? { ScanKeepsFit(st, t); }
    if p.stage.Copying? && p.stage.target < |p.placed| {
      LocalRuns.CopiesStayInside(st, t, |p.data[p.slot]| - p.stage.done);
    }
  }

  predicate OwnStep(s: Step, t: nat) {
    (s.Skip? || s.Begin? || s.TryAlloc? || s.Scan? || s.Copy? || s.Install? || s.Abandon?) && s.put == t
  }

  lemma AnsweredFixed(p: Put, pool: Pinned.PoolState)
    requires Working(p) && Todo(p.stage) != []
    ensures var q := Answered(p, pool); q.key == p.key && q.writable == p.writable && q.slot == p.slot
  {
    hide Fits;
  }

  lemma AllocFixed(st: State, t: nat)
    requires Enabled(st, TryAlloc(t))
    ensures var now := Allocated(st, t);
            && t in now.puts && now.objects == st.objects
            && now.puts[t].key == st.puts[t].key && now.puts[t].writable == st.puts[t].writable && now.puts[t].slot == st.puts[t].slot
  {
    hide Fits, Pinned.Next, Answered;
    AnsweredFixed(st.puts[t], st.pools[Todo(st.puts[t].stage)[0].numa]);
  }

  /** A step of a put whose object is gone. */
  lemma OwnFixed(st: State, s: Step, t: nat)
    requires Enabled(st, s) && OwnStep(s, t) && st.puts[t].key !in st.objects
    ensures var now := Next(st, s);
            && t in now.puts && now.puts[t].key == st.puts[t].key && now.puts[t].writable == st.puts[t].writable
            && now.puts[t].slot == (if s.Skip? || s.Abandon? then st.puts[t].slot + 1 else st.puts[t].slot)
            && (s.Install? ==> now.puts[t].stage.Failed?)
            && now.objects.Keys <= st.objects.Keys
  {
    hide Targets, LocalData.Scan, Write, Where, Allocated;
    if s.TryAlloc? { AllocFixed(st, t); }
    if s.Scan? { SweepKeys(st, t); }
  }

  lemma SweepKeys(st: State, t: nat)
    requires Enabled(st, Step.Scan(t))
    ensures Sweep(st, t).objects.Keys <= st.objects.Keys
  {
    hide LocalData.Scan;
    var n := Todo(st.puts[t].stage)[0].numa;
    LocalStore.ScanSame(st.objects, st.fifo[n], Cpu(n), st.puts[t].key);
  }

  lemma FailedNearer(st: State, p: Put, now: State, q: Put)
    requires p.stage.Copying? && q.stage.Failed? && q.data == p.data && q.slot == p.slot <= |p.data|
    ensures Nearer(st, p, now, q)
  {
  }

  lemma WindNearer(st: State, t: nat, i: nat)
    requires Winding(st, t, i) && !(st.puts[t].slot == i && st.puts[t].stage.Failed?)
    ensures InShape(st.puts[t]) && Harmless(Upcoming(t, st.puts[t])) && Go(st, t) == Apply(st, Upcoming(t, st.puts[t]))
    ensures Winding(Go(st, t), t, i) && Nearer(st, st.puts[t], Go(st, t), Go(st, t).puts[t])
  {
    hide Safe, QueuesFit, Nearer, Enabled, Next, InShape;
    WindReady(st, t, i);
    PutInShape(st, t);
    var p := st.puts[t];
    var s := Upcoming(t, p);
    StepsOwn(t, p);
    LocalRuns.StepSafe(st, s);
    StepFits(st, s);
    OwnFixed(st, s, t);
    SkipsUnwritable(st, t);
    if p.stage.Asking? || p.stage.Retrying? {
      AllocNearer(st, t);
    } else if p.stage.Scanning? {
      ScanNearer(st, t);
    } else if s.Install? {
      LocalRuns.OtherPuts(st, s);
      InstallStage(st, t);
      PutAt(st, t);
      FailedNearer(st, p, Next(st, s), Next(st, s).puts[t]);
    } else {
      LoneNearer(st, t);
    }
  }

  lemma StepsOwn(t: nat, p: Put)
    requires InShape(p) && !Upcoming(t, p).Return?
    ensures OwnStep(Upcoming(t, p), t) && Harmless(Upcoming(t, p))
  {
  }

  lemma SkipsUnwritable(st: State, t: nat)
    requires t in st.puts && InShape(st.puts[t]) && !Upcoming(t, st.puts[t]).Return?
    ensures Upcoming(t, st.puts[t]).Skip? ==> !st.puts[t].writable[st.puts[t].slot]
    ensures Upcoming(t, st.puts[t]).Abandon? ==> st.puts[t].stage.Failed?
  {
  }

  lemma InstallStage(st: State, t: nat)
    requires Enabled(st, Step.Install(t))
    ensures st.puts[t].stage.Copying?
  {
  }

  /** The other stages move on as they do while the object is there. */
  lemma LoneNearer(st: State, t: nat)
    requires t in st.puts && InShape(st.puts[t]) && Enabled(st, Upcoming(t, st.puts[t]))
    requires !st.puts[t].stage.Asking? && !st.puts[t].stage.Scanning? && !st.puts[t].stage.Retrying?
    requires !Upcoming(t, st.puts[t]).Return? && !Upcoming(t, st.puts[t]).Install?
    ensures var now := Next(st, Upcoming(t, st.puts[t])); t in now.puts && Nearer(st, st.puts[t], now, now.puts[t])
  {
    hide Enabled, Next, Nearer;
    var p := st.puts[t];
    var s := Upcoming(t, p);
    if s.Begin? {
      BeginNearer(st, t);
    } else if s.Copy? {
      CopyNearer(st, t);
    } else {
      SlotDone(st, s, t);
      AdvanceNearer(st, p, Next(st, s));
    }
  }

  lemma {:induction false} WindUp(st: State, t: nat, i: nat) returns (m: nat, steps: seq<Step>)
    requires Winding(st, t, i)
    ensures AllHarmless(steps) && Exec(st, steps) == Alone(st, t, m)
    ensures var now := Alone(st, t, m);
            Winding(now, t, i) && now.puts[t].slot == i && now.puts[t].stage.Failed? && now.puts[t].key == st.puts[t].key
    decreases if st.puts[t].slot <= |st.puts[t].data| then |st.puts[t].data| - st.puts[t].slot else 0,
              Phase(st.puts[t].stage), Width(st.puts[t]), Backlog(st, st.puts[t]), Rank(st.puts[t].stage)
  {
    hide Safe, QueuesFit, Go, Apply, Phase, Width, Backlog, Rank, Holding;
    if st.puts[t].slot == i && st.puts[t].stage.Failed? {
      m, steps := 0, [];
    } else {
      WindNearer(st, t, i);
      SameKey(st, t, i);
      var s := Upcoming(t, st.puts[t]);
      hide Exec;
      var m', rest := WindUp(Go(st, t), t, i);
      ExecOne(st, s);
      ExecAppend(st, [s], rest);
      m, steps := m' + 1, [s] + rest;
    }
  }

  lemma SameKey(st: State, t: nat, i: nat)
    requires Winding(st, t, i)
    ensures t in Go(st, t).puts ==> Go(st, t).puts[t].key == st.puts[t].key
  {
    hide Safe, QueuesFit, Enabled, Next, InShape, Holding;
    WindReady(st, t, i);
    StepsOwn(t, st.puts[t]);
    OwnFixed(st, Upcoming(t, st.puts[t]), t);
  }
}
