/** Where a put of the single-node backend puts its slots, over every run. */
module LocalPlacement {
  import opened Types
  import opened LocalData
  import opened LocalMachine
  import LocalRuns
  import Pinned = PinnedRuns

  function AsTarget(p: Placed): Target { Target(p.buf.numa, p.misplaced) }

  function AsTargets(ps: seq<Placed>): (r: seq<Target>)
    ensures |r| == |ps| && forall i | 0 <= i < |r| :: r[i] == AsTarget(ps[i])
  {
    seq(|ps|, i requires 0 <= i < |ps| => AsTarget(ps[i]))
  }

  predicate Searching(s: Stage) { s.Asking? || s.Scanning? || s.Retrying? }

  ghost predicate IsSuffix(a: seq<Target>, b: seq<Target>) {
    |a| <= |b| && a == b[|b| - |a|..]
  }

  /** Under `Each` the buffers so far and the targets to come are the resolved list; otherwise one
      buffer ends the search, and it is for one of the resolved targets. */
  ghost predicate OnCourse(p: Put, order: seq<nat>) {
    (Searching(p.stage) || p.stage.Copying?) ==>
      && Working(p) && Targets(order, p.spec.slots[p.slot].placement).Some?
      && var all := Targets(order, p.spec.slots[p.slot].placement).value;
         if EachPlaced(p) then AsTargets(p.placed) + Todo(p.stage) == all
         else if p.stage.Copying? then |p.placed| == 1 && AsTarget(p.placed[0]) in all
         else p.placed == [] && IsSuffix(Todo(p.stage), all)
  }

  ghost predicate AllOnCourse(st: State) {
    forall t | t in st.puts :: OnCourse(st.puts[t], st.order) && (st.puts[t].stage.Idle? ==> st.puts[t].placed == [])
  }

  lemma StartOnCourse(st: State, p: Put)
    requires Working(p) && p.placed == []
    ensures OnCourse(Started(st, p), st.order)
  {
    hide Targets;
    assert AsTargets([]) == [];
  }

  lemma GotOnCourse(p: Put, b: BufId, order: seq<nat>)
    requires OnCourse(p, order) && Searching(p.stage) && Working(p) && Todo(p.stage) != []
    requires b.numa == Todo(p.stage)[0].numa
    ensures OnCourse(Got(p, b), order)
  {
    hide Targets;
    var todo, q := Todo(p.stage), Got(p, b);
    assert AsTarget(Placed(todo[0].misplaced, b)) == todo[0];
    if EachPlaced(p) {
      assert AsTargets(q.placed) == AsTargets(p.placed) + [todo[0]];
      assert todo == [todo[0]] + todo[1..];
      assert AsTargets(p.placed) + todo == (AsTargets(p.placed) + [todo[0]]) + todo[1..];
    }
  }

  lemma MissedOnCourse(p: Put, order: seq<nat>)
    requires OnCourse(p, order) && Searching(p.stage) && Working(p) && Todo(p.stage) != []
    ensures OnCourse(Missed(p), order)
  {
    hide Targets;
  }

  lemma AnsweredOnCourse(p: Put, pool: Pinned.PoolState, order: seq<nat>)
    requires OnCourse(p, order) && Working(p) && Todo(p.stage) != []
    ensures OnCourse(Answered(p, pool), order) && !Answered(p, pool).stage.Idle?
  {
    hide Targets, Fits, OnCourse, Got, Missed;
    GotOnCourse(p, BufId(Todo(p.stage)[0].numa, pool.next), order);
    MissedOnCourse(p, order);
    RestageOnCourse(p, Scanning(Todo(p.stage)), order);
    AnsweredStage(p, pool);
  }

  lemma AnsweredStage(p: Put, pool: Pinned.PoolState)
    requires Working(p) && Todo(p.stage) != []
    ensures !Answered(p, pool).stage.Idle?
  {
    hide Fits;
  }

  lemma RestageOnCourse(p: Put, s: Stage, order: seq<nat>)
    requires OnCourse(p, order) && Todo(p.stage) != [] && Todo(s) == Todo(p.stage)
    ensures OnCourse(p.(stage := s), order)
  {
    hide Targets;
  }

  lemma CopiedOnCourse(p: Put, n: nat, order: seq<nat>)
    requires OnCourse(p, order) && p.stage.Copying? && Working(p)
    ensures OnCourse(Copied(p, n), order)
  {
    hide Targets;
  }

  lemma OnePutOnCourse(st: State, now: State, t: nat)
    requires AllOnCourse(st) && now.order == st.order && LocalRuns.OnePut(st.puts, now.puts, t)
    requires OnCourse(now.puts[t], st.order) && (now.puts[t].stage.Idle? ==> now.puts[t].placed == [])
    ensures AllOnCourse(now)
  {
    hide OnCourse;
  }

  lemma SameOrder(st: State, s: Step)
    requires Enabled(st, s)
    ensures Next(st, s).order == st.order
  {
    hide Enabled, LocalData.Claim, Writable, Started, LocalData.Scan, Queue, Sealed, LocalData.Install, Unclaim, Write,
         Fits, Pinned.Next, Answered, LocalData.Publish, LocalData.Retire;
  }

  lemma PutStepOnCourse(st: State, s: Step)
    requires AllOnCourse(st) && Enabled(st, s) && (s.Skip? || s.Begin? || s.Copy? || s.CopyFails? || s.Abandon? || s.Install?)
    ensures var p := Next(st, s).puts[s.put]; OnCourse(p, st.order) && (p.stage.Idle? ==> p.placed == [])
  {
    hide OnCourse, Started, Copied, Queue, Sealed, LocalData.Install, Unclaim, Write, Where;
    var p := st.puts[s.put];
    assert OnCourse(p, st.order);
    OffCourse(p, st.order);
    if s.Begin? {
      StartOnCourse(st, p);
      StartedStage(st, p);
    } else if s.Copy? {
      CopiedOnCourse(p, s.n, st.order);
      CopiedStage(p, s.n);
    }
  }

  lemma OffCourse(p: Put, order: seq<nat>)
    ensures OnCourse(GiveUp(p), order) && OnCourse(Advance(p), order)
  {
  }

  lemma StartedStage(st: State, p: Put)
    requires Working(p)
    ensures !Started(st, p).stage.Idle?
  {
    hide Targets;
  }

  lemma CopiedStage(p: Put, n: nat)
    requires p.stage.Copying? && Working(p)
    ensures Copied(p, n).stage.Copying?
  {
  }

  lemma ScanOnCourse(st: State, t: nat)
    requires AllOnCourse(st) && Enabled(st, Step.Scan(t))
    ensures var p := ScanDone(st, t).puts[t]; OnCourse(p, st.order) && !p.stage.Idle?
  {
    hide OnCourse, LocalData.Scan;
    var p := st.puts[t];
    assert OnCourse(p, st.order);
    RestageOnCourse(p, Retrying(Todo(p.stage), Sweep(st, t).evicted), st.order);
  }

  lemma AllocOnCourse(st: State, t: nat)
    requires AllOnCourse(st) && Enabled(st, TryAlloc(t))
    ensures var p := Allocated(st, t).puts[t]; OnCourse(p, st.order) && !p.stage.Idle?
  {
    hide OnCourse, Answered, Fits, Pinned.Next;
    var p := st.puts[t];
    assert OnCourse(p, st.order);
    AnsweredOnCourse(p, st.pools[Todo(p.stage)[0].numa], st.order);
  }

  lemma OtherOnCourse(st: State, s: Step)
    requires AllOnCourse(st) && Enabled(st, s)
    requires s.Claim? || s.Return? || s.Open? || s.Read? || s.Close? || s.Publish? || s.Retire? || s.Remove? || s.Release?
    ensures AllOnCourse(Next(st, s))
  {
    hide Next, OnCourse;
    SameOrder(st, s);
    LocalRuns.PutsAlone(st, s);
    forall t | t in Next(st, s).puts
      ensures OnCourse(Next(st, s).puts[t], st.order)
    {
      IdleOnCourse(Next(st, s).puts[t], st.order);
    }
  }

  lemma IdleOnCourse(p: Put, order: seq<nat>)
    ensures p.stage.Idle? ==> OnCourse(p, order)
  {
  }

  lemma StepOnCourse(st: State, s: Step)
    requires AllOnCourse(st)
    ensures AllOnCourse(Apply(st, s))
  {
    hide AllOnCourse, Next, OnCourse, LocalRuns.OnePut, Allocated, ScanDone;
    if Enabled(st, s) {
      SameOrder(st, s);
      if s.TryAlloc? {
        LocalRuns.AllocPuts(st, s.put);
        AllocOnCourse(st, s.put);
        NextAlloc(st, s.put);
        OnePutOnCourse(st, Next(st, s), s.put);
      } else if s.Scan? {
        LocalRuns.OtherPuts(st, s);
        ScanOnCourse(st, s.put);
        NextScan(st, s.put);
        OnePutOnCourse(st, Next(st, s), s.put);
      } else if s.Skip? || s.Begin? || s.Copy? || s.CopyFails? || s.Install? || s.Abandon? {
        LocalRuns.OtherPuts(st, s);
        PutStepOnCourse(st, s);
        OnePutOnCourse(st, Next(st, s), s.put);
      } else {
        OtherOnCourse(st, s);
      }
    }
  }

  lemma NextAlloc(st: State, t: nat)
    requires Enabled(st, TryAlloc(t))
    ensures Next(st, TryAlloc(t)) == Allocated(st, t)
  {
    hide Allocated;
  }

  lemma NextScan(st: State, t: nat)
    requires Enabled(st, Step.Scan(t))
    ensures Next(st, Step.Scan(t)) == ScanDone(st, t)
  {
    hide ScanDone;
  }

  lemma {:induction false} RunOnCourse(st: State, steps: seq<Step>)
    requires Initial(st)
    ensures AllOnCourse(Exec(st, steps)) && Exec(st, steps).order == st.order
  {
    hide Apply, AllOnCourse, Initial;
    if steps == [] {
      NoPuts(st);
    } else {
      var was := Exec(st, steps[..|steps| - 1]);
      RunOnCourse(st, steps[..|steps| - 1]);
      StepOnCourse(was, steps[|steps| - 1]);
      ApplyOrder(was, steps[|steps| - 1]);
    }
  }

  lemma NoPuts(st: State)
    requires Initial(st)
    ensures AllOnCourse(st)
  {
  }

  lemma ApplyOrder(st: State, s: Step)
    ensures Apply(st, s).order == st.order
  {
    hide Next, Enabled;
    if Enabled(st, s) { SameOrder(st, s); }
  }

  // ---------------------------------------------------------------------
  // What an installed slot shows

  /** One copy where asked (Strict), one copy marked misplaced exactly when it is elsewhere (Prefer), one
      copy per listed device in order (Each), one copy anywhere (Anywhere). */
  ghost predicate Follows(rs: seq<Replica>, p: Placement, order: seq<nat>) {
    && (forall i | 0 <= i < |rs| :: rs[i].device.Cpu? && rs[i].device.numa in order && rs[i].tier == Dram && rs[i].data.Pinned?)
    && match p
       case Strict(d) => |rs| == 1 && rs[0].device == d && !rs[0].misplaced
       case Prefer(d) => |rs| == 1 && (rs[0].misplaced <==> rs[0].device != d)
       case Each(ds) => |rs| == |ds| && forall i | 0 <= i < |ds| :: rs[i].device == ds[i] && !rs[i].misplaced
       case Anywhere => |rs| == 1 && !rs[0].misplaced
  }

  lemma PlacedFollow(p: Put, order: seq<nat>)
    requires OnCourse(p, order) && p.stage.Copying? && Working(p)
    ensures Follows(FreshReplicas(p.placed), p.spec.slots[p.slot].placement, order)
  {
    var all := Targets(order, p.spec.slots[p.slot].placement).value;
    var rs := FreshReplicas(p.placed);
    if EachPlaced(p) {
      assert AsTargets(p.placed) + [] == AsTargets(p.placed);
      assert AsTargets(p.placed) == all;
      forall i | 0 <= i < |rs|
        ensures AsTarget(p.placed[i]) == all[i]
      {
        assert AsTargets(p.placed)[i] == all[i];
      }
    } else {
      var j :| 0 <= j < |all| && all[j] == AsTarget(p.placed[0]);
      assert all[j].numa in order;
    }
  }

  /** In every interleaving, installing a slot shows one replica more per buffer the put has filled, those
      its placement asks for, behind what the slot had; it clears the mark and changes nothing else. */
  lemma InstallFollowsPlacement(st: State, steps: seq<Step>, t: nat)
    requires Initial(st) && Enabled(Exec(st, steps), Step.Install(t))
    requires Exec(st, steps).puts[t].key in Exec(st, steps).objects
    ensures var was := Exec(st, steps);
            var p := was.puts[t];
            var now := Next(was, Step.Install(t)).objects;
            && OnlySlot(was.objects, now, p.key, p.slot) && !now[p.key].slots[p.slot].writing
            && exists rs: seq<Replica> :: Follows(rs, p.spec.slots[p.slot].placement, st.order)
                 && now[p.key].slots[p.slot].replicas == was.objects[p.key].slots[p.slot].replicas + rs
                 && |rs| == |p.placed| && forall j | 0 <= j < |rs| :: rs[j].data == Data.Pinned(p.placed[j].buf)
  {
    hide Exec, Initial, OnCourse, Follows, LocalData.Install, Queue, Sealed;
    RunOnCourse(st, steps);
    var was := Exec(st, steps);
    var p := was.puts[t];
    assert OnCourse(p, st.order);
    PlacedFollow(p, st.order);
    assert Next(was, Step.Install(t)).objects == LocalData.Install(was.objects, p.key, p.slot, FreshReplicas(p.placed));
    InstallExactly(was.objects, p.key, p.slot, FreshReplicas(p.placed));
  }
}
