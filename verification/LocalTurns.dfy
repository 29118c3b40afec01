/** In which order a put of the single-node backend tries the nodes, and when it passes on. */
module LocalTurns {
  import opened Types
  import opened LocalData
  import opened LocalMachine
  import opened LocalPlacement
  import opened LocalQueue
  import opened LocalSafety
  import LocalRuns
  import Pinned = PinnedRuns

  // ---------------------------------------------------------------------
  // The list of targets

  ghost function Nodes(ts: seq<Target>): (r: seq<nat>)
    ensures |r| == |ts| && forall i | 0 <= i < |r| :: r[i] == ts[i].numa
  {
    seq(|ts|, i requires 0 <= i < |ts| => ts[i].numa)
  }

  ghost function Not(n: nat): nat -> bool { (m: nat) => m != n }

  lemma {:induction false} OthersSift(order: seq<nat>, n: nat)
    ensures Sifted(order, Nodes(Others(order, n)), Not(n))
  {
    if order == [] {
      assert Nodes(Others(order, n)) == [];
    } else {
      hide Sifted;
      OthersSift(order[1..], n);
      SiftedCons(order, Nodes(Others(order[1..], n)), Not(n));
      assert Nodes(Others(order, n)) == (if Not(n)(order[0]) then [order[0]] else []) + Nodes(Others(order[1..], n));
    }
  }

  /** Strict: the node. Each: the nodes listed, in order. Prefer: the node, then, as misplaced, all others in
      the order of the pools. Anywhere: all, in that order. A device without a pool makes the list fail. */
  ghost predicate Listing(order: seq<nat>, p: Placement, r: Option<seq<Target>>) {
    match p
    case Strict(d) => r == (if d.Cpu? && d.numa in order then Some([Target(d.numa, false)]) else None)
    case Each(ds) =>
      && (r.Some? <==> forall i | 0 <= i < |ds| :: ds[i].Cpu? && ds[i].numa in order)
      && (r.Some? ==> |r.value| == |ds| && forall i | 0 <= i < |ds| :: ds[i] == Cpu(r.value[i].numa) && !r.value[i].misplaced)
    case Prefer(d) =>
      && (r.Some? <==> d.Cpu? && d.numa in order)
      && (r.Some? ==>
            && r.value != [] && r.value[0] == Target(d.numa, false)
            && Sifted(order, Nodes(r.value[1..]), Not(d.numa))
            && forall i | 0 < i < |r.value| :: r.value[i].misplaced)
    case Anywhere => r.Some? && |r.value| == |order| && forall i | 0 <= i < |order| :: r.value[i] == Target(order[i], false)
  }

  lemma {:induction false} ListedAll(order: seq<nat>, ds: seq<Device>)
    ensures Listed(order, ds).Some? <==> forall i | 0 <= i < |ds| :: ds[i].Cpu? && ds[i].numa in order
  {
    if ds != [] {
      ListedAll(order, ds[1..]);
      assert ds == [ds[0]] + ds[1..];
    }
  }

  lemma TargetsExactly(order: seq<nat>, p: Placement)
    ensures Listing(order, p, Targets(order, p))
  {
    hide Sifted;
    match p
    case Strict(d) =>
    case Each(ds) => ListedAll(order, ds);
    case Prefer(d) =>
      if d.Cpu? && d.numa in order {
        OthersSift(order, d.numa);
        var all := Targets(order, p).value;
        assert all[1..] == Others(order, d.numa);
      }
    case Anywhere =>
  }

  // ---------------------------------------------------------------------
  // One target after the other

  /** Step `i` was the put's request for a buffer of slot `slot` at `target`, and it got none. */
  ghost predicate LostAt(st: State, steps: seq<Step>, t: nat, slot: nat, target: Target, i: int) {
    && 0 < i <= |steps| && steps[i - 1] == TryAlloc(t) && Enabled(Exec(st, steps[..i - 1]), TryAlloc(t))
    && (var was := Exec(st, steps[..i - 1]);
        && was.puts[t].slot == slot && Todo(was.puts[t].stage)[0] == target
        && TargetLost(was, Next(was, TryAlloc(t)), t))
  }

  ghost predicate Lost(st: State, steps: seq<Step>, t: nat, slot: nat, target: Target) {
    exists i :: LostAt(st, steps, t, slot, target, i)
  }

  lemma StaysLost(st: State, steps: seq<Step>, s: Step, t: nat, slot: nat, target: Target)
    requires Lost(st, steps, t, slot, target)
    ensures Lost(st, steps + [s], t, slot, target)
  {
    hide Exec, TargetLost, Enabled;
    var i :| LostAt(st, steps, t, slot, target, i);
    assert (steps + [s])[..i - 1] == steps[..i - 1] && (steps + [s])[i - 1] == steps[i - 1];
    assert LostAt(st, steps + [s], t, slot, target, i);
  }

  /** The put is at target `k` of the list, or has its buffer from there. */
  ghost predicate Position(p: Put, all: seq<Target>, k: nat) {
    if p.stage.Copying? then |p.placed| == 1 && k < |all| && AsTarget(p.placed[0]) == all[k]
    else p.placed == [] && k <= |all| && Todo(p.stage) == all[k..]
  }

  predicate OneOf(p: Put) { Working(p) && !EachPlaced(p) && (Searching(p.stage) || p.stage.Copying?) }

  ghost predicate PastLost(st: State, steps: seq<Step>, t: nat, slot: nat, all: seq<Target>, k: nat) {
    k <= |all| && forall m | 0 <= m < k :: Lost(st, steps, t, slot, all[m])
  }

  /** A put that wants one copy has lost every target before the one it is at. */
  ghost predicate InTurn(st: State, steps: seq<Step>, t: nat, p: Put) {
    OneOf(p) ==>
      exists all: seq<Target>, k: nat ::
        Targets(st.order, p.spec.slots[p.slot].placement) == Some(all) && Position(p, all, k) && PastLost(st, steps, t, p.slot, all, k)
  }

  ghost predicate Pure(p: Put) {
    (p.stage.Idle? ==> p.placed == []) && (Searching(p.stage) || p.stage.Copying? ==> Working(p))
    && (Searching(p.stage) ==> Todo(p.stage) != [])
  }

  lemma StillInTurn(st: State, steps: seq<Step>, s: Step, t: nat, p: Put)
    requires InTurn(st, steps, t, p)
    ensures InTurn(st, steps + [s], t, p)
  {
    hide Position, Targets, Lost;
    if OneOf(p) {
      var all: seq<Target>, k: nat :| Targets(st.order, p.spec.slots[p.slot].placement) == Some(all) && Position(p, all, k)
        && PastLost(st, steps, t, p.slot, all, k);
      forall m | 0 <= m < k ensures Lost(st, steps + [s], t, p.slot, all[m]) { StaysLost(st, steps, s, t, p.slot, all[m]); }
      assert PastLost(st, steps + [s], t, p.slot, all, k);
    }
  }

  lemma BeginsInTurn(st: State, steps: seq<Step>, was: State, p: Put, t: nat)
    requires was.order == st.order && Working(p) && p.placed == []
    ensures InTurn(st, steps, t, Started(was, p))
  {
    hide Targets, Lost;
    var q := Started(was, p);
    if OneOf(q) {
      var all := Targets(st.order, p.spec.slots[p.slot].placement).value;
      assert all[0..] == all;
      assert Position(q, all, 0) && PastLost(st, steps, t, q.slot, all, 0);
    }
  }

  /** Same list, same target: a scan, or the next chunk of a copy. */
  lemma RestageInTurn(st: State, steps: seq<Step>, t: nat, p: Put, s: Stage)
    requires InTurn(st, steps, t, p) && OneOf(p) && Todo(s) == Todo(p.stage) && s.Copying? == p.stage.Copying? && Working(p)
    ensures InTurn(st, steps, t, p.(stage := s))
  {
    hide Targets, Lost, PastLost;
    var all: seq<Target>, k: nat :| Targets(st.order, p.spec.slots[p.slot].placement) == Some(all) && Position(p, all, k)
      && PastLost(st, steps, t, p.slot, all, k);
    assert Position(p.(stage := s), all, k);
  }

  lemma GotInTurn(st: State, steps: seq<Step>, t: nat, p: Put, b: BufId)
    requires InTurn(st, steps, t, p) && OneOf(p) && Searching(p.stage) && Todo(p.stage) != [] && b.numa == Todo(p.stage)[0].numa
    ensures InTurn(st, steps, t, Got(p, b))
  {
    hide Targets, Lost, PastLost;
    var all: seq<Target>, k: nat :| Targets(st.order, p.spec.slots[p.slot].placement) == Some(all) && Position(p, all, k)
      && PastLost(st, steps, t, p.slot, all, k);
    assert Todo(p.stage)[0] == all[k];
    assert Position(Got(p, b), all, k);
  }

  lemma MissedInTurn(st: State, steps: seq<Step>, t: nat, p: Put)
    requires InTurn(st, steps, t, p) && OneOf(p) && Searching(p.stage) && Todo(p.stage) != []
    requires Lost(st, steps, t, p.slot, Todo(p.stage)[0])
    ensures InTurn(st, steps, t, Missed(p))
  {
    hide Targets, Lost;
    if OneOf(Missed(p)) {
      var all: seq<Target>, k: nat :| Targets(st.order, p.spec.slots[p.slot].placement) == Some(all) && Position(p, all, k)
        && PastLost(st, steps, t, p.slot, all, k);
      assert Todo(p.stage)[0] == all[k] && Todo(p.stage)[1..] == all[k + 1..];
      assert Position(Missed(p), all, k + 1) && PastLost(st, steps, t, p.slot, all, k + 1);
    }
  }

  ghost predicate AllInTurn(st: State, steps: seq<Step>) {
    var now := Exec(st, steps);
    now.order == st.order && forall t | t in now.puts :: InTurn(st, steps, t, now.puts[t]) && Pure(now.puts[t])
  }

  // ---------------------------------------------------------------------
  // Steps

  lemma MissLoses(st: State, t: nat)
    requires Safe(st) && Enabled(st, TryAlloc(t)) && !Fits(st.pools[Todo(st.puts[t].stage)[0].numa], Need(st.puts[t]))
    requires Answered(st.puts[t], st.pools[Todo(st.puts[t].stage)[0].numa]) == Missed(st.puts[t])
    ensures TargetLost(st, Next(st, TryAlloc(t)), t)
  {
    hide Safe, Fits, Pinned.Next, Answered;
    AllocAnswer(st, t);
    assert Next(st, TryAlloc(t)) == Allocated(st, t);
  }

  lemma LostNow(st: State, steps: seq<Step>, t: nat)
    requires Safe(Exec(st, steps)) && Enabled(Exec(st, steps), TryAlloc(t))
    requires var was := Exec(st, steps);
             var p := was.puts[t];
             var pool := was.pools[Todo(p.stage)[0].numa];
             !Fits(pool, Need(p)) && Answered(p, pool) == Missed(p)
    ensures var p := Exec(st, steps).puts[t]; Lost(st, steps + [TryAlloc(t)], t, p.slot, Todo(p.stage)[0])
  {
    hide Safe, Exec, TargetLost, Answered, Missed, Fits;
    MissLoses(Exec(st, steps), t);
    var all := steps + [TryAlloc(t)];
    assert all[..|steps|] == steps;
    assert LostAt(st, all, t, Exec(st, steps).puts[t].slot, Todo(Exec(st, steps).puts[t].stage)[0], |all|);
  }

  lemma AllocInTurn(st: State, steps: seq<Step>, t: nat)
    requires Safe(Exec(st, steps)) && AllInTurn(st, steps) && Enabled(Exec(st, steps), TryAlloc(t))
    ensures var q := Allocated(Exec(st, steps), t).puts[t]; InTurn(st, steps + [TryAlloc(t)], t, q) && Pure(q)
  {
    hide Safe, Exec, InTurn, Fits, Lost, Got, Missed, Pinned.Next, Position;
    var was := Exec(st, steps);
    var p := was.puts[t];
    var pool := was.pools[Todo(p.stage)[0].numa];
    var after := steps + [TryAlloc(t)];
    AllocAnswer(was, t);
    StillInTurn(st, steps, TryAlloc(t), t, p);
    AnsweredPure(p, pool);
    if EachPlaced(p) {
      AnsweredEach(p, pool);
      EachInTurn(st, after, t, Answered(p, pool));
    } else if Fits(pool, Need(p)) {
      GotInTurn(st, after, t, p, BufId(Todo(p.stage)[0].numa, pool.next));
    } else if Answered(p, pool) == p.(stage := Scanning(Todo(p.stage))) {
      RestageInTurn(st, after, t, p, Scanning(Todo(p.stage)));
    } else {
      LostNow(st, steps, t);
      MissedInTurn(st, after, t, p);
    }
  }

  lemma AnsweredPure(p: Put, pool: Pinned.PoolState)
    requires Working(p) && Todo(p.stage) != [] && !p.stage.Idle?
    ensures Pure(Answered(p, pool))
  {
    hide Fits;
  }

  lemma AnsweredEach(p: Put, pool: Pinned.PoolState)
    requires Working(p) && Todo(p.stage) != []
    ensures Answered(p, pool).slot == p.slot && Answered(p, pool).spec == p.spec && Answered(p, pool).data == p.data
  {
    hide Fits;
  }

  lemma EachInTurn(st: State, steps: seq<Step>, t: nat, p: Put)
    requires !OneOf(p)
    ensures InTurn(st, steps, t, p)
  {
  }

  lemma ScanInTurn(st: State, steps: seq<Step>, t: nat)
    requires AllInTurn(st, steps) && Enabled(Exec(st, steps), Step.Scan(t))
    ensures var q := ScanDone(Exec(st, steps), t).puts[t]; InTurn(st, steps + [Step.Scan(t)], t, q) && Pure(q)
  {
    hide Exec, InTurn, LocalData.Scan;
    var was := Exec(st, steps);
    var p := was.puts[t];
    var s := Retrying(Todo(p.stage), Sweep(was, t).evicted);
    StillInTurn(st, steps, Step.Scan(t), t, p);
    if EachPlaced(p) { EachInTurn(st, steps + [Step.Scan(t)], t, p.(stage := s)); }
    else { RestageInTurn(st, steps + [Step.Scan(t)], t, p, s); }
  }

  lemma OwnInTurn(st: State, steps: seq<Step>, s: Step)
    requires AllInTurn(st, steps) && Enabled(Exec(st, steps), s)
    requires s.Skip? || s.Begin? || s.Copy? || s.CopyFails? || s.Install? || s.Abandon?
    ensures var now := Next(Exec(st, steps), s);
            s.put in now.puts && InTurn(st, steps + [s], s.put, now.puts[s.put]) && Pure(now.puts[s.put])
  {
    hide Exec, InTurn, Queue, Sealed, LocalData.Install, Unclaim, Write, Where, Targets;
    var was := Exec(st, steps);
    var p := was.puts[s.put];
    var after := steps + [s];
    EndsInTurn(st, after, s.put, p);
    if s.Begin? {
      BeginsInTurn(st, after, was, p, s.put);
    } else if s.Copy? {
      StillInTurn(st, steps, s, s.put, p);
      if EachPlaced(p) { EachInTurn(st, after, s.put, Copied(p, s.n)); }
      else { RestageInTurn(st, after, s.put, p, Copied(p, s.n).stage); }
    }
  }

  lemma EndsInTurn(st: State, steps: seq<Step>, t: nat, p: Put)
    ensures InTurn(st, steps, t, GiveUp(p)) && InTurn(st, steps, t, Advance(p)) && Pure(GiveUp(p)) && Pure(Advance(p))
  {
  }

  lemma {:induction false} IdleInTurn(st: State, steps: seq<Step>, t: nat, p: Put)
    requires p.stage.Idle? && p.placed == []
    ensures InTurn(st, steps, t, p) && Pure(p)
  {
  }

  lemma PutInTurn(st: State, steps: seq<Step>, s: Step, t: nat)
    requires Safe(Exec(st, steps)) && AllInTurn(st, steps) && Enabled(Exec(st, steps), s) && t in Next(Exec(st, steps), s).puts
    ensures var q := Next(Exec(st, steps), s).puts[t]; InTurn(st, steps + [s], t, q) && Pure(q)
  {
    hide Safe, Exec, InTurn, Next, Allocated, ScanDone, Pure, Enabled;
    var was := Exec(st, steps);
    if t in was.puts { StillInTurn(st, steps, s, t, was.puts[t]); }
    if s.TryAlloc? {
      LocalRuns.AllocPuts(was, s.put);
      NextAlloc(was, s.put);
      AllocInTurn(st, steps, s.put);
    } else if s.Scan? {
      LocalRuns.OtherPuts(was, s);
      NextScan(was, s.put);
      ScanInTurn(st, steps, s.put);
    } else if s.Skip? || s.Begin? || s.Copy? || s.CopyFails? || s.Install? || s.Abandon? {
      LocalRuns.OtherPuts(was, s);
      OwnInTurn(st, steps, s);
    } else {
      LocalRuns.PutsAlone(was, s);
      if !(t in was.puts && Next(was, s).puts[t] == was.puts[t]) { IdleInTurn(st, steps + [s], t, Next(was, s).puts[t]); }
    }
  }

  /** In every interleaving a put that wants one copy of a slot goes through the list of targets in order,
      and each target it has passed was one where it asked for a buffer and got none. */
  lemma {:induction false} RunInTurn(st: State, steps: seq<Step>)
    requires Initial(st)
    ensures AllInTurn(st, steps)
  {
    hide InTurn, Pure, Initial, Safe, Apply;
    if steps == [] {
      NobodyYet(st);
    } else {
      var init, s := steps[..|steps| - 1], steps[|steps| - 1];
      assert init + [s] == steps;
      RunInTurn(st, init);
      LocalRuns.RunSafe(st, init);
      var was := Exec(st, init);
      ApplyOrder(was, s);
      forall t | t in Apply(was, s).puts
        ensures InTurn(st, steps, t, Apply(was, s).puts[t]) && Pure(Apply(was, s).puts[t])
      {
        StepInTurn(st, init, s, t);
      }
    }
  }

  lemma NobodyYet(st: State)
    requires Initial(st)
    ensures st.puts == map[]
  {
  }

  lemma StepInTurn(st: State, steps: seq<Step>, s: Step, t: nat)
    requires Safe(Exec(st, steps)) && AllInTurn(st, steps) && t in Apply(Exec(st, steps), s).puts
    ensures var q := Apply(Exec(st, steps), s).puts[t]; InTurn(st, steps + [s], t, q) && Pure(q)
  {
    hide Safe, Exec, InTurn, Next, Pure, Enabled;
    var was := Exec(st, steps);
    if Enabled(was, s) { PutInTurn(st, steps, s, t); } else { StillInTurn(st, steps, s, t, was.puts[t]); }
  }

  // ---------------------------------------------------------------------
  // What follows

  /** A put that wants one copy gives a slot up for want of space only when it has lost every target on its
      list: oversized for the node's pool, or with nothing left to evict there (`NoSpaceOnlyWhenExhausted`). */
  lemma GivesUpOnlyWhenAllLost(st: State, steps: seq<Step>, t: nat)
    requires Initial(st) && Enabled(Exec(st, steps), TryAlloc(t)) && !EachPlaced(Exec(st, steps).puts[t])
    requires Next(Exec(st, steps), TryAlloc(t)).puts[t].stage.Failed?
    ensures var p := Exec(st, steps).puts[t];
            var all := Targets(st.order, p.spec.slots[p.slot].placement);
            all.Some? && forall m | 0 <= m < |all.value| :: Lost(st, steps + [TryAlloc(t)], t, p.slot, all.value[m])
  {
    hide Exec, Initial, Safe, Lost, Targets, Fits, Pinned.Next, TargetLost;
    RunInTurn(st, steps);
    LocalRuns.RunSafe(st, steps);
    var was := Exec(st, steps);
    var p := was.puts[t];
    var pool := was.pools[Todo(p.stage)[0].numa];
    AllocAnswer(was, t);
    FailsOnLast(p, pool);
    StillInTurn(st, steps, TryAlloc(t), t, p);
    LostNow(st, steps, t);
    var all: seq<Target>, k: nat :| Targets(st.order, p.spec.slots[p.slot].placement) == Some(all) && Position(p, all, k)
      && PastLost(st, steps + [TryAlloc(t)], t, p.slot, all, k);
    assert |all| == k + 1 && Todo(p.stage)[0] == all[k];
  }

  lemma FailsOnLast(p: Put, pool: Pinned.PoolState)
    requires Working(p) && Todo(p.stage) != [] && !EachPlaced(p) && Answered(p, pool).stage.Failed?
    ensures !Fits(pool, Need(p)) && Answered(p, pool) == Missed(p) && |Todo(p.stage)| == 1
  {
    hide Fits;
  }

  /** Under Prefer a copy is made elsewhere only after the preferred node was tried and lost. */
  lemma ElsewhereOnlyWhenLost(st: State, steps: seq<Step>, t: nat, d: Device)
    requires Initial(st) && t in Exec(st, steps).puts
    requires var p := Exec(st, steps).puts[t];
             Working(p) && p.stage.Copying? && p.spec.slots[p.slot].placement == Prefer(d) && p.placed != [] && p.placed[0].misplaced
    ensures d.Cpu? && Lost(st, steps, t, Exec(st, steps).puts[t].slot, Target(d.numa, false))
  {
    hide Exec, Initial, Lost;
    RunInTurn(st, steps);
    var p := Exec(st, steps).puts[t];
    assert OneOf(p) && InTurn(st, steps, t, p);
    var all: seq<Target>, k: nat :| Targets(st.order, p.spec.slots[p.slot].placement) == Some(all) && Position(p, all, k)
      && PastLost(st, steps, t, p.slot, all, k);
    TargetsExactly(st.order, Prefer(d));
    assert k > 0;
  }
}
