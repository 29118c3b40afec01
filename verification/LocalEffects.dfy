/** What a scan of the single-node backend does to the metadata, and what makes a put start one. */
module LocalEffects {
  import opened Types
  import opened LocalData
  import opened LocalMachine
  import opened LocalQueue
  import LocalRuns
  import Pinned = PinnedRuns

  // ---------------------------------------------------------------------
  // The objects after a scan

  /** One of the entries up to `j` names the key. */
  ghost predicate NamedBy(queue: seq<Entry>, k: Key, j: nat) {
    exists p | 0 <= p <= j && p < |queue| :: queue[p].key == k
  }

  /** The slot of `k` that entry `j` names, or none. */
  ghost function HitSlot(queue: seq<Entry>, k: Key, j: nat): int {
    if j < |queue| && queue[j].key == k then queue[j].slot else -1
  }

  /** After a scan whose first victim is entry `j`: an object is gone exactly when it is a Cache object other
      than the protected one, some entry popped names it, and nothing is left in it; every other object is
      as it was, but for the pinned replicas on the node of the victim's slot. */
  ghost predicate ScanLeaves(objects: Objects, queue: seq<Entry>, n: nat, key: Key, j: nat, now: Objects) {
    && (forall k :: k in now <==>
          && k in objects
          && !(k != key && Evictable(objects, k) && NamedBy(queue, k, j) && Emptied(objects[k], HitSlot(queue, k, j), Cpu(n))))
    && (forall k | k in now && k in objects :: Thinned(objects[k], now[k], HitSlot(queue, k, j), Cpu(n)))
  }

  lemma NamedShift(queue: seq<Entry>, k: Key, j: nat)
    requires queue != []
    ensures NamedBy(queue, k, j + 1) <==> queue[0].key == k || NamedBy(queue[1..], k, j)
    ensures HitSlot(queue, k, j + 1) == HitSlot(queue[1..], k, j)
  {
    var rest := queue[1..];
    if p :| 0 <= p <= j + 1 && p < |queue| && queue[p].key == k {
      if p > 0 { assert rest[p - 1] == queue[p]; }
    }
    if p :| 0 <= p <= j && p < |rest| && rest[p].key == k {
      assert queue[p + 1] == rest[p];
    }
    if j + 1 < |queue| { assert rest[j] == queue[j + 1]; }
  }

  lemma ThinnedNowhere(o: Object, d: Device)
    ensures Thinned(o, o, -1, d)
  {
  }

  lemma NothingScanned(objects: Objects, n: nat, key: Key)
    ensures ScanLeaves(objects, [], n, key, 0, objects)
  {
    forall k | k in objects ensures Thinned(objects[k], objects[k], -1, Cpu(n)) { ThinnedNowhere(objects[k], Cpu(n)); }
  }

  /** Past an entry that changes nothing. */
  lemma PastIdle(objects: Objects, queue: seq<Entry>, n: nat, key: Key, j: nat, now: Objects)
    requires queue != [] && ScanLeaves(objects, queue[1..], n, key, j, now)
    requires var k := queue[0].key;
             k == key || !Evictable(objects, k) || NamedBy(queue[1..], k, j) || !Emptied(objects[k], HitSlot(queue[1..], k, j), Cpu(n))
    ensures ScanLeaves(objects, queue, n, key, j + 1, now)
  {
    hide NamedBy, Emptied, Thinned, HitSlot;
    forall k
      ensures NamedBy(queue, k, j + 1) <==> queue[0].key == k || NamedBy(queue[1..], k, j)
      ensures HitSlot(queue, k, j + 1) == HitSlot(queue[1..], k, j)
    {
      NamedShift(queue, k, j);
    }
  }

  /** Past the entry of an object in which nothing was left. */
  lemma PastEmpty(objects: Objects, queue: seq<Entry>, n: nat, key: Key, j: nat, now: Objects)
    requires queue != [] && queue[0].key != key && Evictable(objects, queue[0].key)
    requires Emptied(objects[queue[0].key], -1, Cpu(n)) && HitSlot(queue[1..], queue[0].key, j) == -1
    requires ScanLeaves(objects - {queue[0].key}, queue[1..], n, key, j, now)
    ensures ScanLeaves(objects, queue, n, key, j + 1, now)
  {
    hide NamedBy, Emptied, Thinned, HitSlot;
    var mid := objects - {queue[0].key};
    forall k
      ensures NamedBy(queue, k, j + 1) <==> queue[0].key == k || NamedBy(queue[1..], k, j)
      ensures HitSlot(queue, k, j + 1) == HitSlot(queue[1..], k, j)
      ensures k != queue[0].key ==> (Evictable(mid, k) <==> Evictable(objects, k))
    {
      NamedShift(queue, k, j);
    }
  }

  /** An entry whose slot has nothing pinned on the node: the object goes if nothing is left in it at all. */
  lemma EvictIdle(objects: Objects, e: Entry, n: nat)
    requires Evictable(objects, e.key) && e.slot < |objects[e.key].slots| && !HasPinned(objects[e.key].slots[e.slot], Cpu(n))
    ensures Evict(objects, e, Cpu(n)) == if Emptied(objects[e.key], -1, Cpu(n)) then objects - {e.key} else objects
  {
    var o := objects[e.key];
    NothingDropped(o.slots[e.slot].replicas, Cpu(n));
    var t := Thin(o, e.slot, Cpu(n));
    assert t.slots[e.slot] == o.slots[e.slot] && t.slots == o.slots;
    assert t == o;
    if Deserted(o) {
      forall i | 0 <= i < |o.slots| ensures !o.slots[i].writing && o.slots[i].replicas == [] { assert Free(o.slots[i]); }
    } else {
      var i :| 0 <= i < |o.slots| && !Free(o.slots[i]);
      if o.slots[i].replicas != [] { assert o.slots[i].replicas[0] in o.slots[i].replicas; }
      assert objects[e.key := o] == objects;
    }
  }

  /** An entry that names the victim. */
  lemma EvictVictim(objects: Objects, queue: seq<Entry>, n: nat, key: Key)
    requires queue != [] && queue[0].key != key && Evictable(objects, queue[0].key)
    requires queue[0].slot < |objects[queue[0].key].slots|
    ensures ScanLeaves(objects, queue, n, key, 0, Evict(objects, queue[0], Cpu(n)))
  {
    hide Evict, Emptied, Thinned;
    EvictExactly(objects, queue[0], Cpu(n));
    forall k | k in objects && k != queue[0].key ensures Thinned(objects[k], objects[k], -1, Cpu(n)) { ThinnedNowhere(objects[k], Cpu(n)); }
  }

  lemma StillNamed(queue: seq<Entry>, k: Key, j: nat)
    ensures HitSlot(queue, k, j) == -1 || NamedBy(queue, k, j)
  {
  }

  /** First in, first out, exactly: the queue keeps the protected entries before the first victim and all
      after it, and the objects are those `ScanLeaves` describes. */
  lemma {:induction false} ScanExactly(objects: Objects, queue: seq<Entry>, n: nat, key: Key) returns (j: nat)
    requires LocalData.Scan(objects, queue, Cpu(n), key).Scanned?
    ensures var r := LocalData.Scan(objects, queue, Cpu(n), key);
            DropsAt(objects, queue, n, key, j, r) && ScanLeaves(objects, queue, n, key, j, r.objects)
    decreases |queue|
  {
    hide Evict, DropsAt, HasPinned, ScanLeaves, HitSlot, NamedBy, Emptied;
    if queue == [] {
      NoneToDrop(objects, n, key);
      NothingScanned(objects, n, key);
      return 0;
    }
    var e, rest := queue[0], queue[1..];
    if e.key == key || !Evictable(objects, e.key) {
      j := ScanExactly(objects, rest, n, key);
      var r := LocalData.Scan(objects, rest, Cpu(n), key);
      PastEntry(objects, queue, n, key, j, r);
      PastIdle(objects, queue, n, key, j, r.objects);
      j := j + 1;
    } else if HasPinned(objects[e.key].slots[e.slot], Cpu(n)) {
      DropHead(objects, queue, n, key);
      EvictVictim(objects, queue, n, key);
      j := 0;
    } else {
      var now := Evict(objects, e, Cpu(n));
      var r := LocalData.Scan(now, rest, Cpu(n), key);
      j := ScanExactly(now, rest, n, key);
      EvictOnly(objects, e, n);
      EvictIdle(objects, e, n);
      PastStale(objects, queue, n, key, j, now, r);
      SameDrop(objects, now, rest, n, key, e, j, r);
      PastEntry(objects, queue, n, key, j, r);
      j := j + 1;
    }
  }

  lemma PastStale(objects: Objects, queue: seq<Entry>, n: nat, key: Key, j: nat, mid: Objects, r: Scanned)
    requires queue != [] && queue[0].key != key && Evictable(objects, queue[0].key)
    requires mid == if Emptied(objects[queue[0].key], -1, Cpu(n)) then objects - {queue[0].key} else objects
    requires DropsAt(mid, queue[1..], n, key, j, r) && ScanLeaves(mid, queue[1..], n, key, j, r.objects)
    ensures ScanLeaves(objects, queue, n, key, j + 1, r.objects)
  {
    hide NamedBy, Emptied, ScanLeaves, HitSlot;
    var e, rest := queue[0], queue[1..];
    StillNamed(rest, e.key, j);
    if Emptied(objects[e.key], -1, Cpu(n)) {
      GoneNotHit(mid, rest, n, key, j, e.key);
      PastEmpty(objects, queue, n, key, j, r.objects);
    } else {
      PastIdle(objects, queue, n, key, j, r.objects);
    }
  }

  lemma GoneNotHit(objects: Objects, queue: seq<Entry>, n: nat, key: Key, j: nat, k: Key)
    requires FirstVictim(objects, queue, n, key, j) && k !in objects
    ensures HitSlot(queue, k, j) == -1
  {
  }

  // ---------------------------------------------------------------------
  // A put evicts only when the pool has no room for it

  predicate Evicting(s: Stage) { s.Scanning? || s.Retrying? }

  /** A put that evicts on a node asks for no more than the node's pool has. */
  ghost predicate Feasible(p: Put, pools: map<nat, Pinned.PoolState>) {
    Evicting(p.stage) ==>
      && Working(p) && Todo(p.stage) != [] && Todo(p.stage)[0].numa in pools
      && |p.data[p.slot]| <= pools[Todo(p.stage)[0].numa].capacity
  }

  ghost predicate AllFeasible(st: State) { forall t | t in st.puts :: Feasible(st.puts[t], st.pools) }

  ghost predicate SameCapacities(p: map<nat, Pinned.PoolState>, q: map<nat, Pinned.PoolState>) {
    forall n | n in p :: n in q && q[n].capacity == p[n].capacity
  }

  lemma StillFeasible(p: Put, a: map<nat, Pinned.PoolState>, b: map<nat, Pinned.PoolState>)
    requires Feasible(p, a) && SameCapacities(a, b)
    ensures Feasible(p, b)
  {
  }

  lemma PoolKeepsCapacity(pool: Pinned.PoolState, op: Pinned.Op)
    ensures Pinned.Next(pool, op).capacity == pool.capacity
  {
  }

  lemma StepCapacities(st: State, s: Step)
    requires Enabled(st, s)
    ensures SameCapacities(st.pools, Next(st, s).pools)
  {
    if s.TryAlloc? {
      hide Fits, Pinned.Next, Answered;
      var p := st.puts[s.put];
      PoolKeepsCapacity(st.pools[Todo(p.stage)[0].numa], Pinned.Take(|p.data[p.slot]|));
    } else if s.Release? {
      hide Pinned.Next, Referenced;
      PoolKeepsCapacity(st.pools[s.buf.numa], Pinned.Drop(s.buf.id));
    } else {
      hide Next, Enabled;
      LocalRuns.SamePools(st, s);
    }
  }

  lemma AnsweredFeasible(p: Put, pool: Pinned.PoolState, pools: map<nat, Pinned.PoolState>)
    requires Working(p) && (p.stage.Asking? || p.stage.Retrying?) && Todo(p.stage) != [] && Feasible(p, pools)
    requires Todo(p.stage)[0].numa in pools && pools[Todo(p.stage)[0].numa] == pool
    ensures Feasible(Answered(p, pool), pools)
    ensures Evicting(Answered(p, pool).stage) ==>
              !Fits(pool, Need(p)) && Answered(p, pool) == p.(stage := Scanning(Todo(p.stage)))
  {
    hide Fits;
  }

  lemma NotEvicting(st: State, s: Step)
    requires Enabled(st, s) && (s.Skip? || s.Begin? || s.Copy? || s.CopyFails? || s.Install? || s.Abandon?)
    ensures s.put in Next(st, s).puts && !Evicting(Next(st, s).puts[s.put].stage)
  {
    hide Targets, Queue, Sealed, LocalData.Install, Unclaim, Write, Where;
  }

  lemma ScanFeasible(st: State, t: nat)
    requires Enabled(st, Step.Scan(t)) && Feasible(st.puts[t], st.pools)
    ensures Feasible(ScanDone(st, t).puts[t], st.pools) && !ScanDone(st, t).puts[t].stage.Scanning?
  {
    hide LocalData.Scan;
  }

  /** A put that is about to scan was refused by the pool, or was about to before. */
  lemma EvictsAfterRefusal(st: State, s: Step, t: nat)
    requires AllFeasible(st) && Enabled(st, s) && t in Next(st, s).puts
    ensures Feasible(Next(st, s).puts[t], st.pools)
    ensures Next(st, s).puts[t].stage.Scanning? ==>
              || (t in st.puts && Next(st, s).puts[t] == st.puts[t])
              || (s == TryAlloc(t) && !Fits(st.pools[Todo(st.puts[t].stage)[0].numa], Need(st.puts[t]))
                  && Next(st, s).puts[t] == st.puts[t].(stage := Scanning(Todo(st.puts[t].stage))))
  {
    hide LocalData.Claim, Writable, Started, ScanDone, Sweep, Installed, Unclaim, Wrote, Allocated, ReadOn, Released,
         LocalData.Publish, LocalData.Retire, GiveUp, Advance, Feasible, Fits, Evicting;
    if s.TryAlloc? {
      LocalRuns.AllocPuts(st, s.put);
      AllocAnswer(st, s.put);
      var p := st.puts[s.put];
      AnsweredFeasible(p, st.pools[Todo(p.stage)[0].numa], st.pools);
      ScanIsEvicting(Next(st, s).puts[t]);
    } else if s.Scan? {
      LocalRuns.OtherPuts(st, s);
      ScanFeasible(st, s.put);
    } else if s.Skip? || s.Begin? || s.Copy? || s.CopyFails? || s.Install? || s.Abandon? {
      LocalRuns.OtherPuts(st, s);
      NotEvicting(st, s);
      ScanIsEvicting(Next(st, s).puts[t]);
      IdleFeasible(Next(st, s).puts[t], st.pools);
    } else {
      LocalRuns.PutsAlone(st, s);
      IdleFeasible(Next(st, s).puts[t], st.pools);
      ScanIsEvicting(Next(st, s).puts[t]);
    }
  }

  lemma ScanIsEvicting(p: Put)
    ensures p.stage.Scanning? ==> Evicting(p.stage)
  {
  }

  lemma IdleFeasible(p: Put, pools: map<nat, Pinned.PoolState>)
    ensures p.stage.Idle? || !Evicting(p.stage) ==> Feasible(p, pools)
  {
  }

  lemma StepFeasible(st: State, s: Step)
    requires AllFeasible(st)
    ensures AllFeasible(Apply(st, s))
  {
    hide Enabled, Next, Feasible;
    if Enabled(st, s) {
      StepCapacities(st, s);
      forall t | t in Next(st, s).puts
        ensures Feasible(Next(st, s).puts[t], Next(st, s).pools)
      {
        EvictsAfterRefusal(st, s, t);
        StillFeasible(Next(st, s).puts[t], st.pools, Next(st, s).pools);
      }
    }
  }

  lemma {:induction false} RunFeasible(st: State, steps: seq<Step>)
    requires Initial(st)
    ensures AllFeasible(Exec(st, steps))
  {
    hide Apply, AllFeasible, Initial;
    if steps == [] {
      NonePut(st);
    } else {
      RunFeasible(st, steps[..|steps| - 1]);
      StepFeasible(Exec(st, steps[..|steps| - 1]), steps[|steps| - 1]);
    }
  }

  lemma NonePut(st: State)
    requires Initial(st)
    ensures AllFeasible(st) && st.puts == map[]
  {
  }

  /** After `i` steps the pool of node `n` has just refused the put, which has done nothing since. */
  ghost predicate RefusedAt(st: State, steps: seq<Step>, t: nat, i: int) {
    && 0 < i <= |steps| && steps[i - 1] == TryAlloc(t) && Enabled(Exec(st, steps[..i - 1]), TryAlloc(t))
    && (var was := Exec(st, steps[..i - 1]);
        !Fits(was.pools[Todo(was.puts[t].stage)[0].numa], Need(was.puts[t]))
        && t in Exec(st, steps).puts
        && Exec(st, steps).puts[t] == was.puts[t].(stage := Scanning(Todo(was.puts[t].stage))))
  }

  /** Under any interleaving a put evicts on a node only if its slot is no longer than the node's pool, and
      only after that pool has refused it a buffer: never while the slot fits as it is. */
  lemma {:induction false} EvictsOnlyWhenRefused(st: State, steps: seq<Step>, t: nat) returns (i: nat)
    requires Initial(st) && t in Exec(st, steps).puts && Exec(st, steps).puts[t].stage.Scanning?
    ensures Feasible(Exec(st, steps).puts[t], Exec(st, steps).pools)
    ensures RefusedAt(st, steps, t, i)
  {
    hide Apply, Initial, Fits, AllFeasible, Enabled, Feasible;
    RunFeasible(st, steps);
    FeasibleOf(Exec(st, steps), t);
    if steps == [] {
      assert false by { NonePut(st); }
    } else {
      var init, last := steps[..|steps| - 1], steps[|steps| - 1];
      var was := Exec(st, init);
      RunFeasible(st, init);
      ScanningStep(was, last, t);
      if t in was.puts && Apply(was, last).puts[t] == was.puts[t] {
        i := EvictsOnlyWhenRefused(st, init, t);
        assert steps[..i - 1] == init[..i - 1];
      } else {
        i := |steps|;
      }
    }
  }

  lemma FeasibleOf(st: State, t: nat)
    requires AllFeasible(st) && t in st.puts
    ensures Feasible(st.puts[t], st.pools)
  {
  }

  lemma ScanningStep(st: State, s: Step, t: nat)
    requires AllFeasible(st) && t in Apply(st, s).puts && Apply(st, s).puts[t].stage.Scanning?
    ensures || (t in st.puts && Apply(st, s).puts[t] == st.puts[t])
            || (s == TryAlloc(t) && Enabled(st, s) && !Fits(st.pools[Todo(st.puts[t].stage)[0].numa], Need(st.puts[t]))
                && Apply(st, s).puts[t] == st.puts[t].(stage := Scanning(Todo(st.puts[t].stage))))
  {
    hide Next, Fits, AllFeasible;
    if Enabled(st, s) { EvictsAfterRefusal(st, s, t); }
  }
}
