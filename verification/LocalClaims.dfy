/** Write-once under concurrency: who holds a slot's claim, and whose bytes the slot shows. */
module LocalClaims {
  import opened Types
  import opened LocalData
  import opened LocalMachine
  import opened LocalSafety
  import LocalRuns
  import Pinned = PinnedRuns

  // ---------------------------------------------------------------------
  // Claims

  /** A put holds the claim of every slot it found writable and has not finished. */
  ghost predicate Holding(p: Put, i: int) {
    p.slot <= i < |p.writable| && p.writable[i]
  }

  ghost predicate Owner(puts: map<nat, Put>, t: nat, k: Key, i: int, spec: ObjectSpec) {
    t in puts && puts[t].key == k && puts[t].spec == spec && Holding(puts[t], i)
  }

  ghost predicate Owned(puts: map<nat, Put>, k: Key, i: int) {
    exists t, spec :: Owner(puts, t, k, i, spec)
  }

  ghost predicate Writing(objects: Objects, k: Key, i: int) {
    k in objects && 0 <= i < |objects[k].slots| && objects[k].slots[i].writing
  }

  ghost predicate NoPinned(objects: Objects, k: Key, i: int) {
    forall b :: !ShownAt(objects, k, i, b)
  }

  /** A held claim: its object is there, is marked, and shows nothing of the store's own. */
  ghost predicate Guarded(objects: Objects, puts: map<nat, Put>) {
    forall t, k, i, spec | Owner(puts, t, k, i, spec) ::
      Writing(objects, k, i) && objects[k].spec == spec && NoPinned(objects, k, i)
  }

  ghost predicate OneOwner(puts: map<nat, Put>) {
    forall t, u, k, i, x, y | Owner(puts, t, k, i, x) && Owner(puts, u, k, i, y) :: t == u
  }

  ghost predicate MarksOwned(objects: Objects, puts: map<nat, Put>) {
    forall k, i | Writing(objects, k, i) :: Owned(puts, k, i)
  }

  /** All buffers a slot shows come from one put, and are as long as the slot. */
  ghost predicate OneWriter(objects: Objects, info: map<BufId, Info>) {
    && (forall k, i, b, c | ShownAt(objects, k, i, b) && ShownAt(objects, k, i, c) && b in info && c in info ::
          info[b].put == info[c].put && info[b].bytes == info[c].bytes)
    && (forall k, i, b | ShownAt(objects, k, i, b) && b in info && 0 <= i < |objects[k].spec.slots| ::
          |info[b].bytes| == objects[k].spec.slots[i].len)
  }

  ghost predicate ClaimsOk(objects: Objects, puts: map<nat, Put>) {
    Guarded(objects, puts) && OneOwner(puts) && MarksOwned(objects, puts)
  }

  ghost predicate WriteOnce(st: State) {
    ClaimsOk(st.objects, st.puts) && OneWriter(st.objects, st.info)
  }

  // ---------------------------------------------------------------------
  // Steps that leave the claims alone

  ghost predicate SameClaims(was: map<nat, Put>, now: map<nat, Put>) {
    forall t, k, i, spec :: Owner(was, t, k, i, spec) <==> Owner(now, t, k, i, spec)
  }

  /** The marks are where they were, on objects that kept their spec. */
  ghost predicate SameMarks(was: Objects, now: Objects) {
    && (forall k, i | Writing(was, k, i) :: Writing(now, k, i))
    && (forall k, i | Writing(now, k, i) :: Writing(was, k, i) && now[k].spec == was[k].spec)
  }

  ghost predicate SameSpecs(was: Objects, now: Objects) {
    forall k | k in now && k in was :: now[k].spec == was[k].spec
  }

  lemma ClaimsStay(was: Objects, now: Objects, puts: map<nat, Put>, puts': map<nat, Put>)
    requires ClaimsOk(was, puts) && SameMarks(was, now) && NoNewRefs(was, now) && SameClaims(puts, puts')
    ensures ClaimsOk(now, puts')
  {
    hide Owner, Writing;
    forall t, k, i, spec | Owner(puts', t, k, i, spec)
      ensures Writing(now, k, i) && k in now && now[k].spec == spec && NoPinned(now, k, i)
    {
      assert Owner(puts, t, k, i, spec);
      assert Writing(was, k, i) && NoPinned(was, k, i);
      MarkedKey(now, k, i);
    }
    forall k, i | Writing(now, k, i)
      ensures Owned(puts', k, i)
    {
      assert Owned(puts, k, i);
      var t, spec :| Owner(puts, t, k, i, spec);
      assert Owner(puts', t, k, i, spec);
    }
  }

  lemma MarkedKey(objects: Objects, k: Key, i: int)
    requires Writing(objects, k, i)
    ensures k in objects
  {
  }

  ghost predicate InfoKept(was: map<BufId, Info>, now: map<BufId, Info>) {
    forall b | b in was && b in now :: now[b].put == was[b].put && now[b].bytes == was[b].bytes
  }

  lemma WriterStays(was: Objects, now: Objects, info: map<BufId, Info>, info': map<BufId, Info>)
    requires ObjectsOk(was, info) && OneWriter(was, info) && NoNewRefs(was, now) && InfoKept(info, info')
    requires SameSpecs(was, now)
    ensures OneWriter(now, info')
  {
    hide Shows;
    forall k, i, b | ShownAt(now, k, i, b) && b in info'
      ensures b in info && ShownAt(was, k, i, b) && info'[b].put == info[b].put && info'[b].bytes == info[b].bytes
    {
      assert ShownAt(was, k, i, b);
    }
    forall k, i, b | ShownAt(now, k, i, b) && b in info' && 0 <= i < |now[k].spec.slots|
      ensures |info'[b].bytes| == now[k].spec.slots[i].len
    {
      assert ShownAt(was, k, i, b);
    }
  }

  lemma SameMarksRefl(objects: Objects)
    ensures SameMarks(objects, objects) && SameSpecs(objects, objects)
  {
  }

  lemma EvictMarks(objects: Objects, e: Entry, d: Device)
    requires Evictable(objects, e.key) && e.slot < |objects[e.key].slots|
    ensures SameMarks(objects, Evict(objects, e, d)) && SameSpecs(objects, Evict(objects, e, d))
  {
    hide Without;
    var now := Evict(objects, e, d);
    forall k, i | Writing(objects, k, i)
      ensures Writing(now, k, i)
    {
      if k == e.key {
        assert !Free(Thin(objects[k], e.slot, d).slots[i]);
      }
    }
  }

  lemma MarksTwice(a: Objects, b: Objects, c: Objects)
    requires SameMarks(a, b) && SameMarks(b, c) && SameSpecs(a, b) && SameSpecs(b, c)
    requires forall k | k in c :: k in b
    ensures SameMarks(a, c) && SameSpecs(a, c)
  {
    hide Writing;
  }

  /** No scan, whatever it evicts, drops an object with a held claim. */
  lemma {:induction false} ScanMarks(objects: Objects, queue: seq<Entry>, d: Device, key: Key)
    ensures var r := LocalData.Scan(objects, queue, d, key);
            r.Scanned? ==> SameMarks(objects, r.objects) && SameSpecs(objects, r.objects)
                           && forall k | k in r.objects :: k in objects
    decreases |queue|
  {
    hide Evict, SameMarks, SameSpecs, HasPinned;
    SameMarksRefl(objects);
    if queue != [] {
      var e, rest := queue[0], queue[1..];
      if e.key == key || !Evictable(objects, e.key) {
        ScanMarks(objects, rest, d, key);
      } else if e.slot < |objects[e.key].slots| {
        EvictMarks(objects, e, d);
        EvictKeys(objects, e, d);
        if !HasPinned(objects[e.key].slots[e.slot], d) {
          ScanMarks(Evict(objects, e, d), rest, d, key);
          var r := LocalData.Scan(objects, queue, d, key);
          if r.Scanned? { MarksTwice(objects, Evict(objects, e, d), r.objects); }
        }
      }
    }
  }

  lemma EvictKeys(objects: Objects, e: Entry, d: Device)
    requires Evictable(objects, e.key) && e.slot < |objects[e.key].slots|
    ensures forall k | k in Evict(objects, e, d) :: k in objects
  {
  }

  lemma PublishMarks(objects: Objects, key: Key, i: nat, device: Device, region: nat)
    requires key in objects && i < |objects[key].slots|
    ensures SameMarks(objects, LocalData.Publish(objects, key, i, device, region))
    ensures SameSpecs(objects, LocalData.Publish(objects, key, i, device, region))
  {
  }

  lemma RetireMarks(objects: Objects, region: nat)
    ensures SameMarks(objects, LocalData.Retire(objects, region))
    ensures SameSpecs(objects, LocalData.Retire(objects, region))
  {
    hide Retained;
  }

  // ---------------------------------------------------------------------
  // Claiming

  lemma ClaimKeeps(st: State, key: Key, spec: ObjectSpec, data: seq<seq<Byte>>)
    requires Safe(st) && ClaimsOk(st.objects, st.puts) && Enabled(st, Step.Claim(key, spec, data))
    ensures ClaimsOk(ClaimDone(st, key, spec, data).objects, ClaimDone(st, key, spec, data).puts)
  {
    var now := ClaimDone(st, key, spec, data);
    FreshPut(st);
    ClaimGuards(st, key, spec, data);
    ClaimMarks(st, key, spec, data);
    forall t, u, k, i, x, y | Owner(now.puts, t, k, i, x) && Owner(now.puts, u, k, i, y)
      ensures t == u
    {
      ClaimOwner(st, key, spec, data, t, k, i, x);
      ClaimOwner(st, key, spec, data, u, k, i, y);
    }
  }

  lemma FreshPut(st: State)
    requires Safe(st)
    ensures st.next !in st.puts
  {
    hide HeapOk, ObjectsOk, GetsOk, PutOk, Shaped, OrderOk;
  }

  /** The new put holds exactly the slots that were free; nobody else's claim is on those. */
  lemma ClaimOwner(st: State, key: Key, spec: ObjectSpec, data: seq<seq<Byte>>, t: nat, k: Key, i: int, x: ObjectSpec)
    requires ClaimsOk(st.objects, st.puts) && st.next !in st.puts
    requires Owner(ClaimDone(st, key, spec, data).puts, t, k, i, x)
    ensures t != st.next ==> Owner(st.puts, t, k, i, x) && Writing(st.objects, k, i)
    ensures t == st.next ==> k == key && x == spec && 0 <= i < |Reserved(st.objects, key, spec).slots|
                             && Free(Reserved(st.objects, key, spec).slots[i]) && !Writing(st.objects, k, i)
  {
    hide OneOwner, MarksOwned;
  }

  lemma ClaimGuards(st: State, key: Key, spec: ObjectSpec, data: seq<seq<Byte>>)
    requires ClaimsOk(st.objects, st.puts) && st.next !in st.puts
    requires key in st.objects ==> st.objects[key].spec == spec
    ensures Guarded(ClaimDone(st, key, spec, data).objects, ClaimDone(st, key, spec, data).puts)
  {
    hide OneOwner, MarksOwned, NoNewRefs, LocalData.Claim, Guarded, Owner;
    var now := ClaimDone(st, key, spec, data);
    ClaimRefs(st.objects, key, spec);
    forall t, k, i, x | Owner(now.puts, t, k, i, x)
      ensures Writing(now.objects, k, i) && now.objects[k].spec == x && NoPinned(now.objects, k, i)
    {
      ClaimOwner(st, key, spec, data, t, k, i, x);
      ClaimSlot(st.objects, key, spec, k, i);
      if t != st.next {
        GuardAt(st.objects, st.puts, t, k, i, x);
      }
      NothingShown(st.objects, now.objects, k, i);
    }
    GuardedIf(now.objects, now.puts);
  }

  lemma GuardedIf(objects: Objects, puts: map<nat, Put>)
    requires forall t, k, i, spec | Owner(puts, t, k, i, spec) ::
               Writing(objects, k, i) && objects[k].spec == spec && NoPinned(objects, k, i)
    ensures Guarded(objects, puts)
  {
  }

  lemma GuardAt(objects: Objects, puts: map<nat, Put>, t: nat, k: Key, i: int, spec: ObjectSpec)
    requires Guarded(objects, puts) && Owner(puts, t, k, i, spec)
    ensures Writing(objects, k, i) && objects[k].spec == spec && NoPinned(objects, k, i)
  {
  }

  lemma NothingShown(was: Objects, now: Objects, k: Key, i: int)
    requires NoNewRefs(was, now)
    ensures NoPinned(was, k, i) ==> NoPinned(now, k, i)
  {
  }

  /** What claiming does to one slot. */
  lemma ClaimSlot(objects: Objects, key: Key, spec: ObjectSpec, k: Key, i: int)
    requires key in objects ==> objects[key].spec == spec
    ensures var now, o := LocalData.Claim(objects, key, spec), Reserved(objects, key, spec);
            && (Writing(objects, k, i) ==> Writing(now, k, i) && now[k].spec == objects[k].spec)
            && (k == key && 0 <= i < |o.slots| && Free(o.slots[i]) ==>
                  Writing(now, k, i) && now[k].spec == spec && NoPinned(objects, k, i))
            && (Writing(now, k, i) ==> Writing(objects, k, i)
                                       || (k == key && 0 <= i < |o.slots| && Free(o.slots[i])))
  {
  }

  lemma ClaimMarks(st: State, key: Key, spec: ObjectSpec, data: seq<seq<Byte>>)
    requires ClaimsOk(st.objects, st.puts) && st.next !in st.puts
    requires key in st.objects ==> st.objects[key].spec == spec
    ensures MarksOwned(ClaimDone(st, key, spec, data).objects, ClaimDone(st, key, spec, data).puts)
  {
    hide OneOwner, Guarded, LocalData.Claim, Writing;
    var now := ClaimDone(st, key, spec, data);
    forall k, i | Writing(now.objects, k, i)
      ensures Owned(now.puts, k, i)
    {
      ClaimSlot(st.objects, key, spec, k, i);
      if Writing(st.objects, k, i) {
        var t, x :| Owner(st.puts, t, k, i, x);
        assert Owner(now.puts, t, k, i, x);
      } else {
        assert Owner(now.puts, st.next, k, i, spec);
      }
    }
  }

  // ---------------------------------------------------------------------
  // Letting go of one claim

  /** Put `t` finishes slot `(k, i)`: the mark goes, and with it the one claim. */
  ghost predicate Unmarked(was: Objects, now: Objects, k: Key, i: int) {
    && (forall j, q | Writing(was, j, q) && !(j == k && q == i) :: Writing(now, j, q) && now[j].spec == was[j].spec)
    && (forall j, q | Writing(now, j, q) :: Writing(was, j, q) && !(j == k && q == i))
  }

  lemma AdvanceOwners(puts: map<nat, Put>, t: nat, u: nat, k: Key, i: int, spec: ObjectSpec)
    requires t in puts && puts[t].slot < |puts[t].writable| && puts[t].writable[puts[t].slot]
    ensures Owner(puts[t := Advance(puts[t])], u, k, i, spec) <==>
              Owner(puts, u, k, i, spec) && !(u == t && k == puts[t].key && i == puts[t].slot)
  {
  }

  lemma LetGo(was: Objects, now: Objects, puts: map<nat, Put>, t: nat)
    requires ClaimsOk(was, puts) && t in puts
    requires puts[t].slot < |puts[t].writable| && puts[t].writable[puts[t].slot]
    requires Unmarked(was, now, puts[t].key, puts[t].slot)
    requires forall k, i, b | ShownAt(now, k, i, b) && !ShownAt(was, k, i, b) :: k == puts[t].key && i == puts[t].slot
    ensures ClaimsOk(now, puts[t := Advance(puts[t])])
  {
    hide Writing, Owner, ShownAt, NoPinned, Advance, Guarded;
    var puts', key, slot := puts[t := Advance(puts[t])], puts[t].key, puts[t].slot;
    forall u, k, i, spec
      ensures Owner(puts', u, k, i, spec) <==> Owner(puts, u, k, i, spec) && !(u == t && k == key && i == slot)
    {
      AdvanceOwners(puts, t, u, k, i, spec);
    }
    OwnsCurrent(puts, t);
    forall u, k, i, spec | Owner(puts', u, k, i, spec)
      ensures Writing(now, k, i) && k in now && now[k].spec == spec && NoPinned(now, k, i)
    {
      GuardAt(was, puts, u, k, i, spec);
      assert !(k == key && i == slot);
      MarkedKey(now, k, i);
      StillNothing(was, now, k, i);
    }
    GuardedIf(now, puts');
    forall k, i | Writing(now, k, i)
      ensures Owned(puts', k, i)
    {
      var u, spec :| Owner(puts, u, k, i, spec);
      assert Owner(puts', u, k, i, spec);
    }
  }

  lemma OwnsCurrent(puts: map<nat, Put>, t: nat)
    requires t in puts && puts[t].slot < |puts[t].writable| && puts[t].writable[puts[t].slot]
    ensures Owner(puts, t, puts[t].key, puts[t].slot, puts[t].spec)
  {
  }

  lemma StillNothing(was: Objects, now: Objects, k: Key, i: int)
    requires NoPinned(was, k, i)
    requires forall b | ShownAt(now, k, i, b) :: ShownAt(was, k, i, b)
    ensures NoPinned(now, k, i)
  {
    hide ShownAt;
  }

  lemma InstallMarks(objects: Objects, key: Key, i: nat, added: seq<Replica>)
    requires key in objects && i < |objects[key].slots|
    ensures Unmarked(objects, LocalData.Install(objects, key, i, added), key, i)
    ensures SameSpecs(objects, LocalData.Install(objects, key, i, added))
  {
  }

  lemma UnclaimMarks(objects: Objects, key: Key, i: nat)
    requires key in objects && i < |objects[key].slots|
    ensures Unmarked(objects, Unclaim(objects, key, i), key, i)
    ensures SameSpecs(objects, Unclaim(objects, key, i))
  {
  }

  /** Installing into a slot that shows nothing: everything it then shows is this put's. */
  lemma InstallWriter(st: State, t: nat)
    requires Safe(st) && WriteOnce(st) && Enabled(st, Step.Install(t)) && st.puts[t].key in st.objects
    ensures OneWriter(Installed(st, t).objects, Installed(st, t).info)
  {
    hide HeapOk, PutOk, GetsOk, Holds, ClaimsOk, Sealed, LocalData.Install, Queue, Shows, OrderOk;
    PutAt(st, t);
    PutFacts(st.puts[t], t, st.pools, st.mem, st.info);
    var p := st.puts[t];
    var now, info' := Installed(st, t).objects, Installed(st, t).info;
    InstallRefs(st.objects, p.key, p.slot, FreshReplicas(p.placed));
    InstallMarks(st.objects, p.key, p.slot, FreshReplicas(p.placed));
    CurrentGuard(st, t);
    forall k, i, b | ShownAt(now, k, i, b) && b in info'
      ensures b in st.info && info'[b].put == st.info[b].put && info'[b].bytes == st.info[b].bytes
      ensures if k == p.key && i == p.slot then st.info[b].put == t && st.info[b].bytes == p.data[p.slot]
              else ShownAt(st.objects, k, i, b)
    {
      SealedKeys(st.info, p.placed);
      SealedAt(st.info, p.placed, b);
      if k == p.key && i == p.slot {
        assert !ShownAt(st.objects, k, i, b);
        var q :| 0 <= q < |p.placed| && FreshReplicas(p.placed)[q].data == Data.Pinned(b);
        assert p.placed[q].buf == b;
      }
    }
  }

  lemma PutFacts(p: Put, t: nat, pools: Pools, mem: Mem, info: map<BufId, Info>)
    requires PutOk(p, t, pools, mem, info)
    ensures |p.data| == |p.spec.slots| == |p.writable|
    ensures forall i | 0 <= i < |p.data| :: |p.data[i]| == p.spec.slots[i].len
    ensures !p.stage.Idle? ==> p.slot < |p.writable| && p.writable[p.slot]
    ensures forall j | 0 <= j < |p.placed| :: p.slot < |p.data| && p.placed[j].buf in info
              && info[p.placed[j].buf] == Info(t, p.key, p.slot, p.data[p.slot], false)
  {
    hide Holds;
  }

  lemma CurrentGuard(st: State, t: nat)
    requires Safe(st) && ClaimsOk(st.objects, st.puts) && t in st.puts && !st.puts[t].stage.Idle?
    ensures var p := st.puts[t];
            && p.slot < |p.writable| && p.writable[p.slot] && p.key in st.objects && p.slot < |st.objects[p.key].slots|
            && st.objects[p.key].spec == p.spec && NoPinned(st.objects, p.key, p.slot)
  {
    hide Safe, PutOk, NoPinned;
    PutAt(st, t);
    PutFacts(st.puts[t], t, st.pools, st.mem, st.info);
    OwnsCurrent(st.puts, t);
    GuardAt(st.objects, st.puts, t, st.puts[t].key, st.puts[t].slot, st.puts[t].spec);
  }

  // ---------------------------------------------------------------------
  // Every step

  /** No remove of a key while a put on it holds a claim. */
  ghost predicate Calm(st: State, s: Step) {
    s.Remove? ==> forall t, k, i, spec | Owner(st.puts, t, k, i, spec) :: k !in s.keys
  }

  lemma InstallKeeps(st: State, t: nat)
    requires Safe(st) && WriteOnce(st) && Enabled(st, Step.Install(t))
    ensures WriteOnce(Installed(st, t))
  {
    hide Safe, OneWriter, ClaimsOk, Queue, Sealed, LocalData.Install, NoPinned, Unmarked, Advance;
    CurrentGuard(st, t);
    InstallWriter(st, t);
    var p := st.puts[t];
    InstallRefs(st.objects, p.key, p.slot, FreshReplicas(p.placed));
    InstallMarks(st.objects, p.key, p.slot, FreshReplicas(p.placed));
    LetGo(st.objects, Installed(st, t).objects, st.puts, t);
  }

  lemma AbandonKeeps(st: State, t: nat)
    requires Safe(st) && WriteOnce(st) && Enabled(st, Abandon(t))
    ensures WriteOnce(Next(st, Abandon(t)))
  {
    hide Safe, OneWriter, ClaimsOk, Unclaim, NoPinned, Unmarked, Advance, ObjectsOk, NoNewRefs;
    CurrentGuard(st, t);
    var p := st.puts[t];
    var now := Unclaim(st.objects, p.key, p.slot);
    UnclaimRefs(st.objects, p.key, p.slot);
    UnclaimMarks(st.objects, p.key, p.slot);
    NoneNew(st.objects, now);
    LetGo(st.objects, now, st.puts, t);
    ObjectsAt(st);
    WriterStays(st.objects, now, st.info, st.info);
  }

  lemma NoneNew(was: Objects, now: Objects)
    requires NoNewRefs(was, now)
    ensures forall k, i, b | ShownAt(now, k, i, b) :: ShownAt(was, k, i, b)
  {
  }

  lemma ObjectsAt(st: State)
    requires Safe(st)
    ensures ObjectsOk(st.objects, st.info)
  {
    hide HeapOk, PutsOk, GetsOk, ObjectsOk;
  }

  /** Metadata that keeps marks and gains no reference; puts that keep their claims. */
  lemma QuietKeeps(st: State, now: State)
    requires Safe(st) && WriteOnce(st)
    requires SameMarks(st.objects, now.objects) && SameSpecs(st.objects, now.objects)
    requires NoNewRefs(st.objects, now.objects)
    requires SameClaims(st.puts, now.puts) && InfoKept(st.info, now.info)
    ensures WriteOnce(now)
  {
    hide Safe, ClaimsOk, OneWriter, SameMarks, SameSpecs, NoNewRefs, SameClaims, InfoKept, ObjectsOk;
    ObjectsAt(st);
    ClaimsStay(st.objects, now.objects, st.puts, now.puts);
    WriterStays(st.objects, now.objects, st.info, now.info);
  }

  lemma MetadataKeeps(st: State, s: Step)
    requires Safe(st) && WriteOnce(st) && Enabled(st, s) && (s.Scan? || s.Publish? || s.Retire?)
    ensures WriteOnce(Next(st, s))
  {
    hide Safe, WriteOnce, SameMarks, SameSpecs, NoNewRefs, LocalData.Scan, LocalData.Publish, LocalData.Retire;
    match s
    case Scan(t) =>
      var n := Todo(st.puts[t].stage)[0].numa;
      ScanMarks(st.objects, st.fifo[n], Cpu(n), st.puts[t].key);
      ScanRefs(st.objects, st.fifo[n], Cpu(n), st.puts[t].key);
      QuietKeeps(st, Next(st, s));
    case Publish(key, i, device, region) =>
      PublishMarks(st.objects, key, i, device, region);
      PublishRefs(st.objects, key, i, device, region);
      QuietKeeps(st, Next(st, s));
    case Retire(region) =>
      RetireMarks(st.objects, region);
      RetireRefs(st.objects, region);
      QuietKeeps(st, Next(st, s));
  }

  lemma RestageClaims(puts: map<nat, Put>, t: nat, p: Put)
    requires t in puts && p.key == puts[t].key && p.spec == puts[t].spec
    requires forall i :: Holding(p, i) <==> Holding(puts[t], i)
    ensures SameClaims(puts, puts[t := p])
  {
  }

  lemma PutKeeps(st: State, s: Step)
    requires Safe(st) && WriteOnce(st) && Enabled(st, s)
    requires s.Skip? || s.Begin? || s.Copy? || s.CopyFails?
    ensures WriteOnce(Next(st, s))
  {
    hide Safe, WriteOnce, SameMarks, SameSpecs, SameClaims, Targets, Write, Where;
    SameMarksRefl(st.objects);
    SameRefs(st.objects);
    RestageClaims(st.puts, s.put, Next(st, s).puts[s.put]);
    QuietKeeps(st, Next(st, s));
  }

  lemma AnsweredClaims(p: Put, pool: Pinned.PoolState)
    requires Working(p) && Todo(p.stage) != []
    ensures var q := Answered(p, pool); q.key == p.key && q.spec == p.spec && q.slot == p.slot && q.writable == p.writable
  {
    hide Fits;
  }

  lemma AllocKeeps(st: State, t: nat)
    requires Safe(st) && WriteOnce(st) && Enabled(st, TryAlloc(t))
    ensures WriteOnce(Allocated(st, t))
  {
    hide Safe, WriteOnce, SameMarks, SameSpecs, SameClaims, Answered, Fits, Pinned.Next, HeapOk;
    var p := st.puts[t];
    var n := Todo(p.stage)[0].numa;
    SameMarksRefl(st.objects);
    SameRefs(st.objects);
    AnsweredClaims(p, st.pools[n]);
    RestageClaims(st.puts, t, Answered(p, st.pools[n]));
    if Fits(st.pools[n], Need(p)) {
      HeapAt(st);
      AllocHeap(st.pools, st.mem, st.info, n, Info(t, p.key, p.slot, p.data[p.slot], false));
    }
    QuietKeeps(st, Allocated(st, t));
  }

  lemma HeapAt(st: State)
    requires Safe(st)
    ensures HeapOk(st.pools, st.mem, st.info)
  {
    hide HeapOk, PutsOk, GetsOk, ObjectsOk;
  }

  lemma GetKeeps(st: State, s: Step)
    requires Safe(st) && WriteOnce(st) && Enabled(st, s) && (s.Open? || s.Read? || s.Close? || s.Release? || s.Return?)
    ensures WriteOnce(Next(st, s))
  {
    hide Safe, WriteOnce, SameMarks, SameSpecs, Where, Referenced;
    SameMarksRefl(st.objects);
    SameRefs(st.objects);
    QuietKeeps(st, Next(st, s));
  }

  lemma ClaimStepKeeps(st: State, key: Key, spec: ObjectSpec, data: seq<seq<Byte>>)
    requires Safe(st) && WriteOnce(st) && Enabled(st, Step.Claim(key, spec, data))
    ensures WriteOnce(ClaimDone(st, key, spec, data))
  {
    hide Safe, ClaimsOk, OneWriter, LocalData.Claim, NoNewRefs, ObjectsOk;
    ClaimKeeps(st, key, spec, data);
    ClaimRefs(st.objects, key, spec);
    ClaimSpecs(st.objects, key, spec);
    ObjectsAt(st);
    WriterStays(st.objects, LocalData.Claim(st.objects, key, spec), st.info, st.info);
  }

  lemma ClaimSpecs(objects: Objects, key: Key, spec: ObjectSpec)
    ensures SameSpecs(objects, LocalData.Claim(objects, key, spec))
  {
  }

  /** A remove keeps write-once exactly when no put holds a claim on a key it removes. */
  lemma RemoveKeepsExactly(st: State, keys: set<Key>)
    requires Safe(st) && WriteOnce(st)
    ensures WriteOnce(Apply(st, Remove(keys))) <==> Calm(st, Remove(keys))
  {
    hide Safe, OneWriter, Owner, NoPinned;
    var now := Apply(st, Remove(keys));
    if Calm(st, Remove(keys)) {
      RemoveMarks(st.objects, st.puts, keys);
      RemoveRefs(st.objects, keys);
      ObjectsAt(st);
      ClaimsStay(st.objects, st.objects - keys, st.puts, st.puts);
      WriterStays(st.objects, st.objects - keys, st.info, st.info);
    } else {
      var t, k, i, spec :| Owner(st.puts, t, k, i, spec) && k in keys;
      assert !Writing(now.objects, k, i);
    }
  }

  lemma RemoveMarks(objects: Objects, puts: map<nat, Put>, keys: set<Key>)
    requires ClaimsOk(objects, puts) && forall t, k, i, spec | Owner(puts, t, k, i, spec) :: k !in keys
    ensures SameMarks(objects, objects - keys) && SameSpecs(objects, objects - keys)
  {
    hide Guarded, OneOwner, Owner;
    forall k, i | Writing(objects, k, i)
      ensures k !in keys
    {
      var t, spec :| Owner(puts, t, k, i, spec);
    }
  }

  lemma StepKeeps(st: State, s: Step)
    requires Safe(st) && WriteOnce(st) && Calm(st, s)
    ensures WriteOnce(Apply(st, s))
  {
    hide Safe, WriteOnce, Calm, ClaimDone, Allocated, ScanDone, Wrote, Installed, Opened, ReadOn, Released;
    if Enabled(st, s) {
      match s
      case Claim(key, spec, data) => ClaimStepKeeps(st, key, spec, data);
      case TryAlloc(t) => AllocKeeps(st, t);
      case Install(t) => InstallKeeps(st, t);
      case Abandon(t) => AbandonKeeps(st, t);
      case Scan(_) => MetadataKeeps(st, s);
      case Publish(_, _, _, _) => MetadataKeeps(st, s);
      case Retire(_) => MetadataKeeps(st, s);
      case Skip(_) => PutKeeps(st, s);
      case Begin(_) => PutKeeps(st, s);
      case Copy(_, _) => PutKeeps(st, s);
      case CopyFails(_) => PutKeeps(st, s);
      case Return(_) => GetKeeps(st, s);
      case Open(_, _, _, _, _) => GetKeeps(st, s);
      case Read(_, _) => GetKeeps(st, s);
      case Close(_) => GetKeeps(st, s);
      case Release(_) => GetKeeps(st, s);
      case Remove(keys) => RemoveKeepsExactly(st, keys);
    }
  }

  // ---------------------------------------------------------------------
  // Every run

  ghost predicate CalmRun(st: State, steps: seq<Step>) {
    steps != [] ==>
      CalmRun(st, steps[..|steps| - 1]) && Calm(Exec(st, steps[..|steps| - 1]), steps[|steps| - 1])
  }

  /** In every run where no remove of a key overlaps a put on it: `writing` marks exactly the held
      claims, each held once; a slot being written shows no pinned replica; its object is still there,
      whatever has been evicted; and all pinned replicas of a slot come from one put. */
  lemma {:induction false} RunWriteOnce(st: State, steps: seq<Step>)
    requires Initial(st) && CalmRun(st, steps)
    ensures WriteOnce(Exec(st, steps))
  {
    hide WriteOnce, Calm, Safe, Initial, Apply;
    if steps == [] {
      InitialWriteOnce(st);
    } else {
      var init := steps[..|steps| - 1];
      RunWriteOnce(st, init);
      LocalRuns.RunSafe(st, init);
      StepKeeps(Exec(st, init), steps[|steps| - 1]);
    }
  }

  lemma InitialWriteOnce(st: State)
    requires Initial(st)
    ensures WriteOnce(st)
  {
  }

  lemma MarkedIffHeld(st: State, k: Key, i: int)
    requires WriteOnce(st)
    ensures Writing(st.objects, k, i) <==> Owned(st.puts, k, i)
  {
    if Owned(st.puts, k, i) {
      var t, spec :| Owner(st.puts, t, k, i, spec);
    }
  }

  // ---------------------------------------------------------------------
  // Gets in such runs

  /** Every running get asked for a range that its buffer has. */
  ghost predicate GetsFit(gets: map<nat, Get>, info: map<BufId, Info>) {
    forall g | g in gets :: gets[g].buf in info && gets[g].offset + gets[g].len <= |info[gets[g].buf].bytes|
  }

  lemma BytesKept(st: State, s: Step, b: BufId)
    requires Safe(st) && Enabled(st, s) && b in st.info && b in Next(st, s).info
    ensures Next(st, s).info[b].bytes == st.info[b].bytes
  {
    hide Safe, Next, HeapOk, Keeps, Fits, Pinned.Next, Holds, Answered;
    LocalRuns.InfoKept(st, s, b);
    if s.TryAlloc? {
      var p := st.puts[s.put];
      var n := Todo(p.stage)[0].numa;
      HeapAt(st);
      if Fits(st.pools[n], Need(p)) {
        AllocHeap(st.pools, st.mem, st.info, n, Info(s.put, p.key, p.slot, p.data[p.slot], false));
      }
      AllocBytes(st, s.put, b);
    }
  }

  lemma AllocBytes(st: State, t: nat, b: BufId)
    requires Enabled(st, TryAlloc(t)) && b in st.info
    requires var p := st.puts[t]; var n := Todo(p.stage)[0].numa; Fits(st.pools[n], Need(p)) ==> b != BufId(n, st.pools[n].next)
    ensures b in Next(st, TryAlloc(t)).info && Next(st, TryAlloc(t)).info[b] == st.info[b]
  {
    hide Fits, Pinned.Next, Answered;
  }

  lemma GetKept(st: State, s: Step, g: nat)
    requires Enabled(st, s) && g in Next(st, s).gets && !s.Open?
    ensures g in st.gets
    ensures var r, was := Next(st, s).gets[g], st.gets[g]; r.buf == was.buf && r.offset == was.offset && r.len == was.len
  {
    hide Mapped, Referenced, LocalData.Claim, Writable, Started, Allocated, LocalData.Scan, Queue, Sealed, LocalData.Install, Unclaim, Write, Where,
         LocalData.Publish, LocalData.Retire;
    if s.TryAlloc? { AllocGets(st, s.put); }
  }

  lemma AllocGets(st: State, t: nat)
    requires Enabled(st, TryAlloc(t))
    ensures Allocated(st, t).gets == st.gets
  {
    hide Fits, Pinned.Next, Answered;
  }

  lemma OpenFits(st: State, key: Key, i: nat, j: nat, offset: nat, len: nat)
    requires Safe(st) && WriteOnce(st) && Enabled(st, Open(key, i, j, offset, len)) && GetsFit(st.gets, st.info)
    ensures GetsFit(Opened(st, key, i, j, offset, len).gets, st.info)
  {
    hide HeapOk, PutsOk, GetsOk, ClaimsOk, OrderOk;
    var b := st.objects[key].slots[i].replicas[j].data.buf;
    assert ShownAt(st.objects, key, i, b);
  }

  lemma GetsAt(st: State)
    requires Safe(st)
    ensures forall g | g in st.gets :: st.gets[g].buf in st.info
  {
    hide HeapOk, PutsOk, ObjectsOk, OrderOk, Shaped;
    forall g | g in st.gets ensures st.gets[g].buf in st.info { assert GetOk(st.gets[g], st.info); }
  }

  lemma StepGetsFit(st: State, s: Step)
    requires Safe(st) && WriteOnce(st) && GetsFit(st.gets, st.info)
    ensures GetsFit(Apply(st, s).gets, Apply(st, s).info)
  {
    hide Safe, WriteOnce, Next, Opened;
    if Enabled(st, s) {
      if s.Open? {
        OpenFits(st, s.key, s.slot, s.replica, s.offset, s.len);
        NextOpen(st, s);
      } else {
        LocalRuns.StepSafe(st, s);
        GetsAt(Apply(st, s));
        forall g | g in Next(st, s).gets
          ensures var r := Next(st, s).gets[g]; r.buf in Next(st, s).info && r.offset + r.len <= |Next(st, s).info[r.buf].bytes|
        {
          GetKept(st, s, g);
          BytesKept(st, s, Next(st, s).gets[g].buf);
        }
      }
    }
  }

  lemma NextOpen(st: State, s: Step)
    requires Enabled(st, s) && s.Open?
    ensures Next(st, s) == Opened(st, s.key, s.slot, s.replica, s.offset, s.len) && Next(st, s).info == st.info
  {
  }

  /** In every calm run a get never runs short: it can always copy on to the end of its range. */
  lemma {:induction false} RunGetsComplete(st: State, steps: seq<Step>)
    requires Initial(st) && CalmRun(st, steps)
    ensures GetsFit(Exec(st, steps).gets, Exec(st, steps).info)
    ensures var now := Exec(st, steps);
            forall g | g in now.gets ::
              |now.gets[g].out| <= now.gets[g].len && Enabled(now, Read(g, now.gets[g].len - |now.gets[g].out|))
  {
    hide WriteOnce, Calm, Safe, Initial, Apply, Enabled, GetsFit;
    if steps == [] {
      NoGets(st);
    } else {
      var init := steps[..|steps| - 1];
      RunGetsComplete(st, init);
      RunWriteOnce(st, init);
      LocalRuns.RunSafe(st, init);
      StepGetsFit(Exec(st, init), steps[|steps| - 1]);
    }
    LocalRuns.RunSafe(st, steps);
    var now := Exec(st, steps);
    forall g | g in now.gets
      ensures |now.gets[g].out| <= now.gets[g].len && Enabled(now, Read(g, now.gets[g].len - |now.gets[g].out|))
    {
      CanFinish(now, g);
    }
  }

  lemma CanFinish(st: State, g: nat)
    requires Safe(st) && g in st.gets && GetsFit(st.gets, st.info)
    ensures |st.gets[g].out| <= st.gets[g].len && Enabled(st, Read(g, st.gets[g].len - |st.gets[g].out|))
  {
    hide HeapOk, PutsOk, ObjectsOk, OrderOk, Shaped, Enabled;
    assert GetOk(st.gets[g], st.info);
    LocalRuns.ReadsStayInside(st, g, st.gets[g].len - |st.gets[g].out|);
  }

  lemma NoGets(st: State)
    requires Initial(st)
    ensures GetsFit(st.gets, st.info)
  {
  }
}
