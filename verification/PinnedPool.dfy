/** The pinned pool: first-fit allocation over a free list, coalescing on release. */
module PinnedPool {
  import opened Types

  const ALIGN: nat := 0x20_0000

  datatype Range = Range(off: nat, len: nat) {
    function End(): nat { off + len }

    predicate Has(a: nat) { off <= a < End() }
  }

  /** Requests are served in whole 2 MiB units. */
  function RoundUp(bytes: nat): (r: nat)
    ensures bytes <= r < bytes + ALIGN && r % ALIGN == 0
    ensures r == 0 <==> bytes == 0
  {
    (bytes + ALIGN - 1) / ALIGN * ALIGN
  }

  /** The first entry that fits, or `|free|`. */
  function FirstFit(free: seq<Range>, need: nat): (i: nat)
    ensures i <= |free|
    ensures i < |free| ==> need <= free[i].len
    ensures forall j | 0 <= j < i :: free[j].len < need
  {
    if free == [] || need <= free[0].len then 0 else 1 + FirstFit(free[1..], need)
  }

  /** The first entry that does not start below `off`, or `|free|`: `partition_point`. */
  function Partition(free: seq<Range>, off: nat): (i: nat)
    ensures i <= |free|
    ensures i < |free| ==> off <= free[i].off
    ensures forall j | 0 <= j < i :: free[j].off < off
  {
    if free == [] || off <= free[0].off then 0 else 1 + Partition(free[1..], off)
  }

  /** Cut `need` bytes off the front of entry `i`. */
  function Carve(free: seq<Range>, i: nat, need: nat): seq<Range>
    requires i < |free| && need <= free[i].len
  {
    if free[i].len == need then free[..i] + free[i + 1..]
    else free[i := Range(free[i].off + need, free[i].len - need)]
  }

  /** Merge entry `i + 1` into entry `i` when they touch. */
  function Fuse(free: seq<Range>, i: nat): seq<Range>
    requires i < |free|
  {
    if i + 1 < |free| && free[i].End() == free[i + 1].off
    then free[..i] + [Range(free[i].off, free[i].len + free[i + 1].len)] + free[i + 2..]
    else free
  }

  /** Insert `r` before entry `i`, then coalesce with the right and the left neighbour. */
  function GiveBackAt(free: seq<Range>, i: nat, r: Range): seq<Range>
    requires i <= |free|
  {
    var right := Fuse(free[..i] + [r] + free[i..], i);
    if i > 0 && i < |right| then Fuse(right, i - 1) else right
  }

  function GiveBack(free: seq<Range>, r: Range): seq<Range> {
    GiveBackAt(free, Partition(free, r.off), r)
  }

  // ---------------------------------------------------------------------
  // The pool object

  datatype Buffer = Buffer(off: nat, reserved: nat, len: nat)

  class Pool {
    const capacity: nat
    var free: seq<Range>

    constructor (bytes: nat)
      ensures capacity == RoundUp(bytes)
      ensures free == [Range(0, capacity)]
    {
      capacity := RoundUp(bytes);
      free := [Range(0, RoundUp(bytes))];
    }

    method Fit(need: nat) returns (i: nat)
      ensures i == FirstFit(free, need)
    {
      i := 0;
      while i < |free| && free[i].len < need
        invariant 0 <= i <= |free|
        invariant FirstFit(free, need) == i + FirstFit(free[i..], need)
      {
        i := i + 1;
      }
    }

    method Alloc(bytes: nat) returns (buf: Option<Buffer>)
      modifies this
      ensures var i := FirstFit(old(free), RoundUp(bytes));
              if i == |old(free)| then buf == None && free == old(free)
              else
                && buf == Some(Buffer(old(free)[i].off, RoundUp(bytes), bytes))
                && free == Carve(old(free), i, RoundUp(bytes))
    {
      hide RoundUp, FirstFit;
      var need := RoundUp(bytes);
      var i := Fit(need);
      if i == |free| {
        return None;
      }
      buf := Some(Buffer(free[i].off, need, bytes));
      if free[i].len == need {
        free := free[..i] + free[i + 1..];
      } else {
        free := free[i := Range(free[i].off + need, free[i].len - need)];
      }
    }

    method Position(off: nat) returns (i: nat)
      ensures i == Partition(free, off)
    {
      i := 0;
      while i < |free| && free[i].off < off
        invariant 0 <= i <= |free|
        invariant Partition(free, off) == i + Partition(free[i..], off)
      {
        i := i + 1;
      }
    }

    method Release(off: nat, len: nat)
      modifies this
      ensures free == GiveBack(old(free), Range(off, len))
    {
      hide Partition;
      var i := Position(off);
      free := free[..i] + [Range(off, len)] + free[i..];
      ghost var inserted := free;
      if i + 1 < |free| && free[i].End() == free[i + 1].off {
        free := free[..i] + [Range(free[i].off, free[i].len + free[i + 1].len)] + free[i + 2..];
      }
      assert free == Fuse(inserted, i);
      if i > 0 && free[i - 1].End() == free[i].off {
        free := free[..i - 1] + [Range(free[i - 1].off, free[i - 1].len + free[i].len)] + free[i + 1..];
      }
    }
  }

  // ---------------------------------------------------------------------
  // Safety: free and live ranges never overlap and together are the whole pool

  predicate Apart(r: Range, s: Range) {
    r.len == 0 || s.len == 0 || r.End() <= s.off || s.End() <= r.off
  }

  ghost predicate FreeLaid(free: seq<Range>, capacity: nat) {
    && (forall i | 0 <= i < |free| :: free[i].End() <= capacity)
    && (forall i, j | 0 <= i < j < |free| :: Apart(free[i], free[j]))
  }

  ghost predicate LiveLaid(live: map<nat, Range>, capacity: nat) {
    && (forall b | b in live :: live[b].End() <= capacity)
    && (forall b, c | b in live && c in live && b != c :: Apart(live[b], live[c]))
  }

  ghost predicate Clear(free: seq<Range>, r: Range) {
    forall i | 0 <= i < |free| :: Apart(free[i], r)
  }

  ghost predicate Laid(free: seq<Range>, live: map<nat, Range>, capacity: nat) {
    && FreeLaid(free, capacity) && LiveLaid(live, capacity)
    && (forall b | b in live :: Clear(free, live[b]))
  }

  ghost predicate InFree(free: seq<Range>, a: nat) {
    exists i | 0 <= i < |free| :: free[i].Has(a)
  }

  ghost predicate InLive(live: map<nat, Range>, a: nat) {
    exists b | b in live :: live[b].Has(a)
  }

  ghost predicate Full(free: seq<Range>, live: map<nat, Range>, capacity: nat) {
    forall a: nat | a < capacity :: InFree(free, a) || InLive(live, a)
  }

  /** Replace entries `p..q` by the single entry `m`. */
  ghost function Splice(free: seq<Range>, p: nat, m: Range, q: nat): seq<Range>
    requires p <= q <= |free|
  {
    free[..p] + [m] + free[q..]
  }

  function JoinsLeft(free: seq<Range>, i: nat, r: Range): bool
    requires i <= |free|
  {
    i > 0 && free[i - 1].End() == r.off
  }

  function JoinsRight(free: seq<Range>, i: nat, r: Range): bool
    requires i <= |free|
  {
    i < |free| && r.End() == free[i].off
  }

  /** The entry a release at `i` leaves: `r` grown over the neighbours it touches. */
  function Grown(free: seq<Range>, i: nat, r: Range): Range
    requires i <= |free|
  {
    var left := if JoinsLeft(free, i, r) then free[i - 1].len else 0;
    var right := if JoinsRight(free, i, r) then free[i].len else 0;
    Range(if JoinsLeft(free, i, r) then free[i - 1].off else r.off, left + r.len + right)
  }

  /** Insertion and the two coalescing steps amount to one splice. */
  lemma GiveBackIsSplice(free: seq<Range>, i: nat, r: Range)
    requires i <= |free|
    ensures GiveBackAt(free, i, r)
         == Splice(free, Low(free, i, r), Grown(free, i, r), High(free, i, r))
  {
    var put := free[..i] + [r] + free[i..];
    var right := Fuse(put, i);
    var j := if JoinsRight(free, i, r) then i + 1 else i;
    var m := Range(r.off, r.len + if JoinsRight(free, i, r) then free[i].len else 0);
    assert right == free[..i] + [m] + free[j..];
    if JoinsLeft(free, i, r) {
      assert right[i - 1] == free[i - 1] && right[i] == m;
      assert right[..i - 1] == free[..i - 1] && right[i + 1..] == free[j..];
    }
  }

  lemma CarveLaid(free: seq<Range>, i: nat, need: nat, capacity: nat)
    requires FreeLaid(free, capacity) && i < |free| && need <= free[i].len
    ensures FreeLaid(Carve(free, i, need), capacity)
    ensures Clear(Carve(free, i, need), Range(free[i].off, need))
    ensures forall r | Clear(free, r) :: Clear(Carve(free, i, need), r) && Apart(r, Range(free[i].off, need))
  {
    var out := Carve(free, i, need);
    forall r | Clear(free, r)
      ensures Clear(out, r) && Apart(r, Range(free[i].off, need))
    {
      assert Apart(free[i], r);
      assert forall j | 0 <= j < |out| ::
          out[j] == (if free[i].len == need then (if j < i then free[j] else free[j + 1])
                     else if j == i then Range(free[i].off + need, free[i].len - need) else free[j]);
    }
  }

  lemma CarveFull(free: seq<Range>, i: nat, need: nat, a: nat)
    requires i < |free| && need <= free[i].len && InFree(free, a)
    ensures InFree(Carve(free, i, need), a) || Range(free[i].off, need).Has(a)
  {
    var out := Carve(free, i, need);
    var j :| 0 <= j < |free| && free[j].Has(a);
    if j != i {
      var k := if free[i].len == need && i < j then j - 1 else j;
      assert out[k] == free[j];
    } else if !Range(free[i].off, need).Has(a) {
      assert out[i].Has(a);
    }
  }

  /** Handing out the front of a free entry keeps every two ranges apart and loses no byte. */
  lemma TakeSafe(free: seq<Range>, live: map<nat, Range>, capacity: nat, i: nat, need: nat, b: nat)
    requires Laid(free, live, capacity) && Full(free, live, capacity)
    requires i < |free| && need <= free[i].len && b !in live
    ensures var live' := live[b := Range(free[i].off, need)];
            Laid(Carve(free, i, need), live', capacity) && Full(Carve(free, i, need), live', capacity)
  {
    CarveLaid(free, i, need, capacity);
    var out, live' := Carve(free, i, need), live[b := Range(free[i].off, need)];
    forall a: nat | a < capacity
      ensures InFree(out, a) || InLive(live', a)
    {
      if InFree(free, a) {
        CarveFull(free, i, need, a);
        assert live'[b].Has(a) ==> InLive(live', a);
      } else {
        var c :| c in live && live[c].Has(a);
        assert live'[c].Has(a);
      }
    }
  }

  /** Where `Grown` came from: its bytes are those of `r` and of the neighbours it swallowed. */
  lemma GrownBytes(free: seq<Range>, i: nat, r: Range, a: nat)
    requires i <= |free|
    ensures Grown(free, i, r).Has(a) <==>
            r.Has(a) || (JoinsLeft(free, i, r) && free[i - 1].Has(a)) || (JoinsRight(free, i, r) && free[i].Has(a))
  {
  }

  lemma GrownApart(free: seq<Range>, i: nat, r: Range, s: Range)
    requires i <= |free| && Apart(r, s)
    requires JoinsLeft(free, i, r) ==> Apart(free[i - 1], s)
    requires JoinsRight(free, i, r) ==> Apart(free[i], s)
    ensures Apart(Grown(free, i, r), s)
  {
  }

  ghost predicate Outside(p: nat, q: nat, j: int) { j < p || q <= j }

  lemma SpliceAt(free: seq<Range>, p: nat, m: Range, q: nat, k: nat)
    requires p <= q <= |free| && k < |Splice(free, p, m, q)|
    ensures k == p ==> Splice(free, p, m, q)[k] == m
    ensures k < p ==> Splice(free, p, m, q)[k] == free[k]
    ensures p < k ==> q + (k - p - 1) < |free| && Splice(free, p, m, q)[k] == free[q + (k - p - 1)]
  {
  }

  lemma SpliceLaid(free: seq<Range>, p: nat, m: Range, q: nat, capacity: nat)
    requires p <= q <= |free| && FreeLaid(free, capacity) && m.End() <= capacity
    requires forall j | 0 <= j < |free| && Outside(p, q, j) :: Apart(free[j], m)
    ensures FreeLaid(Splice(free, p, m, q), capacity)
  {
    hide Splice, Apart;
    var out := Splice(free, p, m, q);
    forall i | 0 <= i < |out|
      ensures out[i].End() <= capacity
    {
      SpliceAt(free, p, m, q, i);
    }
    forall i, j | 0 <= i < j < |out|
      ensures Apart(out[i], out[j])
    {
      SpliceAt(free, p, m, q, i);
      SpliceAt(free, p, m, q, j);
      var i', j' := if i < p then i else q + (i - p - 1), if j < p then j else q + (j - p - 1);
      if i == p {
        assert Outside(p, q, j') && Apart(free[j'], m);
        ApartSymmetric(free[j'], m);
      } else if j == p {
        assert Outside(p, q, i') && Apart(free[i'], m);
      } else {
        assert Apart(free[i'], free[j']);
      }
    }
  }

  lemma ApartSymmetric(r: Range, s: Range)
    ensures Apart(r, s) <==> Apart(s, r)
  {
  }

  lemma SpliceClear(free: seq<Range>, p: nat, m: Range, q: nat, s: Range)
    requires p <= q <= |free| && Clear(free, s) && Apart(m, s)
    ensures Clear(Splice(free, p, m, q), s)
  {
    hide Splice, Apart;
    forall i | 0 <= i < |Splice(free, p, m, q)|
      ensures Apart(Splice(free, p, m, q)[i], s)
    {
      SpliceAt(free, p, m, q, i);
    }
  }

  lemma SpliceHas(free: seq<Range>, p: nat, m: Range, q: nat, a: nat)
    requires p <= q <= |free|
    ensures m.Has(a) ==> InFree(Splice(free, p, m, q), a)
    ensures forall j | 0 <= j < |free| && Outside(p, q, j) && free[j].Has(a) :: InFree(Splice(free, p, m, q), a)
  {
    var out := Splice(free, p, m, q);
    assert out[p] == m;
    forall j | 0 <= j < |free| && Outside(p, q, j) && free[j].Has(a)
      ensures InFree(out, a)
    {
      var k := if j < p then j else j - q + p + 1;
      assert out[k] == free[j];
    }
  }

  function Low(free: seq<Range>, i: nat, r: Range): (p: nat)
    requires i <= |free|
    ensures p <= i
  {
    if JoinsLeft(free, i, r) then i - 1 else i
  }

  function High(free: seq<Range>, i: nat, r: Range): (q: nat)
    requires i <= |free|
    ensures i <= q <= |free|
  {
    if JoinsRight(free, i, r) then i + 1 else i
  }

  /** Taking a range back, wherever the insertion point was found, keeps every two ranges apart
      and loses no byte. Nothing is asked of the order of the list. */
  lemma GiveSafe(free: seq<Range>, live: map<nat, Range>, capacity: nat, i: nat, b: nat)
    requires Laid(free, live, capacity) && Full(free, live, capacity)
    requires i <= |free| && b in live
    ensures Laid(GiveBackAt(free, i, live[b]), live - {b}, capacity)
    ensures Full(GiveBackAt(free, i, live[b]), live - {b}, capacity)
  {
    hide GiveBackAt, Splice;
    var r := live[b];
    var p, q, m := Low(free, i, r), High(free, i, r), Grown(free, i, r);
    GiveBackIsSplice(free, i, r);
    assert Clear(free, r);
    forall j | 0 <= j < |free| && Outside(p, q, j)
      ensures Apart(free[j], m)
    {
      GrownApart(free, i, r, free[j]);
    }
    SpliceLaid(free, p, m, q, capacity);
    forall c | c in live - {b}
      ensures Clear(Splice(free, p, m, q), live[c])
    {
      assert Clear(free, live[c]);
      GrownApart(free, i, r, live[c]);
      SpliceClear(free, p, m, q, live[c]);
    }
    forall a: nat | a < capacity
      ensures InFree(Splice(free, p, m, q), a) || InLive(live - {b}, a)
    {
      GiveFull(free, live, i, b, a);
    }
  }

  lemma GiveFull(free: seq<Range>, live: map<nat, Range>, i: nat, b: nat, a: nat)
    requires i <= |free| && b in live
    requires InFree(free, a) || InLive(live, a)
    ensures var r := live[b];
            InFree(Splice(free, Low(free, i, r), Grown(free, i, r), High(free, i, r)), a) || InLive(live - {b}, a)
  {
    hide Splice;
    var r := live[b];
    GrownBytes(free, i, r, a);
    SpliceHas(free, Low(free, i, r), Grown(free, i, r), High(free, i, r), a);
    if !InFree(free, a) && !r.Has(a) {
      var c :| c in live && live[c].Has(a);
      assert c in live - {b};
    }
  }

  // ---------------------------------------------------------------------
  // Tightness: with positive sizes the list is sorted, without gaps of length zero

  ghost predicate Tight(free: seq<Range>) {
    && (forall i | 0 <= i < |free| :: 0 < free[i].len)
    && (forall i, j | 0 <= i < j < |free| :: free[i].End() < free[j].off)
  }

  ghost predicate Aligned(free: seq<Range>) {
    forall i | 0 <= i < |free| :: free[i].off % ALIGN == 0 && free[i].len % ALIGN == 0
  }

  lemma Sorted(free: seq<Range>, i: int, j: int)
    requires Tight(free)
    ensures 0 <= i < j < |free| ==> free[i].End() < free[j].off
  {
  }

  lemma CarveAt(free: seq<Range>, i: nat, need: nat, k: nat)
    requires i < |free| && need <= free[i].len && k < |Carve(free, i, need)|
    ensures |Carve(free, i, need)| == if free[i].len == need then |free| - 1 else |free|
    ensures k < i ==> Carve(free, i, need)[k] == free[k]
    ensures free[i].len == need && i <= k ==> Carve(free, i, need)[k] == free[k + 1]
    ensures free[i].len != need && i < k ==> Carve(free, i, need)[k] == free[k]
    ensures free[i].len != need && i == k ==> Carve(free, i, need)[k] == Range(free[i].off + need, free[i].len - need)
  {
  }

  lemma CarveTight(free: seq<Range>, i: nat, need: nat)
    requires Tight(free) && Aligned(free) && i < |free| && need <= free[i].len && need % ALIGN == 0
    ensures Tight(Carve(free, i, need)) && Aligned(Carve(free, i, need))
  {
    hide Carve;
    var out := Carve(free, i, need);
    forall k | 0 <= k < |out|
      ensures 0 < out[k].len && out[k].off % ALIGN == 0 && out[k].len % ALIGN == 0
    {
      CarveAt(free, i, need, k);
    }
    forall k, l | 0 <= k < l < |out|
      ensures out[k].End() < out[l].off
    {
      CarveAt(free, i, need, k);
      CarveAt(free, i, need, l);
    }
  }

  /** The entries before the insertion point end at or below `r`, the others start at or above its end. */
  lemma PartitionSplits(free: seq<Range>, r: Range)
    requires Tight(free) && Clear(free, r) && r.len > 0
    ensures var i := Partition(free, r.off);
            && (forall j | 0 <= j < i :: free[j].End() <= r.off)
            && (forall j | i <= j < |free| :: r.End() <= free[j].off)
  {
    var i := Partition(free, r.off);
    forall j | i <= j < |free|
      ensures r.End() <= free[j].off
    {
      assert r.off <= free[i].off <= free[j].off;
      assert Apart(free[j], r);
    }
  }

  lemma SpliceTight(free: seq<Range>, p: nat, m: Range, q: nat)
    requires p <= q <= |free| && Tight(free) && 0 < m.len
    requires forall j | 0 <= j < p :: free[j].End() < m.off
    requires forall j | q <= j < |free| :: m.End() < free[j].off
    ensures Tight(Splice(free, p, m, q))
  {
    hide Splice;
    var out := Splice(free, p, m, q);
    forall k | 0 <= k < |out|
      ensures 0 < out[k].len
    {
      SpliceAt(free, p, m, q, k);
    }
    forall k, l | 0 <= k < l < |out|
      ensures out[k].End() < out[l].off
    {
      SpliceAt(free, p, m, q, k);
      SpliceAt(free, p, m, q, l);
    }
  }

  lemma SpliceAligned(free: seq<Range>, p: nat, m: Range, q: nat)
    requires p <= q <= |free| && Aligned(free) && m.off % ALIGN == 0 && m.len % ALIGN == 0
    ensures Aligned(Splice(free, p, m, q))
  {
    hide Splice;
    forall k | 0 <= k < |Splice(free, p, m, q)|
      ensures var r := Splice(free, p, m, q)[k]; r.off % ALIGN == 0 && r.len % ALIGN == 0
    {
      SpliceAt(free, p, m, q, k);
    }
  }

  /** `Grown` stays strictly between its neighbours. */
  lemma GrownFits(free: seq<Range>, r: Range)
    requires Tight(free) && Clear(free, r) && r.len > 0
    ensures var i := Partition(free, r.off);
            var m := Grown(free, i, r);
            && (forall j | 0 <= j < Low(free, i, r) :: free[j].End() < m.off)
            && (forall j | High(free, i, r) <= j < |free| :: m.End() < free[j].off)
  {
    hide Partition;
    PartitionSplits(free, r);
  }

  /** Taking a range back keeps the list sorted, gapped and aligned. */
  lemma GiveTight(free: seq<Range>, r: Range)
    requires Tight(free) && Aligned(free) && Clear(free, r) && r.len > 0
    requires r.off % ALIGN == 0 && r.len % ALIGN == 0
    ensures Tight(GiveBack(free, r)) && Aligned(GiveBack(free, r))
  {
    hide GiveBackAt, Splice, Partition, Tight, Clear;
    var i := Partition(free, r.off);
    GiveBackIsSplice(free, i, r);
    GrownFits(free, r);
    SpliceTight(free, Low(free, i, r), Grown(free, i, r), High(free, i, r));
    SpliceAligned(free, Low(free, i, r), Grown(free, i, r), High(free, i, r));
  }

  /** No byte of `[x, x + n)` is live. */
  ghost predicate Unused(live: map<nat, Range>, x: nat, n: nat) {
    forall a: nat | x <= a < x + n :: !InLive(live, a)
  }

  /** Every unused run lies inside one entry: the entries are the maximal unused runs. */
  lemma EntriesAreMaximalRuns(free: seq<Range>, live: map<nat, Range>, capacity: nat, x: nat, n: nat) returns (i: nat)
    requires Laid(free, live, capacity) && Full(free, live, capacity) && Tight(free)
    requires 0 < n && x + n <= capacity && Unused(live, x, n)
    ensures i < |free| && free[i].off <= x && x + n <= free[i].End()
  {
    assert InFree(free, x);
    i :| 0 <= i < |free| && free[i].Has(x);
    var e: nat := free[i].End();
    assert e < capacity ==> InFree(free, e) || InLive(live, e);
    assert e < x + n ==> !InLive(live, e);
    EndNotFree(free, capacity, i);
  }

  lemma EndNotFree(free: seq<Range>, capacity: nat, i: nat)
    requires FreeLaid(free, capacity) && Tight(free) && i < |free|
    ensures !InFree(free, free[i].End())
  {
    forall j | 0 <= j < |free|
      ensures !free[j].Has(free[i].End())
    {
      assert j < i ==> free[j].End() < free[i].off;
      assert i < j ==> free[i].End() < free[j].off;
    }
  }

  /** A byte of a free entry is not live. */
  lemma FreeIsUnused(free: seq<Range>, live: map<nat, Range>, capacity: nat, i: nat)
    requires Laid(free, live, capacity) && i < |free|
    ensures Unused(live, free[i].off, free[i].len)
  {
    forall b, a: nat | b in live && free[i].Has(a)
      ensures !live[b].Has(a)
    {
      assert Clear(free, live[b]) && Apart(free[i], live[b]);
    }
  }

  /** Allocation fails exactly when no unused run is large enough. */
  lemma AllocFailsExactly(free: seq<Range>, live: map<nat, Range>, capacity: nat, bytes: nat)
    requires Laid(free, live, capacity) && Full(free, live, capacity) && Tight(free) && bytes > 0
    ensures FirstFit(free, RoundUp(bytes)) == |free| <==>
            !exists x: nat | x + RoundUp(bytes) <= capacity :: Unused(live, x, RoundUp(bytes))
  {
    var need := RoundUp(bytes);
    var i := FirstFit(free, need);
    if i < |free| {
      FreeIsUnused(free, live, capacity, i);
      assert Unused(live, free[i].off, need);
    } else {
      forall x: nat | x + need <= capacity
        ensures !Unused(live, x, need)
      {
        if Unused(live, x, need) {
          var j := EntriesAreMaximalRuns(free, live, capacity, x, need);
        }
      }
    }
  }

  /** The entry that serves a request starts at the lowest address with enough unused bytes behind it. */
  lemma FirstFitIsLowest(free: seq<Range>, live: map<nat, Range>, capacity: nat, bytes: nat, x: nat)
    requires Laid(free, live, capacity) && Full(free, live, capacity) && Tight(free) && bytes > 0
    requires x + RoundUp(bytes) <= capacity && Unused(live, x, RoundUp(bytes))
    ensures var i := FirstFit(free, RoundUp(bytes));
            i < |free| && free[i].off <= x && Unused(live, free[i].off, RoundUp(bytes))
  {
    hide RoundUp, Laid, Full;
    var need := RoundUp(bytes);
    var i := FirstFit(free, need);
    var j := EntriesAreMaximalRuns(free, live, capacity, x, need);
    assert i <= j;
    FreeIsUnused(free, live, capacity, i);
  }

  /** With nothing live the list is the one initial range. */
  lemma NothingLive(free: seq<Range>, capacity: nat)
    requires Laid(free, map[], capacity) && Full(free, map[], capacity) && Tight(free) && capacity > 0
    ensures free == [Range(0, capacity)]
  {
    var i := EntriesAreMaximalRuns(free, map[], capacity, 0, capacity);
    Sorted(free, 0, i);
    Sorted(free, i, i + 1);
  }
}
