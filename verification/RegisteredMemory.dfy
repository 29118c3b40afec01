/** The map of registered local memory, searched by neighbour. */
module RegisteredMemory {
  import opened Types
  import opened RdmaTypes

  /** A registration: one memory-region handle per NIC. */
  datatype Region = Region(base: nat, len: nat, numa: nat, mrs: seq<nat>) {
    function End(): nat { base + len }
  }

  type Entries = map<nat, Region>

  // ---------------------------------------------------------------------
  // Ordered-map queries

  /** The greatest key at or below `p`. */
  function Predecessor(keys: set<nat>, p: nat): (r: Option<nat>)
    ensures r.Some? ==> r.value in keys && r.value <= p && forall k | k in keys && k <= p :: k <= r.value
    ensures r.None? ==> forall k | k in keys :: p < k
  {
    if p in keys then Some(p) else if p == 0 then None else Predecessor(keys, p - 1)
  }

  /** The least key at or above `p`; no key exceeds `U64_MAX`. */
  function Successor(keys: set<nat>, p: nat): (r: Option<nat>)
    requires forall k | k in keys :: k <= U64_MAX
    ensures r.Some? ==> r.value in keys && p <= r.value && forall k | k in keys && p <= k :: r.value <= k
    ensures r.None? ==> forall k | k in keys :: k < p
    decreases U64_MAX - p
  {
    if p in keys then Some(p) else if p >= U64_MAX then None else Successor(keys, p + 1)
  }

  // ---------------------------------------------------------------------
  // The invariant and the specification of the operations

  predicate Apart(r: Region, s: Region) { r.End() <= s.base || s.End() <= r.base }

  ghost predicate Valid(entries: Entries) {
    && (forall k | k in entries :: entries[k].base == k && 0 < entries[k].len && entries[k].End() <= U64_MAX)
    && (forall j, k | j in entries && k in entries && j != k :: Apart(entries[j], entries[k]))
  }

  lemma KeysFit(entries: Entries)
    requires Valid(entries)
    ensures forall k | k in entries.Keys :: k <= U64_MAX
  {
    forall k | k in entries.Keys
      ensures k <= U64_MAX
    {
      assert entries[k].base == k;
    }
  }

  /** Look at the two neighbours of `r` only. */
  predicate Overlaps(entries: Entries, r: Region)
    requires forall k | k in entries.Keys :: k <= U64_MAX
  {
    var prev, next := Predecessor(entries.Keys, r.base), Successor(entries.Keys, r.base);
    || (prev.Some? && r.base < entries[prev.value].End())
    || (next.Some? && next.value < r.End())
  }

  function Insert(entries: Entries, r: Region): Outcome<Entries>
    requires forall k | k in entries.Keys :: k <= U64_MAX
  {
    if r.len == 0 || r.End() > U64_MAX then Failed(InvalidArgument)
    else if Overlaps(entries, r) then Failed(Backend)
    else Done(entries[r.base := r])
  }

  function Find(entries: Entries, ptr: nat, len: nat): Option<Region> {
    if ptr + len > U64_MAX then None
    else
      var p := Predecessor(entries.Keys, ptr);
      if p.Some? && ptr + len <= entries[p.value].End() then Some(entries[p.value]) else None
  }

  predicate Covers(r: Region, ptr: nat, len: nat) { r.base <= ptr && ptr + len <= r.End() }

  // ---------------------------------------------------------------------
  // Two neighbours decide

  /** The check of the two neighbours finds an overlap exactly when some registration overlaps. */
  lemma NeighboursDecide(entries: Entries, r: Region)
    requires Valid(entries) && 0 < r.len
    ensures (forall k | k in entries.Keys :: k <= U64_MAX)
    ensures Overlaps(entries, r) <==> exists k :: k in entries && !Apart(entries[k], r)
  {
    KeysFit(entries);
    var prev, next := Predecessor(entries.Keys, r.base), Successor(entries.Keys, r.base);
    if Overlaps(entries, r) {
      if prev.Some? && r.base < entries[prev.value].End() {
        assert !Apart(entries[prev.value], r);
      } else {
        assert !Apart(entries[next.value], r);
      }
    }
    if k :| k in entries && !Apart(entries[k], r) {
      if k <= r.base {
        assert k in entries.Keys;
        assert k == prev.value || Apart(entries[k], entries[prev.value]);
      } else {
        assert k in entries.Keys && next.Some?;
      }
    }
  }

  /** Insertion succeeds exactly for non-empty, non-overflowing regions that overlap nothing. */
  lemma InsertExactly(entries: Entries, r: Region)
    requires Valid(entries)
    ensures forall k | k in entries.Keys :: k <= U64_MAX
    ensures var out := Insert(entries, r);
            && (out.Done? <==> 0 < r.len && r.End() <= U64_MAX && forall k | k in entries :: Apart(entries[k], r))
            && (out.Done? ==> Valid(out.value) && r.base !in entries && out.value == entries[r.base := r])
  {
    KeysFit(entries);
    if 0 < r.len { NeighboursDecide(entries, r); }
    if r.base in entries && 0 < r.len {
      assert !Apart(entries[r.base], r);
    }
  }

  /** The predecessor lookup answers like a search of every registration. */
  lemma FindIsLinearSearch(entries: Entries, ptr: nat, len: nat)
    requires Valid(entries)
    ensures var f := Find(entries, ptr, len);
            && (f.Some? <==> exists k :: k in entries && Covers(entries[k], ptr, len))
            && (f.Some? ==> f.value.base in entries && entries[f.value.base] == f.value && Covers(f.value, ptr, len))
            && (f.Some? && 0 < len ==> forall k | k in entries && Covers(entries[k], ptr, len) :: entries[k] == f.value)
  {
    var p := Predecessor(entries.Keys, ptr);
    forall k | k in entries && Covers(entries[k], ptr, len)
      ensures Find(entries, ptr, len).Some?
      ensures 0 < len ==> entries[k] == Find(entries, ptr, len).value
    {
      assert k in entries.Keys && p.Some? && k <= p.value;
      assert k == p.value || Apart(entries[k], entries[p.value]);
    }
    if Find(entries, ptr, len).Some? {
      assert Covers(entries[p.value], ptr, len);
    }
  }

  // ---------------------------------------------------------------------
  // Every sequence of registrations

  datatype Op = Register(region: Region) | Unregister(base: nat)

  ghost function Next(entries: Entries, op: Op): Entries
    requires Valid(entries)
  {
    KeysFit(entries);
    match op
    case Register(r) => var out := Insert(entries, r); if out.Done? then out.value else entries
    case Unregister(base) => entries - {base}
  }

  lemma NextValid(entries: Entries, op: Op)
    requires Valid(entries)
    ensures Valid(Next(entries, op))
  {
    hide Overlaps;
    if op.Register? { InsertExactly(entries, op.region); }
  }

  /** Whatever is registered and unregistered: regions stay pairwise disjoint, non-empty and inside
      the address space. */
  ghost function Exec(ops: seq<Op>): (entries: Entries)
    ensures Valid(entries)
  {
    if ops == [] then map[]
    else
      NextValid(Exec(ops[..|ops| - 1]), ops[|ops| - 1]);
      Next(Exec(ops[..|ops| - 1]), ops[|ops| - 1])
  }

  // ---------------------------------------------------------------------
  // The map object

  class LocalMemoryMap {
    var entries: Entries

    constructor ()
      ensures entries == map[] && Valid(entries)
    {
      entries := map[];
    }

    method Insert(r: Region) returns (out: Outcome<()>)
      requires Valid(entries)
      modifies this
      ensures Valid(entries)
      ensures out.Done? <==> 0 < r.len && r.End() <= U64_MAX && forall k | k in old(entries) :: Apart(old(entries)[k], r)
      ensures out.Done? ==> entries == old(entries)[r.base := r] && r.base !in old(entries)
      ensures out.Failed? ==> entries == old(entries)
                              && out.error == if r.len == 0 || r.End() > U64_MAX then InvalidArgument else Backend
    {
      InsertExactly(entries, r);
      if r.len == 0 {
        return Failed(InvalidArgument);
      }
      var end := r.base + r.len;
      if end > U64_MAX {
        return Failed(InvalidArgument);
      }
      var prev := Predecessor(entries.Keys, r.base);
      var overlap := if prev.Some? && r.base < entries[prev.value].base + entries[prev.value].len then prev else None;
      if overlap.None? {
        var next := Successor(entries.Keys, r.base);
        overlap := if next.Some? && next.value < end then next else None;
      }
      if overlap.Some? {
        return Failed(Backend);
      }
      entries := entries[r.base := r];
      out := Done(());
    }

    method Remove(base: nat) returns (r: Option<Region>)
      requires Valid(entries)
      modifies this
      ensures Valid(entries) && entries == old(entries) - {base}
      ensures r == if base in old(entries) then Some(old(entries)[base]) else None
    {
      r := if base in entries then Some(entries[base]) else None;
      entries := entries - {base};
    }

    method FindEntry(ptr: nat, len: nat) returns (r: Option<Region>)
      requires Valid(entries)
      ensures r == Find(entries, ptr, len)
      ensures r.Some? <==> exists k :: k in entries && Covers(entries[k], ptr, len)
    {
      FindIsLinearSearch(entries, ptr, len);
      if ptr + len > U64_MAX {
        return None;
      }
      var prev := Predecessor(entries.Keys, ptr);
      if prev.None? {
        return None;
      }
      var entry := entries[prev.value];
      r := if ptr + len <= entry.base + entry.len then Some(entry) else None;
    }
  }
}
