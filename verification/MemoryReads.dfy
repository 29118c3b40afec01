/** Gets in runs of the reference backend: what a get copies is what the last put of the slot supplied. */
module MemoryReads {
  import opened Types
  import Segments
  import opened MemoryData
  import opened MemoryOps
  import opened MemoryRuns
  import opened MemoryStore

  /** In every reachable state, any part of an owned replica is that part of the bytes gathered by the put
      that last filled its slot. */
  lemma OwnedSliceOfLastPut(c: Config, ops: seq<Op>, key: Key, slot: nat, j: nat, mem: seq<Byte>, offset: nat, n: nat)
    requires Exec(c, ops).Some? && key in Exec(c, ops).value.objects
    requires var slots := Exec(c, ops).value.objects[key].slots;
             slot < |slots| && j < |slots[slot]| && slots[slot][j].data.Owned? && offset + n <= DataLen(slots[slot][j].data)
    ensures var data, last := Exec(c, ops).value.objects[key].slots[slot][j].data, LastFill(c, ops, key, slot);
            && last.Some? && offset + n <= |last.value|
            && DataSlice(mem, data, offset, n) == last.value[offset..offset + n]
  {
    hide Exec, LastFill;
    RunContents(c, ops, key, slot, Exec(c, ops).value.objects[key].slots[slot][j]);
  }

  /** The replica that a get for `dst` reads is owned by the store. */
  ghost predicate ServedOwned(st: State, gpuNuma: map<nat, nat>, key: Key, slot: nat, dst: seq<Iov>)
    requires key in st.objects && slot < |st.objects[key].slots| && dst != []
  {
    forall j: nat | IsSource(gpuNuma, dst[0].region.device, st.objects[key].slots[slot], j) ::
      st.objects[key].slots[slot][j].data.Owned?
  }

  /** After any run, a readable ranged get that is served by an owned replica succeeds, and the destination
      then reads, across its segments, as that range of the bytes the last put of the slot supplied. */
  method GetAfterRun(m: Memory, ghost c: Config, ghost ops: seq<Op>, key: Key, slot: nat, offset: nat, dst: seq<Iov>)
    returns (reply: Result<(Device, Tier)>)
    requires m.Valid() && Exec(c, ops).Some? && m.Now() == Exec(c, ops).value && Mapped(dst, m.mem.Length)
    requires Readable(m.Now(), key, slot, offset, dst) && ServedOwned(m.Now(), m.gpuNuma, key, slot, dst)
    requires Segments.SelfDisjoint(SegsOf(dst))
    modifies m.mem
    ensures reply.Ok? && Segments.InBounds(SegsOf(dst), m.mem.Length)
    ensures var last, n := LastFill(c, ops, key, slot), Segments.Total(SegsOf(dst));
            && last.Some? && offset + n <= |last.value|
            && Segments.Flatten(m.mem[..], SegsOf(dst)) == last.value[offset..offset + n]
            && m.mem[..] == Segments.Lay(old(m.mem[..]), SegsOf(dst), last.value[offset..offset + n])
  {
    hide Exec, LastFill, Segments.Lay, Segments.Flatten, Segments.Total, Segments.SelfDisjoint, DataSlice;
    ghost var was := m.mem[..];
    reply := m.Get(key, slot, offset, dst);
    ghost var j: nat :| IsSource(m.gpuNuma, dst[0].region.device, m.objects[key].slots[slot], j)
      && var r := m.objects[key].slots[slot][j];
         && r.data.Owned? && offset + Segments.Total(SegsOf(dst)) <= DataLen(r.data)
         && m.mem[..] == Segments.Lay(was, SegsOf(dst), DataSlice(was, r.data, offset, Segments.Total(SegsOf(dst))));
    ghost var n := Segments.Total(SegsOf(dst));
    OwnedSliceOfLastPut(c, ops, key, slot, j, was, offset, n);
    ghost var bytes := LastFill(c, ops, key, slot).value[offset..offset + n];
    Segments.LayThenFlatten(was, SegsOf(dst), bytes);
    assert Segments.Flatten(m.mem[..], SegsOf(dst))[..n] == Segments.Flatten(m.mem[..], SegsOf(dst));
  }
}
