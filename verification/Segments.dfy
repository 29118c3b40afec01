/** Segment lists over one flat address space: gathering, scattering, and the lockstep copier.

    The reference semantics: `Flatten` is the byte string a segment list denotes, `Where` the
    address of its p-th byte, and `Lay` the memory after writing bytes over a list in order. */
module Segments {
  import opened Types

  datatype Seg = Seg(addr: nat, len: nat)

  ghost predicate InBounds(segs: seq<Seg>, size: nat) {
    forall i | 0 <= i < |segs| :: segs[i].addr + segs[i].len <= size
  }

  function Total(segs: seq<Seg>): nat {
    if segs == [] then 0 else segs[0].len + Total(segs[1..])
  }

  ghost function Flatten(mem: seq<Byte>, segs: seq<Seg>): (r: seq<Byte>)
    requires InBounds(segs, |mem|)
    ensures |r| == Total(segs)
  {
    if segs == [] then []
    else mem[segs[0].addr..segs[0].addr + segs[0].len] + Flatten(mem, segs[1..])
  }

  ghost function Where(segs: seq<Seg>, p: nat): (a: nat)
    requires p < Total(segs)
  {
    if p < segs[0].len then segs[0].addr + p else Where(segs[1..], p - segs[0].len)
  }

  ghost function Lay(mem: seq<Byte>, segs: seq<Seg>, data: seq<Byte>): (r: seq<Byte>)
    requires InBounds(segs, |mem|) && |data| <= Total(segs)
    ensures |r| == |mem|
    decreases |data|
  {
    if data == [] then mem
    else
      var n := |data| - 1;
      WhereInside(segs, n, |mem|);
      Lay(mem, segs, data[..n])[Where(segs, n) := data[n]]
  }

  /** No address belongs to both lists. */
  ghost predicate Disjoint(xs: seq<Seg>, ys: seq<Seg>) {
    forall p, q | 0 <= p < Total(xs) && 0 <= q < Total(ys) :: Where(xs, p) != Where(ys, q)
  }

  /** No address occurs twice in the list. */
  ghost predicate SelfDisjoint(segs: seq<Seg>) {
    forall p, q | 0 <= p < q < Total(segs) :: Where(segs, p) != Where(segs, q)
  }

  // ---------------------------------------------------------------------
  // Positions

  lemma {:induction false} WhereInside(segs: seq<Seg>, p: nat, size: nat)
    requires InBounds(segs, size) && p < Total(segs)
    ensures Where(segs, p) < size
  {
    if p >= segs[0].len { WhereInside(segs[1..], p - segs[0].len, size); }
  }

  lemma {:induction false} TotalNext(segs: seq<Seg>, i: nat)
    requires i < |segs|
    ensures Total(segs[..i + 1]) == Total(segs[..i]) + segs[i].len <= Total(segs)
  {
    if i == 0 {
      assert segs[..1] == [segs[0]];
    } else {
      TotalNext(segs[1..], i - 1);
      assert segs[1..][..i - 1] == segs[..i][1..] && segs[1..][..i] == segs[..i + 1][1..];
    }
  }

  lemma {:induction false} WhereAt(segs: seq<Seg>, i: nat, off: nat)
    requires i < |segs| && off < segs[i].len
    ensures Total(segs[..i]) + off < Total(segs)
    ensures Where(segs, Total(segs[..i]) + off) == segs[i].addr + off
  {
    TotalNext(segs, i);
    if i > 0 {
      WhereAt(segs[1..], i - 1, off);
      assert segs[1..][..i - 1] == segs[..i][1..];
    }
  }

  /** `Flatten` and `Where` describe the same bytes. */
  lemma {:induction false} FlattenIndex(mem: seq<Byte>, segs: seq<Seg>, p: nat)
    requires InBounds(segs, |mem|) && p < Total(segs)
    ensures Where(segs, p) < |mem| && Flatten(mem, segs)[p] == mem[Where(segs, p)]
  {
    WhereInside(segs, p, |mem|);
    if p >= segs[0].len { FlattenIndex(mem, segs[1..], p - segs[0].len); }
  }

  // ---------------------------------------------------------------------
  // Laying bytes over a list

  lemma {:induction false} LayNext(mem: seq<Byte>, segs: seq<Seg>, data: seq<Byte>, b: Byte)
    requires InBounds(segs, |mem|) && |data| < Total(segs)
    ensures Where(segs, |data|) < |mem|
    ensures Lay(mem, segs, data + [b]) == Lay(mem, segs, data)[Where(segs, |data|) := b]
  {
    WhereInside(segs, |data|, |mem|);
    assert (data + [b])[..|data|] == data;
  }

  lemma LayNothing(mem: seq<Byte>, src: seq<Seg>, dst: seq<Seg>, offset: nat)
    requires InBounds(src, |mem|) && InBounds(dst, |mem|)
    ensures Lay(mem, dst, Slice(mem, src, offset, 0)) == mem
  {
  }

  /** Bytes that are not among the written addresses keep their value. */
  lemma {:induction false} LayFrame(mem: seq<Byte>, segs: seq<Seg>, data: seq<Byte>, a: nat)
    requires InBounds(segs, |mem|) && |data| <= Total(segs) && a < |mem|
    requires forall p | 0 <= p < |data| :: Where(segs, p) != a
    ensures Lay(mem, segs, data)[a] == mem[a]
    decreases |data|
  {
    if data != [] {
      WhereInside(segs, |data| - 1, |mem|);
      LayFrame(mem, segs, data[..|data| - 1], a);
    }
  }

  lemma {:induction false} LayAt(mem: seq<Byte>, segs: seq<Seg>, data: seq<Byte>, p: nat)
    requires InBounds(segs, |mem|) && |data| <= Total(segs) && SelfDisjoint(segs) && p < |data|
    ensures Where(segs, p) < |mem| && Lay(mem, segs, data)[Where(segs, p)] == data[p]
    decreases |data|
  {
    WhereInside(segs, p, |mem|);
    WhereInside(segs, |data| - 1, |mem|);
    if p < |data| - 1 { LayAt(mem, segs, data[..|data| - 1], p); }
  }

  /** Round trip: reading back a list without repeated addresses gives the bytes laid over it. */
  lemma {:induction false} LayThenFlatten(mem: seq<Byte>, segs: seq<Seg>, data: seq<Byte>)
    requires InBounds(segs, |mem|) && |data| <= Total(segs) && SelfDisjoint(segs)
    ensures Flatten(Lay(mem, segs, data), segs)[..|data|] == data
  {
    var now := Lay(mem, segs, data);
    forall p | 0 <= p < |data|
      ensures Flatten(now, segs)[p] == data[p]
    {
      FlattenIndex(now, segs, p);
      LayAt(mem, segs, data, p);
    }
  }

  // ---------------------------------------------------------------------
  // The lockstep copier

  /** How many bytes a copy of `total` bytes can move. */
  function Movable(src: seq<Seg>, offset: nat, dst: seq<Seg>, total: nat): (n: nat)
    ensures n > 0 ==> offset + n <= Total(src)
  {
    var ready := if offset <= Total(src) then Total(src) - offset else 0;
    Min(total, Min(ready, Total(dst)))
  }

  /** The first `n` bytes that lie `offset` into the list. */
  ghost function Slice(mem: seq<Byte>, src: seq<Seg>, offset: nat, n: nat): (r: seq<Byte>)
    requires InBounds(src, |mem|)
    requires n > 0 ==> offset + n <= Total(src)
    ensures |r| == n
  {
    if n == 0 then [] else Flatten(mem, src)[offset..offset + n]
  }

  /** Cursor `(i, off)` stands at position `pos` of the list, or the list is used up. */
  ghost predicate At(segs: seq<Seg>, i: int, off: int, pos: int) {
    && 0 <= i <= |segs| && 0 <= off
    && (i < |segs| ==> off <= segs[i].len && Total(segs[..i]) + off == pos)
    && (i == |segs| ==> Total(segs) <= pos)
  }

  lemma {:induction false} Reached(segs: seq<Seg>, i: nat, off: nat, pos: int)
    requires At(segs, i, off, pos)
    ensures i < |segs| ==> pos + (segs[i].len - off) <= Total(segs)
  {
    if i < |segs| { TotalNext(segs, i); }
  }

  /** How a walk ends: done, bytes wanted past the end of a list, or a copy callback that failed. */
  datatype End = Whole | PastList | Refused

  /** `zip_copy`: walk both lists in lockstep, with a callback of which the first `good` calls succeed.
      However it ends, the memory is as if the first `moved` bytes had been read before any was
      written and laid over the destination after. A walk no callback stops moves all bytes wanted,
      or, exactly when a list is too short for them, all that both lists have. Termination covers
      empty segments on either side. */
  method ZipCopy(mem: array<Byte>, src: seq<Seg>, offset: nat, dst: seq<Seg>, total: nat, good: nat)
    returns (end: End, moved: nat, calls: nat)
    requires InBounds(src, mem.Length) && InBounds(dst, mem.Length)
    requires Disjoint(src, dst)
    modifies mem
    ensures moved <= Movable(src, offset, dst, total) <= total
    ensures mem[..] == Lay(old(mem[..]), dst, Slice(old(mem[..]), src, offset, moved))
    ensures end == Whole ==> moved == total
    ensures end == PastList ==> moved == Movable(src, offset, dst, total) < total
    ensures calls <= good && (end == Refused ==> calls == good < total + |src| + |dst|)
    ensures end != Refused ==> (end == Whole <==> total == 0 || (offset + total <= Total(src) && total <= Total(dst)))
  {
    hide Lay, Where, Flatten, Disjoint, Slice, InBounds;
    ghost var was := mem[..];
    LayNothing(was, src, dst, offset);
    var si, sOff := Skip(src, offset);
    var di, dOff, left := 0, 0, total;
    moved, calls := 0, 0;
    while left > 0
      invariant 0 <= moved && 0 <= left && moved + left == total
      invariant At(src, si, sOff, offset + moved) && At(dst, di, dOff, moved)
      invariant moved <= Total(dst) && (moved > 0 ==> offset + moved <= Total(src))
      invariant mem[..] == Lay(was, dst, Slice(was, src, offset, moved))
      invariant calls <= good && calls <= moved + si + di
      decreases left + (|src| - si) + (|dst| - di)
    {
      Reached(src, si, sOff, offset + moved);
      Reached(dst, di, dOff, moved);
      if si >= |src| || di >= |dst| {
        return PastList, moved, calls;
      }
      var n := Min(Min(src[si].len - sOff, dst[di].len - dOff), left);
      if calls >= good {
        return Refused, moved, calls;
      }
      calls := calls + 1;
      MovePiece(mem, src, si, sOff, dst, di, dOff, n, was, offset, moved);
      si, sOff := Advance(src, si, sOff, n, offset + moved);
      di, dOff := Advance(dst, di, dOff, n, moved);
      left, moved := left - n, moved + n;
    }
    end := Whole;
  }

  /** Find the source segment that holds the byte at `offset`. */
  method Skip(src: seq<Seg>, offset: nat) returns (si: nat, sOff: nat)
    ensures At(src, si, sOff, offset)
    ensures si < |src| ==> sOff < src[si].len
  {
    si, sOff := 0, offset;
    while si < |src| && sOff >= src[si].len
      invariant si <= |src| && Total(src[..si]) + sOff == offset
    {
      TotalNext(src, si);
      sOff := sOff - src[si].len;
      si := si + 1;
    }
    assert src[..|src|] == src;
  }

  /** Step a cursor by `n` bytes inside its segment, on to the next segment when this one is used up. */
  method Advance(segs: seq<Seg>, i: nat, off: nat, n: nat, ghost pos: int) returns (i': nat, off': nat)
    requires At(segs, i, off, pos) && i < |segs| && off + n <= segs[i].len
    ensures At(segs, i', off', pos + n)
    ensures i <= i' <= |segs| && (off + n == segs[i].len <==> i < i')
  {
    TotalNext(segs, i);
    i', off' := i, off + n;
    if off' == segs[i].len {
      i', off' := i + 1, 0;
      if i' == |segs| { assert segs[..i'] == segs; }
    }
  }

  /** One call of the copy callback, byte by byte: `n` bytes from the current source segment to the
      current destination segment. */
  method MovePiece(mem: array<Byte>, src: seq<Seg>, si: nat, sOff: nat, dst: seq<Seg>, di: nat, dOff: nat, n: nat,
                   ghost was: seq<Byte>, ghost offset: nat, ghost done: nat)
    requires |was| == mem.Length && InBounds(src, |was|) && InBounds(dst, |was|) && Disjoint(src, dst)
    requires si < |src| && di < |dst|
    requires Total(src[..si]) + sOff == offset + done && sOff + n <= src[si].len && offset + done + n <= Total(src)
    requires Total(dst[..di]) + dOff == done && dOff + n <= dst[di].len && done + n <= Total(dst)
    requires mem[..] == Lay(was, dst, Slice(was, src, offset, done))
    modifies mem
    ensures mem[..] == Lay(was, dst, Slice(was, src, offset, done + n))
  {
    hide Lay, Where, Flatten, Disjoint;
    var k := 0;
    while k < n
      invariant 0 <= k <= n
      invariant mem[..] == Lay(was, dst, Slice(was, src, offset, done + k))
    {
      MoveByte(was, src, si, sOff + k, dst, di, dOff + k, offset, done + k);
      ghost var now := mem[..];
      mem[dst[di].addr + dOff + k] := mem[src[si].addr + sOff + k];
      assert mem[..] == now[dst[di].addr + (dOff + k) := now[src[si].addr + (sOff + k)]];
      k := k + 1;
    }
  }

  lemma {:induction false} SliceNext(mem: seq<Byte>, src: seq<Seg>, offset: nat, n: nat)
    requires InBounds(src, |mem|) && offset + n < Total(src)
    ensures Slice(mem, src, offset, n + 1) == Slice(mem, src, offset, n) + [Flatten(mem, src)[offset + n]]
  {
    var flat := Flatten(mem, src);
    assert flat[offset..offset + n + 1] == flat[offset..offset + n] + [flat[offset + n]];
  }

  lemma {:induction false} MoveByte(was: seq<Byte>, src: seq<Seg>, si: nat, sOff: nat, dst: seq<Seg>, di: nat, dOff: nat,
                                    offset: nat, done: nat)
    requires InBounds(src, |was|) && InBounds(dst, |was|) && Disjoint(src, dst)
    requires si < |src| && di < |dst|
    requires Total(src[..si]) + sOff == offset + done < Total(src) && sOff < src[si].len
    requires Total(dst[..di]) + dOff == done < Total(dst) && dOff < dst[di].len
    ensures var now := Lay(was, dst, Slice(was, src, offset, done));
            Lay(was, dst, Slice(was, src, offset, done + 1)) == now[dst[di].addr + dOff := now[src[si].addr + sOff]]
  {
    hide Lay, Where, Flatten, Slice, Total, InBounds;
    var data := Slice(was, src, offset, done);
    var from := src[si].addr + sOff;
    WhereAt(src, si, sOff);
    WhereAt(dst, di, dOff);
    FlattenIndex(was, src, offset + done);
    SliceNext(was, src, offset, done);
    assert forall p | 0 <= p < Total(dst) :: Where(dst, p) != Where(src, offset + done);
    LayFrame(was, dst, data, from);
    LayNext(was, dst, data, was[from]);
  }

  // ---------------------------------------------------------------------
  // The oracle's copy: read into a buffer, then scatter

  lemma FlattenFirst(mem: seq<Byte>, segs: seq<Seg>, i: nat)
    requires InBounds(segs, |mem|) && 0 < i <= |segs|
    ensures InBounds(segs[..i], |mem|) && InBounds(segs[1..], |mem|) && InBounds(segs[1..][..i - 1], |mem|)
    ensures Flatten(mem, segs[..i])
         == mem[segs[0].addr..segs[0].addr + segs[0].len] + Flatten(mem, segs[1..][..i - 1])
  {
    assert segs[..i][1..] == segs[1..][..i - 1];
  }

  lemma Associates(a: seq<Byte>, b: seq<Byte>, c: seq<Byte>)
    ensures a + (b + c) == (a + b) + c
  {
  }

  lemma {:induction false} FlattenNext(mem: seq<Byte>, segs: seq<Seg>, i: nat)
    requires InBounds(segs, |mem|) && i < |segs|
    ensures Flatten(mem, segs[..i + 1]) == Flatten(mem, segs[..i]) + mem[segs[i].addr..segs[i].addr + segs[i].len]
  {
    FlattenFirst(mem, segs, i + 1);
    if i > 0 {
      hide Flatten, Total;
      var rest := segs[1..];
      FlattenFirst(mem, segs, i);
      FlattenNext(mem, rest, i - 1);
      Associates(mem[segs[0].addr..segs[0].addr + segs[0].len], Flatten(mem, rest[..i - 1]),
                 mem[segs[i].addr..segs[i].addr + segs[i].len]);
    }
  }

  /** `gather`: the bytes of a validated list, in order. */
  method Gather(mem: array<Byte>, segs: seq<Seg>) returns (out: seq<Byte>)
    requires InBounds(segs, mem.Length)
    ensures out == Flatten(mem[..], segs)
  {
    out := [];
    for i := 0 to |segs|
      invariant out == Flatten(mem[..], segs[..i])
    {
      FlattenNext(mem[..], segs, i);
      out := out + mem[segs[i].addr..segs[i].addr + segs[i].len];
    }
    assert segs[..|segs|] == segs;
  }

  /** The bytes of segment `i`, from `off` on, inside the flattened list. */
  lemma {:induction false} FlattenPiece(mem: seq<Byte>, segs: seq<Seg>, i: nat, off: nat, n: nat)
    requires InBounds(segs, |mem|) && i < |segs| && off + n <= segs[i].len
    ensures var p := Total(segs[..i]) + off;
            p + n <= Total(segs) && Flatten(mem, segs)[p..p + n] == mem[segs[i].addr + off..segs[i].addr + off + n]
  {
    hide Where, Flatten, Total;
    TotalNext(segs, i);
    var p := Total(segs[..i]) + off;
    var flat, here := Flatten(mem, segs)[p..p + n], mem[segs[i].addr + off..segs[i].addr + off + n];
    forall k | 0 <= k < n
      ensures flat[k] == here[k]
    {
      WhereAt(segs, i, off + k);
      FlattenIndex(mem, segs, p + k);
    }
  }

  /** `ReplicaData::read` of a published replica: skip `offset` bytes, then collect `len`; a list
      that is too short yields what it has. */
  method ReadSegments(mem: array<Byte>, segs: seq<Seg>, offset: nat, len: nat) returns (out: seq<Byte>)
    requires InBounds(segs, mem.Length)
    ensures out == Slice(mem[..], segs, offset, Movable(segs, offset, [Seg(0, len)], len))
  {
    hide Where, Flatten, InBounds, Slice;
    out := [];
    SliceEmpty(mem[..], segs, offset);
    var skip, want, i := offset, len, 0;
    while i < |segs| && want > 0
      invariant 0 <= i <= |segs| && 0 <= want && |out| + want == len
      invariant Total(segs[..i]) <= Total(segs)
      invariant skip == (if offset >= Total(segs[..i]) then offset - Total(segs[..i]) else 0)
      invariant Total(segs[..i]) <= offset ==> out == []
      invariant |out| > 0 ==> offset + |out| <= Total(segs)
      invariant want > 0 && Total(segs[..i]) > offset ==> offset + |out| == Total(segs[..i])
      invariant out == Slice(mem[..], segs, offset, |out|)
    {
      TotalNext(segs, i);
      var s := segs[i];
      if skip >= s.len {
        skip := skip - s.len;
      } else {
        var n := Min(s.len - skip, want);
        FlattenPiece(mem[..], segs, i, skip, n);
        InSegment(mem[..], segs, i);
        SliceGrows(mem[..], segs, offset, |out|, n);
        out := out + mem[s.addr + skip..s.addr + skip + n];
        skip, want := 0, want - n;
      }
      i := i + 1;
    }
    assert segs[..|segs|] == segs;
    assert Total([Seg(0, len)]) == len;
  }

  lemma SliceEmpty(mem: seq<Byte>, segs: seq<Seg>, offset: nat)
    requires InBounds(segs, |mem|)
    ensures Slice(mem, segs, offset, 0) == []
  {
  }

  lemma InSegment(mem: seq<Byte>, segs: seq<Seg>, i: nat)
    requires InBounds(segs, |mem|) && i < |segs|
    ensures segs[i].addr + segs[i].len <= |mem|
  {
  }

  lemma {:induction false} SliceGrows(mem: seq<Byte>, src: seq<Seg>, offset: nat, m: nat, n: nat)
    requires InBounds(src, |mem|) && offset + m + n <= Total(src)
    ensures Slice(mem, src, offset, m + n) == Slice(mem, src, offset, m) + Flatten(mem, src)[offset + m..offset + m + n]
  {
  }

  /** `scatter`: lay the first bytes of `data` over the destination list. */
  method Scatter(mem: array<Byte>, data: seq<Byte>, dst: seq<Seg>)
    requires InBounds(dst, mem.Length) && Total(dst) <= |data|
    modifies mem
    ensures mem[..] == Lay(old(mem[..]), dst, data[..Total(dst)])
  {
    hide Lay, Where, InBounds;
    ghost var was := mem[..];
    var off := 0;
    LayEmpty(was, dst);
    assert data[..0] == [];
    for i := 0 to |dst|
      invariant off == Total(dst[..i]) <= Total(dst)
      invariant mem[..] == Lay(was, dst, data[..off])
    {
      TotalNext(dst, i);
      InSegment(was, dst, i);
      var n := dst[i].len;
      var k := 0;
      while k < n
        invariant 0 <= k <= n
        invariant mem[..] == Lay(was, dst, data[..off + k])
      {
        WhereAt(dst, i, k);
        LayNext(was, dst, data[..off + k], data[off + k]);
        assert data[..off + k] + [data[off + k]] == data[..off + (k + 1)];
        ghost var now := mem[..];
        mem[dst[i].addr + k] := data[off + k];
        assert mem[..] == now[dst[i].addr + k := data[off + k]];
        k := k + 1;
      }
      off := off + n;
    }
    assert dst[..|dst|] == dst;
  }

  lemma LayEmpty(mem: seq<Byte>, segs: seq<Seg>)
    requires InBounds(segs, |mem|)
    ensures Lay(mem, segs, []) == mem
  {
  }

  /** The oracle's ranged copy of a whole destination list. Where source and destination are
      disjoint it leaves the very memory that `ZipCopy` leaves for `total == Total(dst)`. */
  method ReadThenScatter(mem: array<Byte>, src: seq<Seg>, offset: nat, dst: seq<Seg>)
    requires InBounds(src, mem.Length) && InBounds(dst, mem.Length)
    requires offset + Total(dst) <= Total(src)
    modifies mem
    ensures Movable(src, offset, dst, Total(dst)) == Total(dst)
    ensures mem[..] == Lay(old(mem[..]), dst, Slice(old(mem[..]), src, offset, Movable(src, offset, dst, Total(dst))))
  {
    hide Lay, Where, Flatten, InBounds, Slice;
    assert Total([Seg(0, Total(dst))]) == Total(dst);
    var bytes := ReadSegments(mem, src, offset, Total(dst));
    assert bytes[..Total(dst)] == bytes;
    Scatter(mem, bytes, dst);
  }
}
