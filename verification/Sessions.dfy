/** The pending queues of the RDMA backend, and taking sessions out of them by queue-pair number. */
module Sessions {
  import opened Types

  datatype Endpoint = Endpoint(gid: nat, lid: nat, qpn: nat, psn: nat)

  /** A queue pair of ours; `id` tells two sessions apart even when the hardware reuses a number. */
  datatype Session = Session(id: nat, local: Endpoint)

  type Queue = seq<Session>

  /** What one side sends the other: per NIC, the endpoints of its queue pairs. */
  type Metadata = seq<seq<Endpoint>>

  // ---------------------------------------------------------------------
  // One queue

  datatype Taken = Taken(found: Option<Session>, rest: Queue)

  /** Remove the first session with this number. */
  function Take(q: Queue, qpn: nat): Taken {
    if q == [] then Taken(None, [])
    else if q[0].local.qpn == qpn then Taken(Some(q[0]), q[1..])
    else var t := Take(q[1..], qpn); Taken(t.found, [q[0]] + t.rest)
  }

  ghost predicate Unambiguous(q: Queue) {
    forall i, j | 0 <= i < j < |q| :: q[i].local.qpn != q[j].local.qpn
  }

  ghost predicate Absent(q: Queue, qpn: nat) {
    forall i | 0 <= i < |q| :: q[i].local.qpn != qpn
  }

  lemma {:induction false} TakeAbsent(q: Queue, qpn: nat)
    requires Absent(q, qpn)
    ensures Take(q, qpn) == Taken(None, q)
  {
    if q != [] {
      TakeAbsent(q[1..], qpn);
      assert q == [q[0]] + q[1..];
    }
  }

  /** In an unambiguous queue, taking by number finds that very session and disturbs no other,
      wherever in the queue it stands. */
  lemma {:induction false} TakeFinds(q: Queue, s: Session)
    requires Unambiguous(q) && s in q
    ensures var t := Take(q, s.local.qpn);
            && t.found == Some(s) && Unambiguous(t.rest) && Absent(t.rest, s.local.qpn)
            && (forall x :: x in t.rest <==> x in q && x != s)
  {
    assert q == [q[0]] + q[1..];
    if q[0].local.qpn == s.local.qpn {
      assert q[0] == s by {
        var i :| 0 <= i < |q| && q[i] == s;
        assert i == 0;
      }
      assert s !in q[1..] by {
        forall i | 0 <= i < |q[1..]| ensures q[1..][i] != s { assert q[1..][i] == q[i + 1]; }
      }
    } else {
      assert s in q[1..];
      assert Unambiguous(q[1..]) by { UnambiguousTail(q); }
      TakeFinds(q[1..], s);
      var t := Take(q[1..], s.local.qpn);
      FrontUnambiguous(q, t.rest);
    }
  }

  lemma UnambiguousTail(q: Queue)
    requires Unambiguous(q) && q != []
    ensures Unambiguous(q[1..])
  {
  }

  lemma FrontUnambiguous(q: Queue, rest: Queue)
    requires q != [] && Unambiguous(q) && Unambiguous(rest) && forall x | x in rest :: x in q[1..]
    ensures Unambiguous([q[0]] + rest)
  {
    var out := [q[0]] + rest;
    forall i, j | 0 <= i < j < |out|
      ensures out[i].local.qpn != out[j].local.qpn
    {
      if i == 0 {
        assert out[j] == rest[j - 1] && rest[j - 1] in q[1..];
        var k :| 0 <= k < |q[1..]| && q[1..][k] == rest[j - 1];
        assert q[k + 1] == out[j];
      } else {
        assert out[i] == rest[i - 1] && out[j] == rest[j - 1];
      }
    }
  }

  // ---------------------------------------------------------------------
  // All the endpoints of one NIC

  /** The sessions found before the first missing one; `ok` when none is missing. */
  datatype Popped = Popped(sessions: seq<Session>, rest: Queue, ok: bool)

  /** Take one endpoint after the other; stop at the first that is not there. */
  function Pop(q: Queue, eps: seq<Endpoint>): Popped {
    if eps == [] then Popped([], q, true)
    else
      var p := Pop(q, eps[..|eps| - 1]);
      if !p.ok then p
      else
        var t := Take(p.rest, eps[|eps| - 1].qpn);
        match t.found
        case Some(s) => Popped(p.sessions + [s], t.rest, true)
        case None => p.(ok := false)
  }

  /** Take every endpoint that is there. */
  function Drop(q: Queue, eps: seq<Endpoint>): Queue {
    if eps == [] then q else Take(Drop(q, eps[..|eps| - 1]), eps[|eps| - 1].qpn).rest
  }

  function Endpoints(ss: seq<Session>): (r: seq<Endpoint>)
    ensures |r| == |ss| && forall i | 0 <= i < |r| :: r[i] == ss[i].local
  {
    seq(|ss|, i requires 0 <= i < |ss| => ss[i].local)
  }

  ghost predicate Holds(q: Queue, ss: seq<Session>) {
    forall i | 0 <= i < |ss| :: ss[i] in q
  }

  lemma EndpointsInit(ss: seq<Session>)
    requires ss != []
    ensures Endpoints(ss)[..|ss| - 1] == Endpoints(ss[..|ss| - 1])
    ensures Endpoints(ss)[|ss| - 1] == ss[|ss| - 1].local
  {
  }

  /** Popping the metadata of sessions that are all waiting yields exactly these, in the order of the
      metadata, and leaves everybody else's sessions. */
  lemma {:induction false} PopFinds(q: Queue, ss: seq<Session>)
    requires Unambiguous(q) && Unambiguous(ss) && Holds(q, ss)
    ensures var p := Pop(q, Endpoints(ss));
            && p.ok && p.sessions == ss && Unambiguous(p.rest)
            && (forall x :: x in p.rest <==> x in q && x !in ss)
    decreases |ss|
  {
    if ss != [] {
      var init, last := ss[..|ss| - 1], ss[|ss| - 1];
      EndpointsInit(ss);
      assert ss == init + [last];
      PopFinds(q, init);
      var p := Pop(q, Endpoints(init));
      assert last !in init by {
        forall i | 0 <= i < |init| ensures init[i] != last { assert ss[i].local.qpn != ss[|ss| - 1].local.qpn; }
      }
      TakeFinds(p.rest, last);
    }
  }

  lemma {:induction false} DropFinds(q: Queue, ss: seq<Session>)
    requires Unambiguous(q) && Unambiguous(ss) && Holds(q, ss)
    ensures var rest := Drop(q, Endpoints(ss));
            Unambiguous(rest) && (forall x :: x in rest <==> x in q && x !in ss)
    decreases |ss|
  {
    if ss != [] {
      var init, last := ss[..|ss| - 1], ss[|ss| - 1];
      EndpointsInit(ss);
      assert ss == init + [last];
      DropFinds(q, init);
      assert last !in init by {
        forall i | 0 <= i < |init| ensures init[i] != last { assert ss[i].local.qpn != ss[|ss| - 1].local.qpn; }
      }
      TakeFinds(Drop(q, Endpoints(init)), last);
    }
  }

  lemma {:induction false} DropMisses(q: Queue, eps: seq<Endpoint>)
    requires forall i | 0 <= i < |eps| :: Absent(q, eps[i].qpn)
    ensures Drop(q, eps) == q
  {
    if eps != [] {
      DropMisses(q, eps[..|eps| - 1]);
      TakeAbsent(q, eps[|eps| - 1].qpn);
    }
  }

  // ---------------------------------------------------------------------
  // All NICs

  datatype PoppedAll = PoppedAll(sessions: seq<seq<Session>>, rest: seq<Queue>, ok: bool)

  /** NIC after NIC; a missing session stops everything, and what was taken stays taken. */
  function PopAll(qs: seq<Queue>, meta: Metadata): PoppedAll
    requires |meta| <= |qs|
    ensures |PopAll(qs, meta).rest| == |qs|
  {
    if meta == [] then PoppedAll([], qs, true)
    else
      var j := |meta| - 1;
      var p := PopAll(qs, meta[..j]);
      if !p.ok then p
      else
        var one := Pop(p.rest[j], meta[j]);
        PoppedAll(p.sessions + [one.sessions], p.rest[j := one.rest], one.ok)
  }

  function DropAll(qs: seq<Queue>, meta: Metadata): (r: seq<Queue>)
    requires |meta| <= |qs|
    ensures |r| == |qs|
    ensures forall j | 0 <= j < |qs| :: r[j] == if j < |meta| then Drop(qs[j], meta[j]) else qs[j]
  {
    seq(|qs|, j requires 0 <= j < |qs| => if j < |meta| then Drop(qs[j], meta[j]) else qs[j])
  }

  /** While every NIC finds its sessions, the NICs do not interfere. */
  lemma {:induction false} PopAllIsPerNic(qs: seq<Queue>, meta: Metadata)
    requires |meta| <= |qs| && forall j | 0 <= j < |meta| :: Pop(qs[j], meta[j]).ok
    ensures var p := PopAll(qs, meta);
            && p.ok && |p.sessions| == |meta|
            && (forall j | 0 <= j < |meta| :: p.sessions[j] == Pop(qs[j], meta[j]).sessions)
            && (forall j | 0 <= j < |qs| :: p.rest[j] == if j < |meta| then Pop(qs[j], meta[j]).rest else qs[j])
  {
    hide Pop;
    if meta != [] {
      var k := |meta| - 1;
      PopAllIsPerNic(qs, meta[..k]);
    }
  }

  // ---------------------------------------------------------------------
  // Queues in which a number occurs more than once

  function Count(q: Queue, qpn: nat): nat {
    if q == [] then 0 else (if q[0].local.qpn == qpn then 1 else 0) + Count(q[1..], qpn)
  }

  lemma {:induction false} TakeCount(q: Queue, a: nat, b: nat)
    ensures Take(q, a).found.Some? <==> Count(q, a) > 0
    ensures Count(Take(q, a).rest, b) == if a == b && Count(q, b) > 0 then Count(q, b) - 1 else Count(q, b)
  {
    if q != [] && q[0].local.qpn != a {
      TakeCount(q[1..], a, b);
      var t := Take(q[1..], a).rest;
      assert ([q[0]] + t)[1..] == t;
    }
  }

  /** Taking one number out leaves open which session another number would find. */
  lemma {:induction false} TakeKeepsFirst(q: Queue, a: nat, b: nat)
    requires a != b
    ensures Take(Take(q, a).rest, b).found == Take(q, b).found
  {
    if q != [] && q[0].local.qpn != a {
      TakeKeepsFirst(q[1..], a, b);
      var t := Take(q[1..], a).rest;
      assert ([q[0]] + t)[1..] == t;
    }
  }

  /** A number is found in the front part when it is there. */
  lemma {:induction false} TakeFront(q: Queue, r: Queue, qpn: nat)
    requires !Absent(q, qpn)
    ensures Take(q + r, qpn).found.Some? && Take(q + r, qpn).found.value in q
  {
    assert (q + r)[0] == q[0];
    if q[0].local.qpn != qpn {
      var i :| 0 <= i < |q| && q[i].local.qpn == qpn;
      assert q[1..][i - 1] == q[i];
      TakeFront(q[1..], r, qpn);
      assert (q + r)[1..] == q[1..] + r;
    }
  }

  /** The i-th session popped is the first with the i-th number, when no earlier number is the same. */
  lemma {:induction false} PopAt(q: Queue, eps: seq<Endpoint>, i: nat)
    requires Pop(q, eps).ok && i < |eps|
    requires forall k | 0 <= k < i :: eps[k].qpn != eps[i].qpn
    ensures |Pop(q, eps).sessions| == |eps| && Take(q, eps[i].qpn).found == Some(Pop(q, eps).sessions[i])
    decreases |eps|
  {
    hide Take;
    var last := |eps| - 1;
    PopLength(q, eps);
    PopLength(q, eps[..last]);
    if i < last {
      PopAt(q, eps[..last], i);
    } else {
      PopKeepsFirst(q, eps[..last], eps[i].qpn);
    }
  }

  lemma {:induction false} PopLength(q: Queue, eps: seq<Endpoint>)
    ensures Pop(q, eps).ok ==> |Pop(q, eps).sessions| == |eps|
  {
    hide Take;
    if eps != [] { PopLength(q, eps[..|eps| - 1]); }
  }

  lemma {:induction false} PopKeepsFirst(q: Queue, eps: seq<Endpoint>, qpn: nat)
    requires Pop(q, eps).ok && forall k | 0 <= k < |eps| :: eps[k].qpn != qpn
    ensures Take(Pop(q, eps).rest, qpn).found == Take(q, qpn).found
  {
    hide Take;
    if eps != [] {
      var last := |eps| - 1;
      PopKeepsFirst(q, eps[..last], qpn);
      TakeKeepsFirst(Pop(q, eps[..last]).rest, eps[last].qpn, qpn);
    }
  }

  /** A pop succeeds only where every number it asks for occurs. */
  lemma {:induction false} PopNeeds(q: Queue, eps: seq<Endpoint>, i: nat)
    requires Pop(q, eps).ok && i < |eps|
    ensures Count(q, eps[i].qpn) > 0
    decreases |eps|
  {
    hide Take, Count;
    var last := |eps| - 1;
    if i < last {
      PopNeeds(q, eps[..last], i);
    } else {
      TakeCount(Pop(q, eps[..last]).rest, eps[last].qpn, eps[last].qpn);
      PopCounts(q, eps[..last], eps[last].qpn);
    }
  }

  lemma {:induction false} PopCounts(q: Queue, eps: seq<Endpoint>, qpn: nat)
    ensures Count(Pop(q, eps).rest, qpn) <= Count(q, qpn)
  {
    hide Take, Count;
    if eps != [] {
      var last := |eps| - 1;
      PopCounts(q, eps[..last], qpn);
      TakeCount(Pop(q, eps[..last]).rest, eps[last].qpn, qpn);
    }
  }

  /** Dropping a number that occurs at most once leaves none. */
  lemma {:induction false} DropCounts(q: Queue, eps: seq<Endpoint>, qpn: nat)
    requires Count(q, qpn) <= 1
    ensures Count(Drop(q, eps), qpn) <= 1
    ensures (exists k | 0 <= k < |eps| :: eps[k].qpn == qpn) ==> Count(Drop(q, eps), qpn) == 0
  {
    hide Take, Count;
    if eps != [] {
      var init, last := eps[..|eps| - 1], eps[|eps| - 1];
      DropCounts(q, init, qpn);
      TakeCount(Drop(q, init), last.qpn, qpn);
      if k :| 0 <= k < |eps| && eps[k].qpn == qpn {
        if k < |init| { assert init[k].qpn == qpn; }
      }
    }
  }

  lemma {:induction false} CountAppend(q: Queue, r: Queue, qpn: nat)
    ensures Count(q + r, qpn) == Count(q, qpn) + Count(r, qpn)
  {
    if q == [] {
      assert q + r == r;
    } else {
      CountAppend(q[1..], r, qpn);
      assert (q + r)[1..] == q[1..] + r && (q + r)[0] == q[0];
    }
  }

  lemma {:induction false} CountAbsent(q: Queue, qpn: nat)
    requires Absent(q, qpn)
    ensures Count(q, qpn) == 0
  {
    if q != [] { CountAbsent(q[1..], qpn); }
  }

  lemma {:induction false} CountOnce(q: Queue, qpn: nat)
    requires Unambiguous(q)
    ensures Count(q, qpn) <= 1
  {
    if q != [] {
      UnambiguousTail(q);
      CountOnce(q[1..], qpn);
      if q[0].local.qpn == qpn {
        assert Absent(q[1..], qpn) by {
          forall i | 0 <= i < |q[1..]| ensures q[1..][i].local.qpn != qpn { assert q[1..][i] == q[i + 1]; }
        }
        CountAbsent(q[1..], qpn);
      }
    }
  }

  /** Where all NICs together succeed, each does. */
  lemma {:induction false} PopAllNeeds(qs: seq<Queue>, meta: Metadata)
    requires |meta| <= |qs| && PopAll(qs, meta).ok
    ensures forall j | 0 <= j < |meta| :: Pop(qs[j], meta[j]).ok
  {
    hide Pop;
    if meta != [] {
      var k := |meta| - 1;
      PopAllNeeds(qs, meta[..k]);
      PopAllIsPerNic(qs, meta[..k]);
      forall j | 0 <= j < |meta|
        ensures Pop(qs[j], meta[j]).ok
      {
        if j < k { assert meta[..k][j] == meta[j]; }
      }
    }
  }
}
