/** The state behind the RDMA engine's lock, and the sections that change it. */
module HandshakeStore {
  import opened Types
  import opened RdmaTypes
  import opened Sessions
  import opened Handshake

  datatype Status = Existing | AlreadyConnecting | Proceed

  // ---------------------------------------------------------------------
  // The sections, as functions of what the lock guards

  datatype Guarded = Guarded(pending: seq<Queue>, connections: map<Addr, Connection>, connecting: set<Addr>)

  function View(st: State): Guarded { Guarded(st.pending, st.connections, st.connecting) }

  function Marked(g: Guarded, addr: Addr): Guarded { g.(connecting := g.connecting + {addr}) }

  function Unmarked(g: Guarded, addr: Addr): Guarded { g.(connecting := g.connecting - {addr}) }

  function Queued(g: Guarded, made: seq<seq<Session>>): Guarded
    requires |made| == |g.pending|
  {
    g.(pending := PushAll(g.pending, made))
  }

  function Dropped(g: Guarded, meta: Metadata): Guarded
    requires |meta| <= |g.pending|
  {
    g.(pending := DropAll(g.pending, meta))
  }

  /** A connected peer wins; otherwise the sessions are popped. */
  function Popping(g: Guarded, addr: Addr, meta: Metadata): Guarded
    requires |meta| <= |g.pending|
  {
    if addr in g.connections then Unmarked(Dropped(g, meta), addr) else g.(pending := PopAll(g.pending, meta).rest)
  }

  function Established(g: Guarded, addr: Addr, popped: seq<seq<Session>>, remote: Metadata, local: Metadata): Guarded
    requires |popped| == |remote| && forall j | 0 <= j < |popped| :: |popped[j]| == |remote[j]|
  {
    Unmarked(g, addr).(connections := g.connections[addr := Connection(LinkAll(popped, remote), local)])
  }

  function Forgotten(g: Guarded, addr: Addr): Guarded { g.(connections := g.connections - {addr}) }

  /** The section that a step of the protocol executes, on the caller's own data. */
  function Section(st: State, s: Step): Guarded
    requires Enabled(st, s)
  {
    var g := View(st);
    match s
    case Begin(addr) => Marked(g, addr)
    case PrepareFails(a) => Unmarked(g, st.attempts[a].addr)
    case Prepare(a, made) => Queued(g, made)
    case Join(a, remote) => Popping(g, st.attempts[a].addr, Offer(st.attempts[a].made))
    case Strand(a) => g
    case Finish(a) =>
      var h := st.attempts[a];
      Established(g, h.addr, h.phase.popped, h.phase.remote, Offer(h.made))
    case Abort(a) => Unmarked(Dropped(g, Offer(st.attempts[a].made)), st.attempts[a].addr)
    case Invalidate(addr) => Forgotten(g, addr)
  }

  /** Every step of the protocol changes what the lock guards exactly as its section does. */
  lemma StepsAreSections(st: State, s: Step)
    requires Enabled(st, s)
    ensures View(Next(st, s)) == Section(st, s)
  {
    hide PopAll, DropAll, PushAll, LinkAll, Offer, Numbered;
  }

  // ---------------------------------------------------------------------
  // Loops over metadata

  lemma PopSnoc(q: Queue, eps: seq<Endpoint>, i: nat)
    requires i < |eps|
    ensures eps[..i + 1][..i] == eps[..i] && eps[..i + 1][i] == eps[i]
  {
  }

  /** Once a number is missing, the rest of the list changes nothing. */
  lemma {:induction false} PopStuck(q: Queue, eps: seq<Endpoint>, i: nat)
    requires i <= |eps| && !Pop(q, eps[..i]).ok
    ensures Pop(q, eps) == Pop(q, eps[..i])
    decreases |eps|
  {
    if i < |eps| {
      assert eps[..|eps| - 1][..i] == eps[..i];
      PopStuck(q, eps[..|eps| - 1], i);
    } else {
      assert eps[..i] == eps;
    }
  }

  lemma {:induction false} PopAllStuck(qs: seq<Queue>, meta: Metadata, k: nat)
    requires k <= |meta| <= |qs| && !PopAll(qs, meta[..k]).ok
    ensures PopAll(qs, meta) == PopAll(qs, meta[..k])
    decreases |meta|
  {
    hide Pop;
    if k < |meta| {
      assert meta[..|meta| - 1][..k] == meta[..k];
      PopAllStuck(qs, meta[..|meta| - 1], k);
    } else {
      assert meta[..k] == meta;
    }
  }

  lemma TakeSplits(q: Queue, qpn: nat, pos: nat)
    requires pos <= |q| && Absent(q[..pos], qpn)
    ensures pos == |q| ==> Take(q, qpn) == Taken(None, q)
    ensures pos < |q| && q[pos].local.qpn == qpn ==> Take(q, qpn) == Taken(Some(q[pos]), q[..pos] + q[pos + 1..])
    decreases |q|
  {
    if pos == 0 {
      if q != [] { assert q[..0] + q[1..] == q[1..]; }
    } else {
      assert q[..pos][0] == q[0];
      assert q[1..][..pos - 1] == q[..pos][1..];
      TakeSplits(q[1..], qpn, pos - 1);
      assert q == [q[0]] + q[1..];
      if pos < |q| { assert q[..pos] + q[pos + 1..] == [q[0]] + (q[1..][..pos - 1] + q[1..][pos..]); }
    }
  }

  class Backend {
    const nics: nat
    const qps: nat
    var pending: seq<Queue>
    var connections: map<Addr, Connection>
    var connecting: set<Addr>

    ghost function Now(): Guarded
      reads this
    {
      Guarded(pending, connections, connecting)
    }

    constructor (nics: nat, qps: nat)
      ensures Now() == View(Start(nics, qps))
      ensures this.nics == nics && this.qps == qps && |pending| == nics && connections == map[] && connecting == {}
      ensures forall j | 0 <= j < nics :: pending[j] == []
    {
      this.nics, this.qps := nics, qps;
      pending, connections, connecting := seq(nics, _ => []), map[], {};
    }

    /** Find the first session with the number, and take it out. */
    method RemovePendingByQpn(nic: nat, qpn: nat) returns (r: Option<Session>)
      requires nic < |pending|
      modifies this`pending
      ensures var t := Take(old(pending)[nic], qpn); r == t.found && pending == old(pending)[nic := t.rest]
    {
      var q := pending[nic];
      var pos := 0;
      while pos < |q| && q[pos].local.qpn != qpn
        invariant 0 <= pos <= |q| && Absent(q[..pos], qpn)
      {
        pos := pos + 1;
      }
      TakeSplits(q, qpn, pos);
      if pos == |q| {
        assert pending[nic := q] == pending;
        return None;
      }
      pending := pending[nic := q[..pos] + q[pos + 1..]];
      r := Some(q[pos]);
    }

    /** The locked check of get_or_prepare. */
    method Reserve(addr: Addr) returns (r: Status)
      modifies this`connecting
      ensures r == if addr in connections then Existing else if addr in old(connecting) then AlreadyConnecting else Proceed
      ensures Now() == if r.Proceed? then Marked(old(Now()), addr) else old(Now())
      ensures connecting == if r.Proceed? then old(connecting) + {addr} else old(connecting)
    {
      if addr in connections {
        return Existing;
      }
      if addr in connecting {
        return AlreadyConnecting;
      }
      connecting := connecting + {addr};
      r := Proceed;
    }

    /** The error path of get_or_prepare. */
    method Unmark(addr: Addr) returns (removed: bool)
      modifies this`connecting
      ensures Now() == Unmarked(old(Now()), addr) && removed == (addr in old(connecting))
      ensures connecting == old(connecting) - {addr}
    {
      removed := addr in connecting;
      connecting := connecting - {addr};
    }

    /** The locked end of prepare: queue the new sessions, hand out their endpoints. */
    method Publish(made: seq<seq<Session>>) returns (meta: Metadata)
      requires |made| == |pending|
      modifies this`pending
      ensures Now() == Queued(old(Now()), made) && meta == Offer(made)
      ensures |pending| == |made| && forall j | 0 <= j < |made| :: pending[j] == old(pending)[j] + made[j]
      ensures |meta| == |made|
              && forall j | 0 <= j < |made| ::
                   |meta[j]| == |made[j]| && forall i | 0 <= i < |made[j]| :: meta[j][i] == made[j][i].local
    {
      meta := [];
      for j := 0 to |made|
        invariant |pending| == |made| && meta == Offer(made[..j])
        invariant forall k | 0 <= k < |made| :: pending[k] == if k < j then old(pending)[k] + made[k] else old(pending)[k]
      {
        var eps := Endpoints(made[j]);
        var q := PushOne(pending[j], made[j]);
        pending := pending[j := q];
        meta := meta + [eps];
        assert Offer(made[..j + 1]) == Offer(made[..j]) + [eps];
      }
      assert made[..|made|] == made;
    }

    method PushOne(q: Queue, ss: seq<Session>) returns (r: Queue)
      ensures r == q + ss
    {
      r := q;
      for i := 0 to |ss|
        invariant r == q + ss[..i]
      {
        r := r + [ss[i]];
        assert ss[..i + 1] == ss[..i] + [ss[i]];
      }
      assert ss[..|ss|] == ss;
    }

    /** Pop one NIC's sessions in metadata order; stop at the first that is missing. */
    method PopNic(nic: nat, eps: seq<Endpoint>) returns (sessions: seq<Session>, ok: bool)
      requires nic < |pending|
      modifies this`pending
      ensures var p := Pop(old(pending)[nic], eps);
              sessions == p.sessions && ok == p.ok && pending == old(pending)[nic := p.rest]
    {
      hide Take;
      sessions, ok := [], true;
      ghost var q := pending[nic];
      assert pending == pending[nic := q] && eps[..0] == [];
      for i := 0 to |eps|
        invariant |pending| == |old(pending)|
        invariant Pop(q, eps[..i]) == Popped(sessions, pending[nic], true)
        invariant pending == old(pending)[nic := pending[nic]]
      {
        PopSnoc(q, eps, i);
        var found := RemovePendingByQpn(nic, eps[i].qpn);
        if found.None? {
          TakeNone(Pop(q, eps[..i]).rest, eps[i].qpn);
          PopStuck(q, eps, i + 1);
          ok := false;
          return;
        }
        sessions := sessions + [found.value];
      }
      assert eps[..|eps|] == eps;
    }

    /** Completion under the lock: answers false when a session was missing. */
    method PopSessions(meta: Metadata) returns (sessions: seq<seq<Session>>, ok: bool)
      requires |meta| <= |pending|
      modifies this`pending
      ensures var p := PopAll(old(pending), meta); ok == p.ok && pending == p.rest && sessions == p.sessions
    {
      hide Pop;
      sessions, ok := [], true;
      assert meta[..0] == [];
      for j := 0 to |meta|
        invariant |pending| == |old(pending)|
        invariant PopAll(old(pending), meta[..j]) == PoppedAll(sessions, pending, true)
      {
        assert meta[..j + 1][..j] == meta[..j] && meta[..j + 1][j] == meta[j];
        var one, found := PopNic(j, meta[j]);
        sessions := sessions + [one];
        if !found {
          PopAllStuck(old(pending), meta, j + 1);
          ok := false;
          return;
        }
      }
      assert meta[..|meta|] == meta;
    }

    method DropNic(nic: nat, eps: seq<Endpoint>)
      requires nic < |pending|
      modifies this`pending
      ensures pending == old(pending)[nic := Drop(old(pending)[nic], eps)]
    {
      hide Take;
      ghost var q := pending[nic];
      assert pending == pending[nic := q] && eps[..0] == [];
      for i := 0 to |eps|
        invariant |pending| == |old(pending)|
        invariant pending == old(pending)[nic := Drop(q, eps[..i])]
      {
        PopSnoc(q, eps, i);
        var _ := RemovePendingByQpn(nic, eps[i].qpn);
      }
      assert eps[..|eps|] == eps;
    }

    method DropSessions(meta: Metadata)
      requires |meta| <= |pending|
      modifies this`pending
      ensures pending == DropAll(old(pending), meta)
    {
      hide Drop;
      for j := 0 to |meta|
        invariant |pending| == |old(pending)|
        invariant forall k | 0 <= k < |pending| :: pending[k] == if k < j then Drop(old(pending)[k], meta[k]) else old(pending)[k]
      {
        DropNic(j, meta[j]);
      }
    }

    /** The check of the peer's metadata before anything is locked: one list per NIC, then one endpoint per
        queue pair in each. */
    method CheckRemote(remote: Metadata) returns (error: Option<TransferError>)
      ensures error.None? <==> Square(remote, nics, qps)
      ensures error.Some? ==> error.value == if |remote| != nics then InvalidArgument else TransferError.Backend
    {
      if |remote| != nics {
        return Some(InvalidArgument);
      }
      for j := 0 to |remote|
        invariant forall k | 0 <= k < j :: |remote[k]| == qps
      {
        if |remote[j]| != qps {
          return Some(TransferError.Backend);
        }
      }
      error := None;
    }

    /** The locked start of complete_handshake_for. `None`: the peer is connected already. */
    method Join(addr: Addr, local: Metadata) returns (r: Option<Outcome<seq<seq<Session>>>>)
      requires |local| <= |pending|
      modifies this`pending, this`connecting
      ensures r.None? <==> addr in connections
      ensures Now() == Popping(old(Now()), addr, local)
      ensures connecting == if addr in connections then old(connecting) - {addr} else old(connecting)
      ensures r.None? ==> pending == DropAll(old(pending), local)
      ensures r.Some? ==>
                var p := PopAll(old(pending), local);
                r.value == if p.ok then Done(p.sessions) else Failed(TransferError.Backend)
    {
      if addr in connections {
        DropSessions(local);
        connecting := connecting - {addr};
        return None;
      }
      var sessions, ok := PopSessions(local);
      r := Some(if ok then Done(sessions) else Failed(TransferError.Backend));
    }

    /** The locked end of complete_handshake_for. */
    method Finish(addr: Addr, popped: seq<seq<Session>>, remote: Metadata, local: Metadata)
      requires Square(popped, nics, qps) && Square(remote, nics, qps)
      modifies this`connecting, this`connections
      ensures Now() == Established(old(Now()), addr, popped, remote, local)
      ensures connecting == old(connecting) - {addr} && connections.Keys == old(connections).Keys + {addr}
      ensures forall x | x in old(connections) && x != addr :: connections[x] == old(connections)[x]
      ensures var c := connections[addr];
              && c.local == local && Square(c.nics, nics, qps)
              && forall j, i | 0 <= j < nics && 0 <= i < qps :: c.nics[j][i] == Linked(popped[j][i], remote[j][i])
    {
      connecting := connecting - {addr};
      connections := connections[addr := Connection(LinkAll(popped, remote), local)];
    }

    method Abort(addr: Addr, local: Metadata)
      requires |local| <= |pending|
      modifies this`pending, this`connecting
      ensures Now() == Unmarked(Dropped(old(Now()), local), addr)
      ensures connecting == old(connecting) - {addr} && pending == DropAll(old(pending), local)
    {
      connecting := connecting - {addr};
      DropSessions(local);
    }

    method Invalidate(addr: Addr)
      modifies this`connections
      ensures Now() == Forgotten(old(Now()), addr)
      ensures connections.Keys == old(connections).Keys - {addr}
      ensures forall x | x in connections :: connections[x] == old(connections)[x]
    {
      connections := connections - {addr};
    }

    /** Count the sessions of all connections: with full connections, peers times NICs times pairs. */
    method NumQps() returns (n: nat)
      requires ConnectionsOk(connections, nics, qps)
      ensures n == |connections| * (nics * qps)
    {
      n := 0;
      var todo := connections.Keys;
      var seen := 0;
      while todo != {}
        invariant todo <= connections.Keys && seen + |todo| == |connections.Keys| && n == seen * (nics * qps)
        decreases |todo|
      {
        var addr :| addr in todo;
        assert ConnectionOk(connections[addr], nics, qps);
        var c := CountNics(connections[addr]);
        todo := todo - {addr};
        OneMore(seen, nics * qps);
        n, seen := n + c, seen + 1;
      }
      assert |connections| == |connections.Keys|;
    }

    method CountNics(c: Connection) returns (n: nat)
      requires Square(c.nics, nics, qps)
      ensures n == nics * qps
    {
      n := 0;
      for j := 0 to |c.nics|
        invariant n == j * qps
      {
        OneMore(j, qps);
        n := n + |c.nics[j]|;
      }
    }
  }

  lemma OneMore(k: nat, m: nat)
    ensures k * m + m == (k + 1) * m
  {
  }

  lemma TakeNone(q: Queue, qpn: nat)
    ensures Take(q, qpn).found.None? ==> Take(q, qpn).rest == q
  {
    if q != [] {
      TakeNone(q[1..], qpn);
      assert q == [q[0]] + q[1..];
    }
  }
}
