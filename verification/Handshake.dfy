/** The handshake protocol of one RDMA engine: any number of peers, any interleaving of the sections
    that run under the state lock. */
module Handshake {
  import opened Sessions

  type Addr = string

  /** A connected queue pair and the peer endpoint it was pointed at. */
  datatype Linked = Linked(session: Session, remote: Endpoint)

  datatype Connection = Connection(nics: seq<seq<Linked>>, local: Metadata)

  /** Where the caller of a handshake stands: preparing, holding metadata, completing with the popped
      sessions in hand, or left with metadata after completion failed. */
  datatype Phase = Preparing | Offered | Joining(popped: seq<seq<Session>>, remote: Metadata) | Stranded

  /** `made` are the sessions its prepare created; its metadata are their endpoints. */
  datatype Attempt = Attempt(addr: Addr, phase: Phase, made: seq<seq<Session>>)

  datatype State = State(
    nics: nat,
    qps: nat,
    pending: seq<Queue>,
    connections: map<Addr, Connection>,
    connecting: set<Addr>,
    attempts: map<nat, Attempt>,
    next: nat,
    ids: nat)

  datatype Step =
    | Begin(addr: Addr)
    | PrepareFails(attempt: nat)
    | Prepare(attempt: nat, made: seq<seq<Session>>)
    | Join(attempt: nat, remote: Metadata)
    | Strand(attempt: nat)
    | Finish(attempt: nat)
    | Abort(attempt: nat)
    | Invalidate(addr: Addr)

  // ---------------------------------------------------------------------
  // Shapes

  /** One list of `qps` entries for each of `nics` NICs. */
  predicate Square<T>(m: seq<seq<T>>, nics: nat, qps: nat) {
    |m| == nics && forall j | 0 <= j < nics :: |m[j]| == qps
  }

  function Offer(made: seq<seq<Session>>): (r: Metadata)
    ensures |r| == |made| && forall j | 0 <= j < |r| :: r[j] == Endpoints(made[j])
  {
    seq(|made|, j requires 0 <= j < |made| => Endpoints(made[j]))
  }

  function Link(ss: seq<Session>, eps: seq<Endpoint>): (r: seq<Linked>)
    requires |ss| == |eps|
    ensures |r| == |ss| && forall i | 0 <= i < |r| :: r[i] == Linked(ss[i], eps[i])
  {
    seq(|ss|, i requires 0 <= i < |ss| => Linked(ss[i], eps[i]))
  }

  function LinkAll(popped: seq<seq<Session>>, remote: Metadata): (r: seq<seq<Linked>>)
    requires |popped| == |remote| && forall j | 0 <= j < |popped| :: |popped[j]| == |remote[j]|
    ensures |r| == |popped| && forall j | 0 <= j < |r| :: r[j] == Link(popped[j], remote[j])
  {
    seq(|popped|, j requires 0 <= j < |popped| => Link(popped[j], remote[j]))
  }

  function PushAll(qs: seq<Queue>, made: seq<seq<Session>>): (r: seq<Queue>)
    requires |qs| == |made|
    ensures |r| == |qs| && forall j | 0 <= j < |r| :: r[j] == qs[j] + made[j]
  {
    seq(|qs|, j requires 0 <= j < |qs| => qs[j] + made[j])
  }

  // ---------------------------------------------------------------------
  // Steps

  /** New sessions, with ids never used before. */
  predicate Numbered(made: seq<seq<Session>>, from: nat, to: nat) {
    && (forall j, i | 0 <= j < |made| && 0 <= i < |made[j]| :: from <= made[j][i].id < to)
    && (forall j, i, k, m | 0 <= j < |made| && 0 <= i < |made[j]| && 0 <= k < |made| && 0 <= m < |made[k]| ::
          made[j][i].id == made[k][m].id ==> j == k && i == m)
  }

  predicate Enabled(st: State, s: Step) {
    match s
    case Begin(addr) => addr !in st.connections && addr !in st.connecting
    case PrepareFails(a) => a in st.attempts && st.attempts[a].phase.Preparing?
    case Prepare(a, made) =>
      && a in st.attempts && st.attempts[a].phase.Preparing?
      && Square(made, st.nics, st.qps) && |st.pending| == st.nics
      && Numbered(made, st.ids, st.ids + st.nics * st.qps)
    case Join(a, remote) =>
      && a in st.attempts && st.attempts[a].phase.Offered? && Square(remote, st.nics, st.qps)
      && |st.attempts[a].made| <= |st.pending|
    case Strand(a) => a in st.attempts && st.attempts[a].phase.Joining?
    case Finish(a) =>
      && a in st.attempts && st.attempts[a].phase.Joining?
      && Square(st.attempts[a].phase.popped, st.nics, st.qps) && Square(st.attempts[a].phase.remote, st.nics, st.qps)
    case Abort(a) =>
      && a in st.attempts && (st.attempts[a].phase.Offered? || st.attempts[a].phase.Stranded?)
      && |st.attempts[a].made| <= |st.pending|
    case Invalidate(addr) => true
  }

  /** Completion under the lock: a peer that is connected already wins; otherwise pop by number. */
  function Joined(st: State, a: nat, remote: Metadata): State
    requires Enabled(st, Join(a, remote))
  {
    var h := st.attempts[a];
    var meta := Offer(h.made);
    if h.addr in st.connections then
      st.(pending := DropAll(st.pending, meta), connecting := st.connecting - {h.addr}, attempts := st.attempts - {a})
    else
      var p := PopAll(st.pending, meta);
      st.(pending := p.rest,
          attempts := st.attempts[a := h.(phase := if p.ok then Joining(p.sessions, remote) else Stranded)])
  }

  function Next(st: State, s: Step): State
    requires Enabled(st, s)
  {
    match s
    case Begin(addr) =>
      st.(connecting := st.connecting + {addr},
          attempts := st.attempts[st.next := Attempt(addr, Preparing, [])], next := st.next + 1)
    case PrepareFails(a) =>
      st.(connecting := st.connecting - {st.attempts[a].addr}, attempts := st.attempts - {a})
    case Prepare(a, made) =>
      st.(pending := PushAll(st.pending, made),
          attempts := st.attempts[a := st.attempts[a].(phase := Offered, made := made)],
          ids := st.ids + st.nics * st.qps)
    case Join(a, remote) => Joined(st, a, remote)
    case Strand(a) => st.(attempts := st.attempts[a := st.attempts[a].(phase := Stranded)])
    case Finish(a) =>
      var h := st.attempts[a];
      st.(connecting := st.connecting - {h.addr},
          connections := st.connections[h.addr := Connection(LinkAll(h.phase.popped, h.phase.remote), Offer(h.made))],
          attempts := st.attempts - {a})
    case Abort(a) =>
      st.(connecting := st.connecting - {st.attempts[a].addr},
          pending := DropAll(st.pending, Offer(st.attempts[a].made)), attempts := st.attempts - {a})
    case Invalidate(addr) => st.(connections := st.connections - {addr})
  }

  function Apply(st: State, s: Step): State {
    if Enabled(st, s) then Next(st, s) else st
  }

  function Exec(st: State, steps: seq<Step>): State {
    if steps == [] then st else Apply(Exec(st, steps[..|steps| - 1]), steps[|steps| - 1])
  }

  function Start(nics: nat, qps: nat): State {
    State(nics, qps, seq(nics, _ => []), map[], {}, map[], 0, 0)
  }

  // ---------------------------------------------------------------------
  // The invariant

  /** A handshake is under way for an address exactly when the address is marked; one at a time; and
      never for a connected one. */
  ghost predicate OneAttempt(attempts: map<nat, Attempt>, connecting: set<Addr>, connected: set<Addr>) {
    && (forall a | a in attempts :: attempts[a].addr in connecting)
    && (forall addr | addr in connecting :: exists a :: a in attempts && attempts[a].addr == addr)
    && (forall a, b | a in attempts && b in attempts && attempts[a].addr == attempts[b].addr :: a == b)
    && connecting !! connected
  }

  /** Sessions of an attempt: none while preparing, a full square afterwards, numbers distinct per NIC. */
  ghost predicate AttemptOk(h: Attempt, nics: nat, qps: nat) {
    && (h.phase.Preparing? ==> h.made == [])
    && (!h.phase.Preparing? ==> Square(h.made, nics, qps))
    && (h.phase.Joining? ==> h.phase.popped == h.made && Square(h.phase.remote, nics, qps))
    && (forall j | 0 <= j < |h.made| :: Unambiguous(h.made[j]))
  }

  ghost predicate AttemptsOk(attempts: map<nat, Attempt>, nics: nat, qps: nat, next: nat) {
    forall a | a in attempts :: a < next && AttemptOk(attempts[a], nics, qps)
  }

  ghost predicate Made(h: Attempt, j: int, x: Session) {
    0 <= j < |h.made| && x in h.made[j]
  }

  /** No two outstanding attempts carry the same number for the same NIC. */
  ghost predicate NumbersApart(attempts: map<nat, Attempt>) {
    forall a, b, j, x, y | a in attempts && b in attempts && a != b && Made(attempts[a], j, x) && Made(attempts[b], j, y) ::
      x.local.qpn != y.local.qpn
  }

  /** A NIC's pending queue holds exactly the sessions of the attempts whose metadata is out. */
  ghost predicate PendingOk(pending: seq<Queue>, attempts: map<nat, Attempt>) {
    && (forall j | 0 <= j < |pending| :: Unambiguous(pending[j]))
    && (forall a, j, x | a in attempts && attempts[a].phase.Offered? && Made(attempts[a], j, x) && j < |pending| ::
          x in pending[j])
    && (forall j, x | 0 <= j < |pending| && x in pending[j] :: Awaited(attempts, j, x))
  }

  ghost predicate Awaited(attempts: map<nat, Attempt>, j: int, x: Session) {
    exists a :: a in attempts && attempts[a].phase.Offered? && Made(attempts[a], j, x)
  }

  ghost predicate ConnectionOk(c: Connection, nics: nat, qps: nat) {
    && Square(c.nics, nics, qps) && Square(c.local, nics, qps)
    && forall j, i | 0 <= j < nics && 0 <= i < qps :: c.nics[j][i].session.local == c.local[j][i]
  }

  ghost predicate ConnectionsOk(connections: map<Addr, Connection>, nics: nat, qps: nat) {
    forall addr | addr in connections :: ConnectionOk(connections[addr], nics, qps)
  }

  ghost predicate Inv(st: State) {
    && |st.pending| == st.nics
    && OneAttempt(st.attempts, st.connecting, st.connections.Keys)
    && AttemptsOk(st.attempts, st.nics, st.qps, st.next)
    && NumbersApart(st.attempts)
    && PendingOk(st.pending, st.attempts)
    && ConnectionsOk(st.connections, st.nics, st.qps)
  }

  /** The hardware never gives one number to two live queue pairs of a NIC. */
  ghost predicate Rows(made: seq<seq<Session>>) {
    forall j | 0 <= j < |made| :: Unambiguous(made[j])
  }

  /** No outstanding metadata carries one of the numbers on the same NIC. */
  ghost predicate NewNumbers(st: State, made: seq<seq<Session>>) {
    forall a, j, i, x | a in st.attempts && 0 <= j < |made| && 0 <= i < |made[j]| && Made(st.attempts[a], j, x) ::
      made[j][i].local.qpn != x.local.qpn
  }

  ghost predicate FreshNumbers(st: State, made: seq<seq<Session>>) {
    Rows(made) && NewNumbers(st, made)
  }

  ghost predicate Fresh(st: State, s: Step) {
    s.Prepare? ==> FreshNumbers(st, s.made)
  }

  // ---------------------------------------------------------------------
  // One attempt per address

  lemma BeginOne(attempts: map<nat, Attempt>, connecting: set<Addr>, connected: set<Addr>, a: nat, addr: Addr)
    requires OneAttempt(attempts, connecting, connected) && a !in attempts
    requires addr !in connecting && addr !in connected
    ensures OneAttempt(attempts[a := Attempt(addr, Preparing, [])], connecting + {addr}, connected)
  {
    var now := attempts[a := Attempt(addr, Preparing, [])];
    forall x | x in connecting + {addr}
      ensures exists b :: b in now && now[b].addr == x
    {
      if x == addr {
        assert now[a].addr == x;
      } else {
        var b :| b in attempts && attempts[b].addr == x;
        assert now[b].addr == x;
      }
    }
  }

  lemma EndOne(attempts: map<nat, Attempt>, connecting: set<Addr>, connected: set<Addr>, a: nat)
    requires OneAttempt(attempts, connecting, connected) && a in attempts
    ensures attempts[a].addr in connecting && attempts[a].addr !in connected
    ensures OneAttempt(attempts - {a}, connecting - {attempts[a].addr}, connected)
    ensures OneAttempt(attempts - {a}, connecting - {attempts[a].addr}, connected + {attempts[a].addr})
  {
    var now := attempts - {a};
    forall x | x in connecting - {attempts[a].addr}
      ensures exists b :: b in now && now[b].addr == x
    {
      var b :| b in attempts && attempts[b].addr == x;
      assert now[b].addr == x;
    }
  }

  lemma SameOne(attempts: map<nat, Attempt>, connecting: set<Addr>, connected: set<Addr>, a: nat, h: Attempt)
    requires OneAttempt(attempts, connecting, connected) && a in attempts && h.addr == attempts[a].addr
    ensures OneAttempt(attempts[a := h], connecting, connected)
  {
    var now := attempts[a := h];
    forall x | x in connecting
      ensures exists b :: b in now && now[b].addr == x
    {
      var b :| b in attempts && attempts[b].addr == x;
      assert now[b].addr == x;
    }
  }

  // ---------------------------------------------------------------------
  // Pending queues

  /** Attempt `a` has no session pending and changes to one that has none pending either. */
  lemma PendingSame(pending: seq<Queue>, attempts: map<nat, Attempt>, a: nat, h: Attempt)
    requires PendingOk(pending, attempts) && !h.phase.Offered? && (a in attempts ==> !attempts[a].phase.Offered?)
    ensures PendingOk(pending, attempts[a := h])
  {
    var now := attempts[a := h];
    forall j, x | 0 <= j < |pending| && x in pending[j]
      ensures Awaited(now, j, x)
    {
      var b :| b in attempts && attempts[b].phase.Offered? && Made(attempts[b], j, x);
      assert b in now && now[b] == attempts[b];
    }
  }

  lemma PendingLess(pending: seq<Queue>, attempts: map<nat, Attempt>, a: nat)
    requires PendingOk(pending, attempts) && a in attempts && !attempts[a].phase.Offered?
    ensures PendingOk(pending, attempts - {a})
  {
    var now := attempts - {a};
    forall j, x | 0 <= j < |pending| && x in pending[j]
      ensures Awaited(now, j, x)
    {
      var b :| b in attempts && attempts[b].phase.Offered? && Made(attempts[b], j, x);
      assert b in now && now[b] == attempts[b];
    }
  }

  /** The queues after the sessions of `a`, all pending, have been taken out. */
  ghost predicate TakenOut(pending: seq<Queue>, now: seq<Queue>, h: Attempt) {
    && |now| == |pending|
    && (forall j | 0 <= j < |now| :: Unambiguous(now[j]))
    && (forall j, x | 0 <= j < |now| :: x in now[j] <==> x in pending[j] && !Made(h, j, x))
  }

  lemma MadeBy(attempts: map<nat, Attempt>, a: nat, b: nat, j: int, x: Session)
    requires NumbersApart(attempts) && a in attempts && b in attempts && Made(attempts[a], j, x) && Made(attempts[b], j, x)
    ensures a == b
  {
  }

  /** Taking out one attempt's sessions leaves exactly those of the others. */
  lemma PendingTaken(pending: seq<Queue>, now: seq<Queue>, attempts: map<nat, Attempt>, a: nat, rest: map<nat, Attempt>)
    requires PendingOk(pending, attempts) && NumbersApart(attempts) && a in attempts && TakenOut(pending, now, attempts[a])
    requires forall b | b in attempts && b != a :: b in rest && rest[b] == attempts[b]
    requires forall b | b in rest :: (b in attempts && b != a && rest[b] == attempts[b]) || !rest[b].phase.Offered?
    ensures PendingOk(now, rest)
  {
    hide Unambiguous;
    forall b, j, x | b in rest && rest[b].phase.Offered? && Made(rest[b], j, x) && j < |now|
      ensures x in now[j]
    {
      assert x in pending[j];
      if Made(attempts[a], j, x) { MadeBy(attempts, a, b, j, x); }
    }
    forall j, x | 0 <= j < |now| && x in now[j]
      ensures Awaited(rest, j, x)
    {
      assert x in pending[j] && Awaited(attempts, j, x);
      var b :| b in attempts && attempts[b].phase.Offered? && Made(attempts[b], j, x);
      assert b != a;
      assert b in rest && rest[b] == attempts[b];
    }
  }

  lemma OfferedHeld(pending: seq<Queue>, attempts: map<nat, Attempt>, a: nat, j: nat)
    requires PendingOk(pending, attempts) && a in attempts && attempts[a].phase.Offered?
    requires j < |attempts[a].made| == |pending|
    ensures Unambiguous(pending[j]) && Holds(pending[j], attempts[a].made[j])
  {
    hide Unambiguous;
    forall i | 0 <= i < |attempts[a].made[j]|
      ensures attempts[a].made[j][i] in pending[j]
    {
      assert Made(attempts[a], j, attempts[a].made[j][i]);
    }
  }

  /** Completion finds all of an attempt's own sessions, in the order of its metadata, however other
      peers' handshakes have reordered the queues. */
  lemma JoinFinds(st: State, a: nat)
    requires Inv(st) && a in st.attempts && st.attempts[a].phase.Offered?
    ensures |st.attempts[a].made| == |st.pending|
    ensures var p := PopAll(st.pending, Offer(st.attempts[a].made));
            p.ok && p.sessions == st.attempts[a].made && TakenOut(st.pending, p.rest, st.attempts[a])
  {
    hide OneAttempt, ConnectionsOk, NumbersApart, PendingOk, Unambiguous, Holds;
    var h := st.attempts[a];
    var meta := Offer(h.made);
    assert AttemptOk(h, st.nics, st.qps);
    forall j: nat | j < |meta|
      ensures var one := Pop(st.pending[j], meta[j]);
              && one.ok && one.sessions == h.made[j] && Unambiguous(one.rest)
              && (forall x :: x in one.rest <==> x in st.pending[j] && x !in h.made[j])
    {
      hide Pop;
      OfferedHeld(st.pending, st.attempts, a, j);
      PopFinds(st.pending[j], h.made[j]);
    }
    hide Pop;
    PopAllIsPerNic(st.pending, meta);
    var p := PopAll(st.pending, meta);
    assert p.sessions == h.made;
  }

  /** Aborting takes out the attempt's sessions, or nothing when they are gone already. */
  lemma AbortDrops(st: State, a: nat)
    requires Inv(st) && Enabled(st, Abort(a))
    ensures TakenOut(st.pending, DropAll(st.pending, Offer(st.attempts[a].made)), st.attempts[a])
  {
    hide OneAttempt, ConnectionsOk, NumbersApart, PendingOk, Unambiguous, Holds, Drop;
    var h := st.attempts[a];
    assert AttemptOk(h, st.nics, st.qps);
    var now := DropAll(st.pending, Offer(h.made));
    forall j: nat | j < |st.pending|
      ensures Unambiguous(now[j]) && (forall x :: x in now[j] <==> x in st.pending[j] && !Made(h, j, x))
    {
      if h.phase.Offered? {
        OfferedHeld(st.pending, st.attempts, a, j);
        DropFinds(st.pending[j], h.made[j]);
      } else {
        NotOfferedAbsent(st, a, j);
        DropMisses(st.pending[j], Endpoints(h.made[j]));
      }
    }
  }

  /** Numbers of an attempt that has nothing pending are in no queue, so aborting it after a failed
      completion cannot touch another's session. */
  lemma NotOfferedAbsent(st: State, a: nat, j: nat)
    requires Inv(st) && a in st.attempts && j < |st.pending|
    requires !st.attempts[a].phase.Offered? && !st.attempts[a].phase.Preparing?
    ensures Unambiguous(st.pending[j]) && j < |st.attempts[a].made|
    ensures forall i | 0 <= i < |Endpoints(st.attempts[a].made[j])| :: Absent(st.pending[j], Endpoints(st.attempts[a].made[j])[i].qpn)
    ensures forall x | x in st.pending[j] :: !Made(st.attempts[a], j, x)
  {
    hide OneAttempt, ConnectionsOk, Unambiguous;
    var h := st.attempts[a];
    assert AttemptOk(h, st.nics, st.qps);
    forall y | y in st.pending[j]
      ensures forall i | 0 <= i < |h.made[j]| :: h.made[j][i].local.qpn != y.local.qpn
    {
      assert Awaited(st.attempts, j, y);
      var b :| b in st.attempts && st.attempts[b].phase.Offered? && Made(st.attempts[b], j, y);
      forall i | 0 <= i < |h.made[j]|
        ensures h.made[j][i].local.qpn != y.local.qpn
      {
        assert Made(h, j, h.made[j][i]) && a != b;
      }
    }
  }

  // ---------------------------------------------------------------------
  // Every step keeps the invariant

  lemma PreparedPending(pending: seq<Queue>, attempts: map<nat, Attempt>, a: nat, made: seq<seq<Session>>)
    requires PendingOk(pending, attempts) && a in attempts && attempts[a].phase.Preparing? && attempts[a].made == []
    requires |made| == |pending|
    requires forall j | 0 <= j < |pending| :: Unambiguous(pending[j] + made[j])
    ensures PendingOk(PushAll(pending, made), attempts[a := attempts[a].(phase := Offered, made := made)])
  {
    hide Unambiguous;
    var now := attempts[a := attempts[a].(phase := Offered, made := made)];
    var qs := PushAll(pending, made);
    forall b, j, x | b in now && now[b].phase.Offered? && Made(now[b], j, x) && j < |qs|
      ensures x in qs[j]
    {
      if b != a { assert x in pending[j]; }
    }
    forall j, x | 0 <= j < |qs| && x in qs[j]
      ensures Awaited(now, j, x)
    {
      if x in made[j] {
        assert Made(now[a], j, x);
      } else {
        assert x in pending[j] && Awaited(attempts, j, x);
        var b :| b in attempts && attempts[b].phase.Offered? && Made(attempts[b], j, x);
        assert now[b] == attempts[b];
      }
    }
  }

  lemma PushUnambiguous(st: State, made: seq<seq<Session>>, j: nat)
    requires Inv(st) && FreshNumbers(st, made) && j < |made| == |st.pending|
    ensures Unambiguous(st.pending[j] + made[j])
  {
    hide OneAttempt, ConnectionsOk, NumbersApart, AttemptsOk;
    var q, m := st.pending[j], made[j];
    forall x | x in q
      ensures forall i | 0 <= i < |m| :: m[i].local.qpn != x.local.qpn
    {
      assert Awaited(st.attempts, j, x);
      var b :| b in st.attempts && st.attempts[b].phase.Offered? && Made(st.attempts[b], j, x);
    }
    assert Unambiguous(q) && Unambiguous(m);
    var all := q + m;
    forall i, k | 0 <= i < k < |all|
      ensures all[i].local.qpn != all[k].local.qpn
    {
      if i < |q| <= k { assert all[i] == q[i] && q[i] in q && all[k] == m[k - |q|]; }
      if |q| <= i { assert all[i] == m[i - |q|] && all[k] == m[k - |q|]; }
    }
  }

  lemma PreparedApart(st: State, a: nat, made: seq<seq<Session>>)
    requires NumbersApart(st.attempts) && a in st.attempts && FreshNumbers(st, made)
    ensures NumbersApart(st.attempts[a := st.attempts[a].(phase := Offered, made := made)])
  {
    hide Unambiguous;
    var now := st.attempts[a := st.attempts[a].(phase := Offered, made := made)];
    forall b, c, j, x, y | b in now && c in now && b != c && Made(now[b], j, x) && Made(now[c], j, y)
      ensures x.local.qpn != y.local.qpn
    {
      if b == a {
        var i :| 0 <= i < |made[j]| && made[j][i] == x;
        assert Made(st.attempts[c], j, y);
      } else if c == a {
        var i :| 0 <= i < |made[j]| && made[j][i] == y;
        assert Made(st.attempts[b], j, x);
      } else {
        assert Made(st.attempts[b], j, x) && Made(st.attempts[c], j, y);
      }
    }
  }

  lemma PrepareKeeps(st: State, a: nat, made: seq<seq<Session>>)
    requires Inv(st) && Enabled(st, Prepare(a, made)) && FreshNumbers(st, made)
    ensures Inv(Next(st, Prepare(a, made)))
  {
    hide ConnectionsOk, Unambiguous, OneAttempt, Numbered;
    var h := st.attempts[a].(phase := Offered, made := made);
    assert AttemptOk(st.attempts[a], st.nics, st.qps);
    SameOne(st.attempts, st.connecting, st.connections.Keys, a, h);
    forall j: nat | j < |st.pending| ensures Unambiguous(st.pending[j] + made[j]) { PushUnambiguous(st, made, j); }
    PreparedPending(st.pending, st.attempts, a, made);
    PreparedApart(st, a, made);
  }

  lemma FewerApart(attempts: map<nat, Attempt>, now: map<nat, Attempt>)
    requires NumbersApart(attempts) && forall b | b in now :: b in attempts && now[b].made == attempts[b].made
    ensures NumbersApart(now)
  {
    forall a, b, j, x, y | a in now && b in now && a != b && Made(now[a], j, x) && Made(now[b], j, y)
      ensures x.local.qpn != y.local.qpn
    {
      assert Made(attempts[a], j, x) && Made(attempts[b], j, y);
    }
  }

  lemma BeginKeeps(st: State, addr: Addr)
    requires Inv(st) && Enabled(st, Begin(addr))
    ensures Inv(Next(st, Begin(addr)))
  {
    hide ConnectionsOk, OneAttempt, PendingOk;
    assert st.next !in st.attempts;
    var h := Attempt(addr, Preparing, []);
    BeginOne(st.attempts, st.connecting, st.connections.Keys, st.next, addr);
    PendingSame(st.pending, st.attempts, st.next, h);
    var now := st.attempts[st.next := h];
    forall a, b, j, x, y | a in now && b in now && a != b && Made(now[a], j, x) && Made(now[b], j, y)
      ensures x.local.qpn != y.local.qpn
    {
      assert Made(st.attempts[a], j, x) && Made(st.attempts[b], j, y);
    }
  }

  lemma JoinKeeps(st: State, a: nat, remote: Metadata)
    requires Inv(st) && Enabled(st, Join(a, remote))
    ensures Inv(Joined(st, a, remote)) && st.attempts[a].addr !in st.connections
    ensures Joined(st, a, remote).attempts == st.attempts[a := st.attempts[a].(phase := Joining(st.attempts[a].made, remote))]
  {
    hide ConnectionsOk, OneAttempt, PendingOk, NumbersApart, PopAll, DropAll, TakenOut, Unambiguous;
    var h := st.attempts[a];
    assert AttemptOk(h, st.nics, st.qps);
    EndOne(st.attempts, st.connecting, st.connections.Keys, a);
    JoinFinds(st, a);
    var h' := h.(phase := Joining(h.made, remote));
    SameOne(st.attempts, st.connecting, st.connections.Keys, a, h');
    PendingTaken(st.pending, PopAll(st.pending, Offer(h.made)).rest, st.attempts, a, st.attempts[a := h']);
    FewerApart(st.attempts, st.attempts[a := h']);
    TakenSize(st.pending, PopAll(st.pending, Offer(h.made)).rest, h);
  }

  lemma TakenSize(pending: seq<Queue>, now: seq<Queue>, h: Attempt)
    requires TakenOut(pending, now, h)
    ensures |now| == |pending|
  {
  }

  lemma StrandKeeps(st: State, a: nat)
    requires Inv(st) && Enabled(st, Strand(a))
    ensures Inv(Next(st, Strand(a)))
  {
    hide ConnectionsOk, OneAttempt, PendingOk, NumbersApart, Unambiguous;
    var h := st.attempts[a].(phase := Stranded);
    assert AttemptOk(st.attempts[a], st.nics, st.qps);
    SameOne(st.attempts, st.connecting, st.connections.Keys, a, h);
    PendingSame(st.pending, st.attempts, a, h);
    FewerApart(st.attempts, st.attempts[a := h]);
  }

  lemma FinishKeeps(st: State, a: nat)
    requires Inv(st) && Enabled(st, Finish(a))
    ensures Inv(Next(st, Finish(a)))
    ensures st.attempts[a].addr in st.connecting && st.attempts[a].addr !in st.connections
  {
    hide OneAttempt, PendingOk, NumbersApart, Unambiguous;
    var h := st.attempts[a];
    assert AttemptOk(h, st.nics, st.qps);
    EndOne(st.attempts, st.connecting, st.connections.Keys, a);
    PendingLess(st.pending, st.attempts, a);
    FewerApart(st.attempts, st.attempts - {a});
    var now := Next(st, Finish(a));
    assert now.connections.Keys == st.connections.Keys + {h.addr};
    assert ConnectionOk(now.connections[h.addr], st.nics, st.qps);
  }

  lemma EndKeeps(st: State, a: nat)
    requires Inv(st) && Enabled(st, PrepareFails(a))
    ensures Inv(Next(st, PrepareFails(a))) && st.attempts[a].addr in st.connecting
  {
    hide ConnectionsOk, OneAttempt, PendingOk, NumbersApart, Unambiguous;
    EndOne(st.attempts, st.connecting, st.connections.Keys, a);
    PendingLess(st.pending, st.attempts, a);
    FewerApart(st.attempts, st.attempts - {a});
  }

  lemma AbortKeeps(st: State, a: nat)
    requires Inv(st) && Enabled(st, Abort(a))
    ensures Inv(Next(st, Abort(a))) && st.attempts[a].addr in st.connecting
  {
    hide ConnectionsOk, OneAttempt, PendingOk, NumbersApart, Unambiguous, TakenOut, DropAll;
    EndOne(st.attempts, st.connecting, st.connections.Keys, a);
    AbortDrops(st, a);
    PendingTaken(st.pending, DropAll(st.pending, Offer(st.attempts[a].made)), st.attempts, a, st.attempts - {a});
    FewerApart(st.attempts, st.attempts - {a});
  }

  lemma InvalidateKeeps(st: State, addr: Addr)
    requires Inv(st)
    ensures Inv(Next(st, Invalidate(addr)))
  {
    hide PendingOk, NumbersApart, AttemptOk, ConnectionOk;
  }

  lemma StepKeeps(st: State, s: Step)
    requires Inv(st) && Fresh(st, s)
    ensures Inv(Apply(st, s))
  {
    hide Inv, FreshNumbers, Joined;
    if Enabled(st, s) {
      match s
      case Begin(addr) => BeginKeeps(st, addr);
      case PrepareFails(a) => EndKeeps(st, a);
      case Prepare(a, made) => PrepareKeeps(st, a, made);
      case Join(a, remote) => JoinKeeps(st, a, remote);
      case Strand(a) => StrandKeeps(st, a);
      case Finish(a) => FinishKeeps(st, a);
      case Abort(a) => AbortKeeps(st, a);
      case Invalidate(addr) => InvalidateKeeps(st, addr);
    }
  }

  // ---------------------------------------------------------------------
  // Every run

  ghost predicate FreshRun(st: State, steps: seq<Step>) {
    steps != [] ==>
      FreshRun(st, steps[..|steps| - 1]) && Fresh(Exec(st, steps[..|steps| - 1]), steps[|steps| - 1])
  }

  lemma StartInv(nics: nat, qps: nat)
    ensures Inv(Start(nics, qps))
  {
  }

  /** Every fresh continuation of a state that satisfies the invariant keeps it. */
  lemma {:induction false} ContinuationInv(st: State, steps: seq<Step>)
    requires Inv(st) && FreshRun(st, steps)
    ensures Inv(Exec(st, steps))
  {
    hide Inv, Fresh, Apply;
    if steps != [] {
      ContinuationInv(st, steps[..|steps| - 1]);
      StepKeeps(Exec(st, steps[..|steps| - 1]), steps[|steps| - 1]);
    }
  }

  /** Over all interleavings: no address is both connecting and connected; an address is connecting
      exactly while one handshake for it is under way; the pending queues hold exactly the sessions whose
      metadata is out; and every connection has its full set of queue pairs. */
  lemma RunInv(nics: nat, qps: nat, steps: seq<Step>)
    requires FreshRun(Start(nics, qps), steps)
    ensures Inv(Exec(Start(nics, qps), steps))
  {
    hide Inv, FreshRun, Exec, Start;
    StartInv(nics, qps);
    ContinuationInv(Start(nics, qps), steps);
  }

  /** What the assertions in the source say: whoever ends a handshake finds its address marked. */
  lemma MarkedUntilTheEnd(st: State, a: nat)
    requires Inv(st) && a in st.attempts
    ensures st.attempts[a].addr in st.connecting && st.attempts[a].addr !in st.connections
  {
    hide PendingOk, NumbersApart, AttemptsOk, ConnectionsOk;
  }

  // ---------------------------------------------------------------------
  // Connections

  /** Finishing adds the connection of its own address, invalidating takes one away, and no other step
      touches any connection. */
  lemma ConnectionsExactly(st: State, s: Step)
    requires Enabled(st, s)
    ensures var now := Next(st, s);
            && (s.Finish? ==>
                  var addr := st.attempts[s.attempt].addr;
                  now.connections.Keys == st.connections.Keys + {addr}
                  && forall x | x in st.connections && x != addr :: now.connections[x] == st.connections[x])
            && (s.Invalidate? ==>
                  && now.connections.Keys == st.connections.Keys - {s.addr}
                  && (forall x | x in now.connections :: now.connections[x] == st.connections[x])
                  && now.pending == st.pending && now.connecting == st.connecting && now.attempts == st.attempts)
            && (!s.Finish? && !s.Invalidate? ==> now.connections == st.connections)
  {
    hide PopAll, DropAll, PushAll, LinkAll, Offer, Numbered;
  }

  /** After an invalidation a handshake with that peer can begin again at once. */
  lemma InvalidateThenBegin(st: State, addr: Addr)
    requires Inv(st) && addr in st.connections
    ensures var now := Next(st, Invalidate(addr));
            !Enabled(st, Begin(addr)) && addr !in now.connections && Enabled(now, Begin(addr))
            && addr in Next(now, Begin(addr)).connecting
  {
    hide ConnectionsOk, AttemptsOk;
  }

  /** A connection stays as it is, whatever handshakes with this and other peers do, until its own
      invalidation. */
  lemma {:induction false} ConnectionStays(st: State, steps: seq<Step>, addr: Addr)
    requires Inv(st) && FreshRun(st, steps) && addr in st.connections
    requires forall i | 0 <= i < |steps| :: steps[i] != Invalidate(addr)
    ensures var now := Exec(st, steps); addr in now.connections && now.connections[addr] == st.connections[addr]
  {
    hide Inv, Enabled, Next;
    if steps != [] {
      var front, s := steps[..|steps| - 1], steps[|steps| - 1];
      assert forall i | 0 <= i < |front| :: front[i] == steps[i];
      ConnectionStays(st, front, addr);
      ContinuationInv(st, front);
      var was := Exec(st, front);
      if Enabled(was, s) {
        ConnectionsExactly(was, s);
        if s.Finish? { NotFinishing(was, s.attempt, addr); }
      }
    }
  }

  lemma NotFinishing(st: State, a: nat, addr: Addr)
    requires Inv(st) && Enabled(st, Finish(a)) && addr in st.connections
    ensures st.attempts[a].addr != addr
  {
  }
}
