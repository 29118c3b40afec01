/** Where a session can be, whom it talks to, and what goes wrong when a number comes back too soon. */
module HandshakeRuns {
  import opened Types
  import opened Sessions
  import opened Handshake

  // ---------------------------------------------------------------------
  // Every session is in one place

  datatype Place = OfAttempt(attempt: nat, nic: nat, qp: nat) | OfConnection(addr: Addr, nic: nat, qp: nat)

  ghost predicate MadeAt(h: Attempt, j: nat, i: nat, id: nat) {
    j < |h.made| && i < |h.made[j]| && h.made[j][i].id == id
  }

  ghost predicate LinkedAt(c: Connection, j: nat, i: nat, id: nat) {
    j < |c.nics| && i < |c.nics[j]| && c.nics[j][i].session.id == id
  }

  ghost predicate At(st: State, p: Place, id: nat) {
    match p
    case OfAttempt(a, j, i) => a in st.attempts && MadeAt(st.attempts[a], j, i, id)
    case OfConnection(addr, j, i) => addr in st.connections && LinkedAt(st.connections[addr], j, i, id)
  }

  ghost predicate OnePlace(st: State) {
    && (forall p, q, id: nat | At(st, p, id) && At(st, q, id) :: p == q)
    && (forall p, id: nat | At(st, p, id) :: id < st.ids)
  }

  lemma FewerPlaces(was: State, now: State)
    requires OnePlace(was) && was.ids <= now.ids && forall p, id: nat | At(now, p, id) :: At(was, p, id)
    ensures OnePlace(now)
  {
    hide At;
  }

  lemma PreparePlaces(st: State, a: nat, made: seq<seq<Session>>, p: Place, id: nat)
    requires Enabled(st, Prepare(a, made)) && At(Next(st, Prepare(a, made)), p, id)
    ensures || (At(st, p, id) && !(p.OfAttempt? && p.attempt == a))
            || (p.OfAttempt? && p.attempt == a && p.nic < |made| && p.qp < |made[p.nic]| && made[p.nic][p.qp].id == id)
  {
    hide Numbered, PushAll;
  }

  lemma PrepareOnePlace(st: State, a: nat, made: seq<seq<Session>>)
    requires OnePlace(st) && Enabled(st, Prepare(a, made))
    ensures OnePlace(Next(st, Prepare(a, made)))
  {
    hide At, PushAll;
    var now := Next(st, Prepare(a, made));
    forall p, id: nat | At(now, p, id)
      ensures id < now.ids
    {
      PreparePlaces(st, a, made, p, id);
    }
    forall p, q, id: nat | At(now, p, id) && At(now, q, id)
      ensures p == q
    {
      PreparePlaces(st, a, made, p, id);
      PreparePlaces(st, a, made, q, id);
    }
  }

  /** Finishing moves sessions from the attempt to the connection, position by position. */
  ghost function Origin(st: State, a: nat, p: Place): Place
    requires a in st.attempts
  {
    if p.OfConnection? && p.addr == st.attempts[a].addr then OfAttempt(a, p.nic, p.qp) else p
  }

  lemma FinishPlaces(st: State, a: nat, p: Place, id: nat)
    requires Inv(st) && Enabled(st, Finish(a)) && At(Next(st, Finish(a)), p, id)
    ensures At(st, Origin(st, a, p), id) && !(p.OfAttempt? && p.attempt == a)
  {
    hide OneAttempt, PendingOk, NumbersApart, ConnectionsOk, Unambiguous;
    assert AttemptOk(st.attempts[a], st.nics, st.qps);
  }

  lemma FinishOnePlace(st: State, a: nat)
    requires Inv(st) && OnePlace(st) && Enabled(st, Finish(a))
    ensures OnePlace(Next(st, Finish(a)))
  {
    hide At, Inv, LinkAll, Offer, Square;
    var now := Next(st, Finish(a));
    FinishKeeps(st, a);
    forall p, id: nat | At(now, p, id)
      ensures id < now.ids
    {
      FinishPlaces(st, a, p, id);
    }
    forall p, q, id: nat | At(now, p, id) && At(now, q, id)
      ensures p == q
    {
      FinishPlaces(st, a, p, id);
      FinishPlaces(st, a, q, id);
    }
  }

  lemma OtherPlaces(st: State, s: Step, p: Place, id: nat)
    requires Enabled(st, s) && !s.Prepare? && !s.Finish? && At(Next(st, s), p, id)
    ensures At(st, p, id)
  {
    hide PopAll, DropAll, Offer;
  }

  lemma StepOnePlace(st: State, s: Step)
    requires Inv(st) && OnePlace(st)
    ensures OnePlace(Apply(st, s))
  {
    hide Inv, OnePlace, Next, Enabled, At;
    if Enabled(st, s) {
      match s
      case Prepare(a, made) => PrepareOnePlace(st, a, made);
      case Finish(a) => FinishOnePlace(st, a);
      case _ =>
        forall p, id: nat | At(Next(st, s), p, id) ensures At(st, p, id) { OtherPlaces(st, s, p, id); }
        SameIds(st, s);
        FewerPlaces(st, Next(st, s));
    }
  }

  lemma SameIds(st: State, s: Step)
    requires Enabled(st, s) && !s.Prepare?
    ensures Next(st, s).ids == st.ids
  {
    hide PopAll, DropAll, Offer, LinkAll;
  }

  lemma {:induction false} RunOnePlace(nics: nat, qps: nat, steps: seq<Step>)
    requires FreshRun(Start(nics, qps), steps)
    ensures OnePlace(Exec(Start(nics, qps), steps))
  {
    hide Inv, Fresh, Apply;
    if steps != [] {
      var init := steps[..|steps| - 1];
      RunOnePlace(nics, qps, init);
      RunInv(nics, qps, init);
      StepOnePlace(Exec(Start(nics, qps), init), steps[|steps| - 1]);
    }
  }

  ghost predicate Waiting(st: State, j: nat, p: nat, id: nat) {
    j < |st.pending| && p < |st.pending[j]| && st.pending[j][p].id == id
  }

  ghost predicate InCompletion(st: State, a: nat, j: nat, i: nat, id: nat) {
    && a in st.attempts && st.attempts[a].phase.Joining?
    && j < |st.attempts[a].phase.popped| && i < |st.attempts[a].phase.popped[j]|
    && st.attempts[a].phase.popped[j][i].id == id
  }

  ghost predicate Connected(st: State, addr: Addr, j: nat, i: nat, id: nat) {
    At(st, OfConnection(addr, j, i), id)
  }

  lemma WaitingPlace(st: State, j: nat, p: nat, id: nat) returns (a: nat, i: nat)
    requires Inv(st) && Waiting(st, j, p, id)
    ensures At(st, OfAttempt(a, j, i), id) && st.attempts[a].phase.Offered? && st.attempts[a].made[j][i] == st.pending[j][p]
  {
    hide OneAttempt, NumbersApart, AttemptsOk, ConnectionsOk, Unambiguous;
    var x := st.pending[j][p];
    assert Awaited(st.attempts, j, x);
    a :| a in st.attempts && st.attempts[a].phase.Offered? && Made(st.attempts[a], j, x);
    i :| 0 <= i < |st.attempts[a].made[j]| && st.attempts[a].made[j][i] == x;
  }

  /** A session waits at one position of one queue. */
  lemma WaitsOnce(st: State, id: nat, j: nat, p: nat, l: nat, q: nat)
    requires Inv(st) && OnePlace(st) && Waiting(st, j, p, id) && Waiting(st, l, q, id)
    ensures l == j && q == p
  {
    hide OneAttempt, NumbersApart, AttemptsOk, ConnectionsOk, At, Awaited;
    var a, i := WaitingPlace(st, j, p, id);
    var b, k := WaitingPlace(st, l, q, id);
    assert OfAttempt(a, j, i) == OfAttempt(b, l, k);
    assert Unambiguous(st.pending[j]);
  }

  lemma CompletionPlace(st: State, a: nat, j: nat, i: nat, id: nat)
    requires Inv(st) && InCompletion(st, a, j, i, id)
    ensures At(st, OfAttempt(a, j, i), id) && st.attempts[a].phase.Joining?
  {
    hide OneAttempt, NumbersApart, PendingOk, ConnectionsOk, Unambiguous;
    assert AttemptOk(st.attempts[a], st.nics, st.qps);
  }

  /** A session is in at most one of: one NIC's pending queue, one completion in progress, one peer's
      connection; and within each of these at one position. */
  lemma AtMostOnePlace(st: State, id: nat, j: nat, p: nat, a: nat, k: nat, i: nat, addr: Addr, m: nat, n: nat)
    requires Inv(st) && OnePlace(st)
    ensures !(Waiting(st, j, p, id) && InCompletion(st, a, k, i, id))
    ensures !(Waiting(st, j, p, id) && Connected(st, addr, m, n, id))
    ensures !(InCompletion(st, a, k, i, id) && Connected(st, addr, m, n, id))
    ensures forall l, q | Waiting(st, j, p, id) && Waiting(st, l, q, id) :: l == j && q == p
    ensures forall b, l, q | InCompletion(st, a, k, i, id) && InCompletion(st, b, l, q, id) :: b == a && l == k && q == i
    ensures forall other, l, q | Connected(st, addr, m, n, id) && Connected(st, other, l, q, id) :: other == addr && l == m && q == n
  {
    hide Inv, At, Waiting;
    if Waiting(st, j, p, id) {
      var b, q := WaitingPlace(st, j, p, id);
      InAttempts(st, b, j, q, id);
      forall l, q | Waiting(st, l, q, id) ensures l == j && q == p { WaitsOnce(st, id, j, p, l, q); }
    }
    forall b, l, q | InCompletion(st, b, l, q, id)
      ensures At(st, OfAttempt(b, l, q), id) && b in st.attempts && st.attempts[b].phase.Joining?
    {
      CompletionPlace(st, b, l, q, id);
    }
  }

  lemma InAttempts(st: State, b: nat, l: nat, q: nat, id: nat)
    requires At(st, OfAttempt(b, l, q), id)
    ensures b in st.attempts
  {
  }

  // ---------------------------------------------------------------------
  // Completion pairs the right sessions

  ghost predicate Untouched(steps: seq<Step>, a: nat) {
    forall i | 0 <= i < |steps| :: !steps[i].Begin? && !steps[i].Invalidate? ==> steps[i].attempt != a
  }

  lemma OtherStep(st: State, s: Step, a: nat)
    requires a in st.attempts && a < st.next && (!s.Begin? && !s.Invalidate? ==> s.attempt != a)
    ensures a in Apply(st, s).attempts && Apply(st, s).attempts[a] == st.attempts[a] && a < Apply(st, s).next
    ensures Apply(st, s).nics == st.nics && Apply(st, s).qps == st.qps
  {
    hide PopAll, DropAll, Offer, LinkAll, PushAll, Numbered;
  }

  lemma {:induction false} OtherSteps(st: State, steps: seq<Step>, a: nat)
    requires a in st.attempts && a < st.next && Untouched(steps, a)
    ensures a in Exec(st, steps).attempts && Exec(st, steps).attempts[a] == st.attempts[a] && a < Exec(st, steps).next
    ensures Exec(st, steps).nics == st.nics && Exec(st, steps).qps == st.qps
  {
    hide Apply;
    if steps != [] {
      OtherSteps(st, steps[..|steps| - 1], a);
      OtherStep(Exec(st, steps[..|steps| - 1]), steps[|steps| - 1], a);
    }
  }

  /** The connection that a completed handshake leaves. */
  ghost predicate Wired(c: Connection, made: seq<seq<Session>>, remote: Metadata) {
    && c.local == Offer(made) && |c.nics| == |made| == |remote|
    && forall j | 0 <= j < |c.nics| ::
         |c.nics[j]| == |made[j]| == |remote[j]|
         && forall i | 0 <= i < |c.nics[j]| :: c.nics[j][i] == Linked(made[j][i], remote[j][i])
  }

  ghost function Completed(st: State, a: nat, remote: Metadata, others: seq<Step>): State {
    Apply(Exec(Apply(st, Join(a, remote)), others), Finish(a))
  }

  /** Whatever other handshakes do before the join and between join and finish, session (nic, qp) of
      the connection is the one made at that position, pointed at the peer endpoint at that position. */
  lemma CompletesAsOffered(st: State, a: nat, remote: Metadata, others: seq<Step>)
    requires Inv(st) && a in st.attempts && st.attempts[a].phase.Offered? && Square(remote, st.nics, st.qps)
    requires Untouched(others, a)
    ensures var now := Completed(st, a, remote, others);
            var addr := st.attempts[a].addr;
            addr in now.connections && Wired(now.connections[addr], st.attempts[a].made, remote)
  {
    hide Inv, Apply, Exec, Joined;
    var h := st.attempts[a];
    AttemptAt(st, a);
    JoinKeeps(st, a, remote);
    var one := Apply(st, Join(a, remote));
    assert one == Joined(st, a, remote) by { ApplyJoin(st, a, remote); }
    JoinedParams(st, a, remote);
    OtherSteps(one, others, a);
    FinishWires(Exec(one, others), a);
  }

  lemma AttemptAt(st: State, a: nat)
    requires Inv(st) && a in st.attempts
    ensures AttemptOk(st.attempts[a], st.nics, st.qps) && a < st.next && |st.pending| == st.nics
  {
    hide OneAttempt, NumbersApart, PendingOk, ConnectionsOk;
  }

  lemma ApplyJoin(st: State, a: nat, remote: Metadata)
    requires Enabled(st, Join(a, remote))
    ensures Apply(st, Join(a, remote)) == Joined(st, a, remote)
  {
    hide Joined;
  }

  lemma JoinedParams(st: State, a: nat, remote: Metadata)
    requires Enabled(st, Join(a, remote))
    ensures var n := Joined(st, a, remote); n.nics == st.nics && n.qps == st.qps && n.next == st.next
  {
    hide PopAll, DropAll, Offer;
  }

  lemma FinishWires(st: State, a: nat)
    requires a in st.attempts && st.attempts[a].phase.Joining? && st.attempts[a].phase.popped == st.attempts[a].made
    requires Square(st.attempts[a].made, st.nics, st.qps) && Square(st.attempts[a].phase.remote, st.nics, st.qps)
    ensures var now, h := Apply(st, Finish(a)), st.attempts[a];
            h.addr in now.connections && Wired(now.connections[h.addr], h.made, h.phase.remote)
  {
  }

  /** Two engines that complete with swapped metadata: session (nic, qp) on each side targets session
      (nic, qp) on the other, and expects the sequence numbers that one will send from. */
  lemma SwappedMetadataPairs(x: State, a: nat, others: seq<Step>, y: State, b: nat, more: seq<Step>, j: nat, i: nat)
    requires Inv(x) && a in x.attempts && x.attempts[a].phase.Offered? && Untouched(others, a)
    requires Inv(y) && b in y.attempts && y.attempts[b].phase.Offered? && Untouched(more, b)
    requires x.nics == y.nics && x.qps == y.qps && j < x.nics && i < x.qps
    ensures var there, here := Offer(y.attempts[b].made), Offer(x.attempts[a].made);
            var cx := Completed(x, a, there, others);
            var cy := Completed(y, b, here, more);
            var toB, toA := x.attempts[a].addr, y.attempts[b].addr;
            && toB in cx.connections && toA in cy.connections
            && j < |cx.connections[toB].nics| && i < |cx.connections[toB].nics[j]|
            && j < |cy.connections[toA].nics| && i < |cy.connections[toA].nics[j]|
            && var s, r := cx.connections[toB].nics[j][i], cy.connections[toA].nics[j][i];
               s.remote == r.session.local && r.remote == s.session.local
               && s.remote.qpn == r.session.local.qpn && s.remote.psn == r.session.local.psn
  {
    hide Inv, Completed;
    AttemptAt(x, a);
    AttemptAt(y, b);
    CompletesAsOffered(x, a, Offer(y.attempts[b].made), others);
    CompletesAsOffered(y, b, Offer(x.attempts[a].made), more);
  }

  // ---------------------------------------------------------------------
  // Exactly when completion takes its own sessions

  /** After `steps`, completing attempt `a` takes exactly the sessions `made` for it. */
  ghost predicate TakesOwn(st: State, steps: seq<Step>, a: nat, made: seq<seq<Session>>, remote: Metadata) {
    var was := Exec(st, steps);
    && a in was.attempts && Enabled(was, Join(a, remote))
    && a in Joined(was, a, remote).attempts && Joined(was, a, remote).attempts[a].phase == Joining(made, remote)
  }

  /** Whatever others do, as long as later numbers are fresh, completing `a` takes its own sessions. */
  ghost predicate AlwaysTakesOwn(st: State, a: nat, made: seq<seq<Session>>, remote: Metadata) {
    forall steps | FreshRun(st, steps) && Untouched(steps, a) :: TakesOwn(st, steps, a, made, remote)
  }

  lemma FreshTakesOwn(st: State, a: nat, made: seq<seq<Session>>, remote: Metadata, steps: seq<Step>)
    requires Inv(st) && Enabled(st, Prepare(a, made)) && FreshNumbers(st, made) && Square(remote, st.nics, st.qps)
    requires var now := Next(st, Prepare(a, made)); FreshRun(now, steps) && Untouched(steps, a)
    ensures TakesOwn(Next(st, Prepare(a, made)), steps, a, made, remote)
  {
    hide Inv, FreshNumbers, FreshRun, Exec, Joined, Numbered;
    var now := Next(st, Prepare(a, made));
    AttemptAt(st, a);
    PrepareKeeps(st, a, made);
    ContinuationInv(now, steps);
    OtherSteps(now, steps, a);
    var was := Exec(now, steps);
    AttemptAt(was, a);
    JoinKeeps(was, a, remote);
  }

  /** The numbers under which a NIC's sessions wait after a prepare. */
  lemma Prepared(st: State, a: nat, made: seq<seq<Session>>)
    requires Enabled(st, Prepare(a, made))
    ensures var now := Next(st, Prepare(a, made));
            && now.attempts == st.attempts[a := Attempt(st.attempts[a].addr, Offered, made)]
            && now.pending == PushAll(st.pending, made) && now.connections == st.connections
            && now.nics == st.nics && now.qps == st.qps && now.next == st.next
  {
    hide Numbered, PushAll;
  }

  /** Joining takes its own sessions only if each NIC's pop yields them. */
  lemma TakesOwnPerNic(st: State, a: nat, made: seq<seq<Session>>, remote: Metadata, j: nat)
    requires Enabled(st, Join(a, remote)) && st.attempts[a].made == made && j < |made|
    requires a in Joined(st, a, remote).attempts && Joined(st, a, remote).attempts[a].phase == Joining(made, remote)
    ensures j < |st.pending| && Pop(st.pending[j], Endpoints(made[j])).ok
    ensures Pop(st.pending[j], Endpoints(made[j])).sessions == made[j]
  {
    hide Pop, PopAll, DropAll;
    var meta := Offer(made);
    assert st.attempts[a].addr !in st.connections;
    PopAllNeeds(st.pending, meta);
    PopAllIsPerNic(st.pending, meta);
  }

  lemma PendingId(st: State, j: nat, y: Session)
    requires Inv(st) && OnePlace(st) && j < |st.pending| && y in st.pending[j]
    ensures y.id < st.ids
  {
    hide Inv, At;
    var p :| 0 <= p < |st.pending[j]| && st.pending[j][p] == y;
    assert Waiting(st, j, p, y.id);
    var b, q := WaitingPlace(st, j, p, y.id);
  }

  /** Against metadata that is still out, completing at once takes the other attempt's session. */
  lemma OfferedClash(st: State, a: nat, made: seq<seq<Session>>, remote: Metadata, b: nat, j: nat, i: nat, x: Session)
    requires Inv(st) && OnePlace(st) && Enabled(st, Prepare(a, made)) && Rows(made)
    requires b in st.attempts && st.attempts[b].phase.Offered? && Made(st.attempts[b], j, x)
    requires j < |made| && i < |made[j]| && made[j][i].local.qpn == x.local.qpn
    ensures !TakesOwn(Next(st, Prepare(a, made)), [], a, made, remote)
  {
    hide Inv, OnePlace, Pop, Numbered, Joined, Take, FreshRun;
    var now := Next(st, Prepare(a, made));
    Prepared(st, a, made);
    if TakesOwn(now, [], a, made, remote) {
      TakesOwnPerNic(now, a, made, remote, j);
      var q, eps := st.pending[j], Endpoints(made[j]);
      OfferedWaits(st, b, j, x);
      TakeFront(q, made[j], x.local.qpn);
      RowApart(made, j, i);
      PopAt(q + made[j], eps, i);
      PendingId(st, j, made[j][i]);
      NewId(st, a, made, j, i);
      assert false;
    }
  }

  lemma OfferedWaits(st: State, b: nat, j: nat, x: Session)
    requires Inv(st) && b in st.attempts && st.attempts[b].phase.Offered? && Made(st.attempts[b], j, x)
    ensures j < |st.pending| && x in st.pending[j] && !Absent(st.pending[j], x.local.qpn)
  {
    hide OneAttempt, NumbersApart, ConnectionsOk, Unambiguous;
    assert AttemptOk(st.attempts[b], st.nics, st.qps);
  }

  lemma RowApart(made: seq<seq<Session>>, j: nat, i: nat)
    requires Rows(made) && j < |made| && i < |made[j]|
    ensures forall k | 0 <= k < i :: Endpoints(made[j])[k].qpn != Endpoints(made[j])[i].qpn
  {
    assert Unambiguous(made[j]);
  }

  lemma NewId(st: State, a: nat, made: seq<seq<Session>>, j: nat, i: nat)
    requires Enabled(st, Prepare(a, made)) && j < |made| && i < |made[j]|
    ensures st.ids <= made[j][i].id
  {
  }

  lemma AbortState(st: State, b: nat)
    requires Enabled(st, Abort(b))
    ensures var now := Apply(st, Abort(b));
            && now.attempts == st.attempts - {b} && now.pending == DropAll(st.pending, Offer(st.attempts[b].made))
            && now.connections == st.connections && now.nics == st.nics && now.qps == st.qps
  {
    hide DropAll;
  }

  /** A number of an attempt with nothing pending occurs once among the waiting and the new sessions. */
  lemma OnceWaiting(st: State, b: nat, made: seq<seq<Session>>, j: nat, x: Session)
    requires Inv(st) && Rows(made) && j < |made| && j < |st.pending|
    requires b in st.attempts && !st.attempts[b].phase.Offered? && !st.attempts[b].phase.Preparing?
    requires Made(st.attempts[b], j, x)
    ensures Count(st.pending[j] + made[j], x.local.qpn) <= 1
    ensures exists k | 0 <= k < |Endpoints(st.attempts[b].made[j])| :: Endpoints(st.attempts[b].made[j])[k].qpn == x.local.qpn
  {
    hide Inv, Count;
    NotOfferedAbsent(st, b, j);
    var other := st.attempts[b].made[j];
    var k :| 0 <= k < |other| && other[k] == x;
    assert Endpoints(other)[k].qpn == x.local.qpn;
    CountAppend(st.pending[j], made[j], x.local.qpn);
    CountAbsent(st.pending[j], x.local.qpn);
    assert Unambiguous(made[j]);
    CountOnce(made[j], x.local.qpn);
  }

  /** After a completion that failed, aborting takes the new session away, and its owner is stranded. */
  lemma AbortClash(st: State, a: nat, made: seq<seq<Session>>, remote: Metadata, b: nat, j: nat, i: nat, x: Session, mid: State)
    requires Inv(st) && Enabled(st, Prepare(a, made)) && Rows(made)
    requires b in st.attempts && !st.attempts[b].phase.Offered? && !st.attempts[b].phase.Preparing?
    requires Made(st.attempts[b], j, x) && j < |made| && i < |made[j]| && made[j][i].local.qpn == x.local.qpn
    requires var now := Next(st, Prepare(a, made));
             mid == now.(attempts := now.attempts[b := now.attempts[b].(phase := Stranded)])
    ensures a != b && Enabled(mid, Abort(b)) && !TakesOwn(Apply(mid, Abort(b)), [], a, made, remote)
  {
    hide Inv, Pop, Numbered, Joined, Take, FreshRun, Drop, Count;
    Prepared(st, a, made);
    AttemptAt(st, b);
    AttemptAt(st, a);
    var other := st.attempts[b].made;
    var after := Apply(mid, Abort(b));
    var qpn := x.local.qpn;
    NotOfferedAbsent(st, b, j);
    OnceWaiting(st, b, made, j, x);
    DropCounts(st.pending[j] + made[j], Endpoints(other[j]), qpn);
    AbortState(mid, b);
    if TakesOwn(after, [], a, made, remote) {
      TakesOwnPerNic(after, a, made, remote, j);
      PopNeeds(after.pending[j], Endpoints(made[j]), i);
      assert false;
    }
  }

  lemma TakesOwnAfter(st: State, steps: seq<Step>, a: nat, made: seq<seq<Session>>, remote: Metadata)
    ensures TakesOwn(st, steps, a, made, remote) <==> TakesOwn(Exec(st, steps), [], a, made, remote)
  {
    hide Joined, Enabled, Apply;
    assert Exec(Exec(st, steps), []) == Exec(st, steps);
  }

  lemma OneStep(st: State, s: Step)
    requires !s.Prepare?
    ensures Exec(st, [s]) == Apply(st, s) && FreshRun(st, [s])
  {
    hide Apply;
    assert [s][..0] == [];
  }

  lemma TwoSteps(st: State, s: Step, t: Step)
    requires !s.Prepare? && !t.Prepare?
    ensures Exec(st, [s, t]) == Apply(Apply(st, s), t) && FreshRun(st, [s, t])
  {
    hide Apply;
    OneStep(st, s);
    assert [s, t][..1] == [s];
  }

  /** A clash with any outstanding attempt has a schedule on which completion goes wrong. */
  lemma ClashHasSchedule(st: State, a: nat, made: seq<seq<Session>>, remote: Metadata, b: nat, j: nat, i: nat, x: Session)
    requires Inv(st) && OnePlace(st) && Enabled(st, Prepare(a, made)) && Rows(made)
    requires b in st.attempts && Made(st.attempts[b], j, x)
    requires j < |made| && i < |made[j]| && made[j][i].local.qpn == x.local.qpn
    ensures !AlwaysTakesOwn(Next(st, Prepare(a, made)), a, made, remote)
  {
    hide Inv, OnePlace, TakesOwn, Apply, Exec, FreshRun, Numbered;
    var now := Next(st, Prepare(a, made));
    Prepared(st, a, made);
    AttemptAt(st, b);
    AttemptAt(st, a);
    if st.attempts[b].phase.Offered? {
      OfferedClash(st, a, made, remote, b, j, i, x);
      NoSteps(now);
    } else {
      var mid := now.(attempts := now.attempts[b := now.attempts[b].(phase := Stranded)]);
      AbortClash(st, a, made, remote, b, j, i, x, mid);
      if st.attempts[b].phase.Stranded? {
        assert now.attempts[b := now.attempts[b]] == now.attempts && mid == now;
        OneStep(now, Abort(b));
        TakesOwnAfter(now, [Abort(b)], a, made, remote);
      } else {
        StrandOn(now, b);
        TwoSteps(now, Strand(b), Abort(b));
        TakesOwnAfter(now, [Strand(b), Abort(b)], a, made, remote);
      }
    }
  }

  lemma NoSteps(st: State)
    ensures FreshRun(st, [])
  {
  }

  /** A completion takes exactly the sessions made for it, in every fresh continuation, if and only if
      no outstanding handshake carries one of their numbers on the same NIC when they are made. */
  lemma CompletionTakesOwnExactly(st: State, a: nat, made: seq<seq<Session>>, remote: Metadata)
    requires Inv(st) && OnePlace(st) && Enabled(st, Prepare(a, made)) && Rows(made) && Square(remote, st.nics, st.qps)
    ensures AlwaysTakesOwn(Next(st, Prepare(a, made)), a, made, remote) <==> NewNumbers(st, made)
  {
    hide Inv, OnePlace, TakesOwn, Enabled, Next, Rows, FreshRun, Untouched;
    if NewNumbers(st, made) {
      var now := Next(st, Prepare(a, made));
      forall steps | FreshRun(now, steps) && Untouched(steps, a)
        ensures TakesOwn(now, steps, a, made, remote)
      {
        FreshTakesOwn(st, a, made, remote, steps);
      }
    } else {
      var b, j, i, x :| b in st.attempts && 0 <= j < |made| && 0 <= i < |made[j]| && Made(st.attempts[b], j, x)
                        && made[j][i].local.qpn == x.local.qpn;
      ClashHasSchedule(st, a, made, remote, b, j, i, x);
    }
  }

  // ---------------------------------------------------------------------
  // A number that comes back too soon

  const PEER: Metadata := [[Endpoint(0, 0, 1, 0)]]

  /** A live session of the engine carries this number on NIC `j`. */
  ghost predicate LiveNumber(st: State, j: nat, qpn: nat) {
    || (j < |st.pending| && !Absent(st.pending[j], qpn))
    || (exists a, i :: a in st.attempts && st.attempts[a].phase.Joining? && j < |st.attempts[a].phase.popped|
                       && 0 <= i < |st.attempts[a].phase.popped[j]| && st.attempts[a].phase.popped[j][i].local.qpn == qpn)
    || (exists addr, i :: addr in st.connections && j < |st.connections[addr].nics|
                          && 0 <= i < |st.connections[addr].nics[j]| && st.connections[addr].nics[j][i].session.local.qpn == qpn)
  }

  // One NIC, one queue pair per peer: what each step does.

  lemma BeginOn(st: State, addr: Addr)
    requires addr !in st.connections && addr !in st.connecting
    ensures Apply(st, Begin(addr)) ==
            st.(connecting := st.connecting + {addr}, attempts := st.attempts[st.next := Attempt(addr, Preparing, [])], next := st.next + 1)
  {
  }

  lemma PrepareOn(st: State, a: nat, addr: Addr, q: Queue, s: Session)
    requires st.nics == st.qps == 1 && st.pending == [q] && s.id == st.ids
    requires a in st.attempts && st.attempts[a] == Attempt(addr, Preparing, [])
    ensures Apply(st, Prepare(a, [[s]])) ==
            st.(pending := [q + [s]], attempts := st.attempts[a := Attempt(addr, Offered, [[s]])], ids := st.ids + 1)
  {
    hide Numbered, PushAll;
    NumberedOne(s);
    PushOnly(q, s);
    assert Square([[s]], 1, 1);
    assert Enabled(st, Prepare(a, [[s]]));
  }

  lemma NumberedOne(s: Session)
    ensures Numbered([[s]], s.id, s.id + 1)
  {
  }

  lemma PushOnly(q: Queue, s: Session)
    ensures PushAll([q], [[s]]) == [q + [s]]
  {
  }

  lemma JoinOn(st: State, a: nat, addr: Addr, q: Queue, s: Session)
    requires st.nics == st.qps == 1 && st.pending == [q] && addr !in st.connections
    requires a in st.attempts && st.attempts[a] == Attempt(addr, Offered, [[s]])
    ensures var one := Pop(q, Endpoints([s]));
            Apply(st, Join(a, PEER)) ==
            st.(pending := [one.rest],
                attempts := st.attempts[a := Attempt(addr, if one.ok then Joining([one.sessions], PEER) else Stranded, [[s]])])
  {
    hide Pop, PopAll;
    assert Offer([[s]]) == [Endpoints([s])];
    PopOne(q, Endpoints([s]));
  }

  lemma AbortOn(st: State, a: nat, addr: Addr, q: Queue, s: Session)
    requires st.pending == [q] && a in st.attempts && st.attempts[a] == Attempt(addr, Stranded, [[s]])
    ensures Apply(st, Abort(a)) ==
            st.(connecting := st.connecting - {addr}, pending := [Drop(q, Endpoints([s]))], attempts := st.attempts - {a})
  {
    hide Drop;
    assert Offer([[s]]) == [Endpoints([s])];
    assert DropAll([q], [Endpoints([s])]) == [Drop(q, Endpoints([s]))];
  }

  lemma TakeOnly(s: Session, t: Session)
    requires s.local.qpn == t.local.qpn
    ensures Pop([t], Endpoints([s])) == Popped([t], [], true)
    ensures Drop([t], Endpoints([s])) == []
    ensures Pop([], Endpoints([s])) == Popped([], [], false)
  {
    var eps := Endpoints([s]);
    assert eps[..0] == [] && |eps| == 1 && eps[0] == s.local;
    assert Take([t], s.local.qpn) == Taken(Some(t), []);
    assert [] + [t] == [t];
  }

  lemma PopOne(q: Queue, eps: seq<Endpoint>)
    ensures var one := Pop(q, eps); PopAll([q], [eps]) == PoppedAll([one.sessions], [one.rest], one.ok)
  {
    hide Pop;
    assert [eps][..0] == [] && PopAll([q], []) == PoppedAll([], [q], true);
    assert [q][0 := Pop(q, eps).rest] == [Pop(q, eps).rest];
  }

  const FIRST := Session(0, Endpoint(0, 0, 7, 0))
  const SECOND := Session(1, Endpoint(0, 0, 7, 0))

  /** The first peer's completion fails: its queue pair is gone, its metadata still held. */
  ghost function AfterFailure(): State {
    Apply(Apply(Apply(Apply(Start(1, 1), Begin("a")), Prepare(0, [[FIRST]])), Join(0, PEER)), Strand(0))
  }

  /** The hardware hands the number out again, to a second peer's queue pair. */
  ghost function AfterReuse(): State {
    Apply(Apply(AfterFailure(), Begin("b")), Prepare(1, [[SECOND]]))
  }

  ghost function AfterAbort(): State { Apply(Apply(AfterReuse(), Abort(0)), Join(1, PEER)) }

  lemma FailureState()
    ensures AfterFailure() == State(1, 1, [[]], map[], {"a"}, map[0 := Attempt("a", Stranded, [[FIRST]])], 1, 1)
  {
    hide Apply;
    var st := Start(1, 1);
    assert st.pending == [[]];
    BeginOn(st, "a");
    var one := Apply(st, Begin("a"));
    PrepareOn(one, 0, "a", [], FIRST);
    assert [] + [FIRST] == [FIRST];
    var two := Apply(one, Prepare(0, [[FIRST]]));
    JoinOn(two, 0, "a", [FIRST], FIRST);
    TakeOnly(FIRST, FIRST);
    var three := Apply(two, Join(0, PEER));
    StrandOn(three, 0);
    assert {} + {"a"} == {"a"};
  }

  lemma StrandOn(st: State, a: nat)
    requires a in st.attempts && st.attempts[a].phase.Joining?
    ensures Apply(st, Strand(a)) == st.(attempts := st.attempts[a := st.attempts[a].(phase := Stranded)])
  {
  }

  lemma ReuseState()
    ensures AfterReuse() == State(1, 1, [[SECOND]], map[], {"a", "b"},
                                  map[0 := Attempt("a", Stranded, [[FIRST]]), 1 := Attempt("b", Offered, [[SECOND]])], 2, 2)
  {
    hide Apply, AfterFailure;
    FailureState();
    BeginOn(AfterFailure(), "b");
    var one := Apply(AfterFailure(), Begin("b"));
    PrepareOn(one, 1, "b", [], SECOND);
    assert [] + [SECOND] == [SECOND];
  }

  /** The numbers of live queue pairs never clash, yet aborting the first peer's handshake takes away
      the second peer's session, and the second peer's completion fails. */
  lemma ReusedNumberLosesSession()
    ensures !LiveNumber(AfterFailure(), 0, 7) && !FreshNumbers(Apply(AfterFailure(), Begin("b")), [[SECOND]])
    ensures 1 in AfterAbort().attempts && AfterAbort().attempts[1].phase.Stranded? && AfterAbort().pending == [[]]
  {
    hide Apply, AfterFailure, AfterReuse, Pop, Drop;
    FailureState();
    ReuseState();
    BeginOn(AfterFailure(), "b");
    NumberStillOut(Apply(AfterFailure(), Begin("b")));
    AbortOn(AfterReuse(), 0, "a", [SECOND], FIRST);
    TakeOnly(FIRST, SECOND);
    var aborted := Apply(AfterReuse(), Abort(0));
    JoinOn(aborted, 1, "b", [], SECOND);
    TakeOnly(SECOND, SECOND);
  }

  lemma NumberStillOut(st: State)
    requires 0 in st.attempts && st.attempts[0].made == [[FIRST]]
    ensures !FreshNumbers(st, [[SECOND]])
  {
    assert Made(st.attempts[0], 0, FIRST);
    assert [[SECOND]][0][0].local.qpn == FIRST.local.qpn;
  }
}
