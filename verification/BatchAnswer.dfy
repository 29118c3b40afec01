/** For given posts and polls there is one way a batch can end. */
module BatchAnswer {
  import opened RdmaTypes
  import opened BatchExec

  /** One way to end: the answer, and what had happened by then. */
  datatype Ending = Ending(out: Answer, b: Batch, events: seq<Event>, used: nat)

  ghost predicate Ends(ops: seq<nat>, posts: nat -> bool, polls: seq<Poll>, e: Ending) {
    Ended(ops, posts, polls, e.out, e.b, e.events, e.used)
  }

  // ---------------------------------------------------------------------
  // Events come in one order

  lemma DueOnce(ops: seq<nat>, polls: seq<Poll>, events: seq<Event>, d: Event, e: Event)
    requires Due(ops, polls, events, d) && Due(ops, polls, events, e)
    ensures d == e
  {
  }

  lemma {:induction false} SamePrefix(ops: seq<nat>, polls: seq<Poll>, a: seq<Event>, b: seq<Event>, n: nat)
    requires Paced(ops, polls, a) && Paced(ops, polls, b) && n <= |a| && n <= |b|
    ensures a[..n] == b[..n]
  {
    hide Due;
    if n > 0 {
      SamePrefix(ops, polls, a, b, n - 1);
      DueOnce(ops, polls, a[..n - 1], a[n - 1], b[n - 1]);
      assert a[..n] == a[..n - 1] + [a[n - 1]] && b[..n] == b[..n - 1] + [b[n - 1]];
    }
  }

  // ---------------------------------------------------------------------
  // Monotone counts

  lemma {:induction false} ReportsGrow(a: seq<Event>, n: nat)
    requires n <= |a|
    ensures Reports(a[..n]) <= Reports(a) && Chains(a[..n]) <= Chains(a)
  {
    if n < |a| {
      ReportsGrow(a[..|a| - 1], n);
      assert a[..|a| - 1][..n] == a[..n];
    } else {
      assert a[..n] == a;
    }
  }

  lemma NextGrows(b: Batch, ops: seq<nat>, e: Event)
    requires b.next <= |ops|
    ensures b.next <= Apply(b, ops, e).next <= |ops|
    ensures e == Posted && CanPost(b, |ops|) ==> Apply(b, ops, e).next == b.next + ChainLen(b, |ops|)
  {
    if e == Posted && CanPost(b, |ops|) {
      PostManyNext(b, ops, ChainLen(b, |ops|));
    }
  }

  lemma {:induction false} PostManyNext(b: Batch, ops: seq<nat>, c: nat)
    requires b.next + c <= |ops|
    ensures PostMany(b, ops, c).next == b.next + c
  {
    if c > 0 { PostManyNext(b, ops, c - 1); }
  }

  lemma {:induction false} ExecGrows(ops: seq<nat>, a: seq<Event>, n: nat)
    requires n <= |a|
    ensures Exec(ops, a[..n]).next <= Exec(ops, a).next <= |ops|
  {
    hide Apply;
    if a == [] {
      assert a[..n] == a;
    } else {
      var init, last := a[..|a| - 1], a[|a| - 1];
      ExecGrows(ops, init, if n < |a| then n else |init|);
      NextGrows(Exec(ops, init), ops, last);
      if n < |a| { assert init[..n] == a[..n]; } else { assert a[..n] == a && init[..|init|] == init; }
    }
  }

  // ---------------------------------------------------------------------
  // Nothing happens after an ending

  /** Event `n` of the longer run, given that the shorter one ended there. */
  lemma DueAfter(ops: seq<nat>, polls: seq<Poll>, a: seq<Event>, b: seq<Event>)
    requires Proper(ops, polls, b) && |a| < |b| && a == b[..|a|]
    ensures Due(ops, polls, a, b[|a|]) && !Fatal(ops, a, b[|a|])
  {
    hide Due, Fatal;
    assert Due(ops, polls, b[..|a|], b[|a|]) && !Fatal(ops, b[..|a|], b[|a|]);
  }

  lemma SeenAll(polls: seq<Poll>, events: seq<Event>, used: nat)
    requires Seen(polls, events, used, 0)
    ensures Reports(events) == All(polls[..used]) && Boundary(polls, |Reports(events)|)
  {
    hide All, Reports, Boundary;
    AtBoundary(polls, used);
    assert All(polls[..used]) + [] == All(polls[..used]);
  }

  lemma OkStops(ops: seq<nat>, polls: seq<Poll>, a: seq<Event>, used: nat, e: Event)
    requires Seen(polls, a, used, 0) && Finished(Exec(ops, a), ops)
    ensures !Due(ops, polls, a, e)
  {
    hide Exec, Reports, All, Seen;
    SeenAll(polls, a, used);
  }

  lemma WaitingStops(ops: seq<nat>, polls: seq<Poll>, a: seq<Event>, e: Event)
    requires Seen(polls, a, |polls|, 0) && !CanPost(Exec(ops, a), |ops|) && !Finished(Exec(ops, a), ops)
    ensures !Due(ops, polls, a, e)
  {
    hide Exec, Reports, All, Seen;
    SeenAll(polls, a, |polls|);
    assert polls[..|polls|] == polls;
  }

  lemma PostsNext(ops: seq<nat>, polls: seq<Poll>, a: seq<Event>, used: nat, e: Event)
    requires Seen(polls, a, used, 0) && CanPost(Exec(ops, a), |ops|) && Due(ops, polls, a, e)
    ensures e == Posted
  {
    hide Exec, Reports, All, Seen;
    SeenAll(polls, a, used);
  }

  /** A longer run has posted the chain: it was accepted and short. */
  lemma PostedOn(ops: seq<nat>, a: seq<Event>, b: seq<Event>)
    requires |a| < |b| && a == b[..|a|] && b[|a|] == Posted && CanPost(Exec(ops, a), |ops|)
    ensures Chains(a) < Chains(b)
    ensures var p := Exec(ops, a); p.next + ChainLen(p, |ops|) <= Exec(ops, b).next
  {
    hide Apply;
    var more := b[..|a| + 1];
    assert more == a + [Posted];
    EventSnoc(a, Posted);
    ReportsGrow(b, |a| + 1);
    ExecSnoc(ops, a, Posted);
    ExecGrows(ops, a, |a|);
    NextGrows(Exec(ops, a), ops, Posted);
    ExecGrows(ops, b, |a| + 1);
  }

  lemma ShortMeansBuildable(ops: seq<nat>, p: Batch, m: nat)
    requires CanPost(p, |ops|) && p.next + ChainLen(p, |ops|) <= m <= |ops| && Short(ops, m)
    ensures !Unbuildable(ops, p)
  {
  }

  lemma NotPastBroken(polls: seq<Poll>, used: nat, m: nat)
    requires used < |polls| && polls[used].Broken? && m <= |polls|
    ensures Broken !in polls[..m] ==> m <= used
  {
    if used < m { assert polls[..m][used] == polls[used]; }
  }

  /** A run cannot get past a broken poll. */
  lemma BrokenStops(polls: seq<Poll>, a: seq<Event>, b: seq<Event>, used: nat, more: nat, k: nat)
    requires Seen(polls, a, used, 0) && used < |polls| && polls[used].Broken?
    requires Seen(polls, b, more, k) && Reports(a) <= Reports(b)
    ensures Reports(a) == Reports(b)
  {
    hide Reports, All;
    NotPastBroken(polls, used, more);
    AllGrows(polls, more, used);
    if k > 0 {
      AllGrows(polls, more + 1, used);
      AllNext(polls, more);
    }
  }

  /** How many completions of the next poll an ending has looked at. */
  lemma SeenSome(ops: seq<nat>, posts: nat -> bool, polls: seq<Poll>, e: Ending) returns (k: nat)
    requires Ends(ops, posts, polls, e)
    ensures Seen(polls, e.events, e.used, k)
  {
    hide Seen, Proper, Inv, Exec, Short, Unbuildable;
    k := 0;
    if !Seen(polls, e.events, e.used, 0) { k :| FailedNext(ops, polls, e.b, e.events, e.used, k); }
  }

  /** The completion after those seen is the next of its poll. */
  lemma NextReport(ops: seq<nat>, polls: seq<Poll>, a: seq<Event>, used: nat, k: nat, e: Event)
    requires FailedNext(ops, polls, Exec(ops, a), a, used, k) && Due(ops, polls, a, e)
    ensures Fatal(ops, a, e)
  {
    hide Exec, Reports, All, Boundary;
    InPoll(polls, used, k);
    var n := |All(polls[..used])| + k;
    assert |Reports(a)| == n;
    if k == 0 { AtBoundary(polls, used); }
  }

  lemma NoLonger(ops: seq<nat>, posts: nat -> bool, polls: seq<Poll>, x: Ending, y: Ending)
    requires Ends(ops, posts, polls, x) && Ends(ops, posts, polls, y)
    ensures !(|x.events| < |y.events| && x.events == y.events[..|x.events|])
  {
    hide Ends, Due, Proper;
    if |x.events| < |y.events| && x.events == y.events[..|x.events|] {
      EventsProper(ops, posts, polls, y);
      DueAfter(ops, polls, x.events, y.events);
      NothingDue(ops, posts, polls, x, y);
    }
  }

  lemma EventsProper(ops: seq<nat>, posts: nat -> bool, polls: seq<Poll>, e: Ending)
    requires Ends(ops, posts, polls, e)
    ensures Proper(ops, polls, e.events)
  {
    hide Exec, Inv, Proper, Seen, Short, Unbuildable, Accepted, Reports, Chains;
  }

  /** At an ending, what a longer run sees next is not due, or is fatal. */
  lemma NothingDue(ops: seq<nat>, posts: nat -> bool, polls: seq<Poll>, x: Ending, y: Ending)
    requires Ends(ops, posts, polls, x) && Ends(ops, posts, polls, y)
    requires |x.events| < |y.events| && x.events == y.events[..|x.events|]
    ensures var e := y.events[|x.events|]; !Due(ops, polls, x.events, e) || Fatal(ops, x.events, e)
  {
    hide Exec, Inv, Proper, Seen, Due, Fatal, Short, Unbuildable, Accepted, Reports, Chains;
    var e := y.events[|x.events|];
    if !Due(ops, polls, x.events, e) { return; }
    if x.out.Ok? {
      OkStops(ops, polls, x.events, x.used, e);
    } else if x.out.Waiting? {
      WaitingStops(ops, polls, x.events, e);
    } else if k: nat :| FailedNext(ops, polls, x.b, x.events, x.used, k) {
      NextReport(ops, polls, x.events, x.used, k, e);
    } else if CanPost(x.b, |ops|) {
      PostsNext(ops, polls, x.events, x.used, e);
      PostedOn(ops, x.events, y.events);
      ChainsAccepted(posts, Chains(x.events), Chains(y.events));
      ExecGrows(ops, y.events, |y.events|);
      ShortMeansBuildable(ops, x.b, y.b.next);
    } else {
      NotUnbuildable(ops, x.b);
      var k := SeenSome(ops, posts, polls, y);
      ReportsGrow(y.events, |x.events|);
      BrokenStops(polls, x.events, y.events, x.used, y.used, k);
      NotPosted(ops, polls, x.events, y.events);
    }
  }

  lemma ChainsAccepted(posts: nat -> bool, m: nat, n: nat)
    requires m < n && Accepted(posts, n)
    ensures posts(m)
  {
  }

  lemma NotUnbuildable(ops: seq<nat>, b: Batch)
    requires !CanPost(b, |ops|)
    ensures !Unbuildable(ops, b)
  {
  }

  /** When nothing can be posted the next event is a report. */
  lemma ReportsNext(ops: seq<nat>, polls: seq<Poll>, a: seq<Event>, e: Event)
    requires !CanPost(Exec(ops, a), |ops|) && !Finished(Exec(ops, a), ops) && Due(ops, polls, a, e)
    ensures e.Reported?
  {
    hide Exec, Reports, All, Boundary;
  }

  lemma NotPosted(ops: seq<nat>, polls: seq<Poll>, a: seq<Event>, b: seq<Event>)
    requires !CanPost(Exec(ops, a), |ops|) && |a| < |b| && a == b[..|a|] && Due(ops, polls, a, b[|a|])
    requires !Finished(Exec(ops, a), ops)
    ensures |Reports(a)| < |Reports(b)|
  {
    hide Exec, Reports, Due;
    ReportsNext(ops, polls, a, b[|a|]);
    assert b[..|a| + 1] == a + [b[|a|]];
    EventSnoc(a, b[|a|]);
    ReportsGrow(b, |a| + 1);
  }

  // ---------------------------------------------------------------------
  // The result

  lemma SameEvents(ops: seq<nat>, posts: nat -> bool, polls: seq<Poll>, x: Ending, y: Ending)
    requires Ends(ops, posts, polls, x) && Ends(ops, posts, polls, y)
    ensures x.events == y.events && x.b == y.b
  {
    hide Exec, Inv, Seen, Due, Clean, Short, BackendFault, Accepted, Reports, Chains, Unbuildable;
    var n := if |x.events| < |y.events| then |x.events| else |y.events|;
    SamePrefix(ops, polls, x.events, y.events, n);
    if |x.events| < |y.events| {
      assert x.events[..n] == x.events;
      NoLonger(ops, posts, polls, x, y);
    } else if |y.events| < |x.events| {
      assert y.events[..n] == y.events;
      NoLonger(ops, posts, polls, y, x);
    } else {
      assert x.events[..n] == x.events && y.events[..n] == y.events;
    }
  }

  /** Where the polls are used up neither a broken queue nor another completion is met. */
  lemma NotBothWays(polls: seq<Poll>, events: seq<Event>, used: nat, k: nat)
    requires Seen(polls, events, |polls|, 0) && Seen(polls, events, used, k) && used < |polls|
    ensures !polls[used].Broken?
    ensures polls[used].Found? ==> k >= |polls[used].completions|
  {
    hide Reports, All;
    assert polls[..|polls|] == polls && polls[used] in polls;
    if polls[used].Found? { WholePoll(polls, used, k); }
  }

  lemma WholePoll(polls: seq<Poll>, p: nat, k: nat)
    requires p < |polls| && polls[p].Found?
    ensures |All(polls[..p])| + k == |All(polls)| ==> k >= |polls[p].completions|
  {
    hide All;
    if k < |polls[p].completions| { InPoll(polls, p, k); }
  }

  lemma SameOut(ops: seq<nat>, posts: nat -> bool, polls: seq<Poll>, x: Ending, y: Ending)
    requires Ends(ops, posts, polls, x) && Ends(ops, posts, polls, y) && x.events == y.events && x.b == y.b
    requires x.out.Waiting?
    ensures y.out.Waiting?
  {
    hide Exec, Inv, Proper, Seen, Short, Accepted, Chains, Unbuildable;
    NotUnbuildable(ops, x.b);
    if k: nat :| FailedNext(ops, polls, y.b, y.events, y.used, k) {
      NotBothWays(polls, x.events, y.used, k);
    } else if y.out.Err? {
      NotBothWays(polls, x.events, y.used, 0);
    }
  }

  /** A chain that can go out and a failed completion are not met at the same point. */
  lemma LongOrFailed(ops: seq<nat>, polls: seq<Poll>, b: Batch, events: seq<Event>, used: nat, more: nat, k: nat)
    requires Seen(polls, events, used, 0) && CanPost(b, |ops|)
    ensures !FailedNext(ops, polls, b, events, more, k)
  {
    hide Reports, All, Boundary;
    SeenAll(polls, events, used);
    if more < |polls| && polls[more].Found? && 0 < k < |polls[more].completions| { InPoll(polls, more, k); }
  }

  lemma SameError(ops: seq<nat>, posts: nat -> bool, polls: seq<Poll>, x: Ending, y: Ending)
    requires Ends(ops, posts, polls, x) && Ends(ops, posts, polls, y) && x.events == y.events && x.b == y.b
    requires x.out == Answer.Err(InvalidArgument) && y.out.Err?
    ensures y.out == x.out
  {
    hide Exec, Inv, Proper, Seen, Short, Accepted, Chains, FailedNext;
    assert Unbuildable(ops, x.b) && CanPost(x.b, |ops|);
    forall k: nat ensures !FailedNext(ops, polls, y.b, y.events, y.used, k) {
      LongOrFailed(ops, polls, x.b, x.events, x.used, y.used, k);
    }
  }

  lemma OkOnly(ops: seq<nat>, posts: nat -> bool, polls: seq<Poll>, x: Ending, y: Ending)
    requires Ends(ops, posts, polls, x) && Ends(ops, posts, polls, y) && x.b == y.b && x.out.Ok?
    ensures y.out == x.out
  {
    hide Exec, Inv, Proper, Seen, Short, Accepted, Chains;
  }

  /** The contract of the loop leaves no choice: what is posted and polled decides the answer and the events
      up to it. In particular a failed completion of a request in flight, a broken queue, a refused chain
      or an op too long, when its turn comes, is answered, and nothing later is looked at. */
  lemma AnswerDetermined(ops: seq<nat>, posts: nat -> bool, polls: seq<Poll>, x: Ending, y: Ending)
    requires Ends(ops, posts, polls, x) && Ends(ops, posts, polls, y)
    ensures x.out == y.out && x.events == y.events && x.b == y.b
  {
    hide Ends;
    SameEvents(ops, posts, polls, x, y);
    if x.out.Ok? {
      OkOnly(ops, posts, polls, x, y);
    } else if y.out.Ok? {
      OkOnly(ops, posts, polls, y, x);
    } else if x.out.Waiting? {
      SameOut(ops, posts, polls, x, y);
    } else if y.out.Waiting? {
      SameOut(ops, posts, polls, y, x);
    } else {
      OneOfTwo(ops, posts, polls, x);
      OneOfTwo(ops, posts, polls, y);
      if x.out == Answer.Err(InvalidArgument) {
        SameError(ops, posts, polls, x, y);
      } else if y.out == Answer.Err(InvalidArgument) {
        SameError(ops, posts, polls, y, x);
      }
    }
  }

  lemma OneOfTwo(ops: seq<nat>, posts: nat -> bool, polls: seq<Poll>, x: Ending)
    requires Ends(ops, posts, polls, x) && x.out.Err?
    ensures x.out == Answer.Err(InvalidArgument) || x.out == Answer.Err(Backend)
  {
  }
}
