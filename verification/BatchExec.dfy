/** One session's batch: post work requests in chains within a window, retire them as they complete. */
module BatchExec {
  import opened Types
  import opened RdmaTypes

  const CHAIN: nat := 4
  const WINDOW: nat := 128

  /** No vector holds more elements than this. */
  const MAX_OPS: nat := 0x7FFF_FFFF_FFFF_FFFF

  /** The loop's variables, and the ids retired so far. An op is its length in bytes. */
  datatype Batch = Batch(next: nat, id: nat, inflight: map<nat, nat>, transferred: nat, retired: seq<nat>)

  const START := Batch(0, 1, map[], 0, [])

  /** What the batch sees of the world: a chain accepted, or a completion with an id and a status. */
  datatype Event = Posted | Reported(id: nat, ok: bool)

  predicate CanPost(b: Batch, n: nat) { b.next < n && |b.inflight| < WINDOW }

  function ChainLen(b: Batch, n: nat): (c: nat)
    requires CanPost(b, n)
    ensures 0 < c && b.next + c <= n && |b.inflight| + c <= WINDOW && c <= CHAIN
    ensures c == CHAIN || b.next + c == n || |b.inflight| + c == WINDOW
  {
    var available, remaining := WINDOW - |b.inflight|, n - b.next;
    var c := if CHAIN < available then CHAIN else available;
    if c < remaining then c else remaining
  }

  /** Ids wrap around at 64 bits. */
  function NextId(id: nat): nat { (id + 1) % TWO64 }

  function PostOne(b: Batch, len: nat): Batch {
    b.(next := b.next + 1, id := NextId(b.id), inflight := b.inflight[b.id := len])
  }

  function PostMany(b: Batch, ops: seq<nat>, c: nat): Batch
    requires b.next + c <= |ops|
  {
    if c == 0 then b else
      var rest := PostMany(b, ops, c - 1);
      PostOne(rest, if rest.next < |ops| then ops[rest.next] else 0)
  }

  function Retire(b: Batch, id: nat): Batch {
    if id !in b.inflight then b
    else b.(inflight := b.inflight - {id},
            transferred := SaturatingAdd(b.transferred, b.inflight[id]),
            retired := b.retired + [id])
  }

  /** A failed completion of a request in flight ends the batch; it changes nothing here. */
  function Apply(b: Batch, ops: seq<nat>, e: Event): Batch {
    match e
    case Posted => if CanPost(b, |ops|) then PostMany(b, ops, ChainLen(b, |ops|)) else b
    case Reported(id, ok) => if ok then Retire(b, id) else b
  }

  function Exec(ops: seq<nat>, events: seq<Event>): Batch {
    if events == [] then START else Apply(Exec(ops, events[..|events| - 1]), ops, events[|events| - 1])
  }

  predicate Finished(b: Batch, ops: seq<nat>) { b.next >= |ops| && b.inflight == map[] }

  // ---------------------------------------------------------------------
  // The invariant

  /** Bytes of the first `k` ops, leaving out those still in flight. */
  function Retired(ops: seq<nat>, inflight: set<nat>, k: nat): nat
    requires k <= |ops|
  {
    if k == 0 then 0 else Retired(ops, inflight, k - 1) + (if k in inflight then 0 else ops[k - 1])
  }

  function Sum(ops: seq<nat>): nat {
    if ops == [] then 0 else Sum(ops[..|ops| - 1]) + ops[|ops| - 1]
  }

  function Capped(n: nat): nat { if n > U64_MAX then U64_MAX else n }

  ghost predicate Distinct(s: seq<nat>) {
    forall i, j | 0 <= i < j < |s| :: s[i] != s[j]
  }

  ghost predicate Window(b: Batch, ops: seq<nat>) {
    && b.next <= |ops| && b.id == b.next + 1 && |b.inflight| <= WINDOW
    && (forall i | i in b.inflight :: 1 <= i <= b.next && b.inflight[i] == ops[i - 1])
  }

  ghost predicate Once(b: Batch) {
    && Distinct(b.retired)
    && (forall i :: i in b.retired <==> 1 <= i <= b.next && i !in b.inflight)
  }

  ghost predicate Accounted(b: Batch, ops: seq<nat>) {
    b.next <= |ops| && b.transferred == Capped(Retired(ops, b.inflight.Keys, b.next))
  }

  ghost predicate Inv(b: Batch, ops: seq<nat>) {
    Window(b, ops) && Once(b) && Accounted(b, ops)
  }

  lemma {:induction false} RetiredSame(ops: seq<nat>, s: set<nat>, t: set<nat>, k: nat)
    requires k <= |ops| && forall i | 1 <= i <= k :: i in s <==> i in t
    ensures Retired(ops, s, k) == Retired(ops, t, k)
  {
    if k > 0 { RetiredSame(ops, s, t, k - 1); }
  }

  lemma {:induction false} RetiredOne(ops: seq<nat>, s: set<nat>, id: nat, k: nat)
    requires 1 <= id <= k <= |ops| && id in s
    ensures Retired(ops, s - {id}, k) == Retired(ops, s, k) + ops[id - 1]
  {
    if id == k {
      RetiredSame(ops, s - {id}, s, k - 1);
    } else {
      RetiredOne(ops, s, id, k - 1);
    }
  }

  lemma {:induction false} RetiredAll(ops: seq<nat>, k: nat)
    requires k <= |ops|
    ensures Retired(ops, {}, k) == Sum(ops[..k])
  {
    if k > 0 {
      RetiredAll(ops, k - 1);
      assert ops[..k][..k - 1] == ops[..k - 1];
    }
  }

  lemma PostOneInv(b: Batch, ops: seq<nat>)
    requires Inv(b, ops) && b.next < |ops| <= MAX_OPS && |b.inflight| < WINDOW
    ensures Inv(PostOne(b, ops[b.next]), ops) && |PostOne(b, ops[b.next]).inflight| == |b.inflight| + 1
  {
    PostOneWindow(b, ops);
    PostOneOnce(b, ops);
    PostOneAccounted(b, ops);
  }

  lemma NextIdBelow(id: nat)
    ensures id <= MAX_OPS ==> NextId(id) == id + 1
  {
  }

  lemma PostOneWindow(b: Batch, ops: seq<nat>)
    requires Window(b, ops) && b.next < |ops| <= MAX_OPS && |b.inflight| < WINDOW
    ensures Window(PostOne(b, ops[b.next]), ops) && |PostOne(b, ops[b.next]).inflight| == |b.inflight| + 1
  {
    hide NextId;
    NextIdBelow(b.id);
    var q := PostOne(b, ops[b.next]);
    assert b.id !in b.inflight;
    assert q.inflight.Keys == b.inflight.Keys + {b.id} && |q.inflight| == |q.inflight.Keys|;
    assert |b.inflight| == |b.inflight.Keys|;
  }

  lemma PostOneOnce(b: Batch, ops: seq<nat>)
    requires Window(b, ops) && Once(b) && b.next < |ops|
    ensures Once(PostOne(b, ops[b.next]))
  {
    hide NextId;
  }

  lemma PostOneAccounted(b: Batch, ops: seq<nat>)
    requires Window(b, ops) && Accounted(b, ops) && b.next < |ops|
    ensures Accounted(PostOne(b, ops[b.next]), ops)
  {
    hide NextId;
    var q := PostOne(b, ops[b.next]);
    assert q.inflight.Keys == b.inflight.Keys + {b.id};
    RetiredSame(ops, b.inflight.Keys, q.inflight.Keys, b.next);
  }

  lemma {:induction false} PostManyInv(b: Batch, ops: seq<nat>, c: nat)
    requires Inv(b, ops) && b.next + c <= |ops| <= MAX_OPS && |b.inflight| + c <= WINDOW
    ensures var q := PostMany(b, ops, c);
            && Inv(q, ops) && |q.inflight| == |b.inflight| + c && q.next == b.next + c
            && q.retired == b.retired
            && (forall i | b.next < i <= b.next + c :: i in q.inflight)
  {
    hide Inv;
    if c > 0 {
      PostManyInv(b, ops, c - 1);
      var rest := PostMany(b, ops, c - 1);
      PostOneInv(rest, ops);
      assert rest.id == rest.next + 1 by { WindowId(rest, ops); }
    }
  }

  lemma WindowId(b: Batch, ops: seq<nat>)
    requires Inv(b, ops)
    ensures b.id == b.next + 1
  {
  }

  lemma RetireInv(b: Batch, ops: seq<nat>, id: nat)
    requires Inv(b, ops)
    ensures Inv(Retire(b, id), ops)
  {
    if id in b.inflight {
      var q := Retire(b, id);
      assert q.inflight.Keys == b.inflight.Keys - {id} && |q.inflight| == |q.inflight.Keys|;
      RetiredOne(ops, b.inflight.Keys, id, b.next);
      assert id !in b.retired;
      forall i
        ensures i in q.retired <==> 1 <= i <= q.next && i !in q.inflight
      {
        assert i in q.retired <==> i in b.retired || i == id;
      }
    }
  }

  lemma ApplyInv(b: Batch, ops: seq<nat>, e: Event)
    requires Inv(b, ops) && |ops| <= MAX_OPS
    ensures Inv(Apply(b, ops, e), ops)
  {
    hide Inv;
    match e
    case Posted =>
      if CanPost(b, |ops|) { PostManyInv(b, ops, ChainLen(b, |ops|)); }
    case Reported(id, ok) => RetireInv(b, ops, id);
  }

  /** For any order of chains and completions, whatever ids they carry: requests go out in order and
      once, at most 128 are in flight, each is retired at most once, and the count is exact. */
  lemma {:induction false} RunInv(ops: seq<nat>, events: seq<Event>)
    requires |ops| <= MAX_OPS
    ensures Inv(Exec(ops, events), ops)
  {
    hide Inv;
    if events == [] {
      StartInv(ops);
    } else {
      RunInv(ops, events[..|events| - 1]);
      ApplyInv(Exec(ops, events[..|events| - 1]), ops, events[|events| - 1]);
    }
  }

  lemma StartInv(ops: seq<nat>)
    ensures Inv(START, ops)
  {
    assert START.inflight.Keys == {};
  }

  /** A batch that ends has retired every id from 1 to the number of ops, each once, and returns the
      saturated sum of all lengths. */
  lemma FinishedTotals(ops: seq<nat>, events: seq<Event>)
    requires |ops| <= MAX_OPS && Finished(Exec(ops, events), ops)
    ensures var b := Exec(ops, events);
            && b.transferred == Capped(Sum(ops)) && Distinct(b.retired)
            && forall i :: i in b.retired <==> 1 <= i <= |ops|
  {
    hide Exec;
    RunInv(ops, events);
    var b := Exec(ops, events);
    RetiredAll(ops, b.next);
    assert ops[..|ops|] == ops && b.inflight.Keys == {};
  }

  /** What is retired was reported as a success. */
  lemma {:induction false} RetiredWasReported(ops: seq<nat>, events: seq<Event>, id: nat)
    requires id in Exec(ops, events).retired
    ensures Reported(id, true) in events
  {
    if events != [] {
      var init, last := events[..|events| - 1], events[|events| - 1];
      var b := Exec(ops, init);
      if last.Posted? && CanPost(b, |ops|) { PostManyRetired(b, ops, ChainLen(b, |ops|)); }
      if id in b.retired {
        RetiredWasReported(ops, init, id);
      } else {
        assert last == Reported(id, true);
      }
    }
  }

  lemma {:induction false} PostManyRetired(b: Batch, ops: seq<nat>, c: nat)
    requires b.next + c <= |ops|
    ensures PostMany(b, ops, c).retired == b.retired
  {
    if c > 0 { PostManyRetired(b, ops, c - 1); }
  }

  // ---------------------------------------------------------------------
  // The loop

  datatype Completion = Completion(id: nat, ok: bool)

  datatype Poll = Empty | Found(completions: seq<Completion>) | Broken

  /** `Waiting`: the polls given here are used up and the loop would poll again. */
  datatype Answer = Ok(bytes: nat) | Err(error: TransferError) | Waiting

  /** The completions the batch has looked at, in order. */
  function Reports(events: seq<Event>): seq<Completion> {
    if events == [] then []
    else
      var last := events[|events| - 1];
      Reports(events[..|events| - 1]) + (if last.Reported? then [Completion(last.id, last.ok)] else [])
  }

  function Chains(events: seq<Event>): nat {
    if events == [] then 0
    else Chains(events[..|events| - 1]) + (if events[|events| - 1].Posted? then 1 else 0)
  }

  /** All that polling finds, in order. */
  function All(polls: seq<Poll>): seq<Completion> {
    if polls == [] then []
    else
      var last := polls[|polls| - 1];
      All(polls[..|polls| - 1]) + (if last.Found? then last.completions else [])
  }

  lemma EventSnoc(events: seq<Event>, e: Event)
    ensures Reports(events + [e]) == Reports(events) + (if e.Reported? then [Completion(e.id, e.ok)] else [])
    ensures Chains(events + [e]) == Chains(events) + (if e.Posted? then 1 else 0)
  {
    assert (events + [e])[..|events|] == events;
  }

  lemma {:induction false} AllPrefix(polls: seq<Poll>, p: nat)
    requires p <= |polls|
    ensures All(polls[..p]) <= All(polls)
    decreases |polls|
  {
    if p == |polls| {
      assert polls[..p] == polls;
    } else {
      AllPrefix(polls[..|polls| - 1], p);
      assert polls[..|polls| - 1][..p] == polls[..p];
    }
  }

  lemma AllNext(polls: seq<Poll>, p: nat)
    requires p < |polls|
    ensures All(polls[..p + 1]) == All(polls[..p]) + (if polls[p].Found? then polls[p].completions else [])
  {
    assert polls[..p + 1][..p] == polls[..p];
  }

  /** The first `k` ops fit the length field of a request. */
  ghost predicate Short(ops: seq<nat>, k: nat) {
    forall i | 0 <= i < k && i < |ops| :: ops[i] <= U32_MAX
  }

  ghost predicate ChainTooLong(ops: seq<nat>, from: nat, c: nat)
    requires from + c <= |ops|
  {
    exists i | from <= i < from + c :: ops[i] > U32_MAX
  }

  /** Build one chain; nothing of it goes out when an op is too long or the post is refused. */
  method PostChain(ops: seq<nat>, from: nat, c: nat, accepted: bool) returns (r: Outcome<nat>)
    requires from + c <= |ops|
    ensures r.Done? <==> c == 0 || (accepted && !ChainTooLong(ops, from, c))
    ensures r.Done? ==> r.value == c
    ensures r.Failed? ==> r.error == if ChainTooLong(ops, from, c) then InvalidArgument else Backend
  {
    if c == 0 {
      return Done(0);
    }
    for i := from to from + c
      invariant forall j | from <= j < i :: ops[j] <= U32_MAX
    {
      if ops[i] > U32_MAX {
        return Failed(InvalidArgument);
      }
    }
    r := if accepted then Done(c) else Failed(Backend);
  }

  lemma ExecSnoc(ops: seq<nat>, events: seq<Event>, e: Event)
    ensures Exec(ops, events + [e]) == Apply(Exec(ops, events), ops, e)
  {
    assert (events + [e])[..|events|] == events;
  }

  lemma {:induction false} PostManyStep(b: Batch, ops: seq<nat>, c: nat)
    requires b.next + c < |ops|
    ensures PostMany(b, ops, c).next == b.next + c
    ensures PostMany(b, ops, c + 1) == PostOne(PostMany(b, ops, c), ops[b.next + c])
  {
    if c > 0 { PostManyStep(b, ops, c - 1); }
  }

  /** Record the ops of an accepted chain, one id each. */
  method Record(b: Batch, ops: seq<nat>, c: nat) returns (q: Batch)
    requires b.next + c <= |ops|
    ensures q == PostMany(b, ops, c)
  {
    var id: nat, inflight: map<nat, nat>, i: nat := b.id, b.inflight, 0;
    while i < c
      invariant 0 <= i <= c
      invariant b.(next := b.next + i, id := id, inflight := inflight) == PostMany(b, ops, i)
    {
      PostManyStep(b, ops, i);
      inflight := inflight[id := ops[b.next + i]];
      id := NextId(id);
      i := i + 1;
    }
    q := b.(next := b.next + c, id := id, inflight := inflight);
  }

  ghost predicate Accepted(posts: nat -> bool, n: nat) {
    forall j | 0 <= j < n :: posts(j)
  }

  lemma ShortChain(ops: seq<nat>, from: nat, c: nat)
    requires from + c <= |ops| && Short(ops, from) && !ChainTooLong(ops, from, c)
    ensures Short(ops, from + c)
  {
  }

  // ---------------------------------------------------------------------
  // What comes next

  /** Exactly the completions of some number of polls have been looked at. */
  ghost predicate Boundary(polls: seq<Poll>, n: nat) {
    exists u: nat :: u <= |polls| && |All(polls[..u])| == n
  }

  /** The event that must follow: between polls, chains go out as long as any can, and a batch that is
      finished stops; otherwise the next completion found is looked at. */
  ghost predicate Due(ops: seq<nat>, polls: seq<Poll>, events: seq<Event>, e: Event) {
    var b, n := Exec(ops, events), |Reports(events)|;
    if Boundary(polls, n) && (Finished(b, ops) || CanPost(b, |ops|)) then !Finished(b, ops) && e == Posted
    else n < |All(polls)| && e == Reported(All(polls)[n].id, All(polls)[n].ok)
  }

  ghost predicate Paced(ops: seq<nat>, polls: seq<Poll>, events: seq<Event>) {
    forall j | 0 <= j < |events| :: Due(ops, polls, events[..j], events[j])
  }

  /** The event is a failed completion of a request that is in flight at its turn. */
  ghost predicate Fatal(ops: seq<nat>, events: seq<Event>, e: Event) {
    e.Reported? && !e.ok && e.id in Exec(ops, events).inflight
  }

  ghost predicate Clean(ops: seq<nat>, events: seq<Event>) {
    forall j | 0 <= j < |events| :: !Fatal(ops, events[..j], events[j])
  }

  /** Events in order, none of them fatal. */
  ghost predicate Proper(ops: seq<nat>, polls: seq<Poll>, events: seq<Event>) {
    Paced(ops, polls, events) && Clean(ops, events)
  }

  lemma ProperSnoc(ops: seq<nat>, polls: seq<Poll>, events: seq<Event>, e: Event)
    requires Proper(ops, polls, events) && Due(ops, polls, events, e) && !Fatal(ops, events, e)
    ensures Proper(ops, polls, events + [e])
  {
    hide Due, Fatal;
    var now := events + [e];
    forall j | 0 <= j < |now|
      ensures Due(ops, polls, now[..j], now[j]) && !Fatal(ops, now[..j], now[j])
    {
      if j < |events| { assert now[..j] == events[..j] && now[j] == events[j]; } else { assert now[..j] == events; }
    }
  }

  lemma {:induction false} AllGrows(polls: seq<Poll>, u: nat, v: nat)
    requires u <= v <= |polls|
    ensures |All(polls[..u])| <= |All(polls[..v])|
  {
    if u < v {
      AllGrows(polls, u, v - 1);
      AllNext(polls, v - 1);
    }
  }

  /** Completion `k` of poll `p`, among all; within a poll there is no boundary. */
  lemma InPoll(polls: seq<Poll>, p: nat, k: nat)
    requires p < |polls| && polls[p].Found? && k < |polls[p].completions|
    ensures var n := |All(polls[..p])| + k;
            n < |All(polls)| && All(polls)[n] == polls[p].completions[k] && (k > 0 ==> !Boundary(polls, n))
  {
    AllNext(polls, p);
    AllPrefix(polls, p + 1);
    var n := |All(polls[..p])| + k;
    assert All(polls[..p + 1])[n] == polls[p].completions[k];
    if k > 0 {
      forall u: nat | u <= |polls|
        ensures |All(polls[..u])| != n
      {
        if u <= p { AllGrows(polls, u, p); } else { AllGrows(polls, p + 1, u); }
      }
    }
  }

  lemma AtBoundary(polls: seq<Poll>, p: nat)
    requires p <= |polls|
    ensures Boundary(polls, |All(polls[..p])|)
  {
  }

  /** Post chains until the window is full or nothing is left. */
  method Fill(ops: seq<nat>, b0: Batch, posts: nat -> bool, k0: nat, seen: seq<Event>, ghost polls: seq<Poll>)
    returns (b: Batch, k: nat, events: seq<Event>, error: Option<TransferError>)
    requires |ops| <= MAX_OPS && Inv(b0, ops) && b0 == Exec(ops, seen)
    requires k0 == Chains(seen) && Accepted(posts, k0) && Short(ops, b0.next)
    requires Proper(ops, polls, seen) && Boundary(polls, |Reports(seen)|)
    ensures Inv(b, ops) && b == Exec(ops, events) && Reports(events) == Reports(seen) && Proper(ops, polls, events)
    ensures Accepted(posts, Chains(events)) && Short(ops, b.next) && b.next <= |ops|
    ensures error.None? ==> k == Chains(events) && !CanPost(b, |ops|) && (Finished(b0, ops) || b.inflight != map[])
    ensures error.Some? ==> CanPost(b, |ops|)
    ensures error.Some? ==> error.value == InvalidArgument || (error.value == Backend && !posts(Chains(events)))
    ensures error.Some? ==> (error.value == InvalidArgument <==> ChainTooLong(ops, b.next, ChainLen(b, |ops|)))
  {
    hide Inv, PostMany, Exec, Reports, Chains, Short, ChainTooLong, Proper, Boundary;
    b, k, events, error := b0, k0, seen, None;
    while b.next < |ops| && |b.inflight| < WINDOW
      invariant Inv(b, ops) && b == Exec(ops, events) && Reports(events) == Reports(seen) && Proper(ops, polls, events)
      invariant k == Chains(events) && Accepted(posts, k) && Short(ops, b.next)
      invariant b == b0 || 0 < |b.inflight|
      decreases |ops| - b.next
    {
      var available, remaining := WINDOW - |b.inflight|, |ops| - b.next;
      var c := if CHAIN < available then CHAIN else available;
      c := if c < remaining then c else remaining;
      assert c == ChainLen(b, |ops|);
      var posted := PostChain(ops, b.next, c, posts(k));
      if posted.Failed? {
        WindowNext(b, ops);
        error := Some(posted.error);
        return;
      }
      k := k + 1;
      assert Due(ops, polls, events, Posted) && !Fatal(ops, events, Posted);
      ProperSnoc(ops, polls, events, Posted);
      ExecSnoc(ops, events, Posted);
      EventSnoc(events, Posted);
      PostManyInv(b, ops, c);
      ShortChain(ops, b.next, c);
      b := Record(b, ops, posted.value);
      events := events + [Posted];
    }
    WindowNext(b, ops);
  }

  lemma WindowNext(b: Batch, ops: seq<nat>)
    requires Inv(b, ops)
    ensures b.next <= |ops|
  {
  }

  /** The next completion of poll `p` is due. */
  lemma ReportDue(ops: seq<nat>, polls: seq<Poll>, events: seq<Event>, p: nat, k: nat)
    requires p < |polls| && polls[p].Found? && k < |polls[p].completions|
    requires Reports(events) == All(polls[..p]) + polls[p].completions[..k]
    requires k == 0 ==> !CanPost(Exec(ops, events), |ops|) && !Finished(Exec(ops, events), ops)
    ensures Due(ops, polls, events, Reported(polls[p].completions[k].id, polls[p].completions[k].ok))
  {
    hide Exec, Reports, All, Boundary;
    InPoll(polls, p, k);
  }

  /** Retire what one poll found; stop at a failed completion of a request in flight. */
  method Drain(ops: seq<nat>, b0: Batch, cs: seq<Completion>, seen: seq<Event>, ghost polls: seq<Poll>, ghost p: nat)
    returns (b: Batch, events: seq<Event>, used: nat)
    requires |ops| <= MAX_OPS && Inv(b0, ops) && b0 == Exec(ops, seen)
    requires p < |polls| && polls[p] == Found(cs) && Reports(seen) == All(polls[..p]) && Proper(ops, polls, seen)
    requires !CanPost(b0, |ops|) && !Finished(b0, ops)
    ensures Inv(b, ops) && b == Exec(ops, events) && b.next == b0.next && Chains(events) == Chains(seen)
    ensures used <= |cs| && Reports(events) == Reports(seen) + cs[..used] && Proper(ops, polls, events)
    ensures used < |cs| ==> !cs[used].ok && cs[used].id in b.inflight
    ensures used == 0 ==> b == b0
  {
    hide Inv, Exec, Reports, Chains, Proper, All;
    b, events, used := b0, seen, 0;
    while used < |cs|
      invariant Inv(b, ops) && b == Exec(ops, events) && b.next == b0.next && Chains(events) == Chains(seen)
      invariant 0 <= used <= |cs| && Reports(events) == Reports(seen) + cs[..used] && Proper(ops, polls, events)
      invariant used == 0 ==> b == b0
    {
      var wc := cs[used];
      ReportDue(ops, polls, events, p, used);
      ExecSnoc(ops, events, Reported(wc.id, wc.ok));
      EventSnoc(events, Reported(wc.id, wc.ok));
      assert cs[..used + 1] == cs[..used] + [wc];
      if wc.id in b.inflight {
        if !wc.ok {
          return;
        }
        RetireInv(b, ops, wc.id);
        b := b.(inflight := b.inflight - {wc.id},
                transferred := SaturatingAdd(b.transferred, b.inflight[wc.id]),
                retired := b.retired + [wc.id]);
      }
      ProperSnoc(ops, polls, events, Reported(wc.id, wc.ok));
      events := events + [Reported(wc.id, wc.ok)];
      used := used + 1;
    }
  }

  /** After `used` whole polls and the first `k` completions of the next one. */
  ghost predicate Seen(polls: seq<Poll>, events: seq<Event>, used: nat, k: nat) {
    && used <= |polls| && Broken !in polls[..used]
    && (k > 0 ==> used < |polls| && polls[used].Found? && k <= |polls[used].completions|)
    && Reports(events) == All(polls[..used]) + (if k > 0 then polls[used].completions[..k] else [])
  }

  /** A chain that cannot be built: an op does not fit a request. */
  ghost predicate Unbuildable(ops: seq<nat>, b: Batch) {
    CanPost(b, |ops|) && ChainTooLong(ops, b.next, ChainLen(b, |ops|))
  }

  /** The first thing that went wrong, of the kinds that answer Backend: a chain refused, a broken queue, or
      a failed completion of a request in flight. */
  ghost predicate BackendFault(ops: seq<nat>, posts: nat -> bool, polls: seq<Poll>, b: Batch, events: seq<Event>, used: nat) {
    || (Seen(polls, events, used, 0) && CanPost(b, |ops|) && !Unbuildable(ops, b) && !posts(Chains(events)))
    || (!CanPost(b, |ops|) && !Finished(b, ops) && Seen(polls, events, used, 0) && used < |polls| && polls[used].Broken?)
    || (exists k: nat :: FailedNext(ops, polls, b, events, used, k))
  }

  ghost predicate FailedNext(ops: seq<nat>, polls: seq<Poll>, b: Batch, events: seq<Event>, used: nat, k: nat) {
    && Seen(polls, events, used, k) && used < |polls| && polls[used].Found? && k < |polls[used].completions|
    && (k == 0 ==> !CanPost(b, |ops|) && !Finished(b, ops))
    && !polls[used].completions[k].ok && polls[used].completions[k].id in b.inflight
  }

  /** How a batch ends. It has seen events in order, none of them fatal, over chains that were all accepted
      and short. Ok: finished. Waiting: the polls are used up and everything that can be posted has been. An
      error: the next thing to happen was an op too long, or one of the faults of the backend. */
  ghost predicate Ended(ops: seq<nat>, posts: nat -> bool, polls: seq<Poll>, out: Answer, b: Batch, events: seq<Event>,
                        used: nat) {
    && b == Exec(ops, events) && Inv(b, ops) && Proper(ops, polls, events)
    && Accepted(posts, Chains(events)) && Short(ops, b.next)
    && match out
       case Ok(bytes) => Seen(polls, events, used, 0) && Finished(b, ops) && bytes == Capped(Sum(ops))
       case Waiting => Seen(polls, events, used, 0) && used == |polls| && !Finished(b, ops) && !CanPost(b, |ops|)
       case Err(error) =>
         if error == InvalidArgument then Seen(polls, events, used, 0) && Unbuildable(ops, b)
         else error == Backend && BackendFault(ops, posts, polls, b, events, used)
  }

  /** The whole loop. `posts` says which chains the queue pair accepts, `polls` what polling finds. */
  method ExecuteBatch(ops: seq<nat>, posts: nat -> bool, polls: seq<Poll>)
    returns (out: Answer, b: Batch, events: seq<Event>, used: nat)
    requires |ops| <= MAX_OPS
    ensures Ended(ops, posts, polls, out, b, events, used)
    ensures out.Ok? ==> Short(ops, |ops|) && forall i | 1 <= i <= |ops| :: Reported(i, true) in events
    ensures ops == [] ==> out == Answer.Ok(0)
  {
    hide Inv, Exec, Reports, All, Chains, Short, Proper, ChainTooLong, Boundary;
    StartInv(ops);
    b, events, used := START, [], 0;
    NoEvents(ops);
    NothingSeen(ops, polls);
    if |ops| == 0 {
      out := Answer.Ok(0);
      Totals(ops, events);
      return;
    }
    var k := 0;
    while b.next < |ops| || b.inflight != map[]
      invariant Inv(b, ops) && b == Exec(ops, events) && Proper(ops, polls, events) && Seen(polls, events, used, 0)
      invariant k == Chains(events) && Accepted(posts, k) && Short(ops, b.next) && b.next <= |ops|
      decreases |polls| - used
    {
      AtBoundary(polls, used);
      var error;
      b, k, events, error := Fill(ops, b, posts, k, events, polls);
      if error.Some? {
        out := Answer.Err(error.value);
        return;
      }
      if used == |polls| {
        out := Waiting;
        return;
      }
      match polls[used] {
        case Found(cs) =>
          var n;
          b, events, n := Drain(ops, b, cs, events, polls, used);
          if n < |cs| {
            assert FailedNext(ops, polls, b, events, used, n);
            out := Answer.Err(Backend);
            return;
          }
          assert cs[..n] == cs;
        case Empty =>
        case Broken =>
          out := Answer.Err(Backend);
          return;
      }
      NextPoll(polls, events, used);
      used := used + 1;
    }
    Totals(ops, events);
    out := Answer.Ok(b.transferred);
  }

  lemma NextPoll(polls: seq<Poll>, events: seq<Event>, p: nat)
    requires p < |polls| && !polls[p].Broken? && Broken !in polls[..p]
    requires Reports(events) == All(polls[..p]) + (if polls[p].Found? then polls[p].completions else [])
    ensures Seen(polls, events, p + 1, 0)
  {
    hide All, Reports;
    AllNext(polls, p);
    assert polls[..p + 1] == polls[..p] + [polls[p]];
  }

  lemma NothingSeen(ops: seq<nat>, polls: seq<Poll>)
    ensures Proper(ops, polls, []) && Seen(polls, [], 0, 0)
  {
    assert polls[..0] == [];
  }

  lemma NoEvents(ops: seq<nat>)
    ensures Exec(ops, []) == START && Reports([]) == [] && Chains([]) == 0 && All([]) == [] && Short(ops, 0)
    ensures ops == [] ==> Short(ops, |ops|)
  {
  }

  lemma Totals(ops: seq<nat>, events: seq<Event>)
    requires |ops| <= MAX_OPS && Finished(Exec(ops, events), ops)
    ensures Exec(ops, events).transferred == Capped(Sum(ops))
    ensures forall i | 1 <= i <= |ops| :: Reported(i, true) in events
  {
    hide Exec;
    FinishedTotals(ops, events);
    forall i: nat | 1 <= i <= |ops|
      ensures Reported(i, true) in events
    {
      RetiredWasReported(ops, events, i);
    }
  }
}
