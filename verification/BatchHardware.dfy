/** What a batch's Ok says about the hardware, when ids restart at 1 in every batch of a session. */
module BatchHardware {
  import opened BatchExec

  /** A work request the queue pair still owes a completion for, and the number of the batch it is of. */
  datatype Wr = Wr(owner: nat, id: nat)

  /** `done` holds the ids of this batch's own requests that the hardware has completed successfully;
      `over` is set once the batch has answered with an error. */
  datatype World = World(number: nat, batch: Batch, outstanding: set<Wr>, done: set<nat>, over: bool)

  /** `Fail` is a refused post or a broken completion queue. */
  datatype Happening = Post | Deliver(wr: Wr, ok: bool) | Fail

  function Fresh(number: nat, lo: nat, hi: nat): (s: set<Wr>)
    ensures forall w :: w in s <==> w.owner == number && lo < w.id <= hi
  {
    set i: nat | lo < i <= hi :: Wr(number, i)
  }

  /** The next chain has an op that does not fit a request. */
  ghost predicate Unpostable(b: Batch, ops: seq<nat>) {
    CanPost(b, |ops|) && ChainTooLong(ops, b.next, ChainLen(b, |ops|))
  }

  ghost function Step(w: World, ops: seq<nat>, h: Happening): World {
    if w.over || Finished(w.batch, ops) then w
    else
      match h
      case Post =>
        if Unpostable(w.batch, ops) then w.(over := true)
        else
          var b := Apply(w.batch, ops, Posted);
          w.(batch := b, outstanding := w.outstanding + Fresh(w.number, w.batch.next, b.next))
      case Deliver(wr, ok) =>
        if wr !in w.outstanding then w
        else
          World(w.number, Apply(w.batch, ops, Reported(wr.id, ok)), w.outstanding - {wr},
                if wr.owner == w.number && ok then w.done + {wr.id} else w.done,
                !ok && wr.id in w.batch.inflight)
      case Fail => w.(over := true)
  }

  ghost function Run(w: World, ops: seq<nat>, hs: seq<Happening>): World
    decreases |hs|
  {
    if hs == [] then w else Run(Step(w, ops, hs[0]), ops, hs[1..])
  }

  /** Batch `number` on a queue pair that still owes `stale` from earlier ones. */
  function Begin(number: nat, stale: set<Wr>): World { World(number, START, stale, {}, false) }

  ghost predicate Ok(w: World, ops: seq<nat>) { Finished(w.batch, ops) && !w.over }

  /** If the batch would now answer Ok, the hardware has completed all of its requests. */
  ghost predicate Honest(w: World, ops: seq<nat>) {
    Ok(w, ops) ==> forall i: nat | 1 <= i <= |ops| :: i in w.done
  }

  ghost predicate Stale(s: set<Wr>, number: nat) { forall w | w in s :: w.owner < number }

  ghost predicate OutOfReach(s: set<Wr>, n: nat) { forall w | w in s :: !(1 <= w.id <= n) }

  // ---------------------------------------------------------------------
  // Nothing stale within reach: Ok means done

  ghost predicate Tracks(w: World, ops: seq<nat>) {
    && Inv(w.batch, ops)
    && (forall i | i in w.batch.retired :: i in w.done)
    && (forall x | x in w.outstanding && x.owner != w.number :: !(1 <= x.id <= |ops|))
  }

  lemma StepTracks(w: World, ops: seq<nat>, h: Happening)
    requires Tracks(w, ops) && |ops| <= MAX_OPS
    ensures Tracks(Step(w, ops, h), ops) && Step(w, ops, h).number == w.number
  {
    hide Inv, PostMany, ChainTooLong;
    match h
    case Post =>
      ApplyInv(w.batch, ops, Posted);
      if CanPost(w.batch, |ops|) { PostManyRetired(w.batch, ops, ChainLen(w.batch, |ops|)); }
    case Deliver(wr, ok) =>
      ApplyInv(w.batch, ops, Reported(wr.id, ok));
      InFlightIds(w.batch, ops, wr.id);
    case Fail =>
  }

  lemma InFlightIds(b: Batch, ops: seq<nat>, id: nat)
    requires Inv(b, ops)
    ensures id in b.inflight ==> 1 <= id <= |ops|
  {
  }

  lemma {:induction false} RunTracks(w: World, ops: seq<nat>, hs: seq<Happening>)
    requires Tracks(w, ops) && |ops| <= MAX_OPS
    ensures Tracks(Run(w, ops, hs), ops) && Run(w, ops, hs).number == w.number
    decreases |hs|
  {
    hide Tracks, Step;
    if hs != [] {
      StepTracks(w, ops, hs[0]);
      RunTracks(Step(w, ops, hs[0]), ops, hs[1..]);
    }
  }

  lemma TracksHonest(w: World, ops: seq<nat>)
    requires Tracks(w, ops)
    ensures Honest(w, ops)
  {
  }

  lemma BeginTracks(ops: seq<nat>, number: nat, stale: set<Wr>)
    requires Stale(stale, number) && OutOfReach(stale, |ops|)
    ensures Tracks(Begin(number, stale), ops)
  {
    StartInv(ops);
  }

  /** A batch with an op that does not fit a request never answers Ok. */
  ghost predicate OnlyShort(w: World, ops: seq<nat>) { Inv(w.batch, ops) && Short(ops, w.batch.next) }

  lemma StepShort(w: World, ops: seq<nat>, h: Happening)
    requires OnlyShort(w, ops) && |ops| <= MAX_OPS
    ensures OnlyShort(Step(w, ops, h), ops)
  {
    hide Inv, PostMany;
    match h
    case Post =>
      ApplyInv(w.batch, ops, Posted);
      if CanPost(w.batch, |ops|) {
        var c := ChainLen(w.batch, |ops|);
        PostManyInv(w.batch, ops, c);
        if !ChainTooLong(ops, w.batch.next, c) { ShortChain(ops, w.batch.next, c); }
      }
    case Deliver(wr, ok) => ApplyInv(w.batch, ops, Reported(wr.id, ok));
    case Fail =>
  }

  lemma {:induction false} RunShort(w: World, ops: seq<nat>, hs: seq<Happening>)
    requires OnlyShort(w, ops) && |ops| <= MAX_OPS
    ensures OnlyShort(Run(w, ops, hs), ops)
    decreases |hs|
  {
    hide OnlyShort, Step;
    if hs != [] {
      StepShort(w, ops, hs[0]);
      RunShort(Step(w, ops, hs[0]), ops, hs[1..]);
    }
  }

  // ---------------------------------------------------------------------
  // Something stale within reach: a schedule on which Ok is wrong

  /** Complete each request by its own completion, except `k` by the stale one. */
  function Pick(number: nat, i: nat, k: nat, owner: nat): Wr { Wr(if i != k then number else owner, i) }

  function Deliveries(number: nat, lo: nat, hi: nat, k: nat, owner: nat): seq<Happening>
    decreases hi - lo
  {
    if lo >= hi then [] else [Deliver(Pick(number, lo + 1, k, owner), true)] + Deliveries(number, lo + 1, hi, k, owner)
  }

  function Chunk(j: nat, n: nat): nat
    requires j <= n
  {
    if CHAIN < n - j then CHAIN else n - j
  }

  function Rounds(number: nat, j: nat, n: nat, k: nat, owner: nat): seq<Happening>
    decreases n - j
  {
    if j >= n then []
    else [Post] + Deliveries(number, j, j + Chunk(j, n), k, owner) + Rounds(number, j + Chunk(j, n), n, k, owner)
  }

  ghost predicate Misled(w: World, ops: seq<nat>, k: nat, owner: nat) {
    && Inv(w.batch, ops) && !w.over && k !in w.done && owner != w.number
    && (w.batch.next < k ==> Wr(owner, k) in w.outstanding)
  }

  lemma {:induction false} RunAppend(w: World, ops: seq<nat>, a: seq<Happening>, b: seq<Happening>)
    ensures Run(w, ops, a + b) == Run(Run(w, ops, a), ops, b)
    decreases |a|
  {
    hide Step;
    if a == [] {
      assert a + b == b;
    } else {
      RunAppend(Step(w, ops, a[0]), ops, a[1..], b);
      assert (a + b)[1..] == a[1..] + b;
    }
  }

  /** In flight are exactly the ids above `lo`, and each can be completed as the schedule wants. */
  ghost predicate Ready(w: World, lo: nat, k: nat, owner: nat) {
    && (forall i :: i in w.batch.inflight <==> lo < i <= w.batch.next)
    && (forall i: nat | lo < i <= w.batch.next :: Pick(w.number, i, k, owner) in w.outstanding)
  }

  lemma DeliverOne(w: World, ops: seq<nat>, wr: Wr)
    requires Inv(w.batch, ops) && !w.over && wr in w.outstanding && wr.id in w.batch.inflight
    ensures var now := Step(w, ops, Deliver(wr, true));
            && Inv(now.batch, ops) && !now.over && now.number == w.number && now.batch.next == w.batch.next
            && now.outstanding == w.outstanding - {wr}
            && now.done == (if wr.owner == w.number then w.done + {wr.id} else w.done)
            && now.batch.inflight.Keys == w.batch.inflight.Keys - {wr.id}
  {
    hide Inv;
    RetireInv(w.batch, ops, wr.id);
    assert w.batch.inflight != map[];
  }

  lemma {:induction false} DeliverAll(w: World, ops: seq<nat>, lo: nat, k: nat, owner: nat)
    requires Inv(w.batch, ops) && !w.over && k !in w.done && Ready(w, lo, k, owner) && lo <= w.batch.next
    requires owner != w.number
    ensures var now := Run(w, ops, Deliveries(w.number, lo, w.batch.next, k, owner));
            && Inv(now.batch, ops) && !now.over && k !in now.done && now.batch.next == w.batch.next
            && now.number == w.number && now.batch.inflight == map[]
            && (Wr(owner, k) in w.outstanding && w.batch.next < k ==> Wr(owner, k) in now.outstanding)
    decreases w.batch.next - lo
  {
    hide Inv, Step;
    if lo < w.batch.next {
      var h := Deliver(Pick(w.number, lo + 1, k, owner), true);
      var next := Step(w, ops, h);
      DeliverOne(w, ops, h.wr);
      DeliverAll(next, ops, lo + 1, k, owner);
      var hs := Deliveries(w.number, lo, w.batch.next, k, owner);
      assert hs[0] == h && hs[1..] == Deliveries(w.number, lo + 1, w.batch.next, k, owner);
    } else {
      assert w.batch.inflight.Keys == {};
    }
  }

  lemma ShortPosts(b: Batch, ops: seq<nat>)
    requires Short(ops, |ops|)
    ensures !Unpostable(b, ops)
  {
  }

  lemma PostRound(w: World, ops: seq<nat>)
    requires Inv(w.batch, ops) && !w.over && Short(ops, |ops|)
    requires w.batch.next < |ops| <= MAX_OPS && w.batch.inflight == map[]
    ensures var j, now := w.batch.next, Step(w, ops, Post);
            && Inv(now.batch, ops) && !now.over && now.done == w.done && now.batch.next == j + Chunk(j, |ops|)
            && now.number == w.number
            && (forall i :: i in now.batch.inflight <==> j < i <= now.batch.next)
            && now.outstanding == w.outstanding + Fresh(w.number, j, now.batch.next)
  {
    hide Inv, PostMany, Fresh, Unpostable, Short;
    ShortPosts(w.batch, ops);
    var c := Chunk(w.batch.next, |ops|);
    assert |w.batch.inflight| == 0 && ChainLen(w.batch, |ops|) == c;
    PostManyInv(w.batch, ops, c);
    PostedIds(w.batch, ops, c);
  }

  lemma OneRound(w: World, ops: seq<nat>, k: nat, owner: nat)
    requires Misled(w, ops, k, owner) && w.batch.next < |ops| <= MAX_OPS && w.batch.inflight == map[] && Short(ops, |ops|)
    ensures var j := w.batch.next;
            var now := Run(w, ops, [Post] + Deliveries(w.number, j, j + Chunk(j, |ops|), k, owner));
            && Misled(now, ops, k, owner) && now.batch.inflight == map[] && now.number == w.number
            && now.batch.next == j + Chunk(j, |ops|)
  {
    hide Inv, Step, Chunk, Deliveries, Short;
    var j, c := w.batch.next, Chunk(w.batch.next, |ops|);
    var posted := Step(w, ops, Post);
    PostRound(w, ops);
    DeliverAll(posted, ops, j, k, owner);
    var hs := [Post] + Deliveries(w.number, j, j + c, k, owner);
    assert hs[0] == Post && hs[1..] == Deliveries(w.number, j, j + c, k, owner);
    assert Run(w, ops, hs) == Run(posted, ops, Deliveries(w.number, j, j + c, k, owner));
  }

  lemma PostedIds(b: Batch, ops: seq<nat>, c: nat)
    requires Inv(b, ops) && b.inflight == map[] && b.next + c <= |ops| <= MAX_OPS && c <= WINDOW
    ensures forall i :: i in PostMany(b, ops, c).inflight <==> b.next < i <= b.next + c
  {
    PostManyInv(b, ops, c);
    PostManyOnly(b, ops, c);
  }

  lemma {:induction false} PostManyOnly(b: Batch, ops: seq<nat>, c: nat)
    requires Inv(b, ops) && b.inflight == map[] && b.next + c <= |ops| <= MAX_OPS && c <= WINDOW
    ensures forall i | i in PostMany(b, ops, c).inflight :: b.next < i <= b.next + c
  {
    hide Inv;
    if c > 0 {
      PostManyOnly(b, ops, c - 1);
      PostManyInv(b, ops, c - 1);
      WindowId(PostMany(b, ops, c - 1), ops);
    }
  }

  lemma {:induction false} AllRounds(w: World, ops: seq<nat>, k: nat, owner: nat)
    requires Misled(w, ops, k, owner) && |ops| <= MAX_OPS && w.batch.inflight == map[] && w.batch.next <= |ops|
    requires Short(ops, |ops|)
    ensures var now := Run(w, ops, Rounds(w.number, w.batch.next, |ops|, k, owner));
            Ok(now, ops) && k !in now.done
    decreases |ops| - w.batch.next
  {
    hide Misled, Deliveries, Step, Short;
    var j := w.batch.next;
    if j < |ops| {
      var c := Chunk(j, |ops|);
      var first := [Post] + Deliveries(w.number, j, j + c, k, owner);
      OneRound(w, ops, k, owner);
      RunAppend(w, ops, first, Rounds(w.number, j + c, |ops|, k, owner));
      AllRounds(Run(w, ops, first), ops, k, owner);
    } else {
      MisledMeans(w, ops, k, owner);
    }
  }

  lemma MisledMeans(w: World, ops: seq<nat>, k: nat, owner: nat)
    requires Misled(w, ops, k, owner)
    ensures !w.over && k !in w.done
  {
  }

  /** Ok means that every request of the batch was completed, on every schedule, exactly when no
      completion still owed to an earlier batch carries an id this batch will use, or the batch has an op
      too long for a request and cannot answer Ok at all. */
  lemma OkIsHonestExactly(ops: seq<nat>, number: nat, stale: set<Wr>)
    requires Stale(stale, number) && |ops| <= MAX_OPS
    ensures (forall hs :: Honest(Run(Begin(number, stale), ops, hs), ops)) <==>
            OutOfReach(stale, |ops|) || !Short(ops, |ops|)
  {
    hide Run, Tracks, Finished, Rounds, Short, OnlyShort;
    StartInv(ops);
    if OutOfReach(stale, |ops|) {
      BeginTracks(ops, number, stale);
      forall hs
        ensures Honest(Run(Begin(number, stale), ops, hs), ops)
      {
        RunTracks(Begin(number, stale), ops, hs);
        TracksHonest(Run(Begin(number, stale), ops, hs), ops);
      }
    } else if !Short(ops, |ops|) {
      forall hs
        ensures Honest(Run(Begin(number, stale), ops, hs), ops)
      {
        StartShort(ops, number, stale);
        RunShort(Begin(number, stale), ops, hs);
        NeverOk(Run(Begin(number, stale), ops, hs), ops);
      }
    } else {
      var w :| w in stale && 1 <= w.id <= |ops|;
      assert w == Wr(w.owner, w.id);
      AllRounds(Begin(number, stale), ops, w.id, w.owner);
      assert !Honest(Run(Begin(number, stale), ops, Rounds(number, 0, |ops|, w.id, w.owner)), ops);
    }
  }

  lemma StartShort(ops: seq<nat>, number: nat, stale: set<Wr>)
    ensures OnlyShort(Begin(number, stale), ops)
  {
    StartInv(ops);
  }

  lemma NeverOk(w: World, ops: seq<nat>)
    requires OnlyShort(w, ops) && !Short(ops, |ops|)
    ensures !Ok(w, ops)
  {
  }

  // ---------------------------------------------------------------------
  // Sessions: one batch after another on one queue pair

  /** A batch of a session, and what happened while it ran. */
  datatype Job = Job(ops: seq<nat>, hs: seq<Happening>)

  /** The world at the end of the last job; what is outstanding then is stale for the next one. */
  ghost function After(jobs: seq<Job>): World {
    if jobs == [] then Begin(0, {})
    else
      var before, job := After(jobs[..|jobs| - 1]), jobs[|jobs| - 1];
      Run(Begin(before.number + 1, before.outstanding), job.ops, job.hs)
  }

  ghost predicate Answered(jobs: seq<Job>, i: nat)
    requires i < |jobs|
  {
    Ok(After(jobs[..i + 1]), jobs[i].ops)
  }

  /** Until an error only this batch's requests in flight are outstanding. */
  ghost predicate Own(w: World) {
    !w.over ==> forall x | x in w.outstanding :: x.owner == w.number && x.id in w.batch.inflight
  }

  lemma StepOwn(w: World, ops: seq<nat>, h: Happening)
    requires Tracks(w, ops) && Own(w) && |ops| <= MAX_OPS
    ensures Own(Step(w, ops, h))
  {
    hide Inv, PostMany, ChainTooLong;
    if h == Post && CanPost(w.batch, |ops|) {
      var c := ChainLen(w.batch, |ops|);
      PostManyInv(w.batch, ops, c);
      PostManyKeeps(w.batch, ops, c);
    }
  }

  lemma {:induction false} PostManyKeeps(b: Batch, ops: seq<nat>, c: nat)
    requires Inv(b, ops) && b.next + c <= |ops| <= MAX_OPS && |b.inflight| + c <= WINDOW
    ensures PostMany(b, ops, c).next == b.next + c
    ensures forall i | i in b.inflight || b.next < i <= b.next + c :: i in PostMany(b, ops, c).inflight
  {
    hide Inv;
    if c > 0 {
      PostManyKeeps(b, ops, c - 1);
      PostManyInv(b, ops, c - 1);
      WindowId(PostMany(b, ops, c - 1), ops);
    }
  }

  lemma {:induction false} RunOwn(w: World, ops: seq<nat>, hs: seq<Happening>)
    requires Tracks(w, ops) && Own(w) && |ops| <= MAX_OPS
    ensures Own(Run(w, ops, hs))
    decreases |hs|
  {
    hide Tracks, Own, Step;
    if hs != [] {
      StepOwn(w, ops, hs[0]);
      StepTracks(w, ops, hs[0]);
      RunOwn(Step(w, ops, hs[0]), ops, hs[1..]);
    }
  }

  lemma NothingOwed(w: World, ops: seq<nat>)
    requires Own(w) && Ok(w, ops)
    ensures w.outstanding == {}
  {
  }

  /** In a session whose earlier batches all answered Ok, nothing stale is ever owed, so every Ok means
      that the hardware completed the batch. */
  lemma {:induction false} SessionHonest(jobs: seq<Job>)
    requires jobs != [] && forall i | 0 <= i < |jobs| :: |jobs[i].ops| <= MAX_OPS
    requires forall i | 0 <= i < |jobs| - 1 :: Answered(jobs, i)
    ensures Honest(After(jobs), jobs[|jobs| - 1].ops)
    ensures Ok(After(jobs), jobs[|jobs| - 1].ops) ==> After(jobs).outstanding == {}
  {
    hide Honest, Ok, Run, Tracks, Own;
    var front, job := jobs[..|jobs| - 1], jobs[|jobs| - 1];
    if front != [] {
      assert forall i | 0 <= i < |front| :: jobs[..i + 1] == front[..i + 1] && jobs[i] == front[i];
      assert front[..|front|] == front;
      assert forall i | 0 <= i < |front| :: Answered(jobs, i);
      assert forall i | 0 <= i < |front| :: Answered(front, i) by {
        forall i | 0 <= i < |front| ensures Answered(front, i) { assert Answered(jobs, i); }
      }
      assert Answered(front, |front| - 1);
      SessionHonest(front);
    }
    var before := After(front);
    assert before.outstanding == {};
    var w := Begin(before.number + 1, {});
    BeginTracks(job.ops, before.number + 1, {});
    BeginOwn(before.number + 1);
    RunTracks(w, job.ops, job.hs);
    RunOwn(w, job.ops, job.hs);
    TracksHonest(After(jobs), job.ops);
    if Ok(After(jobs), job.ops) { NothingOwed(After(jobs), job.ops); }
  }

  lemma BeginOwn(number: nat)
    ensures Own(Begin(number, {}))
  {
  }

  // ---------------------------------------------------------------------
  // Where stale completions come from

  /** Completions of batch `owner` for the ids above `lo`. */
  function Leftovers(owner: nat, lo: nat, hi: nat): seq<Happening>
    decreases hi - lo
  {
    if lo >= hi then [] else [Deliver(Wr(owner, lo + 1), true)] + Leftovers(owner, lo + 1, hi)
  }

  lemma {:induction false} DeliverLeftovers(w: World, ops: seq<nat>, lo: nat, owner: nat)
    requires Inv(w.batch, ops) && !w.over && lo <= w.batch.next && owner != w.number && w.done == {}
    requires forall i :: i in w.batch.inflight <==> lo < i <= w.batch.next
    requires forall i: nat | lo < i <= w.batch.next :: Wr(owner, i) in w.outstanding
    ensures var now := Run(w, ops, Leftovers(owner, lo, w.batch.next));
            !now.over && now.done == {} && now.batch.next == w.batch.next && now.batch.inflight == map[]
    decreases w.batch.next - lo
  {
    hide Inv, Step;
    if lo < w.batch.next {
      var h := Deliver(Wr(owner, lo + 1), true);
      DeliverOne(w, ops, h.wr);
      DeliverLeftovers(Step(w, ops, h), ops, lo + 1, owner);
      var hs := Leftovers(owner, lo, w.batch.next);
      assert hs[0] == h && hs[1..] == Leftovers(owner, lo + 1, w.batch.next);
    } else {
      assert w.batch.inflight.Keys == {};
    }
  }

  /** The first chain is fine, the second has an op that is too long. */
  ghost predicate FailsLate(ops: seq<nat>) {
    CHAIN < |ops| <= MAX_OPS && Short(ops, CHAIN) && ChainTooLong(ops, CHAIN, Chunk(CHAIN, |ops|))
  }

  lemma FirstChain(w: World, ops: seq<nat>)
    requires w == Begin(w.number, {}) && FailsLate(ops)
    ensures var now := Step(w, ops, Post);
            && Inv(now.batch, ops) && !now.over && now.batch.next == CHAIN && |now.batch.inflight| <= CHAIN
            && now.outstanding == Fresh(w.number, 0, CHAIN)
  {
    hide Inv, PostMany, Fresh;
    StartInv(ops);
    assert |START.inflight| == 0 && ChainLen(START, |ops|) == CHAIN;
    assert !Unpostable(START, ops);
    PostManyInv(START, ops, CHAIN);
  }

  lemma SecondChain(w: World, ops: seq<nat>)
    requires FailsLate(ops) && !w.over && w.batch.next == CHAIN && |w.batch.inflight| <= CHAIN
    ensures Step(w, ops, Post) == w.(over := true)
  {
    hide Short;
    assert ChainLen(w.batch, |ops|) == Chunk(CHAIN, |ops|);
  }

  /** The second batch posts one chain and is handed the first one's completions. */
  lemma SecondBatch(number: nat, ops: seq<nat>)
    requires number > 0 && 0 < |ops| <= CHAIN && Short(ops, |ops|)
    ensures var w := Run(Begin(number, Fresh(number - 1, 0, CHAIN)), ops, [Post] + Leftovers(number - 1, 0, |ops|));
            Ok(w, ops) && w.done == {}
  {
    hide Inv, Step, Fresh, Short;
    StartInv(ops);
    var w := Begin(number, Fresh(number - 1, 0, CHAIN));
    var posted := Step(w, ops, Post);
    PostRound(w, ops);
    DeliverLeftovers(posted, ops, 0, number - 1);
    var hs := [Post] + Leftovers(number - 1, 0, |ops|);
    assert hs[0] == Post && hs[1..] == Leftovers(number - 1, 0, |ops|);
    assert Run(w, ops, hs) == Run(posted, ops, Leftovers(number - 1, 0, |ops|));
  }

  /** Every batch that fails in its second chain leaves the first one's completions owed, and then a batch
      of up to one chain can answer Ok with nothing done. */
  lemma ErrorThenOk(ops: seq<nat>, next: seq<nat>)
    requires FailsLate(ops) && 0 < |next| <= CHAIN && Short(next, |next|)
    ensures var jobs := [Job(ops, [Post, Post]), Job(next, [Post] + Leftovers(1, 0, |next|))];
            && After(jobs[..1]).over && Ok(After(jobs), next) && After(jobs).done == {}
  {
    hide Step, Fresh, Short, Ok, FailsLate, Leftovers;
    var first, second := Job(ops, [Post, Post]), Job(next, [Post] + Leftovers(1, 0, |next|));
    var jobs := [first, second];
    assert jobs[..1] == [first] && [first][..0] == [];
    var w := Begin(1, {});
    FirstChain(w, ops);
    var posted := Step(w, ops, Post);
    SecondChain(posted, ops);
    assert [Post, Post][1..] == [Post] && [Post][1..] == [];
    assert Run(posted, ops, [Post]) == Step(posted, ops, Post);
    assert After([first]) == posted.(over := true);
    StepNumber(w, ops, Post);
    SecondBatch(2, next);
  }

  lemma StepNumber(w: World, ops: seq<nat>, h: Happening)
    ensures Step(w, ops, h).number == w.number
  {
  }
}
