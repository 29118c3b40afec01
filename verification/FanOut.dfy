/** Spreading a transfer over NICs and queue pairs. */
module FanOut {
  import opened Types
  import opened RdmaTypes
  import opened RegisteredMemory
  import BatchExec

  datatype RegionDescriptor = RegionDescriptor(addr: nat, len: nat, rkeys: seq<nat>) {
    /** `[ptr, ptr + len)` lies inside the region. */
    predicate Contains(ptr: nat, n: nat) {
      ptr + n <= U64_MAX && ptr >= addr && ptr + n <= SaturatingAdd(addr, len)
    }
  }

  datatype TransferDesc = TransferDesc(local: nat, remote: nat, len: nat, region: RegionDescriptor)

  datatype RdmaOp = RdmaOp(mr: nat, local: nat, remote: nat, len: nat, rkey: nat)

  /** The ops one session is to execute. */
  datatype Work = Work(nic: nat, qp: nat, ops: seq<RdmaOp>)

  // ---------------------------------------------------------------------
  // Choosing a NIC

  /** The NICs on node `numa`, in index order. */
  function Group(numas: seq<nat>, numa: nat): (r: seq<nat>)
    ensures forall i | 0 <= i < |r| :: r[i] < |numas| && numas[r[i]] == numa
    ensures numa in numas <==> r != []
  {
    if numas == [] then []
    else
      var last := |numas| - 1;
      assert numas == numas[..last] + [numas[last]];
      Group(numas[..last], numa) + (if numas[last] == numa then [last] else [])
  }

  ghost predicate Grouped(groups: map<nat, seq<nat>>, numas: seq<nat>) {
    && (forall n :: n in groups <==> n in numas && n != UNKNOWN)
    && (forall n | n in groups :: groups[n] == Group(numas, n))
  }

  /** NIC indices by NUMA node; NICs of unknown node are in no group. */
  method FromRuntimes(numas: seq<nat>) returns (groups: map<nat, seq<nat>>)
    ensures Grouped(groups, numas)
  {
    hide Grouped;
    groups := map[];
    NoGroups();
    for i := 0 to |numas|
      invariant Grouped(groups, numas[..i])
    {
      var n := numas[i];
      assert numas[..i + 1] == numas[..i] + [n];
      GroupedSnoc(groups, numas[..i], n);
      if n != UNKNOWN {
        groups := groups[n := (if n in groups then groups[n] else []) + [i]];
      }
    }
    assert numas[..|numas|] == numas;
  }

  lemma NoGroups()
    ensures Grouped(map[], [])
  {
  }

  lemma GroupSnoc(numas: seq<nat>, n: nat, x: nat)
    ensures Group(numas + [n], x) == Group(numas, x) + (if n == x then [|numas|] else [])
  {
    assert (numas + [n])[..|numas|] == numas;
  }

  lemma GroupedSnoc(groups: map<nat, seq<nat>>, numas: seq<nat>, n: nat)
    requires Grouped(groups, numas)
    ensures if n == UNKNOWN then Grouped(groups, numas + [n])
            else Grouped(groups[n := (if n in groups then groups[n] else []) + [|numas|]], numas + [n])
  {
    hide Group;
    forall x
      ensures x in numas + [n] <==> x in numas || x == n
    {
    }
    var now := if n == UNKNOWN then groups else groups[n := (if n in groups then groups[n] else []) + [|numas|]];
    forall x: nat | x in now
      ensures now[x] == Group(numas + [n], x)
    {
      GroupSnoc(numas, n, x);
      if x !in groups { assert Group(numas, x) == []; }
    }
  }

  /** The round-robin choice, for whatever value the shared counter handed out. */
  function Pick(numas: seq<nat>, numa: nat, ticket: nat): (nic: nat)
    requires numas != []
    ensures nic < |numas|
    ensures numa != UNKNOWN && numa in numas ==> numas[nic] == numa
  {
    var group := Group(numas, numa);
    if numa != UNKNOWN && group != [] then group[ticket % |group|] else ticket % |numas|
  }

  /** The choice made from the prepared groups; `all` is the number of NICs. */
  method NextNic(groups: map<nat, seq<nat>>, all: nat, numa: nat, ticket: nat, ghost numas: seq<nat>) returns (nic: nat)
    requires numas != [] && all == |numas| && Grouped(groups, numas)
    ensures nic == Pick(numas, numa, ticket)
  {
    if numa != UNKNOWN && numa in groups {
      var indices := groups[numa];
      return indices[ticket % |indices|];
    }
    nic := ticket % all;
  }

  /** Exactly the NICs on the node, in index order. */
  ghost predicate NicsOf(numas: seq<nat>, numa: nat, g: seq<nat>) {
    && (forall i, j | 0 <= i < j < |g| :: g[i] < g[j])
    && (forall i: nat :: i in g <==> i < |numas| && numas[i] == numa)
  }

  lemma NicsOfSnoc(numas: seq<nat>, n: nat, numa: nat, g: seq<nat>)
    requires NicsOf(numas, numa, g)
    ensures NicsOf(numas + [n], numa, g + (if n == numa then [|numas|] else []))
  {
    var all, now := numas + [n], g + (if n == numa then [|numas|] else []);
    forall i: nat
      ensures i in now <==> i < |all| && all[i] == numa
    {
      assert i in now <==> i in g || (n == numa && i == |numas|);
    }
    forall i, j | 0 <= i < j < |now|
      ensures now[i] < now[j]
    {
      assert now[i] == g[i] && g[i] in g;
    }
  }

  lemma NoNics(numa: nat)
    ensures NicsOf([], numa, Group([], numa))
  {
  }

  lemma {:induction false} GroupExactly(numas: seq<nat>, numa: nat)
    ensures NicsOf(numas, numa, Group(numas, numa))
  {
    hide NicsOf, Group;
    if numas == [] {
      NoNics(numa);
    } else {
      var front, last := numas[..|numas| - 1], numas[|numas| - 1];
      GroupExactly(front, numa);
      NicsOfSnoc(front, last, numa, Group(front, numa));
      GroupSnoc(front, last, numa);
      assert numas == front + [last];
    }
  }

  /** The NIC chosen: the ticket counts round the NICs of the node, or all of them where the node is unknown
      or has none. */
  lemma PickExactly(numas: seq<nat>, numa: nat, ticket: nat)
    requires numas != []
    ensures numa == UNKNOWN || numa !in numas ==> Pick(numas, numa, ticket) == ticket % |numas|
    ensures numa != UNKNOWN && numa in numas ==>
              exists g: seq<nat> :: g != [] && NicsOf(numas, numa, g) && Pick(numas, numa, ticket) == g[ticket % |g|]
  {
    hide Group;
    GroupExactly(numas, numa);
  }

  // ---------------------------------------------------------------------
  // Resolving a descriptor

  datatype Routed = Routed(nic: nat, op: RdmaOp)

  function Resolve(numas: seq<nat>, entries: Entries, d: TransferDesc, ticket: nat): Outcome<Routed>
    requires numas != [] && forall k | k in entries :: |entries[k].mrs| == |numas|
  {
    if d.len == 0 then Failed(InvalidArgument)
    else
      match Find(entries, d.local, d.len)
      case None => Failed(MemoryNotRegistered(d.local))
      case Some(e) =>
        if !d.region.Contains(d.remote, d.len) then Failed(InvalidArgument)
        else
          var nic := Pick(numas, e.numa, ticket);
          if nic >= |d.region.rkeys| then Failed(InvalidArgument)
          else Done(Routed(nic, RdmaOp(e.mrs[nic], d.local, d.remote, d.len, d.region.rkeys[nic])))
  }

  /** What a routed op must be: the descriptor's range, inside both regions, with handle and key taken
      at the index of a NIC on the region's own node when there is one. */
  ghost predicate Faithful(numas: seq<nat>, entries: Entries, d: TransferDesc, r: Routed) {
    && r.op.local == d.local && r.op.remote == d.remote && r.op.len == d.len > 0
    && d.region.Contains(d.remote, d.len)
    && r.nic < |numas| && r.nic < |d.region.rkeys| && r.op.rkey == d.region.rkeys[r.nic]
    && exists k :: Serves(numas, entries, d, r, k)
  }

  ghost predicate Serves(numas: seq<nat>, entries: Entries, d: TransferDesc, r: Routed, k: nat) {
    && k in entries && Covers(entries[k], d.local, d.len)
    && r.nic < |numas| && r.nic < |entries[k].mrs| && r.op.mr == entries[k].mrs[r.nic]
    && (entries[k].numa != UNKNOWN && entries[k].numa in numas ==> numas[r.nic] == entries[k].numa)
  }

  lemma ResolveFaithful(numas: seq<nat>, entries: Entries, d: TransferDesc, ticket: nat)
    requires numas != [] && Valid(entries) && forall k | k in entries :: |entries[k].mrs| == |numas|
    ensures var r := Resolve(numas, entries, d, ticket); r.Done? ==> Faithful(numas, entries, d, r.value)
  {
    FindIsLinearSearch(entries, d.local, d.len);
    var r := Resolve(numas, entries, d, ticket);
    if r.Done? {
      assert Serves(numas, entries, d, r.value, Find(entries, d.local, d.len).value.base);
    }
  }

  /** A registration covers the local range. */
  ghost predicate CoversLocal(entries: Entries, d: TransferDesc, k: nat) {
    k in entries && entries[k].base <= d.local && d.local + d.len <= entries[k].base + entries[k].len
  }

  /** The remote range lies in the remote region, and in the address space. */
  ghost predicate InRemote(d: TransferDesc) {
    d.region.addr <= d.remote && d.remote + d.len <= d.region.addr + d.region.len && d.remote + d.len <= U64_MAX
  }

  /** The region has a remote key for the NIC that is picked for the registration. */
  ghost predicate HasKey(numas: seq<nat>, entries: Entries, d: TransferDesc, ticket: nat, k: nat)
    requires numas != []
  {
    CoversLocal(entries, d, k) && Pick(numas, entries[k].numa, ticket) < |d.region.rkeys|
  }

  ghost predicate Routable(numas: seq<nat>, entries: Entries, d: TransferDesc, ticket: nat)
    requires numas != []
  {
    d.len > 0 && InRemote(d) && exists k :: HasKey(numas, entries, d, ticket, k)
  }

  /** The error of a descriptor that cannot be routed: memory that is not registered, unless there is nothing
      to transfer; InvalidArgument for everything else. */
  ghost predicate RefusedWith(numas: seq<nat>, entries: Entries, d: TransferDesc, ticket: nat, error: TransferError)
    requires numas != []
  {
    && !Routable(numas, entries, d, ticket)
    && error == if d.len > 0 && !(exists k :: CoversLocal(entries, d, k)) then MemoryNotRegistered(d.local) else InvalidArgument
  }

  /** A descriptor is routed exactly when it can be, and otherwise refused with its error. */
  lemma ResolveExactly(numas: seq<nat>, entries: Entries, d: TransferDesc, ticket: nat)
    requires numas != [] && Valid(entries) && forall k | k in entries :: |entries[k].mrs| == |numas|
    ensures var r := Resolve(numas, entries, d, ticket);
            && (r.Done? <==> Routable(numas, entries, d, ticket))
            && (r.Failed? ==> RefusedWith(numas, entries, d, ticket, r.error))
  {
    hide Valid, Pick;
    FindIsLinearSearch(entries, d.local, d.len);
    var f := Find(entries, d.local, d.len);
    hide Find;
    assert d.region.Contains(d.remote, d.len) <==> InRemote(d);
    forall k: nat ensures CoversLocal(entries, d, k) <==> k in entries && Covers(entries[k], d.local, d.len) {}
    if f.Some? { assert CoversLocal(entries, d, f.value.base); }
    if d.len > 0 && f.Some? {
      assert HasKey(numas, entries, d, ticket, f.value.base) <==> Pick(numas, f.value.numa, ticket) < |d.region.rkeys|;
      if k :| HasKey(numas, entries, d, ticket, k) { assert entries[k] == f.value; }
    }
  }

  function Routes(numas: seq<nat>, entries: Entries, descs: seq<TransferDesc>, tickets: nat -> nat): Outcome<seq<Routed>>
    requires numas != [] && forall k | k in entries :: |entries[k].mrs| == |numas|
  {
    if descs == [] then Done([])
    else
      var last := |descs| - 1;
      match Routes(numas, entries, descs[..last], tickets)
      case Failed(e) => Failed(e)
      case Done(rs) =>
        match Resolve(numas, entries, descs[last], tickets(last))
        case Failed(e) => Failed(e)
        case Done(r) => Done(rs + [r])
  }

  lemma {:induction false} RoutesFaithful(numas: seq<nat>, entries: Entries, descs: seq<TransferDesc>, tickets: nat -> nat)
    requires numas != [] && Valid(entries) && forall k | k in entries :: |entries[k].mrs| == |numas|
    requires Routes(numas, entries, descs, tickets).Done?
    ensures var rs := Routes(numas, entries, descs, tickets).value;
            |rs| == |descs| && forall i | 0 <= i < |descs| :: Faithful(numas, entries, descs[i], rs[i])
  {
    hide Resolve, Faithful;
    if descs != [] {
      var last := |descs| - 1;
      RoutesFaithful(numas, entries, descs[..last], tickets);
      ResolveFaithful(numas, entries, descs[last], tickets(last));
      var rs := Routes(numas, entries, descs, tickets).value;
      forall i | 0 <= i < |descs|
        ensures Faithful(numas, entries, descs[i], rs[i])
      {
        if i < last { assert descs[..last][i] == descs[i]; }
      }
    }
  }

  lemma {:induction false} RoutesFail(numas: seq<nat>, entries: Entries, descs: seq<TransferDesc>, tickets: nat -> nat, k: nat)
    requires numas != [] && forall k | k in entries :: |entries[k].mrs| == |numas|
    requires k <= |descs| && Routes(numas, entries, descs[..k], tickets).Failed?
    ensures Routes(numas, entries, descs, tickets) == Routes(numas, entries, descs[..k], tickets)
    decreases |descs|
  {
    hide Resolve;
    if k < |descs| {
      assert descs[..|descs| - 1][..k] == descs[..k];
      RoutesFail(numas, entries, descs[..|descs| - 1], tickets, k);
    } else {
      assert descs[..k] == descs;
    }
  }

  ghost predicate AllRoutable(numas: seq<nat>, entries: Entries, descs: seq<TransferDesc>, tickets: nat -> nat)
    requires numas != []
  {
    forall i: nat | i < |descs| :: Routable(numas, entries, descs[i], tickets(i))
  }

  /** Descriptor `i` is the first that cannot be routed, and this is its error. */
  ghost predicate FirstFault(numas: seq<nat>, entries: Entries, descs: seq<TransferDesc>, tickets: nat -> nat,
                             i: nat, error: TransferError)
    requires numas != []
  {
    && i < |descs| && RefusedWith(numas, entries, descs[i], tickets(i), error)
    && forall j: nat | j < i :: Routable(numas, entries, descs[j], tickets(j))
  }

  lemma {:induction false} RoutesExactly(numas: seq<nat>, entries: Entries, descs: seq<TransferDesc>, tickets: nat -> nat)
    requires numas != [] && Valid(entries) && forall k | k in entries :: |entries[k].mrs| == |numas|
    ensures var r := Routes(numas, entries, descs, tickets);
            && (r.Done? <==> AllRoutable(numas, entries, descs, tickets))
            && (r.Failed? ==> exists i :: FirstFault(numas, entries, descs, tickets, i, r.error))
  {
    hide Valid, Resolve, Routable, RefusedWith;
    if descs != [] {
      var last := |descs| - 1;
      var front := descs[..last];
      RoutesExactly(numas, entries, front, tickets);
      ResolveExactly(numas, entries, descs[last], tickets(last));
      assert forall i | 0 <= i < last :: front[i] == descs[i];
      var before, r := Routes(numas, entries, front, tickets), Routes(numas, entries, descs, tickets);
      if before.Failed? {
        var i: nat :| FirstFault(numas, entries, front, tickets, i, before.error);
        assert FirstFault(numas, entries, descs, tickets, i, r.error);
        assert !Routable(numas, entries, descs[i], tickets(i)) by { NotRoutable(numas, entries, descs[i], tickets(i), r.error); }
      } else {
        assert AllRoutable(numas, entries, descs, tickets) <==> Routable(numas, entries, descs[last], tickets(last));
        if r.Failed? { assert FirstFault(numas, entries, descs, tickets, last, r.error); }
      }
    }
  }

  lemma NotRoutable(numas: seq<nat>, entries: Entries, d: TransferDesc, ticket: nat, error: TransferError)
    requires numas != [] && RefusedWith(numas, entries, d, ticket, error)
    ensures !Routable(numas, entries, d, ticket)
  {
    hide Routable;
  }

  // ---------------------------------------------------------------------
  // Buckets

  /** The ops routed to one NIC, in descriptor order. */
  function OnNic(rs: seq<Routed>, nic: nat): seq<RdmaOp> {
    if rs == [] then []
    else OnNic(rs[..|rs| - 1], nic) + (if rs[|rs| - 1].nic == nic then [rs[|rs| - 1].op] else [])
  }

  function Turn(rot: nat, i: nat, n: nat): nat
    requires n > 0
  {
    (rot + i) % TWO64 % n
  }

  /** The ops that fall to one of a NIC's `n` queue pairs, in order. */
  function OnQp(ops: seq<RdmaOp>, rot: nat, n: nat, qp: nat): seq<RdmaOp>
    requires n > 0
  {
    if ops == [] then []
    else
      var last := |ops| - 1;
      OnQp(ops[..last], rot, n, qp) + (if Turn(rot, last, n) == qp then [ops[last]] else [])
  }

  /** The non-empty buckets of the first `k` queue pairs of a NIC. */
  function QpWork(nic: nat, ops: seq<RdmaOp>, rot: nat, n: nat, k: nat): seq<Work>
    requires n > 0
  {
    if k == 0 then []
    else
      var bucket := OnQp(ops, rot, n, k - 1);
      QpWork(nic, ops, rot, n, k - 1) + (if bucket == [] then [] else [Work(nic, k - 1, bucket)])
  }

  ghost predicate Sessions(sizes: seq<nat>, rots: seq<nat>, nics: nat) {
    |sizes| == |rots| == nics && forall j | 0 <= j < nics :: sizes[j] > 0
  }

  function NicWork(rs: seq<Routed>, sizes: seq<nat>, rots: seq<nat>, k: nat): seq<Work>
    requires Sessions(sizes, rots, |sizes|) && k <= |sizes|
  {
    if k == 0 then []
    else NicWork(rs, sizes, rots, k - 1) + QpWork(k - 1, OnNic(rs, k - 1), rots[k - 1], sizes[k - 1], sizes[k - 1])
  }

  lemma OnQpSnoc(ops: seq<RdmaOp>, op: RdmaOp, rot: nat, n: nat, qp: nat)
    requires n > 0
    ensures OnQp(ops + [op], rot, n, qp) == OnQp(ops, rot, n, qp) + (if Turn(rot, |ops|, n) == qp then [op] else [])
  {
    hide Turn;
    assert (ops + [op])[..|ops|] == ops;
  }

  lemma OnNicSnoc(rs: seq<Routed>, r: Routed, nic: nat)
    ensures OnNic(rs + [r], nic) == OnNic(rs, nic) + (if r.nic == nic then [r.op] else [])
  {
    assert (rs + [r])[..|rs|] == rs;
  }

  method FillBuckets(ops: seq<RdmaOp>, rot: nat, n: nat) returns (buckets: seq<seq<RdmaOp>>)
    requires n > 0
    ensures |buckets| == n && forall q | 0 <= q < n :: buckets[q] == OnQp(ops, rot, n, q)
  {
    hide OnQp, Turn;
    buckets := seq(n, _ => []);
    forall q | 0 <= q < n ensures OnQp(ops[..0], rot, n, q) == [] { NoOps(rot, n, q); }
    for i := 0 to |ops|
      invariant |buckets| == n && forall q | 0 <= q < n :: buckets[q] == OnQp(ops[..i], rot, n, q)
    {
      assert ops[..i + 1] == ops[..i] + [ops[i]];
      forall q | 0 <= q < n
        ensures OnQp(ops[..i + 1], rot, n, q) == OnQp(ops[..i], rot, n, q) + (if Turn(rot, i, n) == q then [ops[i]] else [])
      {
        OnQpSnoc(ops[..i], ops[i], rot, n, q);
      }
      var q := Turn(rot, i, n);
      TurnBelow(rot, i, n);
      buckets := buckets[q := buckets[q] + [ops[i]]];
    }
    assert ops[..|ops|] == ops;
  }

  lemma NoOps(rot: nat, n: nat, qp: nat)
    requires n > 0
    ensures OnQp([], rot, n, qp) == []
  {
  }

  lemma TurnBelow(rot: nat, i: nat, n: nat)
    requires n > 0
    ensures Turn(rot, i, n) < n
  {
  }

  method SplitOverQps(nic: nat, ops: seq<RdmaOp>, rot: nat, n: nat) returns (work: seq<Work>)
    requires n > 0
    ensures work == QpWork(nic, ops, rot, n, n)
  {
    hide OnQp;
    var buckets := FillBuckets(ops, rot, n);
    work := [];
    for q := 0 to n
      invariant work == QpWork(nic, ops, rot, n, q)
    {
      if buckets[q] != [] {
        work := work + [Work(nic, q, buckets[q])];
      }
    }
  }

  lemma {:induction false} NoOpsNoWork(nic: nat, rot: nat, n: nat, k: nat)
    requires n > 0
    ensures QpWork(nic, [], rot, n, k) == []
  {
    if k > 0 { NoOpsNoWork(nic, rot, n, k - 1); }
  }

  /** The whole plan: the first error in descriptor order, or every session's work. */
  function Plan(routes: Outcome<seq<Routed>>, sizes: seq<nat>, rots: seq<nat>): Outcome<seq<Work>>
    requires Sessions(sizes, rots, |sizes|)
  {
    match routes
    case Failed(e) => Failed(e)
    case Done(rs) => Done(NicWork(rs, sizes, rots, |sizes|))
  }

  /** The ops of every NIC, or the first error. */
  function PerNic(routes: Outcome<seq<Routed>>, nics: nat): Outcome<seq<seq<RdmaOp>>> {
    match routes
    case Failed(e) => Failed(e)
    case Done(rs) => Done(seq(nics, j requires 0 <= j < nics => OnNic(rs, j)))
  }

  /** Resolve every descriptor, bucket the ops by NIC, then spread each NIC's ops over its sessions. */
  method BatchTransfer(numas: seq<nat>, entries: Entries, conn: Option<seq<nat>>, rots: seq<nat>,
                       tickets: nat -> nat, descs: seq<TransferDesc>) returns (out: Outcome<seq<Work>>)
    requires numas != [] && Valid(entries) && forall k | k in entries :: |entries[k].mrs| == |numas|
    requires conn.Some? ==> Sessions(conn.value, rots, |numas|)
    ensures descs == [] ==> out == Done([])
    ensures descs != [] && conn.None? ==> out == Failed(Backend)
    ensures descs != [] && conn.Some? ==> out == Plan(Routes(numas, entries, descs, tickets), conn.value, rots)
    ensures descs != [] && conn.Some? ==> (out.Done? <==> AllRoutable(numas, entries, descs, tickets))
    ensures descs != [] && conn.Some? && out.Failed? ==> exists i :: FirstFault(numas, entries, descs, tickets, i, out.error)
  {
    hide Routes, OnNic, NicWork, Valid, AllRoutable, FirstFault;
    if descs == [] {
      return Done([]);
    }
    if conn.None? {
      return Failed(Backend);
    }
    RoutesExactly(numas, entries, descs, tickets);
    var perNic := ResolveAll(numas, entries, tickets, descs);
    if perNic.Failed? {
      return Failed(perNic.error);
    }
    var work := SplitOverNics(perNic.value, conn.value, rots, Routes(numas, entries, descs, tickets).value);
    out := Done(work);
  }

  method SplitOverNics(perNic: seq<seq<RdmaOp>>, sizes: seq<nat>, rots: seq<nat>, ghost rs: seq<Routed>)
    returns (work: seq<Work>)
    requires Sessions(sizes, rots, |perNic|) && forall j | 0 <= j < |perNic| :: perNic[j] == OnNic(rs, j)
    ensures work == NicWork(rs, sizes, rots, |perNic|)
  {
    hide OnNic, QpWork;
    work := [];
    for nic := 0 to |perNic|
      invariant work == NicWork(rs, sizes, rots, nic)
    {
      var ops := perNic[nic];
      if ops == [] {
        NoOpsNoWork(nic, rots[nic], sizes[nic], sizes[nic]);
        assert work + [] == work;
      } else {
        var more := SplitOverQps(nic, ops, rots[nic], sizes[nic]);
        work := work + more;
      }
    }
  }

  method ResolveAll(numas: seq<nat>, entries: Entries, tickets: nat -> nat, descs: seq<TransferDesc>)
    returns (out: Outcome<seq<seq<RdmaOp>>>)
    requires numas != [] && forall k | k in entries :: |entries[k].mrs| == |numas|
    ensures out == PerNic(Routes(numas, entries, descs, tickets), |numas|)
  {
    hide Resolve, OnNic;
    var perNic: seq<seq<RdmaOp>> := seq(|numas|, _ => []);
    forall j: nat | j < |numas| ensures OnNic([], j) == [] { NothingRouted(j); }
    ghost var rs: seq<Routed> := [];
    assert descs[..0] == [];
    for i := 0 to |descs|
      invariant Routes(numas, entries, descs[..i], tickets) == Done(rs)
      invariant |perNic| == |numas| && forall j | 0 <= j < |numas| :: perNic[j] == OnNic(rs, j)
    {
      assert descs[..i + 1][..i] == descs[..i];
      var r := ResolveOne(numas, entries, descs[i], tickets(i));
      if r.Failed? {
        RoutesFail(numas, entries, descs, tickets, i + 1);
        return Failed(r.error);
      }
      var op, nic := r.value.op, r.value.nic;
      forall j: nat | j < |numas|
        ensures OnNic(rs + [r.value], j) == OnNic(rs, j) + (if nic == j then [op] else [])
      {
        OnNicSnoc(rs, r.value, j);
      }
      rs := rs + [r.value];
      perNic := perNic[nic := perNic[nic] + [op]];
    }
    assert descs[..|descs|] == descs;
    out := Done(perNic);
    assert out.value == PerNic(Done(rs), |numas|).value;
  }

  lemma NothingRouted(nic: nat)
    ensures OnNic([], nic) == []
  {
  }

  method ResolveOne(numas: seq<nat>, entries: Entries, d: TransferDesc, ticket: nat) returns (r: Outcome<Routed>)
    requires numas != [] && forall k | k in entries :: |entries[k].mrs| == |numas|
    ensures r == Resolve(numas, entries, d, ticket)
    ensures r.Done? ==> r.value.nic < |numas|
  {
    if d.len == 0 {
      return Failed(InvalidArgument);
    }
    var entry := Find(entries, d.local, d.len);
    if entry.None? {
      return Failed(MemoryNotRegistered(d.local));
    }
    if !d.region.Contains(d.remote, d.len) {
      return Failed(InvalidArgument);
    }
    var nic := Pick(numas, entry.value.numa, ticket);
    if nic >= |d.region.rkeys| {
      return Failed(InvalidArgument);
    }
    r := Done(Routed(nic, RdmaOp(entry.value.mrs[nic], d.local, d.remote, d.len, d.region.rkeys[nic])));
  }

  // ---------------------------------------------------------------------
  // Conservation

  function Ops(rs: seq<Routed>): seq<RdmaOp> {
    if rs == [] then [] else Ops(rs[..|rs| - 1]) + [rs[|rs| - 1].op]
  }

  function Gathered(work: seq<Work>): multiset<RdmaOp> {
    if work == [] then multiset{} else Gathered(work[..|work| - 1]) + multiset(work[|work| - 1].ops)
  }

  lemma {:induction false} GatheredAppend(a: seq<Work>, b: seq<Work>)
    ensures Gathered(a + b) == Gathered(a) + Gathered(b)
  {
    if b == [] {
      assert a + b == a;
    } else {
      var init, m := b[..|b| - 1], multiset(b[|b| - 1].ops);
      GatheredAppend(a, init);
      assert (a + b)[..|a + b| - 1] == a + init;
      assert Gathered(a + b) == Gathered(a + init) + m && Gathered(b) == Gathered(init) + m;
      Shuffle(Gathered(a), Gathered(init), m);
    }
  }

  /** The ops that fall to the first `k` queue pairs, as a whole. */
  ghost function UpToQp(ops: seq<RdmaOp>, rot: nat, n: nat, k: nat): multiset<RdmaOp>
    requires n > 0
  {
    if k == 0 then multiset{} else UpToQp(ops, rot, n, k - 1) + multiset(OnQp(ops, rot, n, k - 1))
  }

  lemma Shuffle(a: multiset<RdmaOp>, b: multiset<RdmaOp>, c: multiset<RdmaOp>)
    ensures (a + c) + b == (a + b) + c == a + (b + c)
  {
  }

  lemma UpToNoQp(ops: seq<RdmaOp>, rot: nat, n: nat)
    requires n > 0
    ensures UpToQp(ops, rot, n, 0) == multiset{}
  {
  }

  lemma UpToNextQp(ops: seq<RdmaOp>, rot: nat, n: nat, k: nat)
    requires n > 0
    ensures UpToQp(ops, rot, n, k + 1) == UpToQp(ops, rot, n, k) + multiset(OnQp(ops, rot, n, k))
  {
  }

  lemma OnQpGains(ops: seq<RdmaOp>, op: RdmaOp, rot: nat, n: nat, q: nat)
    requires n > 0
    ensures multiset(OnQp(ops + [op], rot, n, q)) ==
            multiset(OnQp(ops, rot, n, q)) + (if Turn(rot, |ops|, n) == q then multiset{op} else multiset{})
  {
    hide Turn, OnQp;
    OnQpSnoc(ops, op, rot, n, q);
  }

  /** An op that falls to the last of `k` buckets, to an earlier one, or to none of them. */
  lemma AddOne(a: multiset<RdmaOp>, b: multiset<RdmaOp>, one: multiset<RdmaOp>, t: nat, k: nat)
    ensures (a + (if t < k then one else multiset{})) + (b + (if t == k then one else multiset{}))
         == (a + b) + (if t < k + 1 then one else multiset{})
  {
  }

  lemma {:induction false} UpToQpSnoc(ops: seq<RdmaOp>, op: RdmaOp, rot: nat, n: nat, k: nat)
    requires n > 0
    ensures UpToQp(ops + [op], rot, n, k) ==
            UpToQp(ops, rot, n, k) + (if Turn(rot, |ops|, n) < k then multiset{op} else multiset{})
  {
    hide Turn, OnQp, UpToQp;
    if k == 0 {
      UpToNoQp(ops, rot, n);
      UpToNoQp(ops + [op], rot, n);
    } else {
      UpToQpSnoc(ops, op, rot, n, k - 1);
      OnQpGains(ops, op, rot, n, k - 1);
      UpToNextQp(ops, rot, n, k - 1);
      UpToNextQp(ops + [op], rot, n, k - 1);
      AddOne(UpToQp(ops, rot, n, k - 1), multiset(OnQp(ops, rot, n, k - 1)), multiset{op}, Turn(rot, |ops|, n), k - 1);
    }
  }

  lemma {:induction false} AllQps(ops: seq<RdmaOp>, rot: nat, n: nat)
    requires n > 0
    ensures UpToQp(ops, rot, n, n) == multiset(ops)
  {
    if ops == [] {
      NoneUpTo(rot, n, n);
    } else {
      var init, last := ops[..|ops| - 1], ops[|ops| - 1];
      AllQps(init, rot, n);
      UpToQpSnoc(init, last, rot, n, n);
      assert ops == init + [last];
    }
  }

  lemma {:induction false} NoneUpTo(rot: nat, n: nat, k: nat)
    requires n > 0
    ensures UpToQp([], rot, n, k) == multiset{}
  {
    if k > 0 { NoneUpTo(rot, n, k - 1); }
  }

  lemma {:induction false} QpWorkGathers(nic: nat, ops: seq<RdmaOp>, rot: nat, n: nat, k: nat)
    requires n > 0
    ensures Gathered(QpWork(nic, ops, rot, n, k)) == UpToQp(ops, rot, n, k)
  {
    hide OnQp, Gathered;
    if k == 0 {
      GatheredNone();
    } else {
      QpWorkGathers(nic, ops, rot, n, k - 1);
      var work, bucket := QpWork(nic, ops, rot, n, k - 1), OnQp(ops, rot, n, k - 1);
      if bucket == [] {
        assert work + [] == work;
      } else {
        GatheredAppend(work, [Work(nic, k - 1, bucket)]);
        GatheredOne(Work(nic, k - 1, bucket));
      }
    }
  }

  lemma GatheredNone()
    ensures Gathered([]) == multiset{}
  {
  }

  lemma GatheredOne(w: Work)
    ensures Gathered([w]) == multiset(w.ops)
  {
    assert [w][..0] == [];
  }

  ghost function UpToNic(rs: seq<Routed>, k: nat): multiset<RdmaOp> {
    if k == 0 then multiset{} else UpToNic(rs, k - 1) + multiset(OnNic(rs, k - 1))
  }

  lemma UpToNextNic(rs: seq<Routed>, k: nat)
    ensures UpToNic(rs, k + 1) == UpToNic(rs, k) + multiset(OnNic(rs, k))
  {
  }

  lemma UpToNoNic(rs: seq<Routed>)
    ensures UpToNic(rs, 0) == multiset{}
  {
  }

  lemma OnNicGains(rs: seq<Routed>, r: Routed, nic: nat)
    ensures multiset(OnNic(rs + [r], nic)) ==
            multiset(OnNic(rs, nic)) + (if r.nic == nic then multiset{r.op} else multiset{})
  {
    hide OnNic;
    OnNicSnoc(rs, r, nic);
  }

  lemma {:induction false} UpToNicSnoc(rs: seq<Routed>, r: Routed, k: nat)
    ensures UpToNic(rs + [r], k) == UpToNic(rs, k) + (if r.nic < k then multiset{r.op} else multiset{})
  {
    hide OnNic, UpToNic;
    if k == 0 {
      UpToNoNic(rs);
      UpToNoNic(rs + [r]);
    } else {
      UpToNicSnoc(rs, r, k - 1);
      OnNicGains(rs, r, k - 1);
      UpToNextNic(rs, k - 1);
      UpToNextNic(rs + [r], k - 1);
      AddOne(UpToNic(rs, k - 1), multiset(OnNic(rs, k - 1)), multiset{r.op}, r.nic, k - 1);
    }
  }

  lemma {:induction false} AllNics(rs: seq<Routed>, n: nat)
    requires forall i | 0 <= i < |rs| :: rs[i].nic < n
    ensures UpToNic(rs, n) == multiset(Ops(rs))
  {
    if rs == [] {
      NoneUpToNic(n);
    } else {
      var init, last := rs[..|rs| - 1], rs[|rs| - 1];
      AllNics(init, n);
      UpToNicSnoc(init, last, n);
      assert rs == init + [last];
    }
  }

  lemma {:induction false} NoneUpToNic(k: nat)
    ensures UpToNic([], k) == multiset{}
  {
    if k > 0 { NoneUpToNic(k - 1); }
  }

  lemma {:induction false} NicWorkGathers(rs: seq<Routed>, sizes: seq<nat>, rots: seq<nat>, k: nat)
    requires Sessions(sizes, rots, |sizes|) && k <= |sizes|
    ensures Gathered(NicWork(rs, sizes, rots, k)) == UpToNic(rs, k)
  {
    hide QpWork, OnNic;
    if k > 0 {
      var j := k - 1;
      NicWorkGathers(rs, sizes, rots, j);
      var more := QpWork(j, OnNic(rs, j), rots[j], sizes[j], sizes[j]);
      GatheredAppend(NicWork(rs, sizes, rots, j), more);
      QpWorkGathers(j, OnNic(rs, j), rots[j], sizes[j], sizes[j]);
      AllQps(OnNic(rs, j), rots[j], sizes[j]);
    }
  }

  /** Every op is in exactly one session's work, and nothing else is, whatever the counters were. */
  lemma WorkIsPartition(rs: seq<Routed>, sizes: seq<nat>, rots: seq<nat>)
    requires Sessions(sizes, rots, |sizes|) && forall i | 0 <= i < |rs| :: rs[i].nic < |sizes|
    ensures Gathered(NicWork(rs, sizes, rots, |sizes|)) == multiset(Ops(rs))
  {
    NicWorkGathers(rs, sizes, rots, |sizes|);
    AllNics(rs, |sizes|);
  }

  // ---------------------------------------------------------------------
  // Bytes, end to end

  function Lengths(ops: seq<RdmaOp>): (r: seq<nat>)
    ensures |r| == |ops| && forall i | 0 <= i < |r| :: r[i] == ops[i].len
  {
    seq(|ops|, i requires 0 <= i < |ops| => ops[i].len)
  }

  function Bytes(ops: seq<RdmaOp>): nat {
    if ops == [] then 0 else Bytes(ops[..|ops| - 1]) + ops[|ops| - 1].len
  }

  lemma {:induction false} BytesIsSum(ops: seq<RdmaOp>)
    ensures BatchExec.Sum(Lengths(ops)) == Bytes(ops)
  {
    if ops != [] {
      BytesIsSum(ops[..|ops| - 1]);
      assert Lengths(ops)[..|ops| - 1] == Lengths(ops[..|ops| - 1]);
    }
  }

  function WorkBytes(work: seq<Work>): nat {
    if work == [] then 0 else WorkBytes(work[..|work| - 1]) + Bytes(work[|work| - 1].ops)
  }

  lemma {:induction false} BytesAppend(a: seq<RdmaOp>, b: seq<RdmaOp>)
    ensures Bytes(a + b) == Bytes(a) + Bytes(b)
  {
    if b == [] {
      assert a + b == a;
    } else {
      BytesAppend(a, b[..|b| - 1]);
      assert (a + b)[..|a + b| - 1] == a + b[..|b| - 1];
    }
  }

  lemma WithoutOne(b: seq<RdmaOp>, j: nat)
    requires j < |b|
    ensures var rest := b[..j] + b[j + 1..];
            multiset(rest) == multiset(b) - multiset{b[j]} && Bytes(b) == Bytes(rest) + b[j].len
  {
    var head, last, tail := b[..j], b[j], b[j + 1..];
    assert b == head + [last] + tail;
    assert multiset(b) == multiset(head) + multiset{last} + multiset(tail);
    BytesAppend(head, tail);
    BytesAppend(head + [last], tail);
    BytesAppend(head, [last]);
    assert Bytes([last]) == last.len by { assert [last][..0] == []; }
  }

  lemma IndexIn(b: seq<RdmaOp>, op: RdmaOp) returns (j: nat)
    requires op in multiset(b)
    ensures j < |b| && b[j] == op
  {
    assert op in b;
    j :| 0 <= j < |b| && b[j] == op;
  }

  /** The byte count depends only on which ops there are. */
  lemma {:induction false} BytesOfMultiset(a: seq<RdmaOp>, b: seq<RdmaOp>)
    requires multiset(a) == multiset(b)
    ensures Bytes(a) == Bytes(b)
    decreases |a|
  {
    hide Bytes;
    if a == [] {
      assert |multiset(b)| == |b| == 0;
    } else {
      assert a[|a| - 1] in multiset(a);
      var j := IndexIn(b, a[|a| - 1]);
      WithoutOne(a, |a| - 1);
      WithoutOne(b, j);
      BytesOfMultiset(a[..|a| - 1] + a[|a|..], b[..j] + b[j + 1..]);
    }
  }

  function Flat(work: seq<Work>): seq<RdmaOp> {
    if work == [] then [] else Flat(work[..|work| - 1]) + work[|work| - 1].ops
  }

  lemma {:induction false} FlatFacts(work: seq<Work>)
    ensures multiset(Flat(work)) == Gathered(work) && Bytes(Flat(work)) == WorkBytes(work)
  {
    if work != [] {
      FlatFacts(work[..|work| - 1]);
      BytesAppend(Flat(work[..|work| - 1]), work[|work| - 1].ops);
    }
  }

  /** What a session's receiver yields when its batch ends well: the count of some finished batch. */
  ghost predicate Answers(w: Work, answer: nat) {
    exists events :: BatchEnds(w, events) && BatchExec.Exec(Lengths(w.ops), events).transferred == answer
  }

  ghost predicate BatchEnds(w: Work, events: seq<BatchExec.Event>) {
    BatchExec.Finished(BatchExec.Exec(Lengths(w.ops), events), Lengths(w.ops))
  }

  ghost predicate AnswersOk(work: seq<Work>, answers: seq<nat>) {
    |answers| == |work| && forall i | 0 <= i < |work| :: Answers(work[i], answers[i])
  }

  /** Each answer is the saturated sum of its session's lengths. */
  ghost predicate Shares(work: seq<Work>, answers: seq<nat>) {
    |answers| == |work| && forall i | 0 <= i < |work| :: answers[i] == BatchExec.Capped(BatchExec.Sum(Lengths(work[i].ops)))
  }

  lemma AnswersAreShares(work: seq<Work>, answers: seq<nat>)
    requires AnswersOk(work, answers) && forall i | 0 <= i < |work| :: |work[i].ops| <= BatchExec.MAX_OPS
    ensures Shares(work, answers)
  {
    hide Lengths, BatchExec.Exec, BatchExec.Finished, BatchExec.Sum;
    forall i | 0 <= i < |work|
      ensures answers[i] == BatchExec.Capped(BatchExec.Sum(Lengths(work[i].ops)))
    {
      assert Answers(work[i], answers[i]);
      var events :| BatchEnds(work[i], events) && BatchExec.Exec(Lengths(work[i].ops), events).transferred == answers[i];
      BatchExec.FinishedTotals(Lengths(work[i].ops), events);
    }
  }

  /** No session gets more ops than there are. */
  lemma WorkLengths(rs: seq<Routed>, sizes: seq<nat>, rots: seq<nat>)
    requires Sessions(sizes, rots, |sizes|)
    ensures forall i | 0 <= i < |NicWork(rs, sizes, rots, |sizes|)| :: |NicWork(rs, sizes, rots, |sizes|)[i].ops| <= |rs|
  {
    hide NicWork, OnQp, OnNic;
    var work := NicWork(rs, sizes, rots, |sizes|);
    WorkShape(rs, sizes, rots, |sizes|);
    forall i | 0 <= i < |work|
      ensures |work[i].ops| <= |rs|
    {
      assert ItemOk(work[i], rs, sizes, rots);
      OnQpLength(OnNic(rs, work[i].nic), rots[work[i].nic], sizes[work[i].nic], work[i].qp);
      OnNicLength(rs, work[i].nic);
    }
  }

  lemma {:induction false} OnQpLength(ops: seq<RdmaOp>, rot: nat, n: nat, qp: nat)
    requires n > 0
    ensures |OnQp(ops, rot, n, qp)| <= |ops|
  {
    hide Turn;
    if ops != [] { OnQpLength(ops[..|ops| - 1], rot, n, qp); }
  }

  lemma {:induction false} OnNicLength(rs: seq<Routed>, nic: nat)
    ensures |OnNic(rs, nic)| <= |rs|
  {
    if rs != [] { OnNicLength(rs[..|rs| - 1], nic); }
  }

  ghost predicate NoneCapped(work: seq<Work>) {
    forall i | 0 <= i < |work| :: Bytes(work[i].ops) <= U64_MAX
  }

  /** The answers never exceed the bytes moved, and equal them exactly when no session's share
      exceeds what a 64-bit count can hold. */
  lemma {:induction false} AnswersAddUp(work: seq<Work>, answers: seq<nat>)
    requires Shares(work, answers)
    ensures BatchExec.Sum(answers) <= WorkBytes(work)
    ensures BatchExec.Sum(answers) == WorkBytes(work) <==> NoneCapped(work)
  {
    if work != [] {
      var last := |work| - 1;
      AnswersAddUp(work[..last], answers[..last]);
      BytesIsSum(work[last].ops);
      assert NoneCapped(work) <==> NoneCapped(work[..last]) && Bytes(work[last].ops) <= U64_MAX by {
        forall i | 0 <= i < last ensures work[..last][i] == work[i] {}
      }
    }
  }

  lemma {:induction false} ShareBelowTotal(work: seq<Work>)
    ensures WorkBytes(work) <= U64_MAX ==> NoneCapped(work)
  {
    if work != [] {
      var last := |work| - 1;
      ShareBelowTotal(work[..last]);
      forall i | 0 <= i < last ensures work[..last][i] == work[i] {}
    }
  }

  function DescBytes(descs: seq<TransferDesc>): nat {
    if descs == [] then 0 else DescBytes(descs[..|descs| - 1]) + descs[|descs| - 1].len
  }

  lemma {:induction false} RoutedBytes(numas: seq<nat>, entries: Entries, descs: seq<TransferDesc>, rs: seq<Routed>)
    requires |rs| == |descs| && forall i | 0 <= i < |descs| :: Faithful(numas, entries, descs[i], rs[i])
    ensures Bytes(Ops(rs)) == DescBytes(descs)
  {
    if descs != [] {
      var last := |descs| - 1;
      RoutedBytes(numas, entries, descs[..last], rs[..last]);
      assert Ops(rs) == Ops(rs[..last]) + [rs[last].op];
    }
  }

  /** End to end: each descriptor becomes one faithful op in exactly one session's work; and when every
      session answers Ok the answers add up to the total length of the descriptors, unless a session's
      share is too large to count. */
  lemma TransferConservesBytes(numas: seq<nat>, entries: Entries, sizes: seq<nat>, rots: seq<nat>,
                               tickets: nat -> nat, descs: seq<TransferDesc>, answers: seq<nat>)
    requires numas != [] && Valid(entries) && forall k | k in entries :: |entries[k].mrs| == |numas|
    requires Sessions(sizes, rots, |numas|) && Routes(numas, entries, descs, tickets).Done?
    ensures var rs := Routes(numas, entries, descs, tickets).value;
            var work := NicWork(rs, sizes, rots, |numas|);
            && |rs| == |descs| && (forall i | 0 <= i < |descs| :: Faithful(numas, entries, descs[i], rs[i]))
            && Gathered(work) == multiset(Ops(rs))
            && (AnswersOk(work, answers) && |descs| <= BatchExec.MAX_OPS ==>
                  (BatchExec.Sum(answers) == DescBytes(descs) <==> NoneCapped(work)))
            && (DescBytes(descs) <= U64_MAX ==> NoneCapped(work))
  {
    hide Routes, NicWork, Faithful, Gathered, Ops, WorkBytes, DescBytes, AnswersOk, Shares, NoneCapped;
    RoutesFaithful(numas, entries, descs, tickets);
    var rs := Routes(numas, entries, descs, tickets).value;
    NicsInRange(numas, entries, descs, rs);
    WorkIsPartition(rs, sizes, rots);
    var work := NicWork(rs, sizes, rots, |numas|);
    RoutedBytes(numas, entries, descs, rs);
    FlatFacts(work);
    BytesOfMultiset(Flat(work), Ops(rs));
    if AnswersOk(work, answers) && |descs| <= BatchExec.MAX_OPS {
      WorkLengths(rs, sizes, rots);
      AnswersAreShares(work, answers);
      AnswersAddUp(work, answers);
    }
    ShareBelowTotal(work);
  }

  lemma NicsInRange(numas: seq<nat>, entries: Entries, descs: seq<TransferDesc>, rs: seq<Routed>)
    requires |rs| == |descs| && forall i | 0 <= i < |descs| :: Faithful(numas, entries, descs[i], rs[i])
    ensures forall i | 0 <= i < |rs| :: rs[i].nic < |numas|
  {
  }

  /** Item `w` is the whole, non-empty bucket of a real session. */
  ghost predicate ItemOk(w: Work, rs: seq<Routed>, sizes: seq<nat>, rots: seq<nat>) {
    && |sizes| == |rots| && w.nic < |sizes| && w.qp < sizes[w.nic] && w.ops != []
    && w.ops == OnQp(OnNic(rs, w.nic), rots[w.nic], sizes[w.nic], w.qp)
  }

  ghost predicate ItemsOk(work: seq<Work>, rs: seq<Routed>, sizes: seq<nat>, rots: seq<nat>) {
    && (forall i | 0 <= i < |work| :: ItemOk(work[i], rs, sizes, rots))
    && (forall i, j | 0 <= i < j < |work| :: work[i].nic != work[j].nic || work[i].qp != work[j].qp)
  }

  ghost predicate OfNic(work: seq<Work>, nic: nat, k: nat) {
    forall i | 0 <= i < |work| :: work[i].nic == nic && work[i].qp < k
  }

  lemma ItemsSnoc(work: seq<Work>, w: Work, rs: seq<Routed>, sizes: seq<nat>, rots: seq<nat>)
    requires ItemsOk(work, rs, sizes, rots) && ItemOk(w, rs, sizes, rots)
    requires forall i | 0 <= i < |work| :: work[i].nic != w.nic || work[i].qp != w.qp
    ensures ItemsOk(work + [w], rs, sizes, rots)
  {
    hide ItemOk;
  }

  lemma {:induction false} QpItems(rs: seq<Routed>, sizes: seq<nat>, rots: seq<nat>, nic: nat, k: nat)
    requires Sessions(sizes, rots, |sizes|) && nic < |sizes| && k <= sizes[nic]
    ensures var w := QpWork(nic, OnNic(rs, nic), rots[nic], sizes[nic], k);
            ItemsOk(w, rs, sizes, rots) && OfNic(w, nic, k)
  {
    hide OnQp, OnNic, ItemsOk;
    if k == 0 {
      NoItems(rs, sizes, rots);
    } else {
      QpItems(rs, sizes, rots, nic, k - 1);
      var bucket := OnQp(OnNic(rs, nic), rots[nic], sizes[nic], k - 1);
      var work := QpWork(nic, OnNic(rs, nic), rots[nic], sizes[nic], k - 1);
      if bucket == [] {
        assert work + [] == work;
      } else {
        ItemsSnoc(work, Work(nic, k - 1, bucket), rs, sizes, rots);
      }
    }
  }

  lemma NoItems(rs: seq<Routed>, sizes: seq<nat>, rots: seq<nat>)
    ensures ItemsOk([], rs, sizes, rots)
  {
  }

  lemma ItemsAppend(a: seq<Work>, b: seq<Work>, nic: nat, k: nat, rs: seq<Routed>, sizes: seq<nat>, rots: seq<nat>)
    requires ItemsOk(a, rs, sizes, rots) && ItemsOk(b, rs, sizes, rots) && OfNic(b, nic, k)
    requires forall i | 0 <= i < |a| :: a[i].nic < nic
    ensures ItemsOk(a + b, rs, sizes, rots)
    ensures forall i | 0 <= i < |a + b| :: (a + b)[i].nic < nic + 1
  {
    hide ItemOk;
  }

  /** Each work item is a real session's whole bucket, none is empty, and no session gets two. */
  lemma {:induction false} WorkShape(rs: seq<Routed>, sizes: seq<nat>, rots: seq<nat>, k: nat)
    requires Sessions(sizes, rots, |sizes|) && k <= |sizes|
    ensures ItemsOk(NicWork(rs, sizes, rots, k), rs, sizes, rots)
    ensures forall i | 0 <= i < |NicWork(rs, sizes, rots, k)| :: NicWork(rs, sizes, rots, k)[i].nic < k
  {
    hide OnNic, QpWork, ItemsOk, OfNic;
    if k == 0 {
      NoItems(rs, sizes, rots);
    } else {
      var m := k - 1;
      WorkShape(rs, sizes, rots, m);
      QpItems(rs, sizes, rots, m, sizes[m]);
      var more := QpWork(m, OnNic(rs, m), rots[m], sizes[m], sizes[m]);
      ItemsAppend(NicWork(rs, sizes, rots, m), more, m, sizes[m], rs, sizes, rots);
    }
  }

  // ---------------------------------------------------------------------
  // Even spread

  /** How many `y < x` leave remainder `q` modulo `n`. */
  function Hits(x: nat, n: nat, q: nat): nat
    requires q < n
  {
    (x + n - 1 - q) / n
  }

  lemma Multiple(d: int, n: nat)
    ensures d > 0 ==> d * n >= n
    ensures d < 0 ==> d * n + n <= 0
  {
  }

  /** Quotient and remainder are the only pair that adds up. */
  lemma Quotient(a: nat, n: nat, k: nat, r: nat)
    requires n > 0 && a == k * n + r && r < n
    ensures a / n == k && a % n == r
  {
    var d := a / n - k;
    assert a == (a / n) * n + a % n;
    assert d * n == r - a % n;
    Multiple(d, n);
  }

  lemma HitsAre(x: nat, n: nat, q: nat, k: nat, r: nat)
    requires q < n && r < n && x == k * n + r
    ensures Hits(x, n, q) == if r <= q then k else k + 1
  {
    if r <= q {
      Quotient(x + n - 1 - q, n, k, r + n - 1 - q);
    } else {
      assert (k + 1) * n == k * n + n;
      Quotient(x + n - 1 - q, n, k + 1, r - 1 - q);
    }
  }

  lemma HitsNext(x: nat, n: nat, q: nat)
    requires q < n
    ensures Hits(x + 1, n, q) == Hits(x, n, q) + (if x % n == q then 1 else 0)
  {
    hide Hits;
    var k, r := x / n, x % n;
    assert x == k * n + r;
    HitsAre(x, n, q, k, r);
    if r + 1 < n {
      HitsAre(x + 1, n, q, k, r + 1);
    } else {
      assert (k + 1) * n == k * n + n;
      HitsAre(x + 1, n, q, k + 1, 0);
    }
  }

  lemma {:induction false} BucketSize(ops: seq<RdmaOp>, rot: nat, n: nat, qp: nat)
    requires qp < n && rot + |ops| <= TWO64
    ensures |OnQp(ops, rot, n, qp)| == Hits(rot + |ops|, n, qp) - Hits(rot, n, qp)
  {
    hide Hits;
    if ops != [] {
      var last := |ops| - 1;
      BucketSize(ops[..last], rot, n, qp);
      HitsNext(rot + last, n, qp);
      assert (rot + last) % TWO64 == rot + last;
    }
  }

  lemma HitsBound(x: nat, n: nat, q: nat)
    requires q < n
    ensures x - q <= n * Hits(x, n, q) < x - q + n
  {
    var a := x + n - 1 - q;
    assert a == n * (a / n) + a % n;
  }

  /** As long as the counter does not wrap within a NIC's ops, its sessions get even shares: each
      bucket has the average rounded down or up. */
  lemma SharesAreEven(ops: seq<RdmaOp>, rot: nat, n: nat, qp: nat)
    requires qp < n && rot + |ops| <= TWO64
    ensures |ops| - n < n * |OnQp(ops, rot, n, qp)| < |ops| + n
  {
    hide Hits, OnQp;
    BucketSize(ops, rot, n, qp);
    HitsBound(rot, n, qp);
    HitsBound(rot + |ops|, n, qp);
    Distribute(n, Hits(rot + |ops|, n, qp), Hits(rot, n, qp));
  }

  lemma Distribute(n: nat, a: int, b: int)
    ensures n * (a - b) == n * a - n * b
  {
  }
}
