/** The vocabulary shared by all modules, and that of the store backends: keys, devices, placements,
    specs, errors. */
module Types {

  const U64_MAX: nat := 0xFFFF_FFFF_FFFF_FFFF

  /** `u64`/`usize` counters wrap at this value. */
  const TWO64: nat := U64_MAX + 1

  type Byte = x: int | 0 <= x < 256

  type Key = seq<Byte>

  datatype Option<+T> = None | Some(value: T)

  datatype ErrorKind =
    | NotFound
    | Evicted
    | AlreadyExists
    | SpecMismatch
    | NoSpace
    | InvalidInput

  datatype Result<+T> = Ok(value: T) | Err(kind: ErrorKind)

  datatype Device = Cpu(numa: nat) | Gpu(index: nat)

  datatype Tier = Dram | Ssd | External

  datatype Placement =
    | Strict(device: Device)
    | Prefer(device: Device)
    | Each(devices: seq<Device>)
    | Anywhere

  datatype Retention = Cache | Explicit

  datatype SlotSpec = SlotSpec(len: nat, placement: Placement)

  datatype ObjectSpec = ObjectSpec(retention: Retention, slots: seq<SlotSpec>)

  /** One queued replica: which slot of which key was placed on the queue's device. */
  datatype Entry = Entry(key: Key, slot: nat)

  /** The queued entries of one key, in order. */
  function EntriesOf(queue: seq<Entry>, key: Key): seq<Entry> {
    if queue == [] then []
    else (if queue[0].key == key then [queue[0]] else []) + EntriesOf(queue[1..], key)
  }

  function Min(a: nat, b: nat): nat { if a <= b then a else b }

  ghost predicate NoDuplicates<T>(s: seq<T>) {
    forall i, j | 0 <= i < j < |s| :: s[i] != s[j]
  }

  // ---------------------------------------------------------------------
  // `retain`: what is kept, in order

  /** How many of the first `n` elements `keep` accepts. */
  ghost function Taken<T>(s: seq<T>, keep: T -> bool, n: nat): (r: nat)
    requires n <= |s|
    ensures r <= n
  {
    if n == 0 then 0 else Taken(s, keep, n - 1) + (if keep(s[n - 1]) then 1 else 0)
  }

  /** `t` has the elements of `s` that `keep` accepts and no others, each after those kept before it. */
  ghost predicate Sifted<T>(s: seq<T>, t: seq<T>, keep: T -> bool) {
    && |t| == Taken(s, keep, |s|)
    && forall p: nat | p < |s| && keep(s[p]) :: Taken(s, keep, p) < |t| && t[Taken(s, keep, p)] == s[p]
  }

  lemma {:induction false} TakenFront<T>(s: seq<T>, keep: T -> bool, n: nat)
    requires n < |s|
    ensures Taken(s, keep, n + 1) == (if keep(s[0]) then 1 else 0) + Taken(s[1..], keep, n)
  {
    if n > 0 {
      TakenFront(s, keep, n - 1);
      assert s[1..][n - 1] == s[n];
    }
  }

  lemma SiftedCons<T>(s: seq<T>, t: seq<T>, keep: T -> bool)
    requires s != [] && Sifted(s[1..], t, keep)
    ensures Sifted(s, (if keep(s[0]) then [s[0]] else []) + t, keep)
  {
    hide Taken;
    var rest, u := s[1..], (if keep(s[0]) then [s[0]] else []) + t;
    TakenFront(s, keep, |s| - 1);
    assert Taken(s, keep, 0) == 0 by { NoneTaken(s, keep); }
    forall p: nat | p < |s| && keep(s[p])
      ensures Taken(s, keep, p) < |u| && u[Taken(s, keep, p)] == s[p]
    {
      if p > 0 {
        TakenFront(s, keep, p - 1);
        assert rest[p - 1] == s[p];
      }
    }
  }

  lemma NoneTaken<T>(s: seq<T>, keep: T -> bool)
    ensures Taken(s, keep, 0) == 0
  {
  }
}
