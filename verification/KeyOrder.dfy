/** The lexicographic order of keys, and the run of keys that share a prefix. */
module KeyOrder {
  import opened Types

  predicate Less(a: Key, b: Key) {
    b != [] && (a == [] || a[0] < b[0] || (a[0] == b[0] && Less(a[1..], b[1..])))
  }

  lemma {:induction false} Irreflexive(a: Key)
    ensures !Less(a, a)
  {
    if a != [] { Irreflexive(a[1..]); }
  }

  lemma {:induction false} Transitive(a: Key, b: Key, c: Key)
    requires Less(a, b) && Less(b, c)
    ensures Less(a, c)
  {
    if a != [] && a[0] == b[0] == c[0] { Transitive(a[1..], b[1..], c[1..]); }
  }

  lemma {:induction false} Connected(a: Key, b: Key)
    ensures a == b || Less(a, b) || Less(b, a)
  {
    if a != [] && b != [] && a[0] == b[0] {
      Connected(a[1..], b[1..]);
      assert a == [a[0]] + a[1..] && b == [b[0]] + b[1..];
    }
  }

  /** A key with prefix `p` does not sort before `p`. */
  lemma {:induction false} PrefixNotAfter(p: Key, k: Key)
    requires p <= k
    ensures !Less(k, p)
  {
    if p != [] { PrefixNotAfter(p[1..], k[1..]); }
  }

  /** What lies between `p` and a key with prefix `p` has prefix `p` too. */
  lemma {:induction false} PrefixConvex(p: Key, a: Key, b: Key)
    requires p <= b && !Less(a, p) && Less(a, b)
    ensures p <= a
  {
    if p != [] { PrefixConvex(p[1..], a[1..], b[1..]); }
  }

  ghost predicate Ordered(ks: seq<Key>) {
    forall i, j | 0 <= i < j < |ks| :: Less(ks[i], ks[j])
  }

  predicate IsLeast(s: set<Key>, m: Key) {
    m in s && forall k | k in s && k != m :: Less(m, k)
  }

  lemma {:induction false} LeastExists(s: set<Key>)
    requires s != {}
    ensures exists m :: IsLeast(s, m)
    decreases s
  {
    var k :| k in s;
    if s == {k} {
      assert IsLeast(s, k);
    } else {
      LeastExists(s - {k});
      var m :| IsLeast(s - {k}, m);
      Connected(k, m);
      if Less(k, m) {
        forall j | j in s && j != k
          ensures Less(k, j)
        {
          if j != m { Transitive(k, m, j); }
        }
        assert IsLeast(s, k);
      } else {
        assert IsLeast(s, m);
      }
    }
  }

  lemma LeastUnique(s: set<Key>)
    ensures forall a, b | IsLeast(s, a) && IsLeast(s, b) :: a == b
  {
    forall a, b | IsLeast(s, a) && IsLeast(s, b)
      ensures a == b
    {
      if Less(a, b) && Less(b, a) { Transitive(a, b, a); }
      Irreflexive(a);
    }
  }

  function Least(s: set<Key>): (m: Key)
    requires s != {}
    ensures IsLeast(s, m)
  {
    LeastExists(s);
    LeastUnique(s);
    var m :| IsLeast(s, m);
    m
  }

  /** The keys of the ordered map, in iteration order. */
  function InOrder(s: set<Key>): seq<Key> {
    if s == {} then [] else [Least(s)] + InOrder(s - {Least(s)})
  }

  lemma {:induction false} InOrderExact(s: set<Key>)
    ensures Ordered(InOrder(s))
    ensures forall k :: k in InOrder(s) <==> k in s
  {
    hide Less;
    if s != {} {
      var m, rest := Least(s), InOrder(s - {Least(s)});
      InOrderExact(s - {m});
      forall j | 0 <= j < |rest| ensures Less(m, rest[j]) { assert rest[j] in rest; }
    }
  }

  /** `range(lo..)` of an ordered map. */
  function From(ks: seq<Key>, lo: Key): seq<Key> {
    if ks == [] || !Less(ks[0], lo) then ks else From(ks[1..], lo)
  }

  /** `take_while(|k| k.starts_with(p))`. */
  function WhilePrefix(ks: seq<Key>, p: Key): seq<Key> {
    if ks == [] || !(p <= ks[0]) then [] else [ks[0]] + WhilePrefix(ks[1..], p)
  }

  function PrefixRun(s: set<Key>, p: Key): seq<Key> {
    WhilePrefix(From(InOrder(s), p), p)
  }

  lemma {:induction false} FromExact(ks: seq<Key>, lo: Key)
    requires Ordered(ks)
    ensures Ordered(From(ks, lo))
    ensures forall k :: k in From(ks, lo) <==> k in ks && !Less(k, lo)
  {
    if ks != [] {
      if Less(ks[0], lo) {
        FromExact(ks[1..], lo);
        assert ks == [ks[0]] + ks[1..];
      } else {
        forall k | k in ks
          ensures !Less(k, lo)
        {
          var j :| 0 <= j < |ks| && ks[j] == k;
          if j > 0 && Less(k, lo) { Transitive(ks[0], k, lo); }
        }
      }
    }
  }

  /** Beyond the first key without the prefix no key has it. */
  lemma {:induction false} WhileExact(ks: seq<Key>, p: Key)
    requires Ordered(ks) && forall k | k in ks :: !Less(k, p)
    ensures Ordered(WhilePrefix(ks, p))
    ensures forall k :: k in WhilePrefix(ks, p) <==> k in ks && p <= k
  {
    if ks != [] {
      if p <= ks[0] {
        assert ks == [ks[0]] + ks[1..];
        WhileExact(ks[1..], p);
        var rest := WhilePrefix(ks[1..], p);
        forall j | 0 <= j < |rest| ensures Less(ks[0], rest[j]) { assert rest[j] in rest; }
      } else {
        forall k | k in ks
          ensures !(p <= k)
        {
          var j :| 0 <= j < |ks| && ks[j] == k;
          if j > 0 && p <= k { PrefixConvex(p, ks[0], k); }
        }
      }
    }
  }

  lemma {:induction false} OrderedCount(ks: seq<Key>)
    requires Ordered(ks)
    ensures |set k | k in ks| == |ks|
  {
    if ks != [] {
      OrderedCount(ks[1..]);
      if ks[0] in ks[1..] { Irreflexive(ks[0]); }
      assert (set k | k in ks) == {ks[0]} + set k | k in ks[1..];
    }
  }

  /** The run holds exactly the keys that start with the prefix, each once. */
  lemma PrefixRunExact(s: set<Key>, p: Key)
    ensures forall k :: k in PrefixRun(s, p) <==> k in s && p <= k
    ensures |PrefixRun(s, p)| == |set k | k in s && p <= k|
  {
    hide InOrder, From, WhilePrefix, Less;
    var ks := InOrder(s);
    InOrderExact(s);
    FromExact(ks, p);
    WhileExact(From(ks, p), p);
    forall k
      ensures k in PrefixRun(s, p) <==> k in s && p <= k
    {
      if p <= k { PrefixNotAfter(p, k); }
    }
    OrderedCount(PrefixRun(s, p));
    assert (set k | k in PrefixRun(s, p)) == set k | k in s && p <= k;
  }

  // ---------------------------------------------------------------------
  // Keys are endless

  lemma {:induction false} KeyBound(keys: set<Key>) returns (n: nat)
    ensures forall k | k in keys :: |k| < n
  {
    if keys == {} {
      n := 0;
    } else {
      var x :| x in keys;
      var m := KeyBound(keys - {x});
      n := if |x| < m then m else |x| + 1;
    }
  }

  lemma NewKey(keys: set<Key>) returns (k: Key)
    ensures k !in keys
  {
    var n := KeyBound(keys);
    k := seq(n, i => 0);
  }
}
