/** The compact CPU-list notation: printing runs of CPUs, and parsing it back. */
module CpuList {
  import opened Types

  // ---------------------------------------------------------------------
  // Decimal numbers

  predicate IsDigit(c: char) { '0' <= c <= '9' }

  function Digit(d: nat): (c: char)
    requires d < 10
    ensures IsDigit(c)
  {
    '0' + d as char
  }

  function Decimal(n: nat): (s: string)
    ensures s != [] && AllDigits(s)
  {
    if n < 10 then [Digit(n)] else Decimal(n / 10) + [Digit(n % 10)]
  }

  predicate AllDigits(s: string) { forall i | 0 <= i < |s| :: IsDigit(s[i]) }

  function DigitValue(c: char): nat
    requires IsDigit(c)
  {
    (c - '0') as nat
  }

  function Value(s: string): nat
    requires AllDigits(s)
  {
    if s == [] then 0 else 10 * Value(s[..|s| - 1]) + DigitValue(s[|s| - 1])
  }

  /** An unsigned 64-bit number: an optional plus sign, at least one digit, no overflow. */
  function ParseNumber(s: string): (r: Option<nat>)
    ensures r.Some? ==> r.value <= U64_MAX
  {
    var t := if s != [] && s[0] == '+' then s[1..] else s;
    if t == [] || !AllDigits(t) || Value(t) > U64_MAX then None else Some(Value(t))
  }

  lemma {:induction false} DecimalValue(n: nat)
    ensures Value(Decimal(n)) == n
  {
    if n >= 10 {
      DecimalValue(n / 10);
      var s := Decimal(n);
      assert s[..|s| - 1] == Decimal(n / 10) && s[|s| - 1] == Digit(n % 10);
    }
  }

  lemma NumberRoundTrip(n: nat)
    requires n <= U64_MAX
    ensures ParseNumber(Decimal(n)) == Some(n)
  {
    DecimalValue(n);
    assert IsDigit(Decimal(n)[0]);
  }

  // ---------------------------------------------------------------------
  // Splitting and joining

  predicate Lacks(s: string, c: char) { forall i | 0 <= i < |s| :: s[i] != c }

  /** The pieces between occurrences of `c`; always at least one. */
  function Split(s: string, c: char): (r: seq<string>)
    ensures r != []
  {
    if s == [] then [[]]
    else
      var rest := Split(s[1..], c);
      if s[0] == c then [[]] + rest else [[s[0]] + rest[0]] + rest[1..]
  }

  function Join(parts: seq<string>, c: char): string
    requires parts != []
  {
    if |parts| == 1 then parts[0] else parts[0] + [c] + Join(parts[1..], c)
  }

  lemma {:induction false} SplitPiece(a: string, c: char, rest: string)
    requires Lacks(a, c)
    ensures Split(a, c) == [a]
    ensures Split(a + [c] + rest, c) == [a] + Split(rest, c)
  {
    if a == [] {
      assert ([c] + rest)[1..] == rest && a + [c] + rest == [c] + rest;
    } else {
      SplitPiece(a[1..], c, rest);
      assert (a + [c] + rest)[1..] == a[1..] + [c] + rest;
      assert [a[0]] + a[1..] == a;
    }
  }

  lemma {:induction false} SplitJoin(parts: seq<string>, c: char)
    requires parts != [] && forall i | 0 <= i < |parts| :: Lacks(parts[i], c)
    ensures Split(Join(parts, c), c) == parts
  {
    if |parts| == 1 {
      SplitPiece(parts[0], c, []);
    } else {
      SplitJoin(parts[1..], c);
      SplitPiece(parts[0], c, Join(parts[1..], c));
    }
  }

  // ---------------------------------------------------------------------
  // Sorted lists without repetition

  ghost predicate Ascending(v: seq<nat>) {
    forall i, j | 0 <= i < j < |v| :: v[i] < v[j]
  }

  ghost predicate Fits(v: seq<nat>) {
    forall i | 0 <= i < |v| :: v[i] <= U64_MAX
  }

  function Insert(v: seq<nat>, x: nat): seq<nat> {
    if v == [] || x < v[0] then [x] + v
    else if x == v[0] then v
    else [v[0]] + Insert(v[1..], x)
  }

  /** What sorting and then dropping repetitions leaves. */
  function Normal(v: seq<nat>): seq<nat> {
    if v == [] then [] else Insert(Normal(v[1..]), v[0])
  }

  lemma {:induction false} InsertAscending(v: seq<nat>, x: nat)
    requires Ascending(v)
    ensures Ascending(Insert(v, x))
    ensures forall y :: y in Insert(v, x) <==> y == x || y in v
  {
    if v != [] && x > v[0] {
      InsertAscending(v[1..], x);
      var w := Insert(v[1..], x);
      assert v == [v[0]] + v[1..];
      assert forall y | y in w :: v[0] < y;
    } else if v != [] {
      assert v == [v[0]] + v[1..];
    }
  }

  lemma {:induction false} NormalIsSortedSet(v: seq<nat>)
    ensures Ascending(Normal(v))
    ensures forall y :: y in Normal(v) <==> y in v
  {
    if v != [] {
      NormalIsSortedSet(v[1..]);
      InsertAscending(Normal(v[1..]), v[0]);
      assert v == [v[0]] + v[1..];
    }
  }

  lemma {:induction false} AscendingIsNormal(v: seq<nat>)
    requires Ascending(v)
    ensures Normal(v) == v
  {
    if v != [] {
      AscendingIsNormal(v[1..]);
      assert v == [v[0]] + v[1..];
    }
  }

  // ---------------------------------------------------------------------
  // Printing

  datatype Run = Run(first: nat, last: nat)

  function Count(first: nat, last: nat): (v: seq<nat>)
    ensures |v| == if first <= last then last - first + 1 else 0
    ensures forall i | 0 <= i < |v| :: v[i] == first + i
  {
    seq(if first <= last then last - first + 1 else 0, i => first + i)
  }

  function Text(r: Run): string {
    if r.first == r.last then Decimal(r.first) else Decimal(r.first) + "-" + Decimal(r.last)
  }

  /** The maximal runs of a list that goes on from the run `[start, prev]`. */
  function Runs(start: nat, prev: nat, rest: seq<nat>): (r: seq<Run>)
    ensures r != []
    decreases |rest|
  {
    if rest == [] then [Run(start, prev)]
    else if rest[0] == prev + 1 then Runs(start, rest[0], rest[1..])
    else [Run(start, prev)] + Runs(rest[0], rest[0], rest[1..])
  }

  function Texts(runs: seq<Run>): (r: seq<string>)
    ensures |r| == |runs|
    ensures forall i | 0 <= i < |r| :: r[i] == Text(runs[i])
  {
    seq(|runs|, i requires 0 <= i < |runs| => Text(runs[i]))
  }

  function Format(v: seq<nat>): string {
    if v == [] then "" else Join(Texts(Runs(v[0], v[0], v[1..])), ',')
  }

  lemma TextsCons(r: Run, runs: seq<Run>)
    ensures Texts([r]) == [Text(r)]
    ensures Texts([r] + runs) == [Text(r)] + Texts(runs)
  {
    hide Text;
  }

  /** One turn of the printing loop, on the texts still to come. */
  lemma RunsStep(start: nat, prev: nat, cpus: seq<nat>, i: nat)
    requires i < |cpus|
    ensures cpus[i] == prev + 1 ==> Runs(start, prev, cpus[i..]) == Runs(start, cpus[i], cpus[i + 1..])
    ensures cpus[i] != prev + 1 ==>
              Texts(Runs(start, prev, cpus[i..])) ==
              [Text(Run(start, prev))] + Texts(Runs(cpus[i], cpus[i], cpus[i + 1..]))
  {
    hide Text;
    assert cpus[i..][0] == cpus[i] && cpus[i..][1..] == cpus[i + 1..];
    TextsCons(Run(start, prev), Runs(cpus[i], cpus[i], cpus[i + 1..]));
  }

  method PrintRun(start: nat, prev: nat) returns (s: string)
    ensures s == Text(Run(start, prev))
  {
    if start == prev {
      s := Decimal(start);
    } else {
      s := Decimal(start) + "-" + Decimal(prev);
    }
  }

  method FormatCpuList(cpus: seq<nat>) returns (s: string)
    ensures s == Format(cpus)
  {
    hide Runs, Texts, Text, Join;
    if cpus == [] {
      return "";
    }
    var result: seq<string> := [];
    var start, prev := cpus[0], cpus[0];
    ghost var all := Texts(Runs(cpus[0], cpus[0], cpus[1..]));
    assert [] + all == all;
    for i := 1 to |cpus|
      invariant result + Texts(Runs(start, prev, cpus[i..])) == all
    {
      var cpu := cpus[i];
      RunsStep(start, prev, cpus, i);
      if cpu == prev + 1 {
        prev := cpu;
      } else {
        var text := PrintRun(start, prev);
        Shift(result, text, Texts(Runs(cpu, cpu, cpus[i + 1..])));
        result := result + [text];
        start, prev := cpu, cpu;
      }
    }
    assert cpus[|cpus|..] == [];
    LastRun(start, prev);
    var text := PrintRun(start, prev);
    result := result + [text];
    s := Join(result, ',');
  }

  lemma Shift(a: seq<string>, t: string, b: seq<string>)
    ensures a + ([t] + b) == (a + [t]) + b
  {
  }

  lemma LastRun(start: nat, prev: nat)
    ensures Texts(Runs(start, prev, [])) == [Text(Run(start, prev))]
  {
    TextsCons(Run(start, prev), []);
  }

  // ---------------------------------------------------------------------
  // Parsing

  /** One piece: a number, or two numbers around one dash (nothing when the first is larger). */
  function ParsePart(part: string): Option<seq<nat>> {
    if Lacks(part, '-') then
      match ParseNumber(part) case Some(n) => Some([n]) case None => None
    else
      var ends := Split(part, '-');
      if |ends| != 2 then None
      else
        match (ParseNumber(ends[0]), ParseNumber(ends[1]))
        case (Some(a), Some(b)) => Some(Count(a, b))
        case _ => None
  }

  function ParseParts(parts: seq<string>): Option<seq<nat>> {
    if parts == [] then Some([])
    else
      match (ParseParts(parts[..|parts| - 1]), ParsePart(parts[|parts| - 1]))
      case (Some(v), Some(w)) => Some(v + w)
      case _ => None
  }

  function Parse(s: string): Option<seq<nat>> {
    if s == "" then Some([])
    else match ParseParts(Split(s, ',')) case Some(v) => Some(Normal(v)) case None => None
  }

  method ParseCpuList(s: string) returns (r: Option<seq<nat>>)
    ensures r == Parse(s)
  {
    hide Split, ParsePart, Normal;
    var cpus: seq<nat> := [];
    if s == "" {
      return Some(cpus);
    }
    var parts := Split(s, ',');
    assert parts[..0] == [];
    for i := 0 to |parts|
      invariant ParseParts(parts[..i]) == Some(cpus)
    {
      var part := parts[i];
      assert parts[..i + 1][..i] == parts[..i];
      var more := PushPart(part, cpus);
      if more.None? {
        PartsFail(parts, i);
        return None;
      }
      cpus := more.value;
    }
    assert parts[..|parts|] == parts;
    r := Some(Normal(cpus));
  }

  method PushPart(part: string, cpus: seq<nat>) returns (r: Option<seq<nat>>)
    ensures r == match ParsePart(part) case Some(w) => Some(cpus + w) case None => None
  {
    hide Split, ParseNumber, Count;
    if '-' in part {
      var range := Split(part, '-');
      if |range| != 2 {
        return None;
      }
      var start, end := ParseNumber(range[0]), ParseNumber(range[1]);
      if start.None? || end.None? {
        return None;
      }
      var out := cpus;
      var cpu := start.value;
      while cpu <= end.value
        invariant start.value <= cpu && (cpu == start.value || cpu <= end.value + 1)
        invariant out == cpus + Count(start.value, end.value)[..cpu - start.value]
      {
        CountPrefix(start.value, end.value, cpu);
        out := out + [cpu];
        cpu := cpu + 1;
      }
      ghost var all := Count(start.value, end.value);
      assert all[..cpu - start.value] == all;
      r := Some(out);
    } else {
      var cpu := ParseNumber(part);
      if cpu.None? {
        return None;
      }
      r := Some(cpus + [cpu.value]);
    }
  }

  lemma CountPrefix(first: nat, last: nat, x: nat)
    requires first <= x <= last
    ensures var w := Count(first, last); w[..x - first + 1] == w[..x - first] + [x]
  {
  }

  lemma {:induction false} PartsFail(parts: seq<string>, i: nat)
    requires i < |parts| && ParsePart(parts[i]).None?
    ensures ParseParts(parts).None?
    decreases |parts|
  {
    if i < |parts| - 1 { PartsFail(parts[..|parts| - 1], i); }
  }

  // ---------------------------------------------------------------------
  // Round trips

  lemma DecimalLacks(n: nat, c: char)
    requires !IsDigit(c)
    ensures Lacks(Decimal(n), c)
  {
  }

  lemma TextParses(r: Run)
    requires r.first <= r.last <= U64_MAX
    ensures ParsePart(Text(r)) == Some(Count(r.first, r.last))
    ensures Lacks(Text(r), ',')
  {
    hide Decimal, Split, ParseNumber, Count;
    var a, b := Decimal(r.first), Decimal(r.last);
    NumberRoundTrip(r.first);
    NumberRoundTrip(r.last);
    DecimalLacks(r.first, '-');
    DecimalLacks(r.last, '-');
    DecimalLacks(r.first, ',');
    DecimalLacks(r.last, ',');
    if r.first == r.last {
      CountSnoc(r.first, r.last);
    } else {
      var s := a + "-" + b;
      assert s[|a|] == '-';
      SplitPiece(a, '-', b);
      SplitPiece(b, '-', []);
      assert Split(s, '-') == [a, b];
    }
  }

  ghost predicate RunsFit(runs: seq<Run>) {
    forall i | 0 <= i < |runs| :: runs[i].first <= runs[i].last <= U64_MAX
  }

  function Flat(runs: seq<Run>): seq<nat> {
    if runs == [] then [] else Flat(runs[..|runs| - 1]) + Count(runs[|runs| - 1].first, runs[|runs| - 1].last)
  }

  lemma {:induction false} FlatCons(r: Run, runs: seq<Run>)
    ensures Flat([r] + runs) == Count(r.first, r.last) + Flat(runs)
  {
    if runs == [] {
      assert [r] + runs == [r] && [r][..0] == [];
      assert Flat([r]) == Flat([]) + Count(r.first, r.last);
    } else {
      var init, last := runs[..|runs| - 1], runs[|runs| - 1];
      FlatCons(r, init);
      assert ([r] + runs)[..|runs|] == [r] + init;
    }
  }

  lemma CountSnoc(first: nat, last: nat)
    ensures Count(last, last) == [last]
    ensures first <= last ==> Count(first, last + 1) == Count(first, last) + [last + 1]
  {
  }

  /** The runs of an ascending list, written out, are the list. */
  lemma {:induction false} RunsSpellTheList(start: nat, prev: nat, rest: seq<nat>)
    requires start <= prev <= U64_MAX && Fits(rest) && Ascending([prev] + rest)
    ensures Flat(Runs(start, prev, rest)) == Count(start, prev) + rest
    ensures RunsFit(Runs(start, prev, rest))
    decreases |rest|
  {
    hide Count, Flat, Ascending;
    if rest == [] {
      FlatCons(Run(start, prev), []);
      assert [Run(start, prev)] + [] == [Run(start, prev)];
      assert Flat([]) == [] by { FlatNone(); }
    } else {
      var head, tail := rest[0], rest[1..];
      AscendingTail(prev, rest);
      assert rest == [head] + tail;
      if head == prev + 1 {
        RunsSpellTheList(start, head, tail);
        CountSnoc(start, prev);
        assert Count(start, prev) + [head] + tail == Count(start, prev) + rest;
      } else {
        RunsSpellTheList(head, head, tail);
        FlatCons(Run(start, prev), Runs(head, head, tail));
        CountSnoc(head, head);
        assert Count(start, prev) + ([head] + tail) == Count(start, prev) + rest;
      }
    }
  }

  lemma FlatNone()
    ensures Flat([]) == []
  {
  }

  lemma AscendingTail(prev: nat, rest: seq<nat>)
    requires rest != [] && Ascending([prev] + rest)
    ensures prev < rest[0] && Ascending([rest[0]] + rest[1..])
  {
    var v := [prev] + rest;
    assert v[0] == prev && v[1] == rest[0];
    assert [rest[0]] + rest[1..] == v[1..];
  }

  /** Printing is compact: no two neighbouring runs of an ascending list could be one. */
  lemma {:induction false} RunsAreMaximal(start: nat, prev: nat, rest: seq<nat>)
    requires start <= prev && Ascending([prev] + rest)
    ensures var r := Runs(start, prev, rest);
            r[0].first == start && forall i | 0 <= i < |r| - 1 :: r[i].last + 1 < r[i + 1].first
    decreases |rest|
  {
    hide Ascending;
    if rest != [] {
      AscendingTail(prev, rest);
      RunsAreMaximal(if rest[0] == prev + 1 then start else rest[0], rest[0], rest[1..]);
    }
  }

  lemma {:induction false} PartsParse(runs: seq<Run>)
    requires RunsFit(runs)
    ensures ParseParts(Texts(runs)) == Some(Flat(runs))
    ensures forall i | 0 <= i < |runs| :: Lacks(Texts(runs)[i], ',')
  {
    hide Text, ParsePart, Lacks, Count;
    if runs != [] {
      var init, last := runs[..|runs| - 1], runs[|runs| - 1];
      PartsParse(init);
      TextParses(last);
      var texts := Texts(runs);
      assert texts[..|runs| - 1] == Texts(init) && texts[|runs| - 1] == Text(last);
      forall i | 0 <= i < |runs|
        ensures Lacks(texts[i], ',')
      {
        if i < |runs| - 1 { assert texts[i] == Texts(init)[i]; }
      }
    }
  }

  lemma TextsNotEmpty(runs: seq<Run>)
    requires runs != []
    ensures Join(Texts(runs), ',') != ""
  {
    assert Texts(runs)[0] == Text(runs[0]);
  }

  /** Printing and then parsing returns the list: every strictly ascending one, the empty one included. */
  lemma PrintThenParse(v: seq<nat>)
    requires Ascending(v) && Fits(v)
    ensures Parse(Format(v)) == Some(v)
  {
    if v != [] {
      var runs := Runs(v[0], v[0], v[1..]);
      assert [v[0]] + v[1..] == v && Count(v[0], v[0]) == [v[0]];
      RunsSpellTheList(v[0], v[0], v[1..]);
      PartsParse(runs);
      SplitJoin(Texts(runs), ',');
      TextsNotEmpty(runs);
      AscendingIsNormal(v);
    }
  }

  /** The parts of a printed list, between its commas: each is one maximal run, spelt as a number or as first,
      dash, last, and a dash is there exactly for a run of more than one. */
  ghost predicate Compact(parts: seq<string>, runs: seq<Run>) {
    && |parts| == |runs|
    && (forall i | 0 <= i < |runs| ::
          && runs[i].first <= runs[i].last && ParsePart(parts[i]) == Some(Count(runs[i].first, runs[i].last))
          && (Lacks(parts[i], '-') <==> runs[i].first == runs[i].last))
    && (forall i | 0 <= i < |runs| - 1 :: runs[i].last + 1 < runs[i + 1].first)
  }

  lemma TextDash(r: Run)
    ensures Lacks(Text(r), '-') <==> r.first == r.last
  {
    hide Decimal;
    var a := Decimal(r.first);
    DecimalLacks(r.first, '-');
    if r.first != r.last { assert Text(r)[|a|] == '-'; }
  }

  /** Printing is compact, on the text itself. */
  lemma PrintIsCompact(v: seq<nat>)
    requires v != [] && Ascending(v) && Fits(v)
    ensures exists runs :: Compact(Split(Format(v), ','), runs) && Flat(runs) == v
  {
    hide Split, Join, Text, ParsePart, Count, Lacks, Runs;
    var runs := Runs(v[0], v[0], v[1..]);
    assert [v[0]] + v[1..] == v;
    CountSnoc(v[0], v[0]);
    RunsSpellTheList(v[0], v[0], v[1..]);
    RunsAreMaximal(v[0], v[0], v[1..]);
    PartsParse(runs);
    SplitJoin(Texts(runs), ',');
    forall i | 0 <= i < |runs|
      ensures ParsePart(Texts(runs)[i]) == Some(Count(runs[i].first, runs[i].last))
      ensures Lacks(Texts(runs)[i], '-') <==> runs[i].first == runs[i].last
    {
      TextParses(runs[i]);
      TextDash(runs[i]);
    }
    assert Compact(Texts(runs), runs);
  }

  lemma PartFits(part: string)
    ensures ParsePart(part).Some? ==> Fits(ParsePart(part).value)
  {
  }

  lemma {:induction false} PartsFit(parts: seq<string>)
    ensures ParseParts(parts).Some? ==> Fits(ParseParts(parts).value)
  {
    hide ParsePart;
    if parts != [] {
      PartsFit(parts[..|parts| - 1]);
      PartFits(parts[|parts| - 1]);
    }
  }

  /** Every list that parsing yields is strictly ascending, and holds exactly the CPUs named. */
  lemma ParseIsAscending(s: string)
    ensures Parse(s).Some? ==> Ascending(Parse(s).value) && Fits(Parse(s).value)
    ensures s != "" && Parse(s).Some? ==>
              forall x :: x in Parse(s).value <==> x in ParseParts(Split(s, ',')).value
  {
    hide ParseParts, Split, Normal;
    if s != "" {
      var v := ParseParts(Split(s, ','));
      PartsFit(Split(s, ','));
      if v.Some? {
        NormalIsSortedSet(v.value);
        forall i | 0 <= i < |Normal(v.value)|
          ensures Normal(v.value)[i] <= U64_MAX
        {
          assert Normal(v.value)[i] in v.value;
        }
      }
    }
  }

  /** Parsing what was printed from a parsed list changes nothing. */
  lemma ParsePrintParse(s: string)
    requires Parse(s).Some?
    ensures Parse(Format(Parse(s).value)) == Parse(s)
  {
    ParseIsAscending(s);
    PrintThenParse(Parse(s).value);
  }
}
