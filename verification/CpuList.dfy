/** CPU lists as text: the printed list, and the parser of the kernel's list format. */
module CpuList {
  import opened CoreSets
  import opened Decimals

  // ----- printing -----

  function Join(parts: seq<string>): string {
    if parts == [] then ""
    else if |parts| == 1 then parts[0]
    else parts[0] + "," + Join(parts[1..])
  }

  function Numbers(cpus: seq<int>): seq<string> {
    if cpus == [] then [] else [Decimal(cpus[0])] + Numbers(cpus[1..])
  }

  /** The distinct CPUs in ascending order, comma separated. */
  function Print(cpus: seq<int>): string {
    Join(Numbers(SortedDistinct(cpus)))
  }

  // ----- parsing -----

  function SplitOn(s: string, separator: char): (parts: seq<string>)
    ensures parts != []
  {
    if s == [] then [""]
    else if s[0] == separator then [""] + SplitOn(s[1..], separator)
    else
      var rest := SplitOn(s[1..], separator);
      [[s[0]] + rest[0]] + rest[1..]
  }

  function Before(s: string, c: char): string {
    if s == [] || s[0] == c then "" else [s[0]] + Before(s[1..], c)
  }

  function After(s: string, c: char): string {
    if s == [] then "" else if s[0] == c then s[1..] else After(s[1..], c)
  }

  /** The numbers from `lo` to `hi`, both included. */
  function Interval(lo: int, hi: int): (r: set<int>)
    ensures forall n :: n in r <==> lo <= n <= hi
    decreases hi - lo
  {
    if lo > hi then {} else {lo} + Interval(lo + 1, hi)
  }

  /** One item: a number or a range; anything unreadable adds nothing. */
  function ParseItem(text: string): set<int> {
    var part := Strip(text);
    if part == [] then {}
    else if '-' in part then
      var lo, hi := ParseInt(Before(part, '-')), ParseInt(After(part, '-'));
      if lo.Some? && hi.Some? then Interval(lo.value, hi.value) else {}
    else
      match ParseInt(part)
      case None => {}
      case Some(n) => {n}
  }

  function Union(parts: seq<string>): set<int> {
    if parts == [] then {} else ParseItem(parts[0]) + Union(parts[1..])
  }

  function Parse(text: string): set<int> {
    Union(SplitOn(text, ','))
  }

  lemma {:induction false} UnionConcat(a: seq<string>, b: seq<string>)
    ensures Union(a + b) == Union(a) + Union(b)
  {
    if a == [] {
      assert a + b == b;
    } else {
      assert (a + b)[1..] == a[1..] + b;
      UnionConcat(a[1..], b);
    }
  }

  method ParseCpuRanges(text: string) returns (cpus: set<int>)
    ensures cpus == Parse(text)
  {
    cpus := {};
    var parts := SplitOn(text, ',');
    for i := 0 to |parts|
      invariant cpus == Union(parts[..i])
    {
      assert parts[..i + 1] == parts[..i] + [parts[i]];
      UnionConcat(parts[..i], [parts[i]]);
      assert Union([parts[i]]) == ParseItem(parts[i]) + Union([]);
      var part := Strip(parts[i]);
      if part == [] {
        continue;
      }
      if '-' in part {
        var lo, hi := ParseInt(Before(part, '-')), ParseInt(After(part, '-'));
        if lo.Some? && hi.Some? {
          cpus := cpus + Interval(lo.value, hi.value);
        }
      } else {
        var n := ParseInt(part);
        if n.Some? {
          cpus := cpus + {n.value};
        }
      }
    }
    assert parts[..|parts|] == parts;
  }

  // ----- round trip -----

  /** An item of the list format of cpuset(7). */
  datatype Item = One(n: nat) | Range(lo: nat, hi: nat)

  function ItemText(item: Item): string {
    match item
    case One(n) => Decimal(n)
    case Range(lo, hi) => Decimal(lo) + "-" + Decimal(hi)
  }

  function ItemCpus(item: Item): set<int> {
    match item
    case One(n) => {n}
    case Range(lo, hi) => Interval(lo, hi)
  }

  function Texts(items: seq<Item>): seq<string> {
    if items == [] then [] else [ItemText(items[0])] + Texts(items[1..])
  }

  function Cpus(items: seq<Item>): set<int> {
    if items == [] then {} else ItemCpus(items[0]) + Cpus(items[1..])
  }

  lemma {:induction false} SplitFirst(a: string, rest: string, c: char)
    requires c !in a
    ensures SplitOn(a + [c] + rest, c) == [a] + SplitOn(rest, c)
  {
    if a == [] {
      assert ([] + [c] + rest)[1..] == rest;
    } else {
      assert (a + [c] + rest)[1..] == a[1..] + [c] + rest;
      SplitFirst(a[1..], rest, c);
      assert [a[0]] + a[1..] == a;
    }
  }

  lemma {:induction false} SplitNone(a: string, c: char)
    requires c !in a
    ensures SplitOn(a, c) == [a]
  {
    if a != [] {
      SplitNone(a[1..], c);
      assert [a[0]] + a[1..] == a;
    }
  }

  /** Splitting at commas undoes joining with them. */
  lemma {:induction false} SplitOfJoin(parts: seq<string>)
    requires parts != [] && forall p :: p in parts ==> ',' !in p
    ensures SplitOn(Join(parts), ',') == parts
  {
    assert parts[0] in parts;
    if |parts| == 1 {
      SplitNone(parts[0], ',');
    } else {
      assert forall p :: p in parts[1..] ==> p in parts;
      SplitOfJoin(parts[1..]);
      assert Join(parts) == parts[0] + [','] + Join(parts[1..]);
      SplitFirst(parts[0], Join(parts[1..]), ',');
    }
  }

  lemma {:induction false} BeforeAfter(a: string, rest: string, c: char)
    requires c !in a
    ensures Before(a + [c] + rest, c) == a && After(a + [c] + rest, c) == rest
  {
    if a == [] {
      assert ([] + [c] + rest)[1..] == rest;
    } else {
      assert (a + [c] + rest)[1..] == a[1..] + [c] + rest;
      BeforeAfter(a[1..], rest, c);
    }
  }

  lemma NumberHasNoDash(n: nat)
    ensures '-' !in Decimal(n) && ',' !in Decimal(n)
  {
    DecimalIsSolid(n);
  }

  lemma RangeIsSolid(lo: nat, hi: nat)
    ensures Strip(Decimal(lo) + "-" + Decimal(hi)) == Decimal(lo) + "-" + Decimal(hi)
  {
    DecimalIsSolid(lo);
    DecimalIsSolid(hi);
    var text := Decimal(lo) + "-" + Decimal(hi);
    assert text[0] == Decimal(lo)[0];
    assert text[|text| - 1] == Decimal(hi)[|Decimal(hi)| - 1];
    SolidTextStripsToItself(text);
  }

  lemma ItemParses(item: Item)
    ensures ',' !in ItemText(item) && ParseItem(ItemText(item)) == ItemCpus(item)
  {
    match item
    case One(n) =>
      NumberHasNoDash(n);
      DecimalIsSolid(n);
      ParseIntOfDecimal(n);
    case Range(lo, hi) =>
      NumberHasNoDash(lo);
      NumberHasNoDash(hi);
      RangeIsSolid(lo, hi);
      BeforeAfter(Decimal(lo), Decimal(hi), '-');
      assert Decimal(lo) + "-" + Decimal(hi) == Decimal(lo) + ['-'] + Decimal(hi);
      ParseIntOfDecimal(lo);
      ParseIntOfDecimal(hi);
      assert ItemText(item)[|Decimal(lo)|] == '-';
  }

  lemma {:induction false} TextsParse(items: seq<Item>)
    ensures Union(Texts(items)) == Cpus(items) && |Texts(items)| == |items|
    ensures forall p :: p in Texts(items) ==> ',' !in p
  {
    if items != [] {
      ItemParses(items[0]);
      TextsParse(items[1..]);
      assert Texts(items)[1..] == Texts(items[1..]);
    }
  }

  /** A list of numbers and ranges parses to exactly the union of what it lists. */
  lemma ListParsesToUnion(items: seq<Item>)
    ensures Parse(Join(Texts(items))) == Cpus(items)
  {
    TextsParse(items);
    if items == [] {
      assert SplitOn("", ',') == [""];
      assert Union([""]) == ParseItem("") + Union([]);
    } else {
      SplitOfJoin(Texts(items));
    }
  }

  lemma NegativeParsesToNothing(n: int)
    requires n < 0
    ensures ',' !in Decimal(n) && ParseItem(Decimal(n)) == {}
  {
    DecimalIsSolid(n);
    assert Decimal(n)[0] == '-';
    assert Before(Decimal(n), '-') == "";
    assert Strip("") == "";
  }

  lemma {:induction false} NumbersParse(cpus: seq<int>)
    ensures Union(Numbers(cpus)) == set n | n in cpus && n >= 0
    ensures forall p :: p in Numbers(cpus) ==> ',' !in p
    ensures |Numbers(cpus)| == |cpus|
  {
    if cpus != [] {
      NumbersParse(cpus[1..]);
      assert Numbers(cpus)[1..] == Numbers(cpus[1..]);
      if cpus[0] >= 0 {
        ItemParses(One(cpus[0]));
      } else {
        NegativeParsesToNothing(cpus[0]);
      }
    }
  }

  /** Printing and parsing give back the CPUs; only a negative id is lost. */
  lemma PrintParses(cpus: seq<int>)
    ensures Parse(Print(cpus)) == set n | n in cpus && n >= 0
    ensures Parse(Print(cpus)) == ToSet(cpus) <==> forall n :: n in cpus ==> n >= 0
  {
    var listed := SortedDistinct(cpus);
    SortedDistinctIsStrict(cpus);
    NumbersParse(listed);
    assert forall n :: n in listed <==> n in ToSet(listed);
    if listed == [] {
      assert SplitOn("", ',') == [""];
      assert Union([""]) == ParseItem("") + Union([]);
    } else {
      SplitOfJoin(Numbers(listed));
    }
    assert forall n :: n in cpus <==> n in ToSet(cpus);
  }

  lemma {:induction false} NumberAt(cpus: seq<int>, i: nat)
    requires i < |cpus|
    ensures |Numbers(cpus)| == |cpus| && Numbers(cpus)[i] == Decimal(cpus[i])
  {
    if i > 0 {
      NumberAt(cpus[1..], i - 1);
    } else if |cpus| > 1 {
      NumberAt(cpus[1..], 0);
    }
  }

  /** The printed text is the distinct CPUs in ascending order, each in decimal, between
      commas. */
  lemma PrintIsAscending(cpus: seq<int>)
    ensures cpus == [] ==> Print(cpus) == ""
    ensures cpus != [] ==>
      var parts, listed := SplitOn(Print(cpus), ','), ListSet(ToSet(cpus));
      |parts| == |listed| && forall i :: 0 <= i < |listed| ==> parts[i] == Decimal(listed[i])
  {
    var listed := SortedDistinct(cpus);
    SortedDistinctIsStrict(cpus);
    StrictListingIsUnique(listed, ListSet(ToSet(cpus)));
    NumbersParse(listed);
    if cpus == [] {
      assert listed == [];
    } else {
      assert cpus[0] in ToSet(cpus);
      assert listed != [];
      SplitOfJoin(Numbers(listed));
      forall i | 0 <= i < |listed|
        ensures Numbers(listed)[i] == Decimal(listed[i])
      {
        NumberAt(listed, i);
      }
    }
  }
}
