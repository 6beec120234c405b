/** Lists of core ids read as sets: strict order, sorting, and families of disjoint
    lists. */
module CoreSets {

  ghost predicate Strict(s: seq<int>) {
    forall i, j :: 0 <= i < j < |s| ==> s[i] < s[j]
  }

  predicate Ascending(s: seq<int>) {
    forall i, j :: 0 <= i < j < |s| ==> s[i] <= s[j]
  }

  function ToSet(s: seq<int>): set<int> {
    set c | c in s
  }

  lemma ToSetConcat(a: seq<int>, b: seq<int>)
    ensures ToSet(a + b) == ToSet(a) + ToSet(b)
  {
  }

  lemma ToSetEmpty(s: seq<int>)
    ensures ToSet(s) == {} <==> s == []
  {
    if s != [] {
      assert s[0] in ToSet(s);
    }
  }

  // ----- sorting -----

  function Insert(x: int, s: seq<int>): seq<int> {
    if s == [] then [x]
    else if x <= s[0] then [x] + s
    else [s[0]] + Insert(x, s[1..])
  }

  /** A sorted copy of the list, duplicates kept. */
  function Sorted(s: seq<int>): seq<int> {
    if s == [] then [] else Insert(s[0], Sorted(s[1..]))
  }

  lemma {:induction false} InsertMembers(x: int, s: seq<int>)
    ensures |Insert(x, s)| == |s| + 1
    ensures ToSet(Insert(x, s)) == {x} + ToSet(s)
    ensures multiset(Insert(x, s)) == multiset{x} + multiset(s)
  {
    if s != [] {
      assert s == [s[0]] + s[1..];
      if x > s[0] {
        InsertMembers(x, s[1..]);
        ToSetConcat([s[0]], Insert(x, s[1..]));
        ToSetConcat([s[0]], s[1..]);
      } else {
        ToSetConcat([x], s);
      }
    }
  }

  lemma ConsAscends(x: int, s: seq<int>)
    requires Ascending(s) && forall c :: c in s ==> x <= c
    ensures Ascending([x] + s)
  {
    ConsMembers(x, s);
  }

  lemma ConsKeepsOrder(x: int, s: seq<int>)
    requires Strict(s) && forall c :: c in s ==> x < c
    ensures Strict([x] + s)
  {
    ConsMembers(x, s);
  }

  lemma ConsMembers(x: int, s: seq<int>)
    ensures forall j :: 1 <= j < |s| + 1 ==> ([x] + s)[j] == s[j - 1] && ([x] + s)[j] in s
  {
  }

  lemma {:induction false} InsertAscending(x: int, s: seq<int>)
    requires Ascending(s)
    ensures Ascending(Insert(x, s))
  {
    if s != [] && x > s[0] {
      InsertAscending(x, s[1..]);
      InsertedIn(x, s[1..]);
      ConsAscends(s[0], Insert(x, s[1..]));
    } else {
      ConsAscends(x, s);
    }
  }

  lemma {:induction false} InsertStrict(x: int, s: seq<int>)
    requires Strict(s) && x !in s
    ensures Strict(Insert(x, s))
  {
    if s != [] && x > s[0] {
      InsertStrict(x, s[1..]);
      InsertedIn(x, s[1..]);
      ConsKeepsOrder(s[0], Insert(x, s[1..]));
    } else {
      ConsKeepsOrder(x, s);
    }
  }

  lemma InsertedIn(x: int, s: seq<int>)
    ensures forall c :: c in Insert(x, s) <==> c == x || c in s
  {
    InsertMembers(x, s);
    forall c
      ensures c in Insert(x, s) <==> c == x || c in s
    {
      assert c in ToSet(Insert(x, s)) <==> c in {x} + ToSet(s);
    }
  }

  /** Sorting permutes the list into ascending order. */
  lemma {:induction false} SortedIsAscendingPermutation(s: seq<int>)
    ensures Ascending(Sorted(s))
    ensures multiset(Sorted(s)) == multiset(s)
    ensures ToSet(Sorted(s)) == ToSet(s) && |Sorted(s)| == |s|
  {
    if s != [] {
      SortedIsAscendingPermutation(s[1..]);
      InsertAscending(s[0], Sorted(s[1..]));
      InsertMembers(s[0], Sorted(s[1..]));
      HeadAndRest(s);
    }
  }

  lemma HeadAndRest(s: seq<int>)
    requires s != []
    ensures multiset(s) == multiset{s[0]} + multiset(s[1..]) && ToSet(s) == {s[0]} + ToSet(s[1..])
  {
    assert s == [s[0]] + s[1..];
    ToSetConcat([s[0]], s[1..]);
    assert ToSet([s[0]]) == {s[0]};
  }

  ghost predicate NoDuplicates(s: seq<int>) {
    forall i, j :: 0 <= i < j < |s| ==> s[i] != s[j]
  }

  lemma {:induction false} SortedIsStrict(s: seq<int>)
    requires NoDuplicates(s)
    ensures Strict(Sorted(s))
  {
    if s != [] {
      SortedIsStrict(s[1..]);
      SortedIsAscendingPermutation(s[1..]);
      assert s[0] !in Sorted(s[1..]) by {
        assert s[0] in Sorted(s[1..]) <==> s[0] in ToSet(Sorted(s[1..]));
      }
      InsertStrict(s[0], Sorted(s[1..]));
    }
  }

  /** The members of a list, each kept once. */
  function Distinct(s: seq<int>): seq<int> {
    if s == [] then []
    else if s[0] in s[1..] then Distinct(s[1..])
    else [s[0]] + Distinct(s[1..])
  }

  function SortedDistinct(s: seq<int>): seq<int> {
    Sorted(Distinct(s))
  }

  lemma {:induction false} DistinctMembers(s: seq<int>)
    ensures ToSet(Distinct(s)) == ToSet(s) && NoDuplicates(Distinct(s))
  {
    if s != [] {
      DistinctMembers(s[1..]);
      assert s == [s[0]] + s[1..];
      ToSetConcat([s[0]], s[1..]);
      var rest := Distinct(s[1..]);
      assert s[0] in rest <==> s[0] in ToSet(rest);
      ToSetConcat([s[0]], rest);
    }
  }

  /** The sorted list of a list's members is its only strict listing. */
  lemma SortedDistinctIsStrict(s: seq<int>)
    ensures Strict(SortedDistinct(s)) && ToSet(SortedDistinct(s)) == ToSet(s)
    ensures s == SortedDistinct(s) <==> Strict(s)
  {
    DistinctMembers(s);
    SortedIsStrict(Distinct(s));
    SortedIsAscendingPermutation(Distinct(s));
    if Strict(s) {
      StrictListingIsUnique(s, SortedDistinct(s));
    }
  }

  /** Merging two disjoint sorted lists gives the sorted list of their union. */
  lemma SortedUnion(a: seq<int>, b: seq<int>)
    requires Strict(a) && Strict(b) && ToSet(a) !! ToSet(b)
    ensures Strict(Sorted(a + b)) && ToSet(Sorted(a + b)) == ToSet(a) + ToSet(b)
  {
    forall i, j | 0 <= i < j < |a + b|
      ensures (a + b)[i] != (a + b)[j]
    {
      if i < |a| <= j {
        assert a[i] in ToSet(a) && b[j - |a|] in ToSet(b);
      }
    }
    SortedIsStrict(a + b);
    SortedIsAscendingPermutation(a + b);
    ToSetConcat(a, b);
  }

  /** A set of cores has one strictly ascending listing. */
  lemma {:induction false} StrictListingIsUnique(a: seq<int>, b: seq<int>)
    requires Strict(a) && Strict(b) && ToSet(a) == ToSet(b)
    ensures a == b
  {
    if a == [] || b == [] {
      ToSetEmpty(a);
      ToSetEmpty(b);
    } else {
      assert a[0] in ToSet(b) && b[0] in ToSet(a);
      assert a[0] == b[0];
      assert a == [a[0]] + a[1..] && b == [b[0]] + b[1..];
      assert ToSet(a[1..]) == ToSet(a) - {a[0]};
      assert ToSet(b[1..]) == ToSet(b) - {b[0]};
      StrictListingIsUnique(a[1..], b[1..]);
    }
  }

  lemma {:induction false} StrictCardinality(s: seq<int>)
    requires Strict(s)
    ensures |ToSet(s)| == |s|
  {
    if s != [] {
      StrictCardinality(s[1..]);
      assert ToSet(s) == ToSet(s[1..]) + {s[0]};
      assert s[0] !in ToSet(s[1..]);
    }
  }

  lemma {:induction false} SubsetCardinality<T>(a: set<T>, b: set<T>)
    requires a <= b
    ensures |a| <= |b|
    ensures |a| == |b| ==> a == b
  {
    if a != {} {
      var x :| x in a;
      SubsetCardinality(a - {x}, b - {x});
    }
  }

  lemma StrictSubsetLength(a: seq<int>, b: seq<int>)
    requires Strict(a) && Strict(b) && ToSet(a) <= ToSet(b)
    ensures |a| <= |b|
    ensures |a| == |b| ==> a == b
  {
    StrictCardinality(a);
    StrictCardinality(b);
    SubsetCardinality(ToSet(a), ToSet(b));
    if |a| == |b| {
      StrictListingIsUnique(a, b);
    }
  }

  lemma SomeMember(cores: set<int>)
    ensures cores == {} || exists c :: c in cores
  {
    if forall c: int :: c !in cores {
      assert cores == {};
    }
  }

  /** The smallest member of a set. */
  method Least(cores: set<int>) returns (least: int)
    requires cores != {}
    ensures least in cores && forall c :: c in cores ==> least <= c
  {
    SomeMember(cores);
    least :| least in cores;
    var rest := cores;
    while rest != {}
      invariant rest <= cores && least in cores
      invariant forall c :: c in cores && c !in rest ==> least <= c
    {
      SomeMember(rest);
      var c :| c in rest;
      rest := rest - {c};
      if c < least {
        least := c;
      }
    }
  }

  /** The members of a set in ascending order. */
  method Ascend(cores: set<int>) returns (s: seq<int>)
    ensures s == ListSet(cores)
    ensures Strict(s) && ToSet(s) == cores
  {
    var rest := cores;
    s := [];
    while rest != {}
      invariant rest <= cores && Strict(s) && ToSet(s) == cores - rest
      invariant forall c, d :: c in s && d in rest ==> c < d
    {
      var least := Least(rest);
      rest := rest - {least};
      AppendLargest(s, least);
      s := s + [least];
    }
    StrictListingIsUnique(s, ListSet(cores));
  }

  lemma AppendLargest(s: seq<int>, c: int)
    requires Strict(s) && forall d :: d in s ==> d < c
    ensures Strict(s + [c]) && ToSet(s + [c]) == ToSet(s) + {c}
  {
    ToSetConcat(s, [c]);
    assert forall i :: 0 <= i < |s| ==> s[i] in s;
  }

  lemma StrictListingExists(cores: set<int>)
    ensures exists s :: Strict(s) && ToSet(s) == cores
  {
    if cores == {} {
      assert Strict([]) && ToSet([]) == cores;
    } else {
      SomeMember(cores);
      var c :| c in cores;
      StrictListingExists(cores - {c});
      var s :| Strict(s) && ToSet(s) == cores - {c};
      assert c in s ==> c in ToSet(s);
      InsertStrict(c, s);
      InsertMembers(c, s);
      assert Strict(Insert(c, s)) && ToSet(Insert(c, s)) == cores;
    }
  }

  /** The one ascending listing of a set. */
  ghost function ListSet(cores: set<int>): (s: seq<int>)
    ensures Strict(s) && ToSet(s) == cores
  {
    StrictListingExists(cores);
    var s :| Strict(s) && ToSet(s) == cores;
    s
  }

  // ----- families of groups -----

  function Cores(groups: seq<seq<int>>): set<int> {
    if groups == [] then {} else ToSet(groups[0]) + Cores(groups[1..])
  }

  /** No core belongs to two of the groups. */
  predicate Disjoint(groups: seq<seq<int>>) {
    groups == [] || (ToSet(groups[0]) !! Cores(groups[1..]) && Disjoint(groups[1..]))
  }

  lemma SingleGroup(g: seq<int>)
    ensures Cores([g]) == ToSet(g) && Disjoint([g])
  {
    assert [g][1..] == [];
    assert Cores([]) == {};
  }

  lemma {:induction false} CoresConcat(a: seq<seq<int>>, b: seq<seq<int>>)
    ensures Cores(a + b) == Cores(a) + Cores(b)
  {
    if a == [] {
      assert a + b == b;
    } else {
      assert (a + b)[1..] == a[1..] + b;
      CoresConcat(a[1..], b);
    }
  }

  lemma {:induction false} DisjointConcat(a: seq<seq<int>>, b: seq<seq<int>>)
    ensures Disjoint(a + b) <==> Disjoint(a) && Disjoint(b) && Cores(a) !! Cores(b)
  {
    if a == [] {
      assert a + b == b;
    } else {
      assert (a + b)[1..] == a[1..] + b;
      DisjointConcat(a[1..], b);
      CoresConcat(a[1..], b);
    }
  }

  lemma {:induction false} CoresHas(groups: seq<seq<int>>, c: int)
    ensures c in Cores(groups) <==> exists g :: g in groups && c in g
  {
    if groups != [] {
      CoresHas(groups[1..], c);
      if c in Cores(groups) {
        if c in ToSet(groups[0]) {
          assert groups[0] in groups;
        } else {
          var g :| g in groups[1..] && c in g;
          assert g in groups;
        }
      }
      if g :| g in groups && c in g {
        assert g == groups[0] || g in groups[1..];
      }
    }
  }

  lemma MemberWithin(groups: seq<seq<int>>, g: seq<int>)
    requires g in groups
    ensures ToSet(g) <= Cores(groups)
  {
    forall c | c in g
      ensures c in Cores(groups)
    {
      CoresHas(groups, c);
    }
  }

  /** Pairwise disjointness checked the way a running union does. */
  method CheckDisjoint(groups: seq<seq<int>>) returns (ok: bool)
    ensures ok <==> Disjoint(groups)
  {
    var seen: set<int> := {};
    var i := 0;
    while i < |groups|
      invariant 0 <= i <= |groups|
      invariant seen == Cores(groups[..i])
      invariant Disjoint(groups[..i])
    {
      assert groups[..i + 1] == groups[..i] + [groups[i]];
      DisjointConcat(groups[..i], [groups[i]]);
      CoresConcat(groups[..i], [groups[i]]);
      assert Cores([groups[i]]) == ToSet(groups[i]);
      if seen * ToSet(groups[i]) != {} {
        assert groups == groups[..i + 1] + groups[i + 1..];
        DisjointConcat(groups[..i + 1], groups[i + 1..]);
        return false;
      }
      seen := seen + ToSet(groups[i]);
      i := i + 1;
    }
    assert groups[..i] == groups;
    return true;
  }
}
