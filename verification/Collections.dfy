/** Sequence, set and ordering facts shared by the models of the server's components. */
module Collections {

  datatype Option<+T> = None | Some(value: T)

  /* ---------- Sequences ---------- */

  ghost predicate Distinct<T>(s: seq<T>) {
    forall i, j :: 0 <= i < j < |s| ==> s[i] != s[j]
  }

  function Filter<T(!new)>(keep: T -> bool, s: seq<T>): (r: seq<T>)
    ensures forall x :: x in r <==> x in s && keep(x)
    ensures |r| <= |s|
  {
    if s == [] then []
    else if keep(s[0]) then [s[0]] + Filter(keep, s[1..])
    else Filter(keep, s[1..])
  }

  lemma {:induction false} FilterSnoc<T(!new)>(keep: T -> bool, s: seq<T>, x: T)
    ensures Filter(keep, s + [x]) == Filter(keep, s) + (if keep(x) then [x] else [])
  {
    if s == [] {
      assert s + [x] == [x];
      assert [x][1..] == [];
    } else {
      assert (s + [x])[1..] == s[1..] + [x];
      FilterSnoc(keep, s[1..], x);
    }
  }

  lemma {:induction false} FilterConcat<T(!new)>(keep: T -> bool, s: seq<T>, t: seq<T>)
    ensures Filter(keep, s + t) == Filter(keep, s) + Filter(keep, t)
  {
    if s == [] {
      assert s + t == t;
    } else {
      assert (s + t)[1..] == s[1..] + t;
      FilterConcat(keep, s[1..], t);
    }
  }

  lemma {:induction false} FilterKeepsDistinct<T(!new)>(keep: T -> bool, s: seq<T>)
    requires Distinct(s)
    ensures Distinct(Filter(keep, s))
  {
    if s != [] {
      FilterKeepsDistinct(keep, s[1..]);
      assert forall x :: x in s[1..] ==> x != s[0];
    }
  }

  function Map<S, T>(f: S -> T, s: seq<S>): (r: seq<T>)
    ensures |r| == |s|
    ensures forall i :: 0 <= i < |s| ==> r[i] == f(s[i])
  {
    seq(|s|, i requires 0 <= i < |s| => f(s[i]))
  }

  lemma CountCons<T>(s: seq<T>, x: T)
    requires s != []
    ensures multiset(s)[x] == multiset(s[1..])[x] + if s[0] == x then 1 else 0
  {
    assert s == [s[0]] + s[1..];
  }

  lemma {:induction false} FilterCount<T(!new)>(keep: T -> bool, s: seq<T>, x: T)
    ensures multiset(Filter(keep, s))[x] == if keep(x) then multiset(s)[x] else 0
  {
    if s != [] {
      FilterCount(keep, s[1..], x);
      CountCons(s, x);
    }
  }

  lemma {:induction false} FilterNone<T(!new)>(keep: T -> bool, s: seq<T>)
    requires forall x :: x in s ==> !keep(x)
    ensures Filter(keep, s) == []
  {
    if s != [] { FilterNone(keep, s[1..]); }
  }

  lemma {:induction false} FilterAll<T(!new)>(keep: T -> bool, s: seq<T>)
    requires forall x :: x in s ==> keep(x)
    ensures Filter(keep, s) == s
  {
    if s != [] { FilterAll(keep, s[1..]); }
  }

  lemma {:induction false} FilterSame<T(!new)>(keep: T -> bool, same: T -> bool, s: seq<T>)
    requires forall x :: x in s ==> (keep(x) <==> same(x))
    ensures Filter(keep, s) == Filter(same, s)
  {
    if s != [] { FilterSame(keep, same, s[1..]); }
  }

  function Flatten<T>(parts: seq<seq<T>>): seq<T> {
    if parts == [] then [] else parts[0] + Flatten(parts[1..])
  }

  lemma {:induction false} FlattenSnoc<T>(parts: seq<seq<T>>, last: seq<T>)
    ensures Flatten(parts + [last]) == Flatten(parts) + last
  {
    if parts == [] {
      assert parts + [last] == [last];
      assert Flatten([last]) == last + Flatten([]);
    } else {
      assert (parts + [last])[1..] == parts[1..] + [last];
      FlattenSnoc(parts[1..], last);
    }
  }

  /** Parts with distinct keys, of which only the one keyed k holds x, hold it as often as that part. */
  lemma {:induction false} CountInParts<T>(parts: seq<seq<T>>, keys: seq<string>, x: T, k: string, n: nat)
    requires |parts| == |keys| && Distinct(keys)
    requires forall i :: 0 <= i < |parts| ==> multiset(parts[i])[x] == if keys[i] == k then n else 0
    ensures multiset(Flatten(parts))[x] == if k in keys then n else 0
  {
    if parts != [] {
      CountInParts(parts[1..], keys[1..], x, k, n);
      assert keys == [keys[0]] + keys[1..];
      assert multiset(Flatten(parts))[x] == multiset(parts[0])[x] + multiset(Flatten(parts[1..]))[x];
    }
  }

  lemma {:induction false} DistinctSameElements<T(!new)>(s: seq<T>, t: seq<T>)
    requires Distinct(s) && Distinct(t)
    requires forall x :: x in s <==> x in t
    ensures multiset(s) == multiset(t)
  {
    forall x ensures multiset(s)[x] == multiset(t)[x] {
      DistinctCount(s, x);
      DistinctCount(t, x);
    }
  }

  lemma {:induction false} DistinctCount<T>(s: seq<T>, x: T)
    requires Distinct(s)
    ensures multiset(s)[x] == if x in s then 1 else 0
  {
    if s != [] {
      assert s == [s[0]] + s[1..];
      DistinctCount(s[1..], x);
    }
  }

  lemma {:induction false} SingleCountsAreDistinct<T(!new)>(s: seq<T>)
    requires forall x :: multiset(s)[x] <= 1
    ensures Distinct(s)
  {
    forall i, j | 0 <= i < j < |s| ensures s[i] != s[j] {
      var before, after := s[..j], s[j + 1..];
      assert s == before + [s[j]] + after;
      assert multiset(s)[s[j]] == multiset(before)[s[j]] + 1 + multiset(after)[s[j]];
      assert before[i] == s[i] && s[i] in multiset(before);
    }
  }

  lemma WithoutOne<T>(s: seq<T>, i: nat)
    requires i < |s|
    ensures multiset(s[..i] + s[i + 1..]) == multiset(s) - multiset{s[i]}
  {
    assert s == s[..i] + [s[i]] + s[i + 1..];
  }

  lemma PositionIn<T>(t: seq<T>, x: T) returns (i: nat)
    requires x in multiset(t)
    ensures i < |t| && t[i] == x
  {
    i :| 0 <= i < |t| && t[i] == x;
  }

  /** The first element of s found in t, and what is left of both without it. */
  lemma RemoveCommon<T>(s: seq<T>, t: seq<T>) returns (i: nat)
    requires multiset(s) == multiset(t) && s != []
    ensures i < |t| && t[i] == s[0] && multiset(s[1..]) == multiset(t[..i] + t[i + 1..])
  {
    assert s[0] in multiset(s);
    i := PositionIn(t, s[0]);
    WithoutOne(t, i);
    assert s == [s[0]] + s[1..];
  }

  /* ---------- Grouping ---------- */

  /** The value of a key in a map of lists; a missing key reads as empty. */
  function Get<K, T>(m: map<K, seq<T>>, k: K): seq<T> {
    if k in m then m[k] else []
  }

  function Grouped<K, T>(keyOf: T -> Option<K>, items: seq<T>): map<K, seq<T>> {
    if items == [] then map[]
    else
      var before, x := Grouped(keyOf, items[..|items| - 1]), items[|items| - 1];
      if keyOf(x).Some? then before[keyOf(x).value := Get(before, keyOf(x).value) + [x]] else before
  }

  function KeyedBy<K(==), T>(keyOf: T -> Option<K>, k: K): T -> bool {
    x => keyOf(x) == Some(k)
  }

  /** A group is the ordered filter of the items with that key, and only non-empty groups exist. */
  lemma {:induction false} GroupIsFilter<K, T(!new)>(keyOf: T -> Option<K>, items: seq<T>, k: K)
    ensures Get(Grouped(keyOf, items), k) == Filter(KeyedBy(keyOf, k), items)
    ensures k in Grouped(keyOf, items) <==> exists x :: x in items && keyOf(x) == Some(k)
  {
    if items != [] {
      var last := |items| - 1;
      var keep := KeyedBy(keyOf, k);
      GroupIsFilter(keyOf, items[..last], k);
      assert items == items[..last] + [items[last]];
      FilterSnoc(keep, items[..last], items[last]);
    }
  }

  lemma GroupKeys<K, T(!new)>(keyOf: T -> Option<K>, items: seq<T>)
    ensures Grouped(keyOf, items).Keys == set x | x in items && keyOf(x).Some? :: keyOf(x).value
  {
    forall k ensures k in Grouped(keyOf, items).Keys <==> exists x :: x in items && keyOf(x) == Some(k) {
      GroupIsFilter(keyOf, items, k);
    }
  }

  /** Appends each item to its group, in one pass. */
  method GroupBy<K(==), T>(keyOf: T -> Option<K>, items: seq<T>) returns (groups: map<K, seq<T>>)
    ensures groups == Grouped(keyOf, items)
  {
    groups := map[];
    assert items[..0] == [];
    for i := 0 to |items|
      invariant groups == Grouped(keyOf, items[..i])
    {
      assert items[..i + 1][..i] == items[..i];
      var k := keyOf(items[i]);
      if k.Some? {
        groups := groups[k.value := Get(groups, k.value) + [items[i]]];
      }
    }
    assert items[..|items|] == items;
  }

  /* ---------- Sorting ---------- */

  /** A strict order in which incomparable elements may be ties. */
  ghost predicate WeakOrder<T(!new)>(before: (T, T) -> bool) {
    && (forall x, y :: before(x, y) ==> !before(y, x))
    && forall x, y, z :: !before(y, x) && !before(z, y) ==> !before(z, x)
  }

  ghost predicate SortedWith<T(!new)>(before: (T, T) -> bool, s: seq<T>) {
    forall i, j :: 0 <= i < j < |s| ==> !before(s[j], s[i])
  }

  function TiesWith<T>(before: (T, T) -> bool, x: T): T -> bool {
    y => !before(x, y) && !before(y, x)
  }

  /** Elements that tie are in the same order in both lists. */
  ghost predicate SameTies<T(!new)>(before: (T, T) -> bool, r: seq<T>, s: seq<T>) {
    forall x :: Filter(TiesWith(before, x), r) == Filter(TiesWith(before, x), s)
  }

  /** What a stable library sort promises. */
  method StableSort<T(!new, ==)>(before: (T, T) -> bool, s: seq<T>) returns (r: seq<T>)
    requires WeakOrder(before)
    ensures SortedWith(before, r)
    ensures multiset(r) == multiset(s)
    ensures SameTies(before, r, s)
  {
    r := [];
    for i := 0 to |s|
      invariant SortedWith(before, r)
      invariant multiset(r) == multiset(s[..i])
      invariant SameTies(before, r, s[..i])
    {
      assert s[..i + 1] == s[..i] + [s[i]];
      ghost var was := r;
      r := Insert(before, r, s[i]);
      TiesNext(before, r, was, s[..i], s[i]);
    }
    assert s[..|s|] == s;
  }

  lemma TiesNext<T(!new)>(before: (T, T) -> bool, r: seq<T>, was: seq<T>, s: seq<T>, x: T)
    requires SameTies(before, was, s) && SameTies(before, r, was + [x])
    ensures SameTies(before, r, s + [x])
  {
    forall y ensures Filter(TiesWith(before, y), r) == Filter(TiesWith(before, y), s + [x]) {
      FilterSnoc(TiesWith(before, y), was, x);
      FilterSnoc(TiesWith(before, y), s, x);
    }
  }

  /** What any library sort promises: an ordered permutation, with no promise about ties. */
  method Sort<T(!new, ==)>(before: (T, T) -> bool, s: seq<T>) returns (r: seq<T>)
    requires WeakOrder(before)
    ensures SortedWith(before, r)
    ensures multiset(r) == multiset(s)
  {
    r := StableSort(before, s);
  }

  /** Inserts after the elements that tie with x. */
  method Insert<T(!new, ==)>(before: (T, T) -> bool, s: seq<T>, x: T) returns (r: seq<T>)
    requires WeakOrder(before) && SortedWith(before, s)
    ensures SortedWith(before, r)
    ensures multiset(r) == multiset(s) + multiset{x}
    ensures SameTies(before, r, s + [x])
  {
    var k := |s|;
    while k > 0 && before(x, s[k - 1])
      invariant 0 <= k <= |s|
      invariant forall j :: k <= j < |s| ==> before(x, s[j])
    {
      k := k - 1;
    }
    r := s[..k] + [x] + s[k..];
    InsertKeepsOrder(before, s, k, x);
    InsertKeepsTies(before, s, k, x);
    assert s == s[..k] + s[k..];
  }

  lemma InsertKeepsTies<T(!new)>(before: (T, T) -> bool, s: seq<T>, k: nat, x: T)
    requires WeakOrder(before) && k <= |s|
    requires forall j :: k <= j < |s| ==> before(x, s[j])
    ensures SameTies(before, s[..k] + [x] + s[k..], s + [x])
  {
    forall y ensures Filter(TiesWith(before, y), s[..k] + [x] + s[k..]) == Filter(TiesWith(before, y), s + [x]) {
      var ties := TiesWith(before, y);
      if ties(x) {
        forall z | z in s[k..] ensures !ties(z) { LaterIsNoTie(before, x, y, z); }
      }
      FilterMovesLast(ties, s[..k], x, s[k..]);
      assert s[..k] + s[k..] == s;
    }
  }

  lemma LaterIsNoTie<T(!new)>(before: (T, T) -> bool, x: T, y: T, z: T)
    requires WeakOrder(before) && before(x, z) && TiesWith(before, y)(x)
    ensures !TiesWith(before, y)(z)
  {
    assert !before(y, z) && !before(x, y) ==> !before(x, z);
  }

  lemma FilterMovesLast<T(!new)>(keep: T -> bool, a: seq<T>, x: T, b: seq<T>)
    requires keep(x) ==> forall z :: z in b ==> !keep(z)
    ensures Filter(keep, a + [x] + b) == Filter(keep, a + b + [x])
  {
    FilterAround(keep, a, x, b);
    FilterSnoc(keep, a + b, x);
    FilterConcat(keep, a, b);
    if keep(x) { FilterNone(keep, b); }
    SwapEmpty(Filter(keep, a), if keep(x) then [x] else [], Filter(keep, b));
  }

  lemma SwapEmpty<T>(a: seq<T>, b: seq<T>, c: seq<T>)
    requires b == [] || c == []
    ensures a + b + c == a + c + b
  {
  }

  lemma FilterAround<T(!new)>(keep: T -> bool, a: seq<T>, x: T, b: seq<T>)
    ensures Filter(keep, a + [x] + b) == Filter(keep, a) + (if keep(x) then [x] else []) + Filter(keep, b)
  {
    FilterConcat(keep, a + [x], b);
    FilterSnoc(keep, a, x);
  }

  lemma InsertKeepsOrder<T(!new)>(before: (T, T) -> bool, s: seq<T>, k: nat, x: T)
    requires WeakOrder(before) && SortedWith(before, s) && k <= |s|
    requires k > 0 ==> !before(x, s[k - 1])
    requires forall j :: k <= j < |s| ==> before(x, s[j])
    ensures SortedWith(before, s[..k] + [x] + s[k..])
  {
    forall j | 0 <= j < k ensures !before(x, s[j]) {
      if j < k - 1 { assert !before(s[k - 1], s[j]); }
    }
    var r := s[..k] + [x] + s[k..];
    forall i, j | 0 <= i < j < |r| ensures !before(r[j], r[i]) {
      var a := if i < k then s[i] else if i == k then x else s[i - 1];
      var b := if j < k then s[j] else if j == k then x else s[j - 1];
      assert r[i] == a && r[j] == b;
    }
  }

  /** A stable sort has one possible result. */
  lemma {:induction false} StableSortIsUnique<T(!new)>(before: (T, T) -> bool, s: seq<T>, t: seq<T>)
    requires WeakOrder(before) && SortedWith(before, s) && SortedWith(before, t) && SameTies(before, s, t)
    ensures s == t
  {
    SameTiesSameEmptiness(before, s, t);
    if s != [] {
      StableHeadsAgree(before, s, t);
      forall x ensures Filter(TiesWith(before, x), s[1..]) == Filter(TiesWith(before, x), t[1..]) {
        FilterTails(TiesWith(before, x), s, t);
      }
      StableSortIsUnique(before, s[1..], t[1..]);
      assert s == [s[0]] + s[1..] && t == [t[0]] + t[1..];
    }
  }

  lemma SameTiesSameEmptiness<T(!new)>(before: (T, T) -> bool, s: seq<T>, t: seq<T>)
    requires WeakOrder(before) && SameTies(before, s, t)
    ensures s == [] <==> t == []
  {
    if s != [] { assert s[0] in Filter(TiesWith(before, s[0]), s); }
    if t != [] { assert t[0] in Filter(TiesWith(before, t[0]), t); }
  }

  lemma FilterTails<T(!new)>(keep: T -> bool, s: seq<T>, t: seq<T>)
    requires s != [] && t != [] && s[0] == t[0] && Filter(keep, s) == Filter(keep, t)
    ensures Filter(keep, s[1..]) == Filter(keep, t[1..])
  {
    if keep(s[0]) {
      assert Filter(keep, s)[1..] == Filter(keep, s[1..]) && Filter(keep, t)[1..] == Filter(keep, t[1..]);
    }
  }

  lemma StableHeadsAgree<T(!new)>(before: (T, T) -> bool, s: seq<T>, t: seq<T>)
    requires WeakOrder(before) && SortedWith(before, s) && SortedWith(before, t) && SameTies(before, s, t) && s != []
            && t != []
    ensures s[0] == t[0]
  {
    var ofS, ofT := TiesWith(before, s[0]), TiesWith(before, t[0]);
    assert Filter(ofS, s) == Filter(ofS, t) && Filter(ofT, s) == Filter(ofT, t);
    assert s[0] in Filter(ofS, s) && t[0] in Filter(ofT, t);
    assert s[0] in t && t[0] in s;
    assert ofS(t[0]);
    assert Filter(ofS, s)[0] == s[0] && Filter(ofS, t)[0] == t[0];
  }

  lemma PermutedDistinct<T(!new)>(s: seq<T>, t: seq<T>)
    requires multiset(s) == multiset(t) && Distinct(s)
    ensures Distinct(t) && |s| == |t| && forall x :: x in s <==> x in t
  {
    forall x ensures multiset(t)[x] <= 1 && (x in s <==> x in t) {
      DistinctCount(s, x);
      assert x in multiset(s) <==> x in multiset(t);
    }
    SingleCountsAreDistinct(t);
    assert |multiset(s)| == |multiset(t)|;
  }

  ghost predicate SortedBy<T(!new)>(key: T -> int, s: seq<T>) {
    forall i, j :: 0 <= i < j < |s| ==> key(s[i]) <= key(s[j])
  }

  function ByKey<T>(key: T -> int): (T, T) -> bool {
    (x, y) => key(x) < key(y)
  }

  method SortByKey<T(!new, ==)>(key: T -> int, s: seq<T>) returns (r: seq<T>)
    ensures SortedBy(key, r)
    ensures multiset(r) == multiset(s)
  {
    r := Sort(ByKey(key), s);
    assert forall i, j :: 0 <= i < j < |r| ==> !ByKey(key)(r[j], r[i]);
  }

  /** With distinct keys the ordered permutation is unique, so the sorting algorithm is irrelevant. */
  lemma {:induction false} SortedPermutationUnique<T(!new)>(key: T -> int, s: seq<T>, t: seq<T>)
    requires multiset(s) == multiset(t)
    requires SortedBy(key, s) && SortedBy(key, t)
    requires forall i, j :: 0 <= i < j < |s| ==> key(s[i]) != key(s[j])
    ensures s == t
  {
    assert |s| == |multiset(s)| == |multiset(t)| == |t|;
    if s != [] {
      SortedHeadsAgree(key, s, t);
      SameTails(s, t);
      SortedPermutationUnique(key, s[1..], t[1..]);
      assert s == [s[0]] + s[1..] && t == [t[0]] + t[1..];
    }
  }

  lemma SameTails<T>(s: seq<T>, t: seq<T>)
    requires multiset(s) == multiset(t) && s != [] && t != [] && s[0] == t[0]
    ensures multiset(s[1..]) == multiset(t[1..])
  {
    assert s == [s[0]] + s[1..] && t == [s[0]] + t[1..];
    assert multiset(s[1..]) == multiset(s) - multiset{s[0]};
    assert multiset(t[1..]) == multiset(t) - multiset{s[0]};
  }

  lemma SortedHeadsAgree<T(!new)>(key: T -> int, s: seq<T>, t: seq<T>)
    requires multiset(s) == multiset(t) && s != [] && t != []
    requires SortedBy(key, s) && SortedBy(key, t)
    requires forall i, j :: 0 <= i < j < |s| ==> key(s[i]) != key(s[j])
    ensures s[0] == t[0]
  {
    assert s[0] in multiset(t) && t[0] in multiset(s);
    var i :| 0 <= i < |s| && s[i] == t[0];
    var j :| 0 <= j < |t| && t[j] == s[0];
    assert key(t[0]) <= key(t[j]);
  }

  /* ---------- Sets ---------- */

  function Members<T>(s: seq<T>): set<T> {
    set x | x in s
  }

  /* ---------- Minimum and maximum of a set ---------- */

  ghost predicate IsLeast(m: int, s: set<int>) {
    m in s && forall x :: x in s ==> m <= x
  }

  ghost function AnyOf<T>(s: set<T>): (x: T)
    requires s != {}
    ensures x in s
  {
    var x :| x in s;
    x
  }

  lemma {:induction false} LeastExists(s: set<int>)
    requires s != {}
    ensures exists m :: IsLeast(m, s)
    decreases |s|
  {
    var x := AnyOf(s);
    var rest := s - {x};
    if rest == {} {
      assert forall y :: y in s ==> y == x || y in rest;
      assert IsLeast(x, s);
    } else {
      LeastExists(rest);
      var m :| IsLeast(m, rest);
      assert forall y :: y in s ==> y == x || y in rest;
      assert IsLeast(if x < m then x else m, s);
    }
  }

  function MinOf(s: set<int>): (r: Option<int>)
    ensures r.None? <==> s == {}
    ensures r.Some? ==> r.value in s && forall x :: x in s ==> r.value <= x
  {
    if s == {} then None
    else
      LeastExists(s);
      assert exists m :: IsLeast(m, s);
      var m :| m in s && forall x :: x in s ==> m <= x;
      Some(m)
  }

  function MaxOf(s: set<int>): (r: Option<int>)
    ensures r.None? <==> s == {}
    ensures r.Some? ==> r.value in s && forall x :: x in s ==> x <= r.value
  {
    var negated := set x | x in s :: -x;
    var n := MinOf(negated);
    assert forall x :: x in s ==> -x in negated;
    if n.None? then None else Some(-n.value)
  }

  /* ---------- String order ---------- */

  predicate StrLess(a: string, b: string) {
    b != [] && (a == [] || a[0] < b[0] || (a[0] == b[0] && StrLess(a[1..], b[1..])))
  }

  /** The order of strings is that of the first place where they differ; a proper prefix comes first. */
  lemma {:induction false} StrLessAtFirstDifference(a: string, b: string, n: nat)
    requires n <= |a| && n <= |b| && a[..n] == b[..n]
    requires n < |a| && n < |b| ==> a[n] != b[n]
    ensures StrLess(a, b) <==> n < |b| && (n == |a| || a[n] < b[n])
  {
    if n > 0 {
      assert a[0] == a[..n][0] && b[0] == b[..n][0];
      assert a[1..][..n - 1] == a[..n][1..] && b[1..][..n - 1] == b[..n][1..];
      StrLessAtFirstDifference(a[1..], b[1..], n - 1);
    }
  }

  lemma {:induction false} StrLessIrreflexive(a: string)
    ensures !StrLess(a, a)
  {
    if a != [] { StrLessIrreflexive(a[1..]); }
  }

  lemma {:induction false} StrLessTransitive(a: string, b: string, c: string)
    requires StrLess(a, b) && StrLess(b, c)
    ensures StrLess(a, c)
  {
    if a != [] && a[0] == b[0] && b[0] == c[0] { StrLessTransitive(a[1..], b[1..], c[1..]); }
  }

  lemma {:induction false} StrLessTotal(a: string, b: string)
    ensures StrLess(a, b) || a == b || StrLess(b, a)
  {
    if a != [] && b != [] && a[0] == b[0] {
      StrLessTotal(a[1..], b[1..]);
      assert a == [a[0]] + a[1..] && b == [b[0]] + b[1..];
    }
  }

  ghost predicate Ascending(s: seq<string>) {
    forall i, j :: 0 <= i < j < |s| ==> StrLess(s[i], s[j])
  }

  /** The keys of a set in ascending order: whatever order the set is iterated in, the list is the same. */
  lemma {:induction false} AscendingUnique(s: seq<string>, t: seq<string>)
    requires Ascending(s) && Ascending(t)
    requires forall x :: x in s <==> x in t
    ensures s == t
  {
    SameElementsSameEmptiness(s, t);
    if s != [] {
      assert s[0] in t;
      assert t[0] in s;
      if s[0] != t[0] {
        StrLessTransitive(s[0], t[0], s[0]);
        StrLessIrreflexive(s[0]);
      }
      forall x ensures x in s[1..] <==> x in t[1..] {
        AscendingHead(s, x);
        AscendingHead(t, x);
      }
      AscendingUnique(s[1..], t[1..]);
    }
  }

  lemma SameElementsSameEmptiness<T(!new)>(s: seq<T>, t: seq<T>)
    requires forall x :: x in s <==> x in t
    ensures s == [] <==> t == []
  {
    if s != [] { assert s[0] in t; }
    if t != [] { assert t[0] in s; }
  }

  lemma AscendingHead(s: seq<string>, x: string)
    requires s != [] && Ascending(s)
    ensures x in s[1..] <==> x in s && x != s[0]
  {
    StrLessIrreflexive(s[0]);
  }

  lemma AscendingDistinct(s: seq<string>)
    requires Ascending(s)
    ensures Distinct(s)
  {
    forall i, j | 0 <= i < j < |s| ensures s[i] != s[j] {
      StrLessIrreflexive(s[i]);
    }
  }

  /** The members of a set, in any order. */
  method Elements(items: set<string>) returns (r: seq<string>)
    ensures Distinct(r) && |r| == |items| && forall x :: x in r <==> x in items
  {
    r := [];
    var rest := items;
    while rest != {}
      invariant rest <= items && Distinct(r) && |r| + |rest| == |items|
      invariant forall x :: x in r <==> x in items - rest
      decreases rest
    {
      var x :| x in rest;
      assert x !in r;
      rest := rest - {x};
      r := r + [x];
    }
  }

  method SortStrings(items: set<string>) returns (r: seq<string>)
    ensures Ascending(r)
    ensures forall x :: x in r <==> x in items
    ensures |r| == |items|
  {
    var listed := Elements(items);
    StrLessIsWeakOrder();
    r := Sort(StrLess, listed);
    PermutedDistinct(listed, r);
    forall i, j | 0 <= i < j < |r| ensures StrLess(r[i], r[j]) { StrLessTotal(r[i], r[j]); }
  }

  lemma StrLessIsWeakOrder()
    ensures WeakOrder(StrLess)
  {
    forall x, y | StrLess(x, y) ensures !StrLess(y, x) {
      StrLessIrreflexive(x);
      if StrLess(y, x) { StrLessTransitive(x, y, x); }
    }
    forall x, y, z | !StrLess(y, x) && !StrLess(z, y) ensures !StrLess(z, x) {
      StrLessTotal(x, y);
      StrLessTotal(y, z);
      if StrLess(z, x) && StrLess(x, y) { StrLessTransitive(z, x, y); }
    }
  }

  ghost function SortedMembers(items: set<string>): (r: seq<string>)
    ensures Ascending(r)
    ensures forall x :: x in r <==> x in items
  {
    SortedMembersExist(items);
    var r: seq<string> :| Ascending(r) && forall x :: x in r <==> x in items;
    r
  }

  lemma {:induction false} SortedMembersExist(items: set<string>)
    ensures exists r: seq<string> :: Ascending(r) && forall x :: x in r <==> x in items
  {
    if items == {} {
      assert Ascending([]) && forall x :: x in [] <==> x in items;
    } else {
      var x :| x in items;
      SortedMembersExist(items - {x});
      var s: seq<string> :| Ascending(s) && forall y :: y in s <==> y in items - {x};
      var r := InsertedString(s, x);
      assert Ascending(r) && forall y :: y in r <==> y in items;
    }
  }

  ghost function InsertedString(s: seq<string>, x: string): (r: seq<string>)
    requires Ascending(s) && x !in s
    ensures Ascending(r)
    ensures forall y :: y in r <==> y in s || y == x
  {
    if s == [] then [x]
    else if StrLess(x, s[0]) then
      assert forall j :: 0 < j < |s| ==> StrLess(x, s[j]) by {
        forall j | 0 < j < |s| ensures StrLess(x, s[j]) { StrLessTransitive(x, s[0], s[j]); }
      }
      [x] + s
    else
      StrLessTotal(x, s[0]);
      assert s[0] in s;
      var rest := InsertedString(s[1..], x);
      assert forall j :: 0 <= j < |rest| ==> rest[j] in s[1..] || rest[j] == x;
      [s[0]] + rest
  }
}
