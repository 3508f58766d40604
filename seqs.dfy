/** Generic sequence operations standing in for the collection primitives the
    routes use: `findOne` (first match), `find` and `Array.prototype.filter`
    (order-preserving selection), `distinct`, `sort`, and `skip`/`limit`. */
module Seqs {
  import opened Common
  import Text

  /** Index of the first element satisfying `p`, as `findOne` picks it. */
  function FindIndex<T>(s: seq<T>, p: T -> bool): (r: Option<nat>)
    ensures r.Some? ==> r.value < |s| && p(s[r.value]) && forall j :: 0 <= j < r.value ==> !p(s[j])
    ensures r.None? ==> forall j :: 0 <= j < |s| ==> !p(s[j])
  {
    if s == [] then None
    else if p(s[0]) then Some(0)
    else match FindIndex(s[1..], p)
      case None => None
      case Some(k) => Some(k + 1)
  }

  /** The elements of `s` satisfying `p`, in their original order. */
  function Filter<T(!new)>(s: seq<T>, p: T -> bool): (r: seq<T>)
    ensures |r| <= |s|
    ensures forall x :: x in r <==> x in s && p(x)
  {
    if s == [] then []
    else
      assert s == s[..|s| - 1] + [s[|s| - 1]];
      var init := Filter(s[..|s| - 1], p);
      if p(s[|s| - 1]) then init + [s[|s| - 1]] else init
  }

  lemma FilterAppend<T(!new)>(s: seq<T>, x: T, p: T -> bool)
    ensures Filter(s + [x], p) == Filter(s, p) + if p(x) then [x] else []
  {
    assert (s + [x])[..|s|] == s;
  }

  /** A filter every element passes keeps the whole sequence. */
  lemma {:induction false} FilterAll<T(!new)>(s: seq<T>, p: T -> bool)
    requires forall i :: 0 <= i < |s| ==> p(s[i])
    ensures Filter(s, p) == s
  {
    if s != [] {
      FilterAll(s[..|s| - 1], p);
    }
  }

  /** `a` is `b` with some elements left out and the rest kept in order. */
  predicate IsSubsequence<T(==)>(a: seq<T>, b: seq<T>)
    decreases |b|
  {
    || a == []
    || (b != [] &&
        ((a[|a| - 1] == b[|b| - 1] && IsSubsequence(a[..|a| - 1], b[..|b| - 1]))
         || IsSubsequence(a, b[..|b| - 1])))
  }

  /** Filtering keeps an order-preserving sub-list of its input. */
  lemma {:induction false} FilterIsSubsequence<T(!new)>(s: seq<T>, p: T -> bool)
    ensures IsSubsequence(Filter(s, p), s)
  {
    if s != [] {
      var init := s[..|s| - 1];
      FilterIsSubsequence(init, p);
      var f := Filter(s, p);
      if p(s[|s| - 1]) {
        assert f[..|f| - 1] == Filter(init, p);
      }
    }
  }

  /** The positions of `s` whose element satisfies `p`. */
  function Positions<T>(s: seq<T>, p: T -> bool): set<nat> {
    set i: nat | i < |s| && p(s[i])
  }

  /** Extending a sequence by one element adds its position when it matches. */
  lemma PositionsSnoc<T(!new)>(s: seq<T>, p: T -> bool)
    requires s != []
    ensures var n := |s| - 1;
      Positions(s, p) == Positions(s[..n], p) + if p(s[n]) then {n} else {}
  {
    var n := |s| - 1;
    var before := Positions(s[..n], p);
    var rhs := before + if p(s[n]) then {n} else {};
    forall i: nat ensures i in Positions(s, p) <==> i in rhs {
      if i < n {
        assert s[..n][i] == s[i];
      }
    }
  }

  /** A filter keeps one element per matching position, so its length is the
      number of matching positions: the count `countDocuments` returns. */
  lemma {:induction false} FilterLength<T(!new)>(s: seq<T>, p: T -> bool)
    ensures |Filter(s, p)| == |Positions(s, p)|
  {
    if s != [] {
      var n := |s| - 1;
      FilterLength(s[..n], p);
      PositionsSnoc(s, p);
      assert n !in Positions(s[..n], p);
    }
  }

  predicate NoDuplicates<T(==)>(s: seq<T>) {
    forall i, j :: 0 <= i < j < |s| ==> s[i] != s[j]
  }

  /** The distinct values of `s`, each once, in order of first occurrence. */
  function Distinct<T(==,!new)>(s: seq<T>): (r: seq<T>)
    ensures NoDuplicates(r)
    ensures forall x :: x in r <==> x in s
  {
    if s == [] then []
    else
      assert s == s[..|s| - 1] + [s[|s| - 1]];
      var d := Distinct(s[..|s| - 1]);
      if s[|s| - 1] in d then d else d + [s[|s| - 1]]
  }

  /** `le` is total and transitive: a sort key whose ties are allowed. */
  ghost predicate TotalPreorder<T(!new)>(le: (T, T) -> bool) {
    && (forall a, b :: le(a, b) || le(b, a))
    && (forall a, b, c :: le(a, b) && le(b, c) ==> le(a, c))
  }

  predicate SortedBy<T>(s: seq<T>, le: (T, T) -> bool) {
    forall i, j :: 0 <= i < j < |s| ==> le(s[i], s[j])
  }

  function Insert<T>(x: T, s: seq<T>, le: (T, T) -> bool): (r: seq<T>)
    ensures multiset(r) == multiset(s) + multiset{x}
  {
    if s == [] then [x]
    else if le(x, s[0]) then [x] + s
    else
      assert s == [s[0]] + s[1..];
      [s[0]] + Insert(x, s[1..], le)
  }

  /** Insertion sort: a permutation of `s` (sorted by `le`, see SortBySorted). */
  function SortBy<T>(s: seq<T>, le: (T, T) -> bool): (r: seq<T>)
    ensures multiset(r) == multiset(s)
  {
    if s == [] then []
    else
      assert s == [s[0]] + s[1..];
      Insert(s[0], SortBy(s[1..], le), le)
  }

  lemma {:induction false} InsertSorted<T(!new)>(x: T, s: seq<T>, le: (T, T) -> bool)
    requires TotalPreorder(le) && SortedBy(s, le)
    ensures SortedBy(Insert(x, s, le), le)
  {
    if s != [] && !le(x, s[0]) {
      InsertSorted(x, s[1..], le);
      var rest := Insert(x, s[1..], le);
      forall y | y in rest ensures le(s[0], y) {
        assert y in multiset(rest);
        assert y == x || y in s[1..];
      }
      var r := [s[0]] + rest;
      forall i, j | 0 <= i < j < |r| ensures le(r[i], r[j]) {
        if i == 0 {
          assert r[j] in rest;
        } else {
          assert r[i] == rest[i - 1] && r[j] == rest[j - 1];
        }
      }
    }
  }

  /** With a total preorder as key, SortBy returns its input in sorted order. */
  lemma {:induction false} SortBySorted<T(!new)>(s: seq<T>, le: (T, T) -> bool)
    requires TotalPreorder(le)
    ensures SortedBy(SortBy(s, le), le)
  {
    if s != [] {
      SortBySorted(s[1..], le);
      InsertSorted(s[0], SortBy(s[1..], le), le);
    }
  }

  lemma {:induction false} InsertKeepsNoDuplicates<T>(x: T, s: seq<T>, le: (T, T) -> bool)
    requires NoDuplicates(s) && x !in s
    ensures NoDuplicates(Insert(x, s, le))
  {
    if s != [] && !le(x, s[0]) {
      InsertKeepsNoDuplicates(x, s[1..], le);
      var rest := Insert(x, s[1..], le);
      assert s == [s[0]] + s[1..];
      assert s[0] !in s[1..] && s[0] != x;
      assert s[0] !in multiset(rest);
    }
  }

  /** Sorting a list without duplicates gives a list without duplicates. */
  lemma {:induction false} SortByKeepsNoDuplicates<T>(s: seq<T>, le: (T, T) -> bool)
    requires NoDuplicates(s)
    ensures NoDuplicates(SortBy(s, le))
  {
    if s != [] {
      SortByKeepsNoDuplicates(s[1..], le);
      assert s == [s[0]] + s[1..];
      assert s[0] !in s[1..];
      assert s[0] !in multiset(SortBy(s[1..], le));
      InsertKeepsNoDuplicates(s[0], SortBy(s[1..], le), le);
    }
  }

  /** Code-point string order is a total preorder. */
  lemma LexLeTotalPreorder()
    ensures TotalPreorder(Text.LexLe)
  {
    forall a, b ensures Text.LexLe(a, b) || Text.LexLe(b, a) {
      Text.LexLeTotal(a, b);
    }
    forall a, b, c | Text.LexLe(a, b) && Text.LexLe(b, c) ensures Text.LexLe(a, c) {
      Text.LexLeTransitive(a, b, c);
    }
  }

  /** `distinct` followed by JavaScript's default `sort`. */
  function SortedDistinct(values: seq<string>): seq<string> {
    SortBy(Distinct(values), Text.LexLe)
  }

  /** The sorted distinct list holds each value of the input exactly once, in
      strictly ascending code-point order. */
  lemma SortedDistinctSpec(values: seq<string>)
    ensures var r := SortedDistinct(values);
      && (forall x :: x in r <==> x in values)
      && forall i, j :: 0 <= i < j < |r| ==> Text.LexLt(r[i], r[j])
  {
    var d := Distinct(values);
    var r := SortBy(d, Text.LexLe);
    forall x ensures x in r <==> x in values {
      assert x in r <==> x in multiset(r);
      assert x in d <==> x in multiset(d);
    }
    LexLeTotalPreorder();
    SortBySorted(d, Text.LexLe);
    SortByKeepsNoDuplicates(d, Text.LexLe);
  }

  /** `skip(skip).limit(size)` over an ordered result; no size means no
      limit. */
  function Window<T>(s: seq<T>, skip: nat, size: Option<nat>): (r: seq<T>)
    ensures size.Some? ==> |r| <= size.value
    ensures skip < |s| && (size.None? || skip + size.value >= |s|) ==> |r| == |s| - skip
    ensures skip < |s| && size.Some? && skip + size.value < |s| ==> |r| == size.value
    ensures forall i :: 0 <= i < |r| ==> skip + i < |s| && r[i] == s[skip + i]
  {
    if skip >= |s| then []
    else if size.None? || skip + size.value >= |s| then s[skip..]
    else s[skip..skip + size.value]
  }
}
