/** Sorting as the source uses it: sort.Strings, and sort.Slice with a comparison of names. */
module Sorting {

  /** Byte-wise order of strings. */
  predicate Le(a: string, b: string) {
    a == [] || (b != [] && (a[0] < b[0] || (a[0] == b[0] && Le(a[1..], b[1..]))))
  }

  lemma {:induction false} LeTotal(a: string, b: string)
    ensures Le(a, b) || Le(b, a)
    ensures Le(a, b) && Le(b, a) ==> a == b
  {
    if a != [] && b != [] {
      LeTotal(a[1..], b[1..]);
      if a[0] == b[0] && a[1..] == b[1..] { assert a == [a[0]] + a[1..] == [b[0]] + b[1..] == b; }
    }
  }

  lemma {:induction false} LeTransitive(a: string, b: string, c: string)
    requires Le(a, b) && Le(b, c)
    ensures Le(a, c)
  {
    if a != [] && a[0] == b[0] == c[0] { LeTransitive(a[1..], b[1..], c[1..]); }
  }

  ghost predicate Sorted(s: seq<string>) {
    forall i, j :: 0 <= i < j < |s| ==> Le(s[i], s[j])
  }

  function Insert(x: string, s: seq<string>): (r: seq<string>)
    ensures multiset(r) == multiset(s) + multiset{x}
  {
    if s == [] then [x]
    else if Le(x, s[0]) then [x] + s
    else
      assert s == [s[0]] + s[1..];
      [s[0]] + Insert(x, s[1..])
  }

  function Sort(s: seq<string>): (r: seq<string>)
    ensures multiset(r) == multiset(s)
  {
    if s == [] then []
    else
      assert s == [s[0]] + s[1..];
      Insert(s[0], Sort(s[1..]))
  }

  lemma {:induction false} InsertSorted(x: string, s: seq<string>)
    requires Sorted(s)
    ensures Sorted(Insert(x, s))
  {
    if s != [] {
      LeTotal(x, s[0]);
      var r := Insert(x, s);
      if Le(x, s[0]) {
        forall j | 0 < j < |r| ensures Le(x, r[j]) { if j > 1 { LeTransitive(x, s[0], s[j - 1]); } }
      } else {
        var rest := Insert(x, s[1..]);
        InsertSorted(x, s[1..]);
        forall j | 0 < j < |r| ensures Le(s[0], r[j]) {
          assert r[j] in multiset(rest);
          assert r[j] == x || r[j] in s[1..];
        }
      }
    }
  }

  /** Sort returns the elements in order. */
  lemma {:induction false} SortSorts(s: seq<string>)
    ensures Sorted(Sort(s)) && |Sort(s)| == |s|
    ensures forall x :: x in Sort(s) <==> x in s
  {
    if s != [] {
      SortSorts(s[1..]);
      InsertSorted(s[0], Sort(s[1..]));
    }
    assert |multiset(Sort(s))| == |multiset(s)|;
    assert forall x :: x in Sort(s) <==> x in multiset(Sort(s));
  }

  /** The keys of a map, in any order. */
  method Keys<T>(m: map<string, T>) returns (ks: seq<string>)
    ensures forall k :: k in ks <==> k in m
    ensures forall i, j :: 0 <= i < j < |ks| ==> ks[i] != ks[j]
  {
    ks := [];
    var todo := m.Keys;
    while todo != {}
      invariant todo <= m.Keys && forall k :: k in ks <==> k in m.Keys - todo
      invariant forall i, j :: 0 <= i < j < |ks| ==> ks[i] != ks[j]
    {
      var k :| k in todo;
      assert k !in ks;
      ks := ks + [k];
      todo := todo - {k};
    }
  }

  lemma {:induction false} DistinctCounts(s: seq<string>)
    ensures (forall i, j :: 0 <= i < j < |s| ==> s[i] != s[j]) <==> (forall x :: multiset(s)[x] <= 1)
  {
    if s != [] {
      var init, x := s[..|s| - 1], s[|s| - 1];
      assert s == init + [x];
      DistinctCounts(init);
      assert forall i :: 0 <= i < |init| ==> init[i] == s[i];
      if forall y :: multiset(s)[y] <= 1 {
        assert forall y :: multiset(init)[y] <= multiset(s)[y];
        assert multiset(init)[x] == 0;
        assert forall i :: 0 <= i < |init| ==> init[i] in multiset(init);
      }
    }
  }

  /** Sorting keeps elements distinct. */
  lemma SortDistinct(s: seq<string>)
    requires forall i, j :: 0 <= i < j < |s| ==> s[i] != s[j]
    ensures forall i, j :: 0 <= i < j < |Sort(s)| ==> Sort(s)[i] != Sort(s)[j]
  {
    DistinctCounts(s);
    DistinctCounts(Sort(s));
  }
}
