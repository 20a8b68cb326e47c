/** Facet extraction: the distinct non-empty values of one column, in the
    order of their first appearance, as `[...new Set(products.map(p =>
    p[column]).filter(Boolean))]` computes them. Each stage of that pipeline
    is one function here. */
module Facets {
  import opened JsValues
  import opened Products

  /** `products.map(p => p[column])`. */
  function ColumnValues(ps: seq<Product>, c: Column): (r: seq<Option<string>>)
    ensures |r| == |ps|
    ensures forall i :: 0 <= i < |ps| ==> r[i] == Get(ps[i], c)
  {
    seq(|ps|, i requires 0 <= i < |ps| => Get(ps[i], c))
  }

  /** `.filter(Boolean)`: keeps the truthy values, in order. */
  function Present(vs: seq<Option<string>>): (r: seq<string>)
    ensures forall s :: s in r <==> s != "" && Some(s) in vs
  {
    if vs == [] then []
    else
      var d := Present(vs[..|vs| - 1]);
      assert vs == vs[..|vs| - 1] + [vs[|vs| - 1]];
      if Truthy(vs[|vs| - 1]) then d + [vs[|vs| - 1].value] else d
  }

  /** `[...new Set(xs)]`: a Set keeps insertion order and ignores an element
      it already holds. */
  function Distinct(xs: seq<string>): (r: seq<string>)
    ensures forall s :: s in r <==> s in xs
    ensures NoDuplicates(r)
  {
    if xs == [] then []
    else
      var d := Distinct(xs[..|xs| - 1]);
      assert xs == xs[..|xs| - 1] + [xs[|xs| - 1]];
      if xs[|xs| - 1] in d then d else d + [xs[|xs| - 1]]
  }

  /** The facet of column `c`: categories or target customers. */
  function Facet(ps: seq<Product>, c: Column): (r: seq<string>)
    ensures NoDuplicates(r)
    ensures forall v :: v in r ==> v != "" && Some(v) in ColumnValues(ps, c)
  {
    Distinct(Present(ColumnValues(ps, c)))
  }

  ghost predicate NoDuplicates<T>(xs: seq<T>)
  {
    forall i, j :: 0 <= i < j < |xs| ==> xs[i] != xs[j]
  }

  /** The index of the first occurrence of v in xs. */
  function FirstIndex<T(==)>(xs: seq<T>, v: T): (r: nat)
    requires v in xs
    ensures r < |xs| && xs[r] == v && v !in xs[..r]
  {
    if xs[0] == v then 0 else 1 + FirstIndex(xs[1..], v)
  }

  /** The first row of `ps` whose column `c` holds `v`. */
  function FirstRow(ps: seq<Product>, c: Column, v: string): (r: nat)
    requires Some(v) in ColumnValues(ps, c)
    ensures r < |ps| && Get(ps[r], c) == Some(v)
    ensures forall i :: 0 <= i < r ==> Get(ps[i], c) != Some(v)
  {
    var vs := ColumnValues(ps, c);
    var r := FirstIndex(vs, Some(v));
    assert forall i :: 0 <= i < r ==> vs[i] == vs[..r][i];
    r
  }

  /** A first occurrence inside a prefix is the first occurrence overall. */
  lemma FirstIndexInPrefix<T>(xs: seq<T>, k: nat, v: T)
    requires k <= |xs| && v in xs[..k]
    ensures FirstIndex(xs, v) == FirstIndex(xs[..k], v)
  {
    var a, b := FirstIndex(xs[..k], v), FirstIndex(xs, v);
    assert xs[..k][..a] == xs[..a];
  }

  /** A value absent from all but the last element first occurs last. */
  lemma FirstIndexAtEnd<T>(xs: seq<T>, v: T)
    requires xs != [] && xs[|xs| - 1] == v && v !in xs[..|xs| - 1]
    ensures FirstIndex(xs, v) == |xs| - 1
  {
  }

  /** `Distinct` lists the values in first-seen order. */
  lemma {:induction false} DistinctInFirstSeenOrder(xs: seq<string>, i: nat, j: nat)
    requires i < j < |Distinct(xs)|
    ensures FirstIndex(xs, Distinct(xs)[i]) < FirstIndex(xs, Distinct(xs)[j])
  {
    var n := |xs|;
    var init := xs[..n - 1];
    var d := Distinct(init);
    var r := Distinct(xs);
    assert xs == init + [xs[n - 1]];
    assert xs[..n - 1] == init;
    if j < |d| {
      assert r[i] == d[i] && r[j] == d[j];
      DistinctInFirstSeenOrder(init, i, j);
      FirstIndexInPrefix(xs, n - 1, d[i]);
      FirstIndexInPrefix(xs, n - 1, d[j]);
    } else {
      assert r == d + [xs[n - 1]] && r[j] == xs[n - 1] && r[i] == d[i];
      FirstIndexAtEnd(xs, xs[n - 1]);
      FirstIndexInPrefix(xs, n - 1, d[i]);
    }
  }

  /** `Present` keeps its values in first-seen order. */
  lemma {:induction false} PresentInFirstSeenOrder(vs: seq<Option<string>>, s: string, t: string)
    requires s in Present(vs) && t in Present(vs)
    requires FirstIndex(Present(vs), s) < FirstIndex(Present(vs), t)
    ensures FirstIndex(vs, Some(s)) < FirstIndex(vs, Some(t))
  {
    var n := |vs|;
    var init := vs[..n - 1];
    assert vs[..n - 1] == init;
    if Present(vs) == Present(init) {
      PresentInFirstSeenOrder(init, s, t);
      FirstIndexInPrefix(vs, n - 1, Some(s));
      FirstIndexInPrefix(vs, n - 1, Some(t));
    } else if t in Present(init) {
      PresentAppendedPrefix(vs, s, t);
      PresentInFirstSeenOrder(init, s, t);
      FirstIndexInPrefix(vs, n - 1, Some(s));
      FirstIndexInPrefix(vs, n - 1, Some(t));
    } else {
      PresentAppendedLast(vs, s, t);
      FirstIndexInPrefix(vs, n - 1, Some(s));
      FirstIndexAtEnd(vs, Some(t));
    }
  }

  /** When the last value was appended and both values occur before it,
      their first positions are those of the shorter list. */
  lemma PresentAppendedPrefix(vs: seq<Option<string>>, s: string, t: string)
    requires vs != [] && Present(vs) != Present(vs[..|vs| - 1])
    requires s in Present(vs) && t in Present(vs[..|vs| - 1])
    requires FirstIndex(Present(vs), s) < FirstIndex(Present(vs), t)
    ensures s in Present(vs[..|vs| - 1]) && t in Present(vs[..|vs| - 1])
    ensures FirstIndex(Present(vs[..|vs| - 1]), s) < FirstIndex(Present(vs[..|vs| - 1]), t)
  {
    var d := Present(vs[..|vs| - 1]);
    var r := Present(vs);
    assert r == d + [vs[|vs| - 1].value];
    assert r[..|d|] == d;
    FirstIndexInPrefix(r, |d|, t);
    assert r[..|d|][FirstIndex(r, s)] == s;
    FirstIndexInPrefix(r, |d|, s);
  }

  /** When the later value is the appended last one, the earlier value is
      already in the shorter list and the later value occurs only last. */
  lemma PresentAppendedLast(vs: seq<Option<string>>, s: string, t: string)
    requires vs != [] && Present(vs) != Present(vs[..|vs| - 1])
    requires s in Present(vs) && t in Present(vs) && t !in Present(vs[..|vs| - 1])
    requires FirstIndex(Present(vs), s) < FirstIndex(Present(vs), t)
    ensures Some(s) in vs[..|vs| - 1]
    ensures vs[|vs| - 1] == Some(t) && Some(t) !in vs[..|vs| - 1]
  {
  }

  /** What the two facet lists promise: no duplicates, no empty or missing
      value, exactly the non-empty values that occur in the column, and
      those in order of the first row that carries them. */
  lemma FacetProperties(ps: seq<Product>, c: Column)
    ensures NoDuplicates(Facet(ps, c))
    ensures forall v :: v in Facet(ps, c) <==>
      v != "" && exists i :: 0 <= i < |ps| && Get(ps[i], c) == Some(v)
    ensures forall i, j :: 0 <= i < j < |Facet(ps, c)| ==>
      Some(Facet(ps, c)[i]) in ColumnValues(ps, c) &&
      Some(Facet(ps, c)[j]) in ColumnValues(ps, c) &&
      FirstRow(ps, c, Facet(ps, c)[i]) < FirstRow(ps, c, Facet(ps, c)[j])
  {
    var vs := ColumnValues(ps, c);
    var p := Present(vs);
    var f := Facet(ps, c);
    forall v | Some(v) in vs ensures exists i :: 0 <= i < |ps| && Get(ps[i], c) == Some(v) {
      var i :| 0 <= i < |vs| && vs[i] == Some(v);
    }
    forall i, j | 0 <= i < j < |f|
      ensures Some(f[i]) in vs && Some(f[j]) in vs && FirstRow(ps, c, f[i]) < FirstRow(ps, c, f[j])
    {
      DistinctInFirstSeenOrder(p, i, j);
      PresentInFirstSeenOrder(vs, f[i], f[j]);
    }
  }

  /** A column that is blank or missing in every record has an empty facet. */
  lemma BlankColumnHasEmptyFacet(ps: seq<Product>, c: Column)
    requires forall i :: 0 <= i < |ps| ==> !Truthy(Get(ps[i], c))
    ensures Facet(ps, c) == []
  {
    NothingPresent(ColumnValues(ps, c));
  }

  lemma {:induction false} NothingPresent(vs: seq<Option<string>>)
    requires forall i :: 0 <= i < |vs| ==> !Truthy(vs[i])
    ensures Present(vs) == []
  {
    if vs != [] {
      NothingPresent(vs[..|vs| - 1]);
    }
  }
}
