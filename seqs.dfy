/** Generic list facts shared by the pipeline: optional values and error
    results, the first-seen distinct elements of a list (what
    `[...new Set(xs)]` and an insertion-ordered dictionary's keys give),
    removal of every occurrence, and subsequences. */
module Seqs {

  datatype Option<+T> = None | Some(value: T)

  /** The value, or `fallback` when there is none (`x ?? fallback`). */
  function GetOr<T>(o: Option<T>, fallback: T): T {
    match o
    case Some(v) => v
    case None => fallback
  }

  datatype Result<+T, +E> = Ok(value: T) | Err(error: E)

  /** The present values of a list of options, in order. */
  function Somes<T>(xs: seq<Option<T>>): (r: seq<T>)
    ensures |r| <= |xs|
  {
    if xs == [] then []
    else
      Somes(xs[..|xs| - 1]) + match xs[|xs| - 1]
        case Some(v) => [v]
        case None => []
  }

  /** One more option adds its value, if it has one, at the end. */
  lemma SomesSnoc<T>(xs: seq<Option<T>>, i: nat)
    requires i < |xs|
    ensures Somes(xs[..i + 1]) == Somes(xs[..i]) + (if xs[i].Some? then [xs[i].value] else [])
  {
    assert xs[..i + 1][..i] == xs[..i];
  }

  /** A list of options that is one `None` followed by the values of `vs`
      yields exactly `vs`. */
  lemma {:induction false} SomesAfterNone<T>(xs: seq<Option<T>>, vs: seq<T>)
    requires |xs| == |vs| + 1 && xs[0] == None
    requires forall i :: 0 <= i < |vs| ==> xs[i + 1] == Some(vs[i])
    ensures Somes(xs) == vs
  {
    if vs != [] {
      var n := |vs|;
      SomesAfterNone(xs[..n], vs[..n - 1]);
      assert vs == vs[..n - 1] + [vs[n - 1]];
    }
  }

  /** The positions `Somes` takes its values from. */
  ghost function SomeIndices<T>(xs: seq<Option<T>>): (r: seq<nat>)
    ensures |r| == |Somes(xs)|
  {
    if xs == [] then []
    else SomeIndices(xs[..|xs| - 1]) + if xs[|xs| - 1].Some? then [|xs| - 1] else []
  }

  /** Each value comes from its position, and the positions increase. */
  lemma {:induction false} SomeIndicesSpec<T>(xs: seq<Option<T>>)
    ensures forall j :: 0 <= j < |SomeIndices(xs)| ==>
      SomeIndices(xs)[j] < |xs| && xs[SomeIndices(xs)[j]] == Some(Somes(xs)[j])
    ensures forall j, k :: 0 <= j < k < |SomeIndices(xs)| ==> SomeIndices(xs)[j] < SomeIndices(xs)[k]
  {
    if xs != [] {
      var n := |xs|;
      var init := xs[..n - 1];
      SomeIndicesSpec(init);
      var r0, ks0 := Somes(init), SomeIndices(init);
      var r, ks := Somes(xs), SomeIndices(xs);
      assert forall j :: 0 <= j < |ks0| ==> ks0[j] < n - 1 && xs[ks0[j]] == init[ks0[j]];
      if xs[n - 1].Some? {
        assert r == r0 + [xs[n - 1].value] && ks == ks0 + [n - 1];
        assert forall j :: 0 <= j < |ks0| ==> ks[j] == ks0[j] && r[j] == r0[j];
      } else {
        assert r == r0 && ks == ks0;
      }
    }
  }

  /** No present value is lost. */
  lemma {:induction false} SomesComplete<T>(xs: seq<Option<T>>, i: nat)
    requires i < |xs| && xs[i].Some?
    ensures xs[i].value in Somes(xs)
  {
    var n := |xs|;
    if i < n - 1 {
      assert xs[..n - 1][i] == xs[i];
      SomesComplete(xs[..n - 1], i);
    }
  }

  predicate NoDups<T(==)>(s: seq<T>) {
    forall i, j :: 0 <= i < j < |s| ==> s[i] != s[j]
  }

  /** The position of the first occurrence of `x` in `s`. */
  function FirstIndex<T(==)>(s: seq<T>, x: T): (r: nat)
    requires x in s
    ensures r < |s| && s[r] == x
    ensures forall i :: 0 <= i < r ==> s[i] != x
  {
    if s[0] == x then 0
    else
      var t := s[1..];
      var r := FirstIndex(t, x) + 1;
      assert forall i :: 1 <= i < r ==> s[i] == t[i - 1];
      r
  }

  /** The first occurrence of an element of a prefix is inside the prefix. */
  lemma FirstIndexPrefix<T>(s: seq<T>, k: nat, x: T)
    requires k <= |s| && x in s[..k]
    ensures x in s && FirstIndex(s, x) == FirstIndex(s[..k], x)
  {
    var p := s[..k];
    var b := FirstIndex(p, x);
    assert p[b] == s[b];
    forall i | 0 <= i < b ensures s[i] != x {
      assert p[i] == s[i];
    }
  }

  /** The distinct elements of `s`, each in the position of its first
      occurrence. */
  function Distinct<T(==,!new)>(s: seq<T>): (r: seq<T>)
    ensures NoDups(r)
    ensures forall x :: x in r <==> x in s
    ensures |r| <= |s|
  {
    if s == [] then []
    else
      var init := s[..|s| - 1];
      var d := Distinct(init);
      assert forall x :: x in s <==> x in init || x == s[|s| - 1];
      if s[|s| - 1] in d then d else d + [s[|s| - 1]]
  }

  /** A last element that is new to the list is first seen at the end. */
  lemma FirstIndexLast<T>(s: seq<T>)
    requires s != [] && s[|s| - 1] !in s[..|s| - 1]
    ensures FirstIndex(s, s[|s| - 1]) == |s| - 1
  {
    forall i | 0 <= i < |s| - 1 ensures s[i] != s[|s| - 1] {
      assert s[..|s| - 1][i] == s[i];
    }
  }

  /** `Distinct` lists the elements in the order they are first seen. */
  lemma {:induction false} DistinctFirstSeen<T(!new)>(s: seq<T>)
    ensures forall i, j :: 0 <= i < j < |Distinct(s)| ==>
      FirstIndex(s, Distinct(s)[i]) < FirstIndex(s, Distinct(s)[j])
  {
    if s != [] {
      var n := |s|;
      var init := s[..n - 1];
      DistinctFirstSeen(init);
      var d := Distinct(init);
      var r := Distinct(s);
      assert r == if s[n - 1] in d then d else d + [s[n - 1]];
      forall i, j | 0 <= i < j < |r| ensures FirstIndex(s, r[i]) < FirstIndex(s, r[j]) {
        assert r[i] == d[i] && d[i] in init;
        if j < |d| {
          assert r[j] == d[j] && d[j] in init;
          FirstSeenBefore(s, init, d[i], d[j]);
        } else {
          assert r[j] == s[n - 1] && s[n - 1] !in init;
          FirstSeenLast(s, d[i]);
        }
      }
    }
  }

  /** Two elements of the prefix keep their first-seen order in the whole. */
  lemma FirstSeenBefore<T>(s: seq<T>, p: seq<T>, a: T, b: T)
    requires |p| <= |s| && p == s[..|p|] && a in p && b in p
    requires FirstIndex(p, a) < FirstIndex(p, b)
    ensures a in s && b in s && FirstIndex(s, a) < FirstIndex(s, b)
  {
    FirstIndexPrefix(s, |p|, a);
    FirstIndexPrefix(s, |p|, b);
  }

  /** An element of the prefix is first seen before a new last element. */
  lemma FirstSeenLast<T>(s: seq<T>, a: T)
    requires s != [] && a in s[..|s| - 1] && s[|s| - 1] !in s[..|s| - 1]
    ensures FirstIndex(s, a) < FirstIndex(s, s[|s| - 1])
  {
    FirstIndexPrefix(s, |s| - 1, a);
    FirstIndexLast(s);
  }

  /** One more element of `s` extends the prefix by that element. */
  lemma TakeNext<T>(s: seq<T>, i: nat)
    requires i < |s|
    ensures s[..i + 1] == s[..i] + [s[i]]
  {
  }

  /** Appending one element extends `Distinct` by that element exactly when
      it is new: the step an insertion-ordered dictionary takes. */
  lemma DistinctSnoc<T(!new)>(s: seq<T>, x: T)
    ensures Distinct(s + [x]) == if x in s then Distinct(s) else Distinct(s) + [x]
  {
    assert (s + [x])[..|s + [x]| - 1] == s;
  }

  /** Every occurrence of `x` removed, the rest in order (`filter(p => p !== x)`). */
  function RemoveAll<T(==,!new)>(s: seq<T>, x: T): (r: seq<T>)
    ensures x !in r
    ensures forall y :: y != x ==> (y in r <==> y in s)
    ensures |r| <= |s|
    ensures IsSubseq(r, s)
    ensures multiset(r) == multiset(s)[x := 0]
  {
    if s == [] then []
    else
      var rest := RemoveAll(s[1..], x);
      assert s == [s[0]] + s[1..];
      assert multiset(s) == multiset{s[0]} + multiset(s[1..]);
      if s[0] == x then
        assert IsSubseq(rest, s) by {
          if rest != [] {
            assert IsSubseq(rest, s[1..]);
          }
        }
        rest
      else
        var r := [s[0]] + rest;
        assert r[0] == s[0] && r[1..] == rest;
        assert multiset(r) == multiset{s[0]} + multiset(rest);
        r
  }

  lemma {:induction false} RemoveAllAbsent<T(!new)>(s: seq<T>, x: T)
    requires x !in s
    ensures RemoveAll(s, x) == s
  {
    if s != [] {
      RemoveAllAbsent(s[1..], x);
    }
  }

  /** A list without repeats has as many elements as its set. */
  lemma {:induction false} NoDupsCard<T>(s: seq<T>)
    requires NoDups(s)
    ensures |set x | x in s| == |s|
  {
    if s != [] {
      var n := |s|;
      var init := s[..n - 1];
      assert NoDups(init) by {
        forall i, j | 0 <= i < j < |init| ensures init[i] != init[j] {
          assert init[i] == s[i] && init[j] == s[j];
        }
      }
      NoDupsCard(init);
      assert s[n - 1] !in init by {
        forall i | 0 <= i < |init| ensures init[i] != s[n - 1] {
          assert init[i] == s[i];
        }
      }
      assert s == init + [s[n - 1]];
      assert (set x | x in s) == (set x | x in init) + {s[n - 1]};
    }
  }

  /** `new Set(xs).size` is the length of the first-seen distinct list. */
  lemma DistinctCard<T(!new)>(s: seq<T>)
    ensures |Distinct(s)| == |set x | x in s|
  {
    NoDupsCard(Distinct(s));
    assert (set x | x in Distinct(s)) == (set x | x in s);
  }

  /** `a` is `b` with some elements left out, the rest in their order. */
  predicate IsSubseq<T(==)>(a: seq<T>, b: seq<T>) {
    if a == [] then true
    else if b == [] then false
    else (a[0] == b[0] && IsSubseq(a[1..], b[1..])) || IsSubseq(a, b[1..])
  }

  /** Every element of a subsequence occurs in the original. */
  lemma {:induction false} SubseqElements<T>(a: seq<T>, b: seq<T>)
    requires IsSubseq(a, b)
    ensures forall x :: x in a ==> x in b
    ensures |a| <= |b|
  {
    if a != [] {
      if a[0] == b[0] && IsSubseq(a[1..], b[1..]) {
        SubseqElements(a[1..], b[1..]);
        assert forall x :: x in a ==> x == a[0] || x in a[1..];
      } else {
        SubseqElements(a, b[1..]);
      }
      assert forall x :: x in b[1..] ==> x in b;
    }
  }
}
