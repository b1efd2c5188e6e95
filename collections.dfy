/** Small facts about sequences used by the ordered dictionaries and directory listings. */
module Collections {

  /** No element occurs twice. */
  predicate Distinct<T(==)>(s: seq<T>) {
    forall i, j :: 0 <= i < j < |s| ==> s[i] != s[j]
  }

  /** `s` with every occurrence of `x` taken out, order kept. */
  function Remove<T(==)>(s: seq<T>, x: T): (r: seq<T>)
    ensures forall i :: 0 <= i < |r| ==> r[i] in s && r[i] != x
    ensures forall i :: 0 <= i < |s| && s[i] != x ==> s[i] in r
    ensures Distinct(s) ==> Distinct(r)
    ensures |r| <= |s|
  {
    if s == [] then []
    else if s[0] == x then Remove(s[1..], x)
    else
      [s[0]] + Remove(s[1..], x)
  }

  /** `s` with every element of `xs` taken out, order kept. */
  function RemoveAll<T(==)>(s: seq<T>, xs: set<T>): seq<T> {
    if s == [] then []
    else if s[0] in xs then RemoveAll(s[1..], xs)
    else [s[0]] + RemoveAll(s[1..], xs)
  }

  /** What is left is exactly what was there and not taken out, and no longer. */
  lemma {:induction false} RemoveAllSpec<T>(s: seq<T>, xs: set<T>)
    ensures forall x :: x in RemoveAll(s, xs) <==> x in s && x !in xs
    ensures |RemoveAll(s, xs)| <= |s|
  {
    if s != [] {
      RemoveAllSpec(s[1..], xs);
    }
  }

  /** Taking out one set and then another is taking out their union. */
  lemma {:induction false} RemoveAllTwice<T>(s: seq<T>, xs: set<T>, ys: set<T>)
    ensures RemoveAll(RemoveAll(s, xs), ys) == RemoveAll(s, xs + ys)
  {
    if s != [] {
      RemoveAllTwice(s[1..], xs, ys);
    }
  }

  /** Taking out nothing leaves the sequence as it was. */
  lemma {:induction false} RemoveAllNothing<T>(s: seq<T>)
    ensures RemoveAll(s, {}) == s
  {
    if s != [] {
      RemoveAllNothing(s[1..]);
    }
  }

  /** The elements of a sequence, as a set. */
  function Elements<T>(s: seq<T>): set<T> {
    set x | x in s
  }

  /** The elements of a concatenation are those of either part. */
  lemma ElementsConcat<T>(a: seq<T>, b: seq<T>)
    ensures Elements(a + b) == Elements(a) + Elements(b)
  {
  }

  /** The concatenation of a sequence of sequences. */
  function Flatten<T>(ss: seq<seq<T>>): (r: seq<T>)
    ensures |ss| == 1 ==> r == ss[0]
  {
    if ss == [] then [] else ss[0] + Flatten(ss[1..])
  }

  /** Appending one more sequence appends its elements at the end. */
  lemma {:induction false} FlattenSnoc<T>(ss: seq<seq<T>>, s: seq<T>)
    ensures Flatten(ss + [s]) == Flatten(ss) + s
  {
    if ss == [] {
      assert ss + [s] == [s];
    } else {
      assert (ss + [s])[1..] == ss[1..] + [s];
      FlattenSnoc(ss[1..], s);
    }
  }

  /** Two sequences concatenate to a sequence without repeats exactly when neither
      repeats an element and they share none. */
  lemma DistinctAppend<T>(a: seq<T>, b: seq<T>)
    ensures Distinct(a + b) <==>
      Distinct(a) && Distinct(b) && forall i, j :: 0 <= i < |a| && 0 <= j < |b| ==> a[i] != b[j]
  {
    if Distinct(a) && Distinct(b) && forall i, j :: 0 <= i < |a| && 0 <= j < |b| ==> a[i] != b[j] {
      forall i, j | 0 <= i < j < |a + b|
        ensures (a + b)[i] != (a + b)[j]
      {
        if j >= |a| && i < |a| {
          assert (a + b)[j] == b[j - |a|];
        } else if i >= |a| {
          assert (a + b)[i] == b[i - |a|] && (a + b)[j] == b[j - |a|];
        }
      }
    }
    if Distinct(a + b) {
      forall i, j | 0 <= i < |a| && 0 <= j < |b|
        ensures a[i] != b[j]
      {
        assert (a + b)[i] == a[i] && (a + b)[|a| + j] == b[j];
      }
      forall i, j | 0 <= i < j < |b|
        ensures b[i] != b[j]
      {
        assert (a + b)[|a| + i] == b[i] && (a + b)[|a| + j] == b[j];
      }
      forall i, j | 0 <= i < j < |a|
        ensures a[i] != a[j]
      {
        assert (a + b)[i] == a[i] && (a + b)[j] == a[j];
      }
    }
  }

  /** The elements of `s` that satisfy `f`, order kept (`Where`, or a `foreach`
      that adds the elements passing a test to a list). */
  function Filter<T>(s: seq<T>, f: T -> bool): seq<T>
  {
    if s == [] then [] else (if f(s[0]) then [s[0]] else []) + Filter(s[1..], f)
  }

  /** An element is kept exactly when it is in the input and passes the test. */
  lemma {:induction false} FilterIff<T>(s: seq<T>, f: T -> bool)
    ensures forall x :: x in Filter(s, f) <==> x in s && f(x)
  {
    if s != [] {
      FilterIff(s[1..], f);
      assert forall x :: x in s <==> x == s[0] || x in s[1..];
    }
  }

  /** Filtering keeps the order: filtering a concatenation concatenates the filtered parts. */
  lemma {:induction false} FilterAppend<T>(a: seq<T>, b: seq<T>, f: T -> bool)
    ensures Filter(a + b, f) == Filter(a, f) + Filter(b, f)
  {
    if a == [] {
      assert a + b == b;
    } else {
      var head := if f(a[0]) then [a[0]] else [];
      assert (a + b)[0] == a[0];
      assert (a + b)[1..] == a[1..] + b;
      assert Filter(a + b, f) == head + Filter(a[1..] + b, f);
      FilterAppend(a[1..], b, f);
      assert Filter(a, f) == head + Filter(a[1..], f);
    }
  }

  /** Filtering never adds elements. */
  lemma {:induction false} FilterLength<T>(s: seq<T>, f: T -> bool)
    ensures |Filter(s, f)| <= |s|
  {
    if s != [] {
      FilterLength(s[1..], f);
    }
  }

  /** The step of a loop that filters `s` at index `i`: when `r` followed by
      the filtered rest from `i` is the whole filtered list, so is `r` with
      `s[i]` appended if it passes, followed by the filtered rest from `i + 1`. */
  lemma FilterStep<T>(s: seq<T>, i: nat, f: T -> bool, r: seq<T>)
    requires i < |s| && Filter(s, f) == r + Filter(s[i..], f)
    ensures Filter(s, f) == (r + (if f(s[i]) then [s[i]] else [])) + Filter(s[i + 1..], f)
  {
    assert s[i..][1..] == s[i + 1..];
  }
}
