/**
 * The list edits the game performs on its inventory and enemy lists:
 * first-occurrence removal (Python's `list.remove` guarded by `in`) and
 * duplicate-free appending.
 */
module Lists {

  /** No element occurs twice. */
  predicate NoDup<T(==)>(xs: seq<T>) {
    forall i, j :: 0 <= i < j < |xs| ==> xs[i] != xs[j]
  }

  /** The index of the first occurrence of `x`. */
  function IndexOf<T(==)>(xs: seq<T>, x: T): (i: nat)
    requires x in xs
    ensures i < |xs| && xs[i] == x && x !in xs[..i]
  {
    if xs[0] == x then 0 else 1 + IndexOf(xs[1..], x)
  }

  /** `xs` with the first occurrence of `x` deleted; `xs` itself when `x` is absent. */
  function RemoveFirst<T(==)>(xs: seq<T>, x: T): (r: seq<T>)
    ensures x !in xs ==> r == xs
    ensures x in xs ==> r == xs[..IndexOf(xs, x)] + xs[IndexOf(xs, x) + 1..]
    ensures multiset(r) == multiset(xs) - multiset{x}
    ensures NoDup(xs) ==> NoDup(r)
    ensures forall y :: y in r ==> y in xs
  {
    if x in xs then
      var i := IndexOf(xs, x);
      CutAt(xs, i);
      xs[..i] + xs[i + 1..]
    else
      xs
  }

  /** Cutting out one element leaves the others, in order and without new duplicates. */
  lemma CutAt<T>(xs: seq<T>, i: nat)
    requires i < |xs|
    ensures multiset(xs[..i] + xs[i + 1..]) == multiset(xs) - multiset{xs[i]}
    ensures NoDup(xs) ==> NoDup(xs[..i] + xs[i + 1..])
    ensures forall y :: y in xs[..i] + xs[i + 1..] ==> y in xs
  {
    var r := xs[..i] + xs[i + 1..];
    assert xs == xs[..i] + [xs[i]] + xs[i + 1..];
    assert forall k :: 0 <= k < |r| ==> r[k] == xs[if k < i then k else k + 1];
    if NoDup(xs) {
      forall a, b | 0 <= a < b < |r|
        ensures r[a] != r[b]
      {
        assert r[a] == xs[if a < i then a else a + 1];
        assert r[b] == xs[if b < i then b else b + 1];
      }
    }
    forall y | y in r
      ensures y in xs
    {
      var k :| 0 <= k < |r| && r[k] == y;
      assert xs[if k < i then k else k + 1] == y;
    }
  }

  /**
   * Removes, name by name and in order, the first occurrence of each name
   * that is still present; names that are absent are skipped.
   */
  function RemoveEach<T(==)>(xs: seq<T>, names: seq<T>): (r: seq<T>)
    decreases |names|
    ensures NoDup(xs) ==> NoDup(r)
    ensures forall y :: y in r ==> y in xs
  {
    if names == [] then xs
    else
      var front := names[..|names| - 1];
      var last := names[|names| - 1];
      assert names == front + [last];
      RemoveFirst(RemoveEach(xs, front), last)
  }

  /** Each name removes one copy of itself if one is left: the counts are subtracted. */
  lemma {:induction false} RemoveEachCount<T>(xs: seq<T>, names: seq<T>)
    ensures multiset(RemoveEach(xs, names)) == multiset(xs) - multiset(names)
    decreases |names|
  {
    if names != [] {
      var front := names[..|names| - 1];
      var last := names[|names| - 1];
      assert names == front + [last];
      RemoveEachCount(xs, front);
    }
  }

  /** Appends each name that is not yet present, in order. */
  function AddUnique<T(==,!new)>(xs: seq<T>, names: seq<T>): (r: seq<T>)
    decreases |names|
    ensures xs <= r
    ensures forall y :: y in r <==> y in xs || y in names
    ensures NoDup(xs) ==> NoDup(r)
  {
    if names == [] then xs
    else
      var t := AddUnique(xs, names[..|names| - 1]);
      var last := names[|names| - 1];
      if last in t then t else t + [last]
  }

  /** Removing names none of which is present changes nothing. */
  lemma {:induction false} RemoveEachAbsent<T>(xs: seq<T>, names: seq<T>)
    requires forall n :: n in names ==> n !in xs
    ensures RemoveEach(xs, names) == xs
    decreases |names|
  {
    if names != [] {
      var front := names[..|names| - 1];
      assert forall n :: n in front ==> n in names;
      RemoveEachAbsent(xs, front);
      assert names[|names| - 1] in names;
    }
  }

  /** Without duplicates, a name survives removal exactly when it was present and not named. */
  lemma RemoveEachMembership<T>(xs: seq<T>, names: seq<T>, y: T)
    requires NoDup(xs)
    ensures y in RemoveEach(xs, names) <==> y in xs && y !in names
  {
    var r := RemoveEach(xs, names);
    RemoveEachCount(xs, names);
    NoDupCount(xs, y);
    assert y in r <==> multiset(r)[y] > 0;
    assert y in xs <==> multiset(xs)[y] > 0;
    assert y in names <==> multiset(names)[y] > 0;
  }

  /** In a list without duplicates every element occurs at most once. */
  lemma {:induction false} NoDupCount<T>(xs: seq<T>, y: T)
    requires NoDup(xs)
    ensures multiset(xs)[y] <= 1
  {
    if xs != [] {
      assert xs == [xs[0]] + xs[1..];
      assert NoDup(xs[1..]);
      NoDupCount(xs[1..], y);
      if xs[0] == y {
        assert y !in xs[1..];
      }
    }
  }

  /** Adding names that are all present already changes nothing. */
  lemma {:induction false} AddUniquePresent<T(!new)>(xs: seq<T>, names: seq<T>)
    requires forall n :: n in names ==> n in xs
    ensures AddUnique(xs, names) == xs
    decreases |names|
  {
    if names != [] {
      var front := names[..|names| - 1];
      assert forall n :: n in front ==> n in names;
      AddUniquePresent(xs, front);
      assert names[|names| - 1] in names;
    }
  }

  /** Adding the same names a second time changes nothing. */
  lemma AddUniqueIdempotent<T(!new)>(xs: seq<T>, names: seq<T>)
    ensures AddUnique(AddUnique(xs, names), names) == AddUnique(xs, names)
  {
    AddUniquePresent(AddUnique(xs, names), names);
  }
}
