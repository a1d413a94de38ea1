/**
 * Ordering by an explicit key. `SortBy` stands for Go's `sort.Slice`: it
 * returns a permutation of its input that is ordered by the key. When the
 * keys are distinct, that permutation is unique: it is the canonical
 * ascending enumeration `SortedElems` of the key set, whatever order the
 * input came in. This is what makes the outputs built from Go maps
 * independent of map iteration order.
 */
module Sorting {

  predicate StrictlyIncreasing(s: seq<int>)
  {
    forall i, j :: 0 <= i < j < |s| ==> s[i] < s[j]
  }

  predicate SortedBy<T>(xs: seq<T>, key: T -> int)
  {
    forall i, j :: 0 <= i < j < |xs| ==> key(xs[i]) <= key(xs[j])
  }

  predicate DistinctKeys<T>(xs: seq<T>, key: T -> int)
  {
    forall i, j :: 0 <= i < j < |xs| ==> key(xs[i]) != key(xs[j])
  }

  /** The keys of `xs`, position by position. */
  function Keys<T>(xs: seq<T>, key: T -> int): (ks: seq<int>)
    ensures |ks| == |xs|
    ensures forall i :: 0 <= i < |xs| ==> ks[i] == key(xs[i])
  {
    seq(|xs|, i requires 0 <= i < |xs| => key(xs[i]))
  }

  /** The number of leading elements of the key-ordered `xs` whose key is below `key(x)`. */
  function InsertPos<T>(x: T, xs: seq<T>, key: T -> int): (p: nat)
    ensures p <= |xs|
    ensures forall i :: 0 <= i < p ==> key(xs[i]) < key(x)
    ensures p < |xs| ==> key(x) <= key(xs[p])
  {
    if xs == [] || key(x) <= key(xs[0]) then 0 else 1 + InsertPos(x, xs[1..], key)
  }

  /** Inserts `x` into the key-ordered `xs` in front of the first element whose key is not smaller. */
  function Insert<T>(x: T, xs: seq<T>, key: T -> int): (r: seq<T>)
    requires SortedBy(xs, key)
    ensures |r| == |xs| + 1
    ensures SortedBy(r, key)
    ensures multiset(r) == multiset(xs) + multiset{x}
    ensures forall i :: 0 <= i < |r| ==> r[i] == x || r[i] in xs
    ensures x in r && forall i :: 0 <= i < |xs| ==> xs[i] in r
    ensures DistinctKeys(xs, key) && (forall i :: 0 <= i < |xs| ==> key(xs[i]) != key(x)) ==> DistinctKeys(r, key)
  {
    var p := InsertPos(x, xs, key);
    InsertAtSorted(x, xs, key, p);
    InsertAtElements(x, xs, p);
    InsertAtDistinct(x, xs, key, p);
    xs[..p] + [x] + xs[p..]
  }

  lemma InsertAtSorted<T>(x: T, xs: seq<T>, key: T -> int, p: nat)
    requires SortedBy(xs, key)
    requires p <= |xs|
    requires forall i :: 0 <= i < p ==> key(xs[i]) < key(x)
    requires p < |xs| ==> key(x) <= key(xs[p])
    ensures SortedBy(xs[..p] + [x] + xs[p..], key)
  {
    var r := xs[..p] + [x] + xs[p..];
    forall i, j | 0 <= i < j < |r|
      ensures key(r[i]) <= key(r[j])
    {
      var ki := if i < p then key(xs[i]) else if i == p then key(x) else key(xs[i - 1]);
      var kj := if j < p then key(xs[j]) else if j == p then key(x) else key(xs[j - 1]);
      assert key(r[i]) == ki && key(r[j]) == kj;
      if i < p && j > p {
        assert key(xs[i]) <= key(xs[p]);
      } else if i == p && j > p {
        assert key(xs[p]) <= key(xs[j - 1]);
      }
    }
  }

  lemma InsertAtElements<T>(x: T, xs: seq<T>, p: nat)
    requires p <= |xs|
    ensures var r := xs[..p] + [x] + xs[p..];
      && multiset(r) == multiset(xs) + multiset{x}
      && (forall i :: 0 <= i < |r| ==> r[i] == x || r[i] in xs)
      && (x in r && forall i :: 0 <= i < |xs| ==> xs[i] in r)
  {
    var r := xs[..p] + [x] + xs[p..];
    assert xs == xs[..p] + xs[p..];
    assert r[p] == x;
    forall i | 0 <= i < |r|
      ensures r[i] == x || r[i] in xs
    {
      if i < p { assert r[i] == xs[i]; } else if i > p { assert r[i] == xs[i - 1]; }
    }
    forall i | 0 <= i < |xs|
      ensures xs[i] in r
    {
      if i < p { assert r[i] == xs[i]; } else { assert r[i + 1] == xs[i]; }
    }
  }

  lemma InsertAtDistinct<T>(x: T, xs: seq<T>, key: T -> int, p: nat)
    requires p <= |xs|
    ensures DistinctKeys(xs, key) && (forall i :: 0 <= i < |xs| ==> key(xs[i]) != key(x)) ==>
              DistinctKeys(xs[..p] + [x] + xs[p..], key)
  {
    var r := xs[..p] + [x] + xs[p..];
    forall i, j | DistinctKeys(xs, key) && (forall i :: 0 <= i < |xs| ==> key(xs[i]) != key(x)) && 0 <= i < j < |r|
      ensures key(r[i]) != key(r[j])
    {
      var ii := if i < p then i else i - 1;
      var jj := if j < p then j else j - 1;
      if i != p && j != p {
        assert r[i] == xs[ii] && r[j] == xs[jj] && ii < jj;
      } else if i == p {
        assert r[j] == xs[jj];
      } else {
        assert r[i] == xs[ii];
      }
    }
  }

  /** Go's `sort.Slice(xs, less)` with `less(i, j) == key(xs[i]) < key(xs[j])`. */
  function SortBy<T>(xs: seq<T>, key: T -> int): (r: seq<T>)
    ensures SortedBy(r, key)
    ensures multiset(r) == multiset(xs)
    ensures forall i :: 0 <= i < |r| ==> r[i] in xs
    ensures forall i :: 0 <= i < |xs| ==> xs[i] in r
    ensures DistinctKeys(xs, key) ==> DistinctKeys(r, key)
  {
    if xs == [] then []
    else
      var rest := SortBy(xs[1..], key);
      SortByStep(xs, rest, key);
      Insert(xs[0], rest, key)
  }

  lemma SortByStep<T>(xs: seq<T>, rest: seq<T>, key: T -> int)
    requires xs != []
    requires SortedBy(rest, key)
    requires multiset(rest) == multiset(xs[1..])
    requires forall i :: 0 <= i < |rest| ==> rest[i] in xs[1..]
    requires forall i :: 0 <= i < |xs[1..]| ==> xs[1..][i] in rest
    requires DistinctKeys(xs[1..], key) ==> DistinctKeys(rest, key)
    ensures var r := Insert(xs[0], rest, key);
      && multiset(r) == multiset(xs)
      && (forall i :: 0 <= i < |r| ==> r[i] in xs)
      && (forall i :: 0 <= i < |xs| ==> xs[i] in r)
      && (DistinctKeys(xs, key) ==> DistinctKeys(r, key))
  {
    assert xs == [xs[0]] + xs[1..];
    InsertStepMembers(xs, rest, key);
    InsertStepCovers(xs, rest, key);
    if DistinctKeys(xs, key) {
      InsertStepDistinct(xs, rest, key);
    }
  }

  lemma InsertStepMembers<T>(xs: seq<T>, rest: seq<T>, key: T -> int)
    requires xs != [] && SortedBy(rest, key)
    requires forall i :: 0 <= i < |rest| ==> rest[i] in xs[1..]
    ensures forall i :: 0 <= i < |Insert(xs[0], rest, key)| ==> Insert(xs[0], rest, key)[i] in xs
  {
    var r := Insert(xs[0], rest, key);
    forall i | 0 <= i < |r|
      ensures r[i] in xs
    {
      if r[i] != xs[0] {
        assert r[i] in rest;
        var j :| 0 <= j < |rest| && rest[j] == r[i];
        assert rest[j] in xs[1..];
      }
    }
  }

  lemma InsertStepCovers<T>(xs: seq<T>, rest: seq<T>, key: T -> int)
    requires xs != [] && SortedBy(rest, key)
    requires forall i :: 0 <= i < |xs[1..]| ==> xs[1..][i] in rest
    ensures forall i :: 0 <= i < |xs| ==> xs[i] in Insert(xs[0], rest, key)
  {
    var r := Insert(xs[0], rest, key);
    forall i | 0 <= i < |xs|
      ensures xs[i] in r
    {
      if i > 0 {
        assert xs[1..][i - 1] == xs[i];
        var j :| 0 <= j < |rest| && rest[j] == xs[i];
        assert rest[j] in r;
      }
    }
  }

  lemma InsertStepDistinct<T>(xs: seq<T>, rest: seq<T>, key: T -> int)
    requires xs != [] && SortedBy(rest, key) && DistinctKeys(xs, key)
    requires forall i :: 0 <= i < |rest| ==> rest[i] in xs[1..]
    requires DistinctKeys(xs[1..], key) ==> DistinctKeys(rest, key)
    ensures DistinctKeys(Insert(xs[0], rest, key), key)
  {
    assert DistinctKeys(xs[1..], key);
    forall i | 0 <= i < |rest|
      ensures key(rest[i]) != key(xs[0])
    {
      assert rest[i] in xs[1..];
      var j :| 0 <= j < |xs[1..]| && xs[1..][j] == rest[i];
      assert xs[j + 1] == rest[i];
    }
  }

  /** Sorting keeps any property that every element has. */
  lemma SortByPreserves<T>(xs: seq<T>, key: T -> int, p: T -> bool)
    requires forall i :: 0 <= i < |xs| ==> p(xs[i])
    ensures forall i :: 0 <= i < |SortBy(xs, key)| ==> p(SortBy(xs, key)[i])
  {
    var r := SortBy(xs, key);
    forall i | 0 <= i < |r|
      ensures p(r[i])
    {
      var j :| 0 <= j < |xs| && xs[j] == r[i];
    }
  }

  /** Every finite set of integers holding `x` has a least element. */
  lemma {:induction false} LeastExists(s: set<int>, x: int)
    requires x in s
    ensures exists m :: m in s && forall y :: y in s ==> m <= y
    decreases |s|
  {
    if !forall y :: y in s ==> x <= y {
      var y :| y in s && y < x;
      LeastExists(s - {x}, y);
      var m :| m in s - {x} && forall z :: z in s - {x} ==> m <= z;
      forall z | z in s
        ensures m <= z
      {
        if z != x {
          assert z in s - {x};
        }
      }
    }
  }

  /** The elements of `s` in ascending order. */
  ghost function SortedElems(s: set<int>): (r: seq<int>)
    ensures StrictlyIncreasing(r)
    ensures forall x :: x in r <==> x in s
    ensures |r| == |s|
    decreases |s|
  {
    if forall x :: x !in s then
      assert s == {};
      []
    else
      var x :| x in s;
      LeastExists(s, x);
      var m :| m in s && forall y :: y in s ==> m <= y;
      var rest := SortedElems(s - {m});
      PrependLeast(m, rest, s);
      [m] + rest
  }

  lemma PrependLeast(m: int, rest: seq<int>, s: set<int>)
    requires m in s && forall y :: y in s ==> m <= y
    requires StrictlyIncreasing(rest)
    requires forall x :: x in rest <==> x in s - {m}
    ensures StrictlyIncreasing([m] + rest)
    ensures forall x :: x in [m] + rest <==> x in s
  {
    forall j | 0 <= j < |rest|
      ensures m < rest[j]
    {
      assert rest[j] in rest;
    }
  }

  lemma HeadIn(s: seq<int>)
    ensures s == [] || s[0] in s
  {
  }

  /** Two strictly increasing sequences with the same elements are equal. */
  lemma {:induction false} StrictlyIncreasingUnique(a: seq<int>, b: seq<int>)
    requires StrictlyIncreasing(a) && StrictlyIncreasing(b)
    requires forall x :: x in a <==> x in b
    ensures a == b
  {
    if a != [] && b != [] {
      assert a[0] in b && b[0] in a;
      assert a[0] == b[0];
      forall x
        ensures x in a[1..] <==> x in b[1..]
      {
        if x in a[1..] {
          assert x in a && x != a[0];
        }
        if x in b[1..] {
          assert x in b && x != b[0];
        }
      }
      StrictlyIncreasingUnique(a[1..], b[1..]);
      assert a == [a[0]] + a[1..] && b == [b[0]] + b[1..];
    } else {
      HeadIn(a);
      HeadIn(b);
    }
  }

  /**
   * Sorting entries with distinct keys yields the keys in canonical ascending
   * order, so the result does not depend on the order of the input.
   */
  lemma SortByCanonical<T>(xs: seq<T>, key: T -> int, ks: set<int>)
    requires DistinctKeys(xs, key)
    requires forall k :: k in Keys(xs, key) <==> k in ks
    ensures Keys(SortBy(xs, key), key) == SortedElems(ks)
  {
    var r := SortBy(xs, key);
    var kr := Keys(r, key);
    assert StrictlyIncreasing(kr);
    forall k
      ensures k in kr <==> k in ks
    {
      if k in kr {
        var i :| 0 <= i < |kr| && kr[i] == k;
        assert r[i] in xs;
        var j :| 0 <= j < |xs| && xs[j] == r[i];
        assert Keys(xs, key)[j] == k;
      }
      if k in ks {
        var j :| 0 <= j < |xs| && Keys(xs, key)[j] == k;
        assert xs[j] in r;
        var i :| 0 <= i < |r| && r[i] == xs[j];
        assert kr[i] == k;
      }
    }
    StrictlyIncreasingUnique(kr, SortedElems(ks));
  }
}
