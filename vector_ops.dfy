/** The std::vector operations the engine's registries are built from, as
    functions on sequences: std::find, the swap-with-last-and-pop removal used
    for actor lists, the linear-scan sorted insert used for sprites and
    components, and find-then-erase. */
module VectorOps {

  /** No element occurs twice. */
  predicate Distinct<T(==)>(s: seq<T>)
  {
    forall i, j :: 0 <= i < j < |s| ==> s[i] != s[j]
  }

  /** No element of a occurs in b. */
  predicate Disjoint<T(==)>(a: seq<T>, b: seq<T>)
  {
    forall i, j :: 0 <= i < |a| && 0 <= j < |b| ==> a[i] != b[j]
  }

  /** The position std::find stops at: the first occurrence of x. */
  function IndexOf<T(==)>(s: seq<T>, x: T): (i: nat)
    requires x in s
    ensures i < |s| && s[i] == x
    ensures forall j :: 0 <= j < i ==> s[j] != x
  {
    if s[0] == x then 0 else 1 + IndexOf(s[1..], x)
  }

  /** std::find over a whole vector; |s| plays the part of end(). */
  method Find<T(==)>(s: seq<T>, x: T) returns (i: nat)
    ensures i <= |s|
    ensures i < |s| ==> s[i] == x
    ensures forall j :: 0 <= j < i ==> s[j] != x
  {
    i := 0;
    while i < |s| && s[i] != x
      invariant i <= |s|
      invariant forall j :: 0 <= j < i ==> s[j] != x
    {
      i := i + 1;
    }
  }

  /** std::iter_swap with the last element, then pop_back. */
  function SwapPop<T>(s: seq<T>, i: nat): (r: seq<T>)
    requires i < |s|
    ensures |r| == |s| - 1
  {
    s[i := s[|s| - 1]][..|s| - 1]
  }

  /** Swap-and-pop removal of the first occurrence of x; nothing when x is absent. */
  function SwapRemove<T(==)>(s: seq<T>, x: T): (r: seq<T>)
  {
    if x in s then SwapPop(s, IndexOf(s, x)) else s
  }

  /** Swap-and-pop below the last position: the last element takes the
      removed one's place. */
  lemma SwapPopShape<T>(s: seq<T>, i: nat)
    requires i < |s| - 1
    ensures SwapPop(s, i) == s[..i] + ([s[|s| - 1]] + s[i + 1..|s| - 1])
  {
    var r, t := SwapPop(s, i), s[..i] + ([s[|s| - 1]] + s[i + 1..|s| - 1]);
    assert |r| == |t|;
    forall k | 0 <= k < |r| ensures r[k] == t[k] {
      if k > i {
        assert t[k] == s[i + 1..|s| - 1][k - i - 1] == s[k];
      }
    }
  }

  lemma MultisetRotate<T>(pre: seq<T>, x: T, mid: seq<T>, last: T)
    ensures multiset(pre + [x] + (mid + [last])) == multiset(pre + ([last] + mid)) + multiset{x}
  {
    calc {
      multiset(pre + [x] + (mid + [last]));
      multiset(pre) + multiset{x} + (multiset(mid) + multiset{last});
      multiset(pre) + (multiset{last} + multiset(mid)) + multiset{x};
      multiset(pre + ([last] + mid)) + multiset{x};
    }
  }

  lemma SplitAround<T>(s: seq<T>, i: nat)
    requires i < |s| - 1
    ensures s == s[..i] + [s[i]] + (s[i + 1..|s| - 1] + [s[|s| - 1]])
  {
    assert s[i + 1..] == s[i + 1..|s| - 1] + [s[|s| - 1]];
    assert s == s[..i] + [s[i]] + s[i + 1..];
  }

  lemma MultisetCancel<T>(a: multiset<T>, x: T, b: multiset<T>)
    requires a + multiset{x} == b
    ensures a == b - multiset{x}
  {
  }

  lemma SwapPopMultiset<T>(s: seq<T>, i: nat)
    requires i < |s|
    ensures multiset(SwapPop(s, i)) == multiset(s) - multiset{s[i]}
  {
    var n, r := |s|, SwapPop(s, i);
    if i == n - 1 {
      assert s == r + [s[i]];
      MultisetCancel(multiset(r), s[i], multiset(s));
    } else {
      SwapPopShape(s, i);
      SplitAround(s, i);
      MultisetRotate(s[..i], s[i], s[i + 1..n - 1], s[n - 1]);
      MultisetCancel(multiset(r), s[i], multiset(s));
    }
  }

  lemma SwapPopDistinct<T>(s: seq<T>, i: nat)
    requires i < |s| && Distinct(s)
    ensures Distinct(SwapPop(s, i))
  {
    var r := SwapPop(s, i);
    forall a, b | 0 <= a < b < |r| ensures r[a] != r[b] {
      var a' := if a == i then |s| - 1 else a;
      var b' := if b == i then |s| - 1 else b;
      assert r[a] == s[a'] && r[b] == s[b'] && a' != b';
    }
  }

  /** In a list without repeats every element occurs exactly once. */
  lemma DistinctCount<T>(s: seq<T>, i: nat)
    requires i < |s| && Distinct(s)
    ensures multiset(s)[s[i]] == 1
  {
    var x := s[i];
    assert s == s[..i] + [x] + s[i + 1..];
    assert x !in s[..i];
    var rest := s[i + 1..];
    forall k | 0 <= k < |rest| ensures rest[k] != x {
      assert rest[k] == s[i + 1 + k];
    }
    assert x !in rest;
  }

  /** What RemoveActor does to one list: an absent actor leaves it as it is;
      a present one leaves it one shorter, with exactly that one occurrence gone. */
  lemma SwapRemoveSpec<T>(s: seq<T>, x: T)
    ensures x !in s ==> SwapRemove(s, x) == s
    ensures x in s ==> |SwapRemove(s, x)| == |s| - 1
    ensures multiset(SwapRemove(s, x)) == multiset(s) - multiset{x}
    ensures Distinct(s) ==> Distinct(SwapRemove(s, x)) && x !in SwapRemove(s, x)
  {
    if x in s {
      var i := IndexOf(s, x);
      SwapPopMultiset(s, i);
      if Distinct(s) {
        SwapPopDistinct(s, i);
        DistinctCount(s, i);
        assert multiset(SwapRemove(s, x))[x] == 0;
      }
    } else {
      assert multiset(s)[x] == 0;
    }
  }

  /** Elements of s whose p equals want, in order (the dead-actor scan). */
  function Select<T>(s: seq<T>, p: T -> bool, want: bool): (r: seq<T>)
    ensures |r| <= |s|
    ensures forall i :: 0 <= i < |r| ==> r[i] in s && p(r[i]) == want
    ensures forall i :: 0 <= i < |s| && p(s[i]) == want ==> s[i] in r
  {
    if s == [] then []
    else if p(s[0]) == want then [s[0]] + Select(s[1..], p, want)
    else Select(s[1..], p, want)
  }

  /** Splitting a list by a predicate neither loses nor duplicates anything. */
  lemma {:induction false} SelectSplit<T>(s: seq<T>, p: T -> bool)
    ensures multiset(s) == multiset(Select(s, p, true)) + multiset(Select(s, p, false))
  {
    if s != [] {
      var t := s[1..];
      var x, yes, no := s[0], Select(t, p, true), Select(t, p, false);
      SelectSplit(t, p);
      assert s == [x] + t;
      if p(x) {
        calc {
          multiset(Select(s, p, true)) + multiset(Select(s, p, false));
          multiset([x] + yes) + multiset(no);
          (multiset{x} + multiset(yes)) + multiset(no);
          multiset{x} + (multiset(yes) + multiset(no));
          multiset{x} + multiset(t);
          multiset(s);
        }
      } else {
        calc {
          multiset(Select(s, p, true)) + multiset(Select(s, p, false));
          multiset(yes) + multiset([x] + no);
          multiset(yes) + (multiset{x} + multiset(no));
          multiset{x} + (multiset(yes) + multiset(no));
          multiset{x} + multiset(t);
          multiset(s);
        }
      }
    }
  }

  lemma {:induction false} SelectDistinct<T>(s: seq<T>, p: T -> bool, want: bool)
    requires Distinct(s)
    ensures Distinct(Select(s, p, want))
  {
    if s != [] {
      SelectDistinct(s[1..], p, want);
    }
  }

  /** Scanning one more element extends the selection by that element exactly
      when it matches: the scan can be done left to right. */
  lemma {:induction false} SelectSnoc<T>(s: seq<T>, x: T, p: T -> bool, want: bool)
    ensures Select(s + [x], p, want) == Select(s, p, want) + (if p(x) == want then [x] else [])
  {
    if s == [] {
      assert [] + [x] == [x] && [x][1..] == [];
    } else {
      assert (s + [x])[1..] == s[1..] + [x];
      SelectSnoc(s[1..], x, p, want);
    }
  }

  /** Non-decreasing by key. */
  predicate SortedBy<T>(s: seq<T>, key: T -> int)
  {
    forall i, j :: 0 <= i < j < |s| ==> key(s[i]) <= key(s[j])
  }

  /** The iterator the insertion scan stops at: the first element whose key is
      strictly greater than k. */
  function InsertPos<T>(s: seq<T>, key: T -> int, k: int): (p: nat)
    ensures p <= |s|
    ensures forall j :: 0 <= j < p ==> key(s[j]) <= k
    ensures p < |s| ==> k < key(s[p])
  {
    if s == [] || k < key(s[0]) then 0 else 1 + InsertPos(s[1..], key, k)
  }

  /** vector::insert(begin() + p, x). */
  function InsertAt<T>(s: seq<T>, p: nat, x: T): (r: seq<T>)
    requires p <= |s|
  {
    s[..p] + [x] + s[p..]
  }

  /** Sorted insert: x goes in front of the first element with a greater key. */
  function InsertSorted<T>(s: seq<T>, key: T -> int, x: T): seq<T>
  {
    InsertAt(s, InsertPos(s, key, key(x)), x)
  }

  /** The insert adds exactly x at the scan's stopping point and keeps the old
      elements in their old order. */
  lemma InsertSortedShape<T>(s: seq<T>, key: T -> int, x: T)
    ensures var r, p := InsertSorted(s, key, x), InsertPos(s, key, key(x));
      && |r| == |s| + 1 && r[p] == x
      && r[..p] + r[p + 1..] == s
      && multiset(r) == multiset(s) + multiset{x}
  {
    var p := InsertPos(s, key, key(x));
    var r := InsertSorted(s, key, x);
    assert r[..p] == s[..p] && r[p + 1..] == s[p..];
    assert s == s[..p] + s[p..];
  }

  /** On a sorted list the insert keeps it sorted and is stable: x lands after
      every element with an equal key and before every greater one. */
  lemma InsertSortedSorted<T>(s: seq<T>, key: T -> int, x: T)
    requires SortedBy(s, key)
    ensures var r, p := InsertSorted(s, key, x), InsertPos(s, key, key(x));
      && SortedBy(r, key)
      && (forall j :: 0 <= j < p ==> key(r[j]) <= key(x))
      && (forall j :: p < j < |r| ==> key(x) < key(r[j]))
  {
    var p := InsertPos(s, key, key(x));
    var r := InsertSorted(s, key, x);
    assert |r| == |s| + 1;
    forall j | 0 <= j < p ensures key(r[j]) <= key(x) {
      assert r[j] == s[j];
    }
    forall j | p < j < |r| ensures key(x) < key(r[j]) {
      assert r[j] == s[j - 1];
      assert key(s[p]) <= key(s[j - 1]);
    }
    forall a, b | 0 <= a < b < |r| ensures key(r[a]) <= key(r[b]) {
      if b < p {
        assert r[a] == s[a] && r[b] == s[b];
      } else if a > p {
        assert r[a] == s[a - 1] && r[b] == s[b - 1];
      }
    }
  }

  /** vector::erase at position i. */
  function EraseAt<T>(s: seq<T>, i: nat): (r: seq<T>)
    requires i < |s|
    ensures |r| == |s| - 1
  {
    s[..i] + s[i + 1..]
  }

  /** erase(find(x)) for an x that is present. */
  function RemoveFirst<T(==)>(s: seq<T>, x: T): (r: seq<T>)
    requires x in s
  {
    EraseAt(s, IndexOf(s, x))
  }

  /** Erasing one position removes exactly that element and keeps the rest
      sorted. */
  lemma EraseAtSpec<T>(s: seq<T>, i: nat, key: T -> int)
    requires i < |s|
    ensures multiset(EraseAt(s, i)) == multiset(s) - multiset{s[i]}
    ensures SortedBy(s, key) ==> SortedBy(EraseAt(s, i), key)
  {
    var r := EraseAt(s, i);
    assert s == s[..i] + [s[i]] + s[i + 1..];
    if SortedBy(s, key) {
      forall a, b | 0 <= a < b < |r| ensures key(r[a]) <= key(r[b]) {
        var a', b' := if a < i then a else a + 1, if b < i then b else b + 1;
        assert r[a] == s[a'] && r[b] == s[b'];
      }
    }
  }

  /** Erasing one occurrence keeps the rest sorted and in order. */
  lemma RemoveFirstSpec<T>(s: seq<T>, key: T -> int, x: T)
    requires x in s
    ensures multiset(RemoveFirst(s, x)) == multiset(s) - multiset{x}
    ensures SortedBy(s, key) ==> SortedBy(RemoveFirst(s, x), key)
  {
    EraseAtSpec(s, IndexOf(s, x), key);
  }

  /** Registering and then deregistering a new element restores the list. */
  lemma InsertThenRemove<T>(s: seq<T>, key: T -> int, x: T)
    requires x !in s
    ensures x in InsertSorted(s, key, x)
    ensures RemoveFirst(InsertSorted(s, key, x), x) == s
  {
    var p := InsertPos(s, key, key(x));
    var r := InsertSorted(s, key, x);
    assert r == s[..p] + [x] + s[p..];
    assert r[p] == x;
    forall j | 0 <= j < p ensures r[j] != x {
      assert r[j] == s[j];
    }
    assert IndexOf(r, x) == p by {
      var q := IndexOf(r, x);
      assert q <= p;
    }
    assert r[..p] == s[..p] && r[p + 1..] == s[p..];
  }

  /** Keys are unique among the elements of s. */
  predicate KeysUnique<T(==)>(s: seq<T>, key: T -> int)
  {
    forall i, j :: 0 <= i < |s| && 0 <= j < |s| && key(s[i]) == key(s[j]) ==> s[i] == s[j]
  }

  /** Two non-empty sorted lists holding the same elements with unique keys
      start with the same element. */
  lemma SortedSameHead<T>(a: seq<T>, b: seq<T>, key: T -> int)
    requires a != [] && b != []
    requires SortedBy(a, key) && SortedBy(b, key)
    requires multiset(a) == multiset(b)
    requires KeysUnique(a, key)
    ensures a[0] == b[0]
  {
    assert a[0] in multiset(b) && b[0] in multiset(a);
    var i :| 0 <= i < |b| && b[i] == a[0];
    var j :| 0 <= j < |a| && a[j] == b[0];
    assert key(b[0]) <= key(b[i]);
    assert key(a[0]) <= key(a[j]);
  }

  /** Dropping the head of a list keeps it sorted, keeps its keys unique and
      takes the head out of its multiset. */
  lemma TailFacts<T>(a: seq<T>, key: T -> int)
    requires a != []
    ensures multiset(a[1..]) == multiset(a) - multiset{a[0]}
    ensures SortedBy(a, key) ==> SortedBy(a[1..], key)
    ensures KeysUnique(a, key) ==> KeysUnique(a[1..], key)
  {
    assert a == [a[0]] + a[1..];
    var t := a[1..];
    if KeysUnique(a, key) {
      forall i, j | 0 <= i < |t| && 0 <= j < |t| && key(t[i]) == key(t[j]) ensures t[i] == t[j] {
        assert t[i] == a[i + 1] && t[j] == a[j + 1];
      }
    }
  }

  /** Two sorted lists holding the same elements with unique keys are equal:
      the sorted order does not depend on how the list was built. */
  lemma {:induction false} SortedUnique<T>(a: seq<T>, b: seq<T>, key: T -> int)
    requires SortedBy(a, key) && SortedBy(b, key)
    requires multiset(a) == multiset(b)
    requires KeysUnique(a, key)
    ensures a == b
    decreases |a|
  {
    if a == [] {
      assert |b| == |multiset(b)| == 0;
    } else {
      assert b != [] by {
        assert a[0] in multiset(b);
      }
      SortedSameHead(a, b, key);
      assert SortedBy(a[1..], key) && SortedBy(b[1..], key) && KeysUnique(a[1..], key)
        && multiset(a[1..]) == multiset(b[1..]) by {
        TailFacts(a, key);
        TailFacts(b, key);
      }
      SortedUnique(a[1..], b[1..], key);
      assert a == [a[0]] + a[1..] && b == [b[0]] + b[1..];
    }
  }

  /** Insert each of xs in turn. */
  function InsertAll<T>(s: seq<T>, key: T -> int, xs: seq<T>): seq<T>
    decreases |xs|
  {
    if xs == [] then s else InsertAll(InsertSorted(s, key, xs[0]), key, xs[1..])
  }

  lemma {:induction false} InsertAllSpec<T>(s: seq<T>, key: T -> int, xs: seq<T>)
    requires SortedBy(s, key)
    ensures SortedBy(InsertAll(s, key, xs), key)
    ensures multiset(InsertAll(s, key, xs)) == multiset(s) + multiset(xs)
    decreases |xs|
  {
    if xs != [] {
      InsertSortedShape(s, key, xs[0]);
      InsertSortedSorted(s, key, xs[0]);
      InsertAllSpec(InsertSorted(s, key, xs[0]), key, xs[1..]);
      assert xs == [xs[0]] + xs[1..];
    }
  }

  /** Elements with unique keys, registered in any two orders, end up in the
      same list. */
  lemma InsertionOrderIrrelevant<T>(xs: seq<T>, ys: seq<T>, key: T -> int)
    requires multiset(xs) == multiset(ys)
    requires KeysUnique(xs, key)
    ensures InsertAll([], key, xs) == InsertAll([], key, ys)
    ensures SortedBy(InsertAll([], key, xs), key)
  {
    var a, b := InsertAll([], key, xs), InsertAll([], key, ys);
    InsertAllSpec([], key, xs);
    InsertAllSpec([], key, ys);
    assert multiset(a) == multiset(xs);
    forall i, j | 0 <= i < |a| && 0 <= j < |a| && key(a[i]) == key(a[j]) ensures a[i] == a[j] {
      assert a[i] in multiset(xs) && a[j] in multiset(xs);
      assert a[i] in xs && a[j] in xs;
    }
    SortedUnique(a, b, key);
  }
}
