/** `sort_by_key`: the stable sort by an integer key. */
module StableSort {
  function Insert<T>(xs: seq<T>, x: T, key: T -> int): seq<T> {
    if xs == [] then [x] else if key(x) < key(xs[0]) then [x] + xs else [xs[0]] + Insert(xs[1..], x, key)
  }

  function Sort<T>(xs: seq<T>, key: T -> int): seq<T> {
    if xs == [] then [] else Insert(Sort(xs[..|xs| - 1], key), xs[|xs| - 1], key)
  }

  ghost predicate Ordered<T>(xs: seq<T>, key: T -> int) {
    forall i, j :: 0 <= i < j < |xs| ==> key(xs[i]) <= key(xs[j])
  }

  /** The elements of one key, in their order. */
  function At<T>(xs: seq<T>, key: T -> int, k: int): seq<T> {
    if xs == [] then [] else (if key(xs[0]) == k then [xs[0]] else []) + At(xs[1..], key, k)
  }

  lemma {:induction false} InsertElements<T>(xs: seq<T>, x: T, key: T -> int)
    ensures |Insert(xs, x, key)| == |xs| + 1
    ensures forall y :: y in Insert(xs, x, key) <==> y in xs || y == x
  {
    if xs != [] {
      InsertElements(xs[1..], x, key);
      assert xs == [xs[0]] + xs[1..];
    }
  }

  lemma AboveHead<T>(xs: seq<T>, y: T, x: T, key: T -> int)
    requires Ordered(xs, key) && xs != [] && key(xs[0]) <= key(x) && y in Insert(xs[1..], x, key)
    ensures key(xs[0]) <= key(y)
  {
    InsertElements(xs[1..], x, key);
    if y != x {
      var i :| 0 <= i < |xs[1..]| && xs[1..][i] == y;
      assert key(xs[0]) <= key(xs[i + 1]);
    }
  }

  lemma {:induction false} InsertKeepsOrder<T>(xs: seq<T>, x: T, key: T -> int)
    requires Ordered(xs, key)
    ensures Ordered(Insert(xs, x, key), key)
  {
    if xs != [] && key(x) >= key(xs[0]) {
      var rest := Insert(xs[1..], x, key);
      InsertKeepsOrder(xs[1..], x, key);
      InsertElements(xs[1..], x, key);
      forall j | 0 <= j < |rest|
        ensures key(xs[0]) <= key(rest[j])
      {
        AboveHead(xs, rest[j], x, key);
      }
    }
  }

  lemma AtCons<T>(x: T, xs: seq<T>, key: T -> int, k: int)
    ensures At([x] + xs, key, k) == (if key(x) == k then [x] else []) + At(xs, key, k)
  {
    assert ([x] + xs)[1..] == xs;
  }

  lemma {:induction false} NoneAt<T>(xs: seq<T>, key: T -> int, k: int)
    requires forall i :: 0 <= i < |xs| ==> key(xs[i]) > k
    ensures At(xs, key, k) == []
  {
    if xs != [] {
      NoneAt(xs[1..], key, k);
    }
  }

  lemma {:induction false} AtSnoc<T>(xs: seq<T>, x: T, key: T -> int, k: int)
    ensures At(xs + [x], key, k) == At(xs, key, k) + if key(x) == k then [x] else []
  {
    if xs != [] {
      assert (xs + [x])[1..] == xs[1..] + [x];
      AtSnoc(xs[1..], x, key, k);
    }
  }

  lemma {:induction false} InsertIsStable<T>(xs: seq<T>, x: T, key: T -> int, k: int)
    requires Ordered(xs, key)
    ensures At(Insert(xs, x, key), key, k) == At(xs, key, k) + if key(x) == k then [x] else []
  {
    if xs == [] {
      AtCons(x, [], key, k);
      assert [x] + [] == [x];
    } else if key(x) < key(xs[0]) {
      AtCons(x, xs, key, k);
      if key(x) == k {
        NoneAt(xs, key, k);
      }
    } else {
      InsertIsStable(xs[1..], x, key, k);
      AtCons(xs[0], Insert(xs[1..], x, key), key, k);
    }
  }

  /** It sorts, and elements of equal key keep their order. */
  lemma {:induction false} SortIsStable<T>(xs: seq<T>, key: T -> int, k: int)
    ensures Ordered(Sort(xs, key), key) && At(Sort(xs, key), key, k) == At(xs, key, k)
  {
    hide Insert;
    if xs != [] {
      hide Ordered;
      hide At;
      var init, x := xs[..|xs| - 1], xs[|xs| - 1];
      SortIsStable(init, key, k);
      InsertKeepsOrder(Sort(init, key), x, key);
      InsertIsStable(Sort(init, key), x, key, k);
      assert xs == init + [x];
      AtSnoc(init, x, key, k);
    }
  }

  lemma {:induction false} SortElements<T>(xs: seq<T>, key: T -> int)
    ensures |Sort(xs, key)| == |xs|
    ensures forall y :: y in Sort(xs, key) <==> y in xs
  {
    if xs != [] {
      var init, x := xs[..|xs| - 1], xs[|xs| - 1];
      SortElements(init, key);
      InsertElements(Sort(init, key), x, key);
      assert xs == init + [x];
    }
  }

  lemma {:induction false} InsertLast<T>(xs: seq<T>, x: T, key: T -> int)
    requires forall i :: 0 <= i < |xs| ==> key(xs[i]) <= key(x)
    ensures Insert(xs, x, key) == xs + [x]
  {
    if xs != [] {
      InsertLast(xs[1..], x, key);
    }
  }

  lemma {:induction false} SortedIsFixed<T>(xs: seq<T>, key: T -> int)
    requires Ordered(xs, key)
    ensures Sort(xs, key) == xs
  {
    if xs != [] {
      SortedIsFixed(xs[..|xs| - 1], key);
      InsertLast(xs[..|xs| - 1], xs[|xs| - 1], key);
    }
  }

  lemma FirstAt<T>(xs: seq<T>, key: T -> int)
    ensures if xs == [] then forall k :: At(xs, key, k) == []
            else At(xs, key, key(xs[0])) != [] && At(xs, key, key(xs[0]))[0] == xs[0]
  {}

  lemma {:induction false} AtFrom<T>(xs: seq<T>, key: T -> int, k: int)
    requires At(xs, key, k) != []
    ensures exists i :: 0 <= i < |xs| && key(xs[i]) == k
  {
    if key(xs[0]) != k {
      AtFrom(xs[1..], key, k);
      var i :| 0 <= i < |xs[1..]| && key(xs[1..][i]) == k;
      assert key(xs[i + 1]) == k;
    }
  }

  lemma LeastKey<T>(a: seq<T>, b: seq<T>, key: T -> int)
    requires Ordered(b, key) && a != [] && At(b, key, key(a[0])) != []
    ensures b != [] && key(b[0]) <= key(a[0])
  {
    AtFrom(b, key, key(a[0]));
  }

  lemma SameRest<T>(own: seq<T>, a: seq<T>, b: seq<T>)
    requires own + a == own + b
    ensures a == b
  {
    assert (own + a)[|own|..] == a && (own + b)[|own|..] == b;
  }

  /** An ordered list is determined by its elements of each key, in their order. */
  lemma {:induction false} OrderedUnique<T>(a: seq<T>, b: seq<T>, key: T -> int)
    requires Ordered(a, key) && Ordered(b, key) && forall k :: At(a, key, k) == At(b, key, k)
    ensures a == b
  {
    hide At;
    FirstAt(a, key);
    FirstAt(b, key);
    if a != [] {
      LeastKey(a, b, key);
      LeastKey(b, a, key);
      assert At(a, key, key(a[0]))[0] == At(b, key, key(b[0]))[0];
      forall k
        ensures At(a[1..], key, k) == At(b[1..], key, k)
      {
        AtCons(a[0], a[1..], key, k);
        AtCons(a[0], b[1..], key, k);
        assert a == [a[0]] + a[1..] && b == [a[0]] + b[1..];
        SameRest(if key(a[0]) == k then [a[0]] else [], At(a[1..], key, k), At(b[1..], key, k));
      }
      OrderedUnique(a[1..], b[1..], key);
    }
  }

  /** Lists that agree on the order within each key sort alike. */
  lemma SortUnique<T>(a: seq<T>, b: seq<T>, key: T -> int)
    requires forall k :: At(a, key, k) == At(b, key, k)
    ensures Sort(a, key) == Sort(b, key)
  {
    hide Sort;
    hide At;
    SortIsStable(a, key, 0);
    SortIsStable(b, key, 0);
    forall k
      ensures At(Sort(a, key), key, k) == At(Sort(b, key), key, k)
    {
      SortIsStable(a, key, k);
      SortIsStable(b, key, k);
    }
    OrderedUnique(Sort(a, key), Sort(b, key), key);
  }
}
