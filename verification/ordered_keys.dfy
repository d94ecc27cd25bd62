/** Ordered string maps: the iteration order of a BTreeMap. */
module OrderedKeys {
  predicate Less(a: string, b: string) {
    b != [] && (a == [] || a[0] < b[0] || (a[0] == b[0] && Less(a[1..], b[1..])))
  }

  lemma {:induction false} LessIrreflexive(a: string)
    ensures !Less(a, a)
  {
    if a != [] {
      LessIrreflexive(a[1..]);
    }
  }

  lemma {:induction false} LessTransitive(a: string, b: string, c: string)
    requires Less(a, b) && Less(b, c)
    ensures Less(a, c)
  {
    if a != [] && a[0] == b[0] && b[0] == c[0] {
      LessTransitive(a[1..], b[1..], c[1..]);
    }
  }

  lemma {:induction false} LessTotal(a: string, b: string)
    ensures a == b || Less(a, b) || Less(b, a)
  {
    if a != [] && b != [] && a[0] == b[0] {
      LessTotal(a[1..], b[1..]);
      assert a == [a[0]] + a[1..] && b == [b[0]] + b[1..];
    }
  }

  /** The order of a dictionary: a proper prefix comes first, and else the first difference decides. */
  lemma {:induction false} LessIsLexicographic(a: string, b: string, k: nat)
    requires k <= |a| && k <= |b| && a[..k] == b[..k]
    requires k < |a| && k < |b| ==> a[k] != b[k]
    ensures Less(a, b) <==> if k < |a| && k < |b| then a[k] < b[k] else |a| < |b|
  {
    if k > 0 {
      assert a[0] == a[..k][0] == b[..k][0] == b[0];
      assert a[1..][..k - 1] == a[..k][1..] && b[1..][..k - 1] == b[..k][1..];
      LessIsLexicographic(a[1..], b[1..], k - 1);
    }
  }

  ghost predicate Ascending(ks: seq<string>) {
    forall i, j :: 0 <= i < j < |ks| ==> Less(ks[i], ks[j])
  }

  function Insert(ks: seq<string>, k: string): (r: seq<string>)
    ensures multiset(r) == multiset(ks) + multiset{k}
  {
    if ks == [] then [k]
    else if Less(k, ks[0]) then [k] + ks
    else
      assert ks == [ks[0]] + ks[1..];
      [ks[0]] + Insert(ks[1..], k)
  }

  lemma InsertElements(ks: seq<string>, k: string)
    ensures forall x :: x in Insert(ks, k) <==> x in ks || x == k
  {
    assert forall x :: x in Insert(ks, k) <==> x in multiset(Insert(ks, k));
    assert forall x :: x in ks <==> x in multiset(ks);
  }

  lemma AscendingCons(k: string, ks: seq<string>)
    requires Ascending(ks) && forall x :: x in ks ==> Less(k, x)
    ensures Ascending([k] + ks)
  {
    hide Less;
  }

  lemma {:induction false} InsertAscending(ks: seq<string>, k: string)
    requires Ascending(ks) && k !in ks
    ensures Ascending(Insert(ks, k))
    ensures forall x :: x in Insert(ks, k) <==> x in ks || x == k
  {
    hide Less;
    InsertElements(ks, k);
    if ks != [] {
      var head, tail := ks[0], ks[1..];
      LessTotal(k, head);
      forall x | x in tail
        ensures Less(head, x)
      {
        var i :| 0 <= i < |tail| && tail[i] == x;
        assert ks[i + 1] == x;
      }
      if Less(k, head) {
        forall x | x in ks
          ensures Less(k, x)
        {
          if x != head {
            assert ks == [head] + tail;
            LessTransitive(k, head, x);
          }
        }
        AscendingCons(k, ks);
      } else {
        InsertAscending(tail, k);
        AscendingCons(head, Insert(tail, k));
      }
    }
  }

  /** The keys of a map in ascending order. */
  method SortedKeys<V>(m: map<string, V>) returns (ks: seq<string>)
    ensures Ascending(ks) && forall k :: k in ks <==> k in m
  {
    hide Insert;
    ks := [];
    var rest := m.Keys;
    while rest != {}
      invariant rest <= m.Keys && Ascending(ks) && forall k :: k in ks <==> k in m && k !in rest
      decreases |rest|
    {
      var k :| k in rest;
      InsertAscending(ks, k);
      ks := Insert(ks, k);
      rest := rest - {k};
    }
  }

  /** An ascending list is determined by its elements. */
  lemma {:induction false} AscendingUnique(a: seq<string>, b: seq<string>)
    requires Ascending(a) && Ascending(b) && forall k :: k in a <==> k in b
    ensures a == b
  {
    assert b != [] ==> b[0] in b;
    if a != [] {
      assert a[0] in a && a[0] in b;
      assert b[0] in b && b[0] in a;
      Heads(a, b);
      forall k | k in a[1..]
        ensures k in b[1..]
      {
        TailOf(a, b, k);
      }
      forall k | k in b[1..]
        ensures k in a[1..]
      {
        TailOf(b, a, k);
      }
      AscendingUnique(a[1..], b[1..]);
      assert a == [a[0]] + a[1..] && b == [b[0]] + b[1..];
    }
  }

  lemma Heads(a: seq<string>, b: seq<string>)
    requires a != [] && b != [] && Ascending(a) && Ascending(b) && a[0] in b && b[0] in a
    ensures a[0] == b[0]
  {
    var i :| 0 <= i < |b| && b[i] == a[0];
    var j :| 0 <= j < |a| && a[j] == b[0];
    if i > 0 && j > 0 {
      LessTransitive(a[0], b[0], a[0]);
      LessIrreflexive(a[0]);
    }
  }

  lemma TailOf(a: seq<string>, b: seq<string>, k: string)
    requires a != [] && b != [] && a[0] == b[0] && Ascending(a) && k in a[1..] && k in b
    ensures k in b[1..]
  {
    var i :| 0 <= i < |a[1..]| && a[1..][i] == k;
    assert Less(a[0], a[i + 1]);
    LessIrreflexive(a[0]);
    var j :| 0 <= j < |b| && b[j] == k;
    assert b[1..][j - 1] == k;
  }
}
