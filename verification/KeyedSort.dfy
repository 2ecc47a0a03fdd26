/** Sorting keyed entries: the key order fixes the listing when keys are distinct. */
module KeyedSort {
  import opened Texts

  /** A value under a text key. */
  datatype Entry<T> = Entry(key: Text, value: T)

  ghost predicate DistinctKeys<T>(es: seq<Entry<T>>) {
    forall i, j | 0 <= i < j < |es| :: es[i].key != es[j].key
  }

  function InsertEntry<T>(e: Entry<T>, sorted: seq<Entry<T>>): seq<Entry<T>> {
    if sorted == [] || CompareText(e.key, sorted[0].key) <= 0 then [e] + sorted
    else [sorted[0]] + InsertEntry(e, sorted[1..])
  }

  /** By ascending key; equal keys keep their order. */
  function SortEntries<T>(es: seq<Entry<T>>): seq<Entry<T>> {
    if es == [] then [] else InsertEntry(es[0], SortEntries(es[1..]))
  }

  ghost predicate Ascending<T>(es: seq<Entry<T>>) {
    forall i, j | 0 <= i < j < |es| :: CompareText(es[i].key, es[j].key) < 0
  }

  lemma {:induction false} InsertMembers<T>(e: Entry<T>, sorted: seq<Entry<T>>)
    ensures forall x :: x in InsertEntry(e, sorted) <==> x == e || x in sorted
    ensures |InsertEntry(e, sorted)| == |sorted| + 1
  {
    if sorted != [] && CompareText(e.key, sorted[0].key) > 0 {
      InsertMembers(e, sorted[1..]);
      assert sorted == [sorted[0]] + sorted[1..];
    }
  }

  lemma {:induction false} SortMembers<T>(es: seq<Entry<T>>)
    ensures forall x :: x in SortEntries(es) <==> x in es
    ensures |SortEntries(es)| == |es|
  {
    if es != [] {
      SortMembers(es[1..]);
      InsertMembers(es[0], SortEntries(es[1..]));
      assert es == [es[0]] + es[1..];
    }
  }

  lemma {:induction false} InsertMember<T>(e: Entry<T>, sorted: seq<Entry<T>>, k: nat)
    requires k < |InsertEntry(e, sorted)|
    ensures var x := InsertEntry(e, sorted)[k];
      x == e || exists i :: 0 <= i < |sorted| && sorted[i] == x
  {
    if sorted == [] || CompareText(e.key, sorted[0].key) <= 0 {
      assert k == 0 || sorted[k - 1] == InsertEntry(e, sorted)[k];
    } else if k == 0 {
      assert sorted[0] == InsertEntry(e, sorted)[k];
    } else {
      InsertMember(e, sorted[1..], k - 1);
      var x := InsertEntry(e, sorted)[k];
      if x != e {
        var i :| 0 <= i < |sorted| - 1 && sorted[1..][i] == x;
        assert sorted[i + 1] == x;
      }
    }
  }

  lemma {:induction false} SortMember<T>(es: seq<Entry<T>>, k: nat)
    requires k < |SortEntries(es)|
    ensures exists i :: 0 <= i < |es| && es[i] == SortEntries(es)[k]
  {
    var sorted := SortEntries(es[1..]);
    var x := InsertEntry(es[0], sorted)[k];
    InsertMember(es[0], sorted, k);
    if x == es[0] {
    } else {
      var j :| 0 <= j < |sorted| && sorted[j] == x;
      SortMember(es[1..], j);
      var i :| 0 <= i < |es| - 1 && es[1..][i] == x;
      assert es[i + 1] == x;
    }
  }

  ghost predicate NewKey<T>(key: Text, es: seq<Entry<T>>) {
    forall k | 0 <= k < |es| :: es[k].key != key
  }

  lemma ConsAscending<T>(e: Entry<T>, tail: seq<Entry<T>>)
    requires Ascending(tail) && forall k | 0 <= k < |tail| :: CompareText(e.key, tail[k].key) < 0
    ensures Ascending([e] + tail)
  {
  }

  lemma {:induction false} InsertAscends<T>(e: Entry<T>, sorted: seq<Entry<T>>)
    requires Ascending(sorted) && NewKey(e.key, sorted)
    ensures Ascending(InsertEntry(e, sorted))
  {
    if sorted == [] {
    } else if CompareText(e.key, sorted[0].key) <= 0 {
      CompareTextEqual(e.key, sorted[0].key);
      forall k | 0 <= k < |sorted| ensures CompareText(e.key, sorted[k].key) < 0 {
        if k > 0 { CompareTextTransitive(e.key, sorted[0].key, sorted[k].key); }
      }
      ConsAscending(e, sorted);
    } else {
      InsertAscends(e, sorted[1..]);
      InsertMembers(e, sorted[1..]);
      var tail := InsertEntry(e, sorted[1..]);
      CompareTextEqual(e.key, sorted[0].key);
      forall k | 0 <= k < |tail| ensures CompareText(sorted[0].key, tail[k].key) < 0 {
        InsertMember(e, sorted[1..], k);
      }
      ConsAscending(sorted[0], tail);
    }
  }

  lemma {:induction false} SortAscends<T>(es: seq<Entry<T>>)
    requires DistinctKeys(es)
    ensures Ascending(SortEntries(es))
  {
    if es != [] {
      SortAscends(es[1..]);
      SortMembers(es[1..]);
      var sorted := SortEntries(es[1..]);
      forall k | 0 <= k < |sorted| ensures sorted[k].key != es[0].key {
        SortMember(es[1..], k);
      }
      InsertAscends(es[0], sorted);
    }
  }

  /** Ascending listings of the same members are the same listing. */
  lemma {:induction false} AscendingUnique<T>(xs: seq<Entry<T>>, ys: seq<Entry<T>>)
    requires Ascending(xs) && Ascending(ys) && forall x :: x in xs <==> x in ys
    ensures xs == ys
  {
    assert xs != [] ==> xs[0] in ys;
    assert ys != [] ==> ys[0] in xs;
    if xs != [] {
      FirstsAgree(xs, ys);
      forall x ensures x in xs[1..] <==> x in ys[1..] {
        RestMembers(xs, x);
        RestMembers(ys, x);
      }
      AscendingUnique(xs[1..], ys[1..]);
      assert xs == [xs[0]] + xs[1..] && ys == [ys[0]] + ys[1..];
    }
  }

  lemma FirstsAgree<T>(xs: seq<Entry<T>>, ys: seq<Entry<T>>)
    requires xs != [] && ys != [] && Ascending(xs) && Ascending(ys) && xs[0] in ys && ys[0] in xs
    ensures xs[0] == ys[0]
  {
    var i :| 0 <= i < |ys| && ys[i] == xs[0];
    var j :| 0 <= j < |xs| && xs[j] == ys[0];
    assert i == 0 || CompareText(ys[0].key, ys[i].key) < 0;
    assert j == 0 || CompareText(xs[0].key, xs[j].key) < 0;
    CompareTextEqual(xs[0].key, ys[0].key);
  }

  lemma RestMembers<T>(xs: seq<Entry<T>>, x: Entry<T>)
    requires xs != [] && Ascending(xs)
    ensures x in xs[1..] <==> x in xs && x != xs[0]
  {
    assert xs == [xs[0]] + xs[1..];
    if x in xs[1..] {
      var k :| 0 <= k < |xs[1..]| && xs[1..][k] == x;
      CompareTextEqual(xs[0].key, xs[0].key);
      assert CompareText(xs[0].key, xs[k + 1].key) < 0;
    }
  }

  /** As many distinctly named members, all found on the other side: the same members. */
  lemma SameSet<T>(xs: seq<Entry<T>>, ys: seq<Entry<T>>)
    requires DistinctKeys(xs) && DistinctKeys(ys) && |xs| == |ys|
    requires forall x | x in xs :: x in ys
    ensures forall x :: x in xs <==> x in ys
  {
    KeySetSize(xs);
    KeySetSize(ys);
    var a, b := KeySet(xs), KeySet(ys);
    assert a <= b by {
      forall key | key in a ensures key in b {
        var i :| 0 <= i < |xs| && xs[i].key == key;
        assert xs[i] in ys;
      }
    }
    SubsetOfSameSize(a, b);
    forall y | y in ys ensures y in xs {
      assert y.key in b;
      var i :| 0 <= i < |xs| && xs[i].key == y.key;
      assert xs[i] in ys;
    }
  }

  ghost function KeySet<T>(xs: seq<Entry<T>>): set<Text> { set k | 0 <= k < |xs| :: xs[k].key }

  lemma {:induction false} KeySetSize<T>(xs: seq<Entry<T>>)
    requires DistinctKeys(xs)
    ensures |KeySet(xs)| == |xs|
  {
    if xs == [] {
      assert KeySet(xs) == {};
    } else {
      KeySetSize(xs[1..]);
      KeySetSplits(xs);
    }
  }

  lemma KeySetSplits<T>(xs: seq<Entry<T>>)
    requires xs != []
    ensures KeySet(xs) == KeySet(xs[1..]) + {xs[0].key}
  {
    forall key | key in KeySet(xs) ensures key in KeySet(xs[1..]) + {xs[0].key} {
      var k :| 0 <= k < |xs| && xs[k].key == key;
      if k > 0 { assert xs[1..][k - 1].key == key; }
    }
    forall key | key in KeySet(xs[1..]) ensures key in KeySet(xs) {
      var k :| 0 <= k < |xs| - 1 && xs[1..][k].key == key;
      assert xs[k + 1].key == key;
    }
  }

  lemma SubsetOfSameSize<T>(a: set<T>, b: set<T>)
    requires a <= b && |a| == |b|
    ensures a == b
  {
    assert b == a + (b - a);
  }

  /** Sorting a sorted listing changes nothing. */
  lemma SortSorted<T>(ns: seq<Entry<T>>)
    requires DistinctKeys(ns)
    ensures SortEntries(SortEntries(ns)) == SortEntries(ns)
  {
    var once := SortEntries(ns);
    SortAscends(ns);
    forall i, j | 0 <= i < j < |once| ensures once[i].key != once[j].key {
      CompareTextEqual(once[i].key, once[j].key);
    }
    SortAscends(once);
    SortMembers(once);
    AscendingUnique(SortEntries(once), once);
  }

  // ---------- Equal keys ----------

  /** The entries of one key, in order. */
  function With<T>(key: Text, es: seq<Entry<T>>): seq<Entry<T>> {
    if es == [] then []
    else (if es[0].key == key then [es[0]] else []) + With(key, es[1..])
  }

  ghost predicate WeaklyAscending<T>(es: seq<Entry<T>>) {
    forall i, j | 0 <= i < j < |es| :: CompareText(es[i].key, es[j].key) <= 0
  }

  /** Different entries have different keys. */
  ghost predicate NoTwins<T>(es: seq<Entry<T>>) {
    forall i, j | 0 <= i < |es| && 0 <= j < |es| && es[i].key == es[j].key :: es[i] == es[j]
  }

  lemma WithCons<T>(key: Text, e: Entry<T>, tail: seq<Entry<T>>)
    ensures With(key, [e] + tail) == (if e.key == key then [e] else []) + With(key, tail)
  {
    assert ([e] + tail)[1..] == tail;
  }

  lemma WithSwapped<T>(key: Text, a: Entry<T>, b: Entry<T>, rest: seq<Entry<T>>)
    requires a.key != b.key
    ensures With(key, [a] + ([b] + rest)) == With(key, [b] + ([a] + rest))
  {
    WithCons(key, a, [b] + rest);
    WithCons(key, b, rest);
    WithCons(key, b, [a] + rest);
    WithCons(key, a, rest);
  }

  lemma WithSameTail<T>(key: Text, e: Entry<T>, x: seq<Entry<T>>, y: seq<Entry<T>>)
    requires With(key, x) == With(key, y)
    ensures With(key, [e] + x) == With(key, [e] + y)
  {
    WithCons(key, e, x);
    WithCons(key, e, y);
  }

  lemma {:induction false} InsertStable<T>(e: Entry<T>, sorted: seq<Entry<T>>, key: Text)
    ensures With(key, InsertEntry(e, sorted)) == With(key, [e] + sorted)
  {
    if sorted != [] && CompareText(e.key, sorted[0].key) > 0 {
      var first, rest := sorted[0], sorted[1..];
      CompareTextEqual(e.key, first.key);
      InsertStable(e, rest, key);
      WithSameTail(key, first, InsertEntry(e, rest), [e] + rest);
      WithSwapped(key, first, e, rest);
      assert sorted == [first] + rest;
    }
  }

  /** Sorting keeps the order among entries of one key. */
  lemma {:induction false} SortStable<T>(es: seq<Entry<T>>, key: Text)
    ensures With(key, SortEntries(es)) == With(key, es)
  {
    if es != [] {
      SortStable(es[1..], key);
      InsertStable(es[0], SortEntries(es[1..]), key);
      WithCons(key, es[0], SortEntries(es[1..]));
    }
  }

  lemma {:induction false} InsertWeaklyAscends<T>(e: Entry<T>, sorted: seq<Entry<T>>)
    requires WeaklyAscending(sorted)
    ensures WeaklyAscending(InsertEntry(e, sorted))
  {
    if sorted == [] {
    } else if CompareText(e.key, sorted[0].key) <= 0 {
      forall k | 0 <= k < |sorted| ensures CompareText(e.key, sorted[k].key) <= 0 {
        if k > 0 { CompareTextTransitive(e.key, sorted[0].key, sorted[k].key); }
      }
    } else {
      InsertWeaklyAscends(e, sorted[1..]);
      var tail := InsertEntry(e, sorted[1..]);
      CompareTextEqual(e.key, sorted[0].key);
      forall k | 0 <= k < |tail| ensures CompareText(sorted[0].key, tail[k].key) <= 0 {
        InsertMember(e, sorted[1..], k);
      }
    }
  }

  lemma {:induction false} SortWeaklyAscends<T>(es: seq<Entry<T>>)
    ensures WeaklyAscending(SortEntries(es))
  {
    if es != [] {
      SortWeaklyAscends(es[1..]);
      InsertWeaklyAscends(es[0], SortEntries(es[1..]));
    }
  }

  lemma {:induction false} WithNone<T>(key: Text, es: seq<Entry<T>>)
    ensures With(key, es) == [] <==> forall k | 0 <= k < |es| :: es[k].key != key
  {
    if es != [] {
      WithNone(key, es[1..]);
      if forall k | 0 <= k < |es| :: es[k].key != key {
        forall k | 0 <= k < |es| - 1 ensures es[1..][k].key != key { assert es[k + 1].key != key; }
      }
    }
  }

  /** The first key of a listing is least, so listings with the same entries of each key
      start alike. */
  lemma SameStart<T>(xs: seq<Entry<T>>, ys: seq<Entry<T>>)
    requires xs != [] && WeaklyAscending(xs) && WeaklyAscending(ys) && forall key :: With(key, xs) == With(key, ys)
    ensures ys != [] && xs[0] == ys[0]
  {
    var k := xs[0].key;
    WithNone(k, xs);
    WithNone(k, ys);
    assert With(k, ys) != [];
    var j :| 0 <= j < |ys| && ys[j].key == k;
    WithNone(ys[0].key, ys);
    WithNone(ys[0].key, xs);
    assert With(ys[0].key, xs) != [];
    var i :| 0 <= i < |xs| && xs[i].key == ys[0].key;
    CompareTextEqual(xs[0].key, ys[0].key);
    assert i == 0 || CompareText(xs[0].key, xs[i].key) <= 0;
    assert j == 0 || CompareText(ys[0].key, ys[j].key) <= 0;
    assert With(k, xs)[0] == xs[0] && With(k, ys)[0] == ys[0];
  }

  /** Listings by ascending key with the same entries of each key are the same listing. */
  lemma {:induction false} SameByKey<T>(xs: seq<Entry<T>>, ys: seq<Entry<T>>)
    requires WeaklyAscending(xs) && WeaklyAscending(ys) && forall key :: With(key, xs) == With(key, ys)
    ensures xs == ys
    decreases |xs|
  {
    if xs == [] {
      if ys != [] { WithNone(ys[0].key, ys); }
    } else {
      SameStart(xs, ys);
      forall key ensures With(key, xs[1..]) == With(key, ys[1..]) {
        var head := if xs[0].key == key then [xs[0]] else [];
        assert With(key, xs) == head + With(key, xs[1..]) && With(key, ys) == head + With(key, ys[1..]);
        assert With(key, xs)[|head|..] == With(key, xs[1..]) && With(key, ys)[|head|..] == With(key, ys[1..]);
      }
      SameByKey(xs[1..], ys[1..]);
      assert xs == [xs[0]] + xs[1..] && ys == [ys[0]] + ys[1..];
    }
  }

  function Copies<T>(e: Entry<T>, n: nat): seq<Entry<T>> { seq(n, _ => e) }

  /** When all entries of a key are one entry, they are its copies. */
  lemma {:induction false} WithCopies<T>(es: seq<Entry<T>>, e: Entry<T>)
    requires forall k | 0 <= k < |es| && es[k].key == e.key :: es[k] == e
    ensures With(e.key, es) == Copies(e, multiset(es)[e])
  {
    if es != [] {
      var rest := es[1..];
      assert es == [es[0]] + rest;
      assert multiset(es) == multiset{es[0]} + multiset(rest);
      forall k | 0 <= k < |rest| && rest[k].key == e.key ensures rest[k] == e { assert rest[k] == es[k + 1]; }
      WithCopies(rest, e);
    }
  }

  lemma SameWith<T>(xs: seq<Entry<T>>, ys: seq<Entry<T>>, key: Text)
    requires NoTwins(xs) && multiset(xs) == multiset(ys)
    ensures With(key, xs) == With(key, ys)
  {
    forall k | 0 <= k < |ys| ensures ys[k] in xs { assert ys[k] in multiset(ys) && ys[k] in multiset(xs); }
    forall k | 0 <= k < |xs| ensures xs[k] in ys { assert xs[k] in multiset(xs) && xs[k] in multiset(ys); }
    if i :| 0 <= i < |xs| && xs[i].key == key {
      WithCopies(xs, xs[i]);
      WithCopies(ys, xs[i]);
    } else {
      WithNone(key, xs);
      WithNone(key, ys);
    }
  }

  /** Moving one entry to the front. */
  function Fronted<T>(es: seq<Entry<T>>, i: nat): seq<Entry<T>>
    requires i < |es|
  {
    [es[i]] + es[..i] + es[i + 1..]
  }

  lemma FrontedPermutes<T>(es: seq<Entry<T>>, i: nat)
    requires i < |es|
    ensures multiset(Fronted(es, i)) == multiset(es)
    ensures With(es[i].key, Fronted(es, i)) != [] && With(es[i].key, Fronted(es, i))[0] == es[i]
  {
    assert es == es[..i] + [es[i]] + es[i + 1..];
  }

  ghost predicate OrderFree<T(!new)>(xs: seq<Entry<T>>) {
    forall ys | multiset(ys) == multiset(xs) :: SortEntries(ys) == SortEntries(xs)
  }

  /** Every reordering of a list sorts to the same listing exactly when no two different
      entries share a key. */
  lemma ReorderTheorem<T(!new)>(xs: seq<Entry<T>>)
    ensures OrderFree(xs) <==> NoTwins(xs)
  {
    if NoTwins(xs) {
      forall ys | multiset(ys) == multiset(xs) ensures SortEntries(ys) == SortEntries(xs) { SortIgnoresOrder(xs, ys); }
    } else {
      var i, j :| 0 <= i < |xs| && 0 <= j < |xs| && xs[i].key == xs[j].key && xs[i] != xs[j];
      TwinsShuffle(xs, i, j);
    }
  }

  lemma SortIgnoresOrder<T>(xs: seq<Entry<T>>, ys: seq<Entry<T>>)
    requires NoTwins(xs) && multiset(xs) == multiset(ys)
    ensures SortEntries(ys) == SortEntries(xs)
  {
    SortWeaklyAscends(xs);
    SortWeaklyAscends(ys);
    forall key ensures With(key, SortEntries(ys)) == With(key, SortEntries(xs)) {
      SortStable(xs, key);
      SortStable(ys, key);
      SameWith(xs, ys, key);
    }
    SameByKey(SortEntries(ys), SortEntries(xs));
  }

  /** Two different entries of one key: which comes first in the listing is the list's choice. */
  lemma TwinsShuffle<T>(xs: seq<Entry<T>>, i: nat, j: nat)
    requires i < |xs| && j < |xs| && xs[i].key == xs[j].key && xs[i] != xs[j]
    ensures multiset(Fronted(xs, i)) == multiset(xs) == multiset(Fronted(xs, j))
    ensures SortEntries(Fronted(xs, i)) != SortEntries(Fronted(xs, j))
  {
    FrontedPermutes(xs, i);
    FrontedPermutes(xs, j);
    SortStable(Fronted(xs, i), xs[i].key);
    SortStable(Fronted(xs, j), xs[i].key);
  }
}
