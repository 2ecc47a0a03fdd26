/** Choosing among the installed releases whose manifests verify. */
module ReleaseBindings {
  import opened Wrappers
  import opened Texts
  import opened Semver
  import opened SemverOrder

  datatype Binding = Binding(path: Text, version: Text, generatedAt: int, sha256: Text)

  /** Path resolution, lower-casing, and reading a manifest with all its verification. */
  datatype Platform = Platform(resolve: Text -> Text, lower: Text -> Text, read: Text -> Option<Binding>)

  function CompareNumber(a: int, b: int): int { if a < b then -1 else if a > b then 1 else 0 }

  function First(a: int, b: int): int { if a != 0 then a else b }

  function CompareBindings(lower: Text -> Text, l: Binding, r: Binding): int {
    First(CompareSemver(lower, l.version, r.version),
    First(CompareNumber(l.generatedAt, r.generatedAt),
    First(CompareText(l.sha256, r.sha256),
    First(CompareText(lower(l.path), lower(r.path)), CompareText(l.path, r.path)))))
  }

  /** The laws a three-way comparison needs, for one triple. */
  predicate Laws(ab: int, ba: int, bc: int, ac: int) {
    && ab == -ba
    && (ab <= 0 && bc <= 0 ==> ac <= 0)
    && (ab < 0 && bc <= 0 ==> ac < 0)
    && (ab <= 0 && bc < 0 ==> ac < 0)
  }

  lemma LawsCompose(ab: int, ba: int, bc: int, ac: int, ab': int, ba': int, bc': int, ac': int)
    requires Laws(ab, ba, bc, ac) && Laws(ab', ba', bc', ac')
    ensures Laws(First(ab, ab'), First(ba, ba'), First(bc, bc'), First(ac, ac'))
  {
  }

  lemma TextLaws(a: Text, b: Text, c: Text)
    ensures Laws(CompareText(a, b), CompareText(b, a), CompareText(b, c), CompareText(a, c))
  {
    CompareTextEqual(a, b);
    if CompareText(a, b) <= 0 && CompareText(b, c) <= 0 { CompareTextTransitive(a, b, c); }
  }

  /** Bindings are totally ordered; only bindings of the same manifest compare equal. */
  lemma BindingsOrder(lower: Text -> Text, a: Binding, b: Binding, c: Binding)
    ensures Laws(CompareBindings(lower, a, b), CompareBindings(lower, b, a),
                 CompareBindings(lower, b, c), CompareBindings(lower, a, c))
    ensures CompareBindings(lower, a, b) == 0 ==> a.path == b.path
  {
    SemverPreorder(lower, a.version, b.version, c.version);
    TextLaws(a.sha256, b.sha256, c.sha256);
    TextLaws(lower(a.path), lower(b.path), lower(c.path));
    TextLaws(a.path, b.path, c.path);
    CompareTextEqual(a.path, b.path);
    var p1, p2, p3, p4 := CompareText(a.path, b.path), CompareText(b.path, a.path),
                          CompareText(b.path, c.path), CompareText(a.path, c.path);
    var f1, f2, f3, f4 := CompareText(lower(a.path), lower(b.path)), CompareText(lower(b.path), lower(a.path)),
                          CompareText(lower(b.path), lower(c.path)), CompareText(lower(a.path), lower(c.path));
    LawsCompose(f1, f2, f3, f4, p1, p2, p3, p4);
    var s1, s2, s3, s4 := CompareText(a.sha256, b.sha256), CompareText(b.sha256, a.sha256),
                          CompareText(b.sha256, c.sha256), CompareText(a.sha256, c.sha256);
    LawsCompose(s1, s2, s3, s4, First(f1, p1), First(f2, p2), First(f3, p3), First(f4, p4));
    var g1, g2, g3, g4 := CompareNumber(a.generatedAt, b.generatedAt), CompareNumber(b.generatedAt, a.generatedAt),
                          CompareNumber(b.generatedAt, c.generatedAt), CompareNumber(a.generatedAt, c.generatedAt);
    LawsCompose(g1, g2, g3, g4, First(s1, First(f1, p1)), First(s2, First(f2, p2)),
                First(s3, First(f3, p3)), First(s4, First(f4, p4)));
    LawsCompose(CompareSemver(lower, a.version, b.version), CompareSemver(lower, b.version, a.version),
                CompareSemver(lower, b.version, c.version), CompareSemver(lower, a.version, c.version),
                First(g1, First(s1, First(f1, p1))), First(g2, First(s2, First(f2, p2))),
                First(g3, First(s3, First(f3, p3))), First(g4, First(s4, First(f4, p4))));
  }

  // ---------- Discovery ----------

  function Key(w: Platform, candidate: Text): Text { w.lower(w.resolve(candidate)) }

  function Keys(w: Platform, candidates: seq<Text>): set<Text> {
    set k | 0 <= k < |candidates| && candidates[k] != [] :: Key(w, candidates[k])
  }

  /** The verified bindings, first come first kept among paths that differ only by case. */
  function Verified(w: Platform, candidates: seq<Text>): seq<Binding> {
    if candidates == [] then []
    else
      var front, last := candidates[..|candidates| - 1], candidates[|candidates| - 1];
      var found := Verified(w, front);
      if last == [] || Key(w, last) in Keys(w, front) || w.read(w.resolve(last)).None? then found
      else found + [w.read(w.resolve(last)).value]
  }

  function Insert(lower: Text -> Text, b: Binding, sorted: seq<Binding>): seq<Binding> {
    if sorted == [] || CompareBindings(lower, b, sorted[0]) > 0 then [b] + sorted
    else [sorted[0]] + Insert(lower, b, sorted[1..])
  }

  /** Highest first; earlier elements stay ahead of equal later ones. */
  function SortDescending(lower: Text -> Text, bindings: seq<Binding>): seq<Binding> {
    if bindings == [] then []
    else Insert(lower, bindings[|bindings| - 1], SortDescending(lower, bindings[..|bindings| - 1]))
  }

  function Discovered(w: Platform, candidates: seq<Text>): seq<Binding> {
    SortDescending(w.lower, Verified(w, candidates))
  }

  method Discover(w: Platform, candidates: seq<Text>) returns (bindings: seq<Binding>)
    ensures bindings == Discovered(w, candidates)
  {
    var seen: set<Text>, verified: seq<Binding> := {}, [];
    for k := 0 to |candidates|
      invariant seen == Keys(w, candidates[..k])
      invariant verified == Verified(w, candidates[..k])
    {
      var candidate := candidates[k];
      KeysStep(w, candidates, k);
      assert candidates[..k + 1][..k] == candidates[..k];
      if candidate != [] {
        var key := Key(w, candidate);
        if key !in seen {
          seen := seen + {key};
          var binding := w.read(w.resolve(candidate));
          if binding.Some? { verified := verified + [binding.value]; }
        }
      }
    }
    assert candidates[..|candidates|] == candidates;
    bindings := SortDescending(w.lower, verified);
  }

  lemma KeysStep(w: Platform, candidates: seq<Text>, k: nat)
    requires k < |candidates|
    ensures Keys(w, candidates[..k + 1]) ==
            Keys(w, candidates[..k]) + if candidates[k] == [] then {} else {Key(w, candidates[k])}
  {
    var front, all := candidates[..k], candidates[..k + 1];
    forall key | key in Keys(w, all)
      ensures key in Keys(w, front) || (candidates[k] != [] && key == Key(w, candidates[k]))
    {
      var i :| 0 <= i < |all| && all[i] != [] && Key(w, all[i]) == key;
      if i < k { assert front[i] == all[i]; }
    }
    forall key | key in Keys(w, front) ensures key in Keys(w, all) {
      var i :| 0 <= i < |front| && front[i] != [] && Key(w, front[i]) == key;
      assert all[i] == front[i];
    }
    assert all[k] == candidates[k];
  }

  // ---------- Descending permutation ----------

  ghost predicate Descending(lower: Text -> Text, bindings: seq<Binding>) {
    forall i, j | 0 <= i < j < |bindings| :: CompareBindings(lower, bindings[j], bindings[i]) <= 0
  }

  lemma {:induction false} InsertKeeps(lower: Text -> Text, b: Binding, sorted: seq<Binding>)
    ensures multiset(Insert(lower, b, sorted)) == multiset(sorted) + multiset{b}
  {
    if sorted != [] && CompareBindings(lower, b, sorted[0]) <= 0 {
      InsertKeeps(lower, b, sorted[1..]);
      assert sorted == [sorted[0]] + sorted[1..];
    }
  }

  lemma PrependDescending(lower: Text -> Text, head: Binding, tail: seq<Binding>)
    requires Descending(lower, tail)
    requires forall k | 0 <= k < |tail| :: CompareBindings(lower, tail[k], head) <= 0
    ensures Descending(lower, [head] + tail)
  {
  }

  lemma {:induction false} InsertDescends(lower: Text -> Text, b: Binding, sorted: seq<Binding>)
    requires Descending(lower, sorted)
    ensures Descending(lower, Insert(lower, b, sorted))
  {
    if sorted == [] {
    } else if CompareBindings(lower, b, sorted[0]) > 0 {
      forall k | 0 <= k < |sorted| ensures CompareBindings(lower, sorted[k], b) <= 0 {
        BindingsOrder(lower, sorted[k], sorted[0], b);
        BindingsOrder(lower, b, sorted[0], sorted[k]);
        BindingsOrder(lower, sorted[0], b, b);
      }
      PrependDescending(lower, b, sorted);
    } else {
      InsertDescends(lower, b, sorted[1..]);
      InsertKeeps(lower, b, sorted[1..]);
      var tail := Insert(lower, b, sorted[1..]);
      forall k | 0 <= k < |tail| ensures CompareBindings(lower, tail[k], sorted[0]) <= 0 {
        assert tail[k] in multiset(tail);
        if tail[k] != b {
          assert tail[k] in multiset(sorted[1..]);
          var i :| 0 <= i < |sorted[1..]| && sorted[1..][i] == tail[k];
          assert sorted[i + 1] == tail[k];
        }
      }
      PrependDescending(lower, sorted[0], tail);
    }
  }

  /** Sorting gives a descending permutation. */
  lemma {:induction false} SortTheorem(lower: Text -> Text, bindings: seq<Binding>)
    ensures multiset(SortDescending(lower, bindings)) == multiset(bindings)
    ensures Descending(lower, SortDescending(lower, bindings))
  {
    if bindings != [] {
      var front, last := bindings[..|bindings| - 1], bindings[|bindings| - 1];
      assert bindings == front + [last];
      SortTheorem(lower, front);
      InsertKeeps(lower, last, SortDescending(lower, front));
      InsertDescends(lower, last, SortDescending(lower, front));
    }
  }

  // ---------- Independence of candidate order ----------

  ghost predicate NoCaseTwins(w: Platform, candidates: seq<Text>) {
    forall a, b | a in candidates && b in candidates && a != [] && b != [] && Key(w, a) == Key(w, b) ::
      w.resolve(a) == w.resolve(b)
  }

  /** A binding remembers the path it was read from. */
  ghost predicate ReadsPath(w: Platform) {
    forall p :: w.read(p).Some? ==> w.read(p).value.path == p
  }

  ghost predicate Supplies(w: Platform, candidates: seq<Text>, b: Binding) {
    exists c :: c in candidates && c != [] && w.read(w.resolve(c)) == Some(b)
  }

  ghost predicate DistinctPaths(bindings: seq<Binding>) {
    forall i, j | 0 <= i < j < |bindings| :: bindings[i].path != bindings[j].path
  }

  /** Candidate k is the first of its path, up to letter case. */
  ghost predicate FirstOfKey(w: Platform, candidates: seq<Text>, k: nat) {
    k < |candidates| && candidates[k] != [] && Key(w, candidates[k]) !in Keys(w, candidates[..k])
  }

  ghost predicate SuppliedAt(w: Platform, candidates: seq<Text>, b: Binding, k: nat) {
    FirstOfKey(w, candidates, k) && w.read(w.resolve(candidates[k])) == Some(b)
  }

  /** For every list of candidates: exactly the bindings read from the first candidate of each
      path, up to letter case, each path once. */
  lemma {:induction false} VerifiedElements(w: Platform, candidates: seq<Text>)
    requires ReadsPath(w)
    ensures forall b :: b in Verified(w, candidates) <==> exists k: nat :: SuppliedAt(w, candidates, b, k)
    ensures DistinctPaths(Verified(w, candidates))
  {
    if candidates != [] {
      var n := |candidates| - 1;
      var front, last := candidates[..n], candidates[n];
      VerifiedElements(w, front);
      forall b ensures b in Verified(w, candidates) <==> exists k: nat :: SuppliedAt(w, candidates, b, k) {
        SuppliedStep(w, candidates, b);
      }
      if FirstOfKey(w, candidates, n) && w.read(w.resolve(last)).Some? { NewPath(w, front, last); }
    }
  }

  lemma SuppliedStep(w: Platform, candidates: seq<Text>, b: Binding)
    requires candidates != []
    ensures var n := |candidates| - 1;
      (exists k: nat :: SuppliedAt(w, candidates, b, k)) <==>
        (exists k: nat :: SuppliedAt(w, candidates[..n], b, k)) || SuppliedAt(w, candidates, b, n)
  {
    var n := |candidates| - 1;
    var front := candidates[..n];
    forall k: nat | k < n ensures SuppliedAt(w, candidates, b, k) <==> SuppliedAt(w, front, b, k) {
      assert front[..k] == candidates[..k];
    }
    if k: nat :| SuppliedAt(w, candidates, b, k) { assert k < n ==> SuppliedAt(w, front, b, k); }
    if k: nat :| SuppliedAt(w, front, b, k) { assert SuppliedAt(w, candidates, b, k); }
  }

  /** A candidate of a new key has a path that no binding before it has. */
  lemma NewPath(w: Platform, front: seq<Text>, last: Text)
    requires ReadsPath(w) && Key(w, last) !in Keys(w, front) && w.read(w.resolve(last)).Some?
    requires forall b :: b in Verified(w, front) <==> exists k: nat :: SuppliedAt(w, front, b, k)
    ensures forall b | b in Verified(w, front) :: b.path != w.read(w.resolve(last)).value.path
  {
    forall b | b in Verified(w, front) ensures b.path != w.read(w.resolve(last)).value.path {
      var k: nat :| SuppliedAt(w, front, b, k);
      assert Key(w, front[k]) in Keys(w, front);
    }
  }

  lemma FirstWithKey(w: Platform, candidates: seq<Text>, j: nat) returns (k: nat)
    requires j < |candidates| && candidates[j] != []
    ensures FirstOfKey(w, candidates, k) && Key(w, candidates[k]) == Key(w, candidates[j])
  {
    if Key(w, candidates[j]) !in Keys(w, candidates[..j]) {
      k := j;
    } else {
      var i :| 0 <= i < j && candidates[i] != [] && Key(w, candidates[i]) == Key(w, candidates[j]);
      k := FirstWithKey(w, candidates, i);
    }
  }

  /** Without case twins these are simply the bindings the candidates supply. */
  lemma VerifiedWithoutTwins(w: Platform, candidates: seq<Text>, b: Binding)
    requires NoCaseTwins(w, candidates) && ReadsPath(w)
    ensures b in Verified(w, candidates) <==> Supplies(w, candidates, b)
  {
    VerifiedElements(w, candidates);
    if b in Verified(w, candidates) {
      var k: nat :| SuppliedAt(w, candidates, b, k);
      assert candidates[k] in candidates;
    }
    if Supplies(w, candidates, b) {
      var c :| c in candidates && c != [] && w.read(w.resolve(c)) == Some(b);
      var j: nat :| j < |candidates| && candidates[j] == c;
      var k := FirstWithKey(w, candidates, j);
      assert candidates[k] in candidates;
      assert SuppliedAt(w, candidates, b, k);
    }
  }

  lemma HeadsAgree(lower: Text -> Text, xs: seq<Binding>, ys: seq<Binding>)
    requires xs != [] && ys != [] && Descending(lower, xs) && Descending(lower, ys) && DistinctPaths(xs)
    requires xs[0] in ys && ys[0] in xs
    ensures xs[0] == ys[0]
  {
    var i :| 0 <= i < |ys| && ys[i] == xs[0];
    var j :| 0 <= j < |xs| && xs[j] == ys[0];
    assert i == 0 || CompareBindings(lower, ys[i], ys[0]) <= 0;
    assert j == 0 || CompareBindings(lower, xs[j], xs[0]) <= 0;
    BindingsOrder(lower, xs[0], ys[0], ys[0]);
    assert j == 0 || xs[0].path != xs[j].path;
  }

  /** Two descending listings of the same bindings, one per path, are the same listing. */
  lemma {:induction false} DescendingUnique(lower: Text -> Text, xs: seq<Binding>, ys: seq<Binding>)
    requires Descending(lower, xs) && Descending(lower, ys) && DistinctPaths(xs) && DistinctPaths(ys)
    requires forall b :: b in xs <==> b in ys
    ensures xs == ys
  {
    assert xs != [] ==> xs[0] in ys;
    assert ys != [] ==> ys[0] in xs;
    if xs != [] {
      HeadsAgree(lower, xs, ys);
      forall b ensures b in xs[1..] <==> b in ys[1..] {
        TailMember(xs, b);
        TailMember(ys, b);
      }
      DescendingUnique(lower, xs[1..], ys[1..]);
      assert xs == [xs[0]] + xs[1..] && ys == [ys[0]] + ys[1..];
    }
  }

  lemma TailMember(xs: seq<Binding>, b: Binding)
    requires xs != [] && DistinctPaths(xs)
    ensures b in xs[1..] <==> b in xs && b != xs[0]
  {
    assert xs == [xs[0]] + xs[1..];
    if b in xs[1..] {
      var k :| 0 <= k < |xs[1..]| && xs[1..][k] == b;
      assert xs[0].path != xs[k + 1].path;
    }
  }

  lemma PermutedDistinctPaths(xs: seq<Binding>, ys: seq<Binding>)
    requires multiset(xs) == multiset(ys) && DistinctPaths(xs)
    ensures DistinctPaths(ys) && forall b :: b in xs <==> b in ys
  {
    forall b ensures b in xs <==> b in ys {
      assert b in xs <==> b in multiset(xs);
      assert b in ys <==> b in multiset(ys);
    }
    forall i, j | 0 <= i < j < |ys| ensures ys[i].path != ys[j].path {
      if ys[i] == ys[j] {
        assert ys == ys[..i] + [ys[i]] + ys[i + 1..j] + [ys[j]] + ys[j + 1..];
        OncePerPath(xs, ys[i]);
      } else {
        assert ys[i] in xs && ys[j] in xs;
      }
    }
  }

  lemma {:induction false} OncePerPath(xs: seq<Binding>, b: Binding)
    requires DistinctPaths(xs)
    ensures multiset(xs)[b] <= 1
  {
    if xs != [] {
      var front, last := xs[..|xs| - 1], xs[|xs| - 1];
      assert xs == front + [last];
      OncePerPath(front, b);
      if b == last { assert b !in front && b !in multiset(front); }
    }
  }

  /** With no two candidate paths differing only by case, the result, and with it the
      chosen first binding, depends only on which candidates there are. */
  lemma DiscoveryIgnoresOrder(w: Platform, candidates: seq<Text>, shuffled: seq<Text>)
    requires ReadsPath(w) && NoCaseTwins(w, candidates)
    requires forall c :: c in candidates <==> c in shuffled
    ensures Discovered(w, candidates) == Discovered(w, shuffled)
  {
    VerifiedElements(w, candidates);
    VerifiedElements(w, shuffled);
    var xs, ys := Verified(w, candidates), Verified(w, shuffled);
    forall b ensures b in xs <==> b in ys {
      VerifiedWithoutTwins(w, candidates, b);
      VerifiedWithoutTwins(w, shuffled, b);
    }
    SortTheorem(w.lower, xs);
    SortTheorem(w.lower, ys);
    PermutedDistinctPaths(xs, Discovered(w, candidates));
    PermutedDistinctPaths(ys, Discovered(w, shuffled));
    DescendingUnique(w.lower, Discovered(w, candidates), Discovered(w, shuffled));
  }

  // ---------- Newest first ----------

  /** a stands before b: higher version, then later time, then higher hash, then higher path, the
      last two without regard to letter case first. */
  ghost predicate Leads(lower: Text -> Text, a: Binding, b: Binding) {
    var version := CompareSemver(lower, a.version, b.version);
    || version > 0
    || (version == 0 && a.generatedAt > b.generatedAt)
    || (version == 0 && a.generatedAt == b.generatedAt && TextLess(b.sha256, a.sha256))
    || (version == 0 && a.generatedAt == b.generatedAt && a.sha256 == b.sha256 && PathLeads(lower, a.path, b.path))
  }

  ghost predicate PathLeads(lower: Text -> Text, a: Text, b: Text) {
    TextLess(lower(b), lower(a)) || (lower(b) == lower(a) && (a == b || TextLess(b, a)))
  }

  lemma TextSign(a: Text, b: Text)
    ensures CompareText(a, b) < 0 <==> TextLess(a, b)
    ensures CompareText(a, b) > 0 <==> TextLess(b, a)
    ensures CompareText(a, b) == 0 <==> a == b
  {
    CompareTextEqual(a, b);
    CompareTextIsLess(a, b);
    CompareTextIsLess(b, a);
  }

  lemma LeadsExactly(lower: Text -> Text, a: Binding, b: Binding)
    ensures CompareBindings(lower, b, a) <= 0 <==> Leads(lower, a, b)
  {
    SemverPreorder(lower, b.version, a.version, a.version);
    TextSign(b.sha256, a.sha256);
    TextSign(lower(b.path), lower(a.path));
    TextSign(b.path, a.path);
  }

  /** For every list of candidates the result is ordered newest first, and holds exactly the
      bindings of the first candidate of each path. */
  lemma DiscoveryTheorem(w: Platform, candidates: seq<Text>)
    requires ReadsPath(w)
    ensures var found := Discovered(w, candidates);
      && (forall i, j | 0 <= i < j < |found| :: Leads(w.lower, found[i], found[j]))
      && DistinctPaths(found)
      && (forall b :: b in found <==> exists k: nat :: SuppliedAt(w, candidates, b, k))
  {
    var verified, found := Verified(w, candidates), Discovered(w, candidates);
    SortTheorem(w.lower, verified);
    VerifiedElements(w, candidates);
    PermutedDistinctPaths(verified, found);
    forall i, j | 0 <= i < j < |found| ensures Leads(w.lower, found[i], found[j]) {
      LeadsExactly(w.lower, found[i], found[j]);
    }
  }

  /** The chosen binding's version has the highest precedence: no binding supplied with a valid
      version comes after it, and with any valid version about, its own is valid. */
  lemma ChosenTheorem(w: Platform, candidates: seq<Text>, b: Binding, k: nat)
    requires ReadsPath(w) && SuppliedAt(w, candidates, b, k) && Parse(b.version).Some?
    ensures var found := Discovered(w, candidates);
      && found != [] && Parse(found[0].version).Some?
      && !Precedes(MeaningOf(Parse(found[0].version).value), MeaningOf(Parse(b.version).value))
  {
    var found := Discovered(w, candidates);
    DiscoveryTheorem(w, candidates);
    assert b in found;
    var j :| 0 <= j < |found| && found[j] == b;
    SemverPreorder(w.lower, found[0].version, b.version, b.version);
    assert CompareSemver(w.lower, found[0].version, b.version) >= 0 by {
      assert j == 0 || Leads(w.lower, found[0], found[j]);
      SemverPreorder(w.lower, b.version, b.version, b.version);
    }
    ComparesPrecedence(w.lower, found[0].version, b.version);
  }
}
