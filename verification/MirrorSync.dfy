/** Generated mirrors of source trees: writing them, checking them, and the tree hash in their markers. */
module MirrorSync {
  import opened Wrappers
  import opened Texts
  import opened KeyedSort

  type Path = seq<string>
  type Bytes = seq<int>
  type Files = map<Path, Bytes>

  const MARKER := ".tiangong-generated-source.json"
  const IGNORED_PARTS := {"__pycache__", ".pytest_cache", ".mypy_cache", ".ruff_cache"}

  datatype Mapping = Mapping(id: string, source: Path, targets: seq<Path>)

  /** `list` is the sorted listing of a set of paths, `fold` the case-folded text of a path with
      backslashes, `treeHash` the digest of a listing, `encode` and `decode` the marker's JSON
      (None when it cannot be read). */
  datatype Platform = Platform(
    list: set<Path> -> seq<Path>,
    fold: Path -> Text,
    digest: Bytes -> string,
    treeHash: seq<(Path, string)> -> string,
    encode: (string, Path, nat, string) -> Bytes,
    decode: Bytes -> Option<(string, string)>)

  ghost predicate Listing(p: Platform, s: set<Path>) {
    |p.list(s)| == |s| && forall x :: x in p.list(s) <==> x in s
  }

  ghost predicate ReadsBack(p: Platform, id: string, source: Path, count: nat, hash: string) {
    p.decode(p.encode(id, source, count, hash)) == Some((id, hash))
  }

  /** A listing has each path once, and a marker reads back. */
  ghost predicate Sound(p: Platform) {
    && (forall s {:trigger Listing(p, s)} :: Listing(p, s))
    && (forall id, source, count, hash {:trigger ReadsBack(p, id, source, count, hash)} ::
          ReadsBack(p, id, source, count, hash))
  }

  ghost function Listed(s: set<Path>): seq<Path> {
    if s == {} then []
    else
      var x :| x in s;
      [x] + Listed(s - {x})
  }

  lemma {:induction false} ListedLists(s: set<Path>)
    ensures |Listed(s)| == |s| && forall x :: x in Listed(s) <==> x in s
  {
    if s != {} {
      var x :| x in s && Listed(s) == [x] + Listed(s - {x});
      ListedLists(s - {x});
    }
  }

  function CharOf(n: int): char { if 0 <= n < 0xD800 || 0xE000 <= n < 0x11_0000 then n as char else ' ' }

  function Chars(b: Bytes): string { seq(|b|, k requires 0 <= k < |b| => CharOf(b[k])) }

  function ReadTwo(b: Bytes): Option<(string, string)> {
    if b == [] || !(0 <= b[0] < |b|) then None else Some((Chars(b[1..b[0] + 1]), Chars(b[b[0] + 1..])))
  }

  /** Some platform is sound. */
  lemma SoundExists() returns (p: Platform)
    ensures Sound(p)
  {
    p := Platform(s => Listed(s), _ => [], _ => "", _ => "",
                  (id, source, count, hash) => [|id|] + Codes(id) + Codes(hash), b => ReadTwo(b));
    forall s ensures Listing(p, s) { ListedLists(s); }
    forall id, source, count, hash ensures ReadsBack(p, id, source, count, hash) {
      var b := [|id|] + Codes(id) + Codes(hash);
      assert b[1..|id| + 1] == Codes(id) && b[|id| + 1..] == Codes(hash);
      assert Chars(Codes(id)) == id && Chars(Codes(hash)) == hash;
    }
  }

  // ---------- Paths ----------

  /** q is p or lies under it. */
  predicate Within(p: Path, q: Path) { |p| <= |q| && q[..|p|] == p }

  predicate Under(p: Path, q: Path) { Within(p, q) && |p| < |q| }

  predicate Apart(p: Path, q: Path) { !Within(p, q) && !Within(q, p) }

  function LastDot(s: string): int {
    if s == "" then -1 else if s[|s| - 1] == '.' then |s| - 1 else LastDot(s[..|s| - 1])
  }

  function Suffix(name: string): (r: string)
    ensures |r| <= |name|
  {
    var dot := LastDot(name);
    if 0 < dot < |name| - 1 then name[dot..] else ""
  }

  predicate HasSuffix(p: Path) { p != [] && Suffix(p[|p| - 1]) != "" }

  predicate BytecodeSuffix(s: string) {
    && |s| == 4 && s[0] == '.' && s[1] in {'p', 'P'} && s[2] in {'y', 'Y'} && s[3] in {'c', 'C', 'o', 'O'}
  }

  predicate Included(rel: Path) {
    && (forall k | 0 <= k < |rel| :: rel[k] !in IGNORED_PARTS)
    && rel != [] && !BytecodeSuffix(Suffix(rel[|rel| - 1])) && rel[|rel| - 1] != MARKER
  }

  /** The suffix of a name starts at its last dot, which is neither its first nor its last
      character. */
  lemma {:induction false} LastDotTheorem(s: string)
    ensures -1 <= LastDot(s) < |s|
    ensures LastDot(s) >= 0 ==> s[LastDot(s)] == '.'
    ensures forall k | LastDot(s) < k < |s| :: s[k] != '.'
  {
    if s != "" && s[|s| - 1] != '.' { LastDotTheorem(s[..|s| - 1]); }
  }

  lemma SuffixTheorem(name: string)
    ensures Suffix(name) != "" <==>
      exists i :: 0 < i < |name| - 1 && name[i] == '.' && forall k | i < k < |name| :: name[k] != '.'
    ensures Suffix(name) != "" ==>
      Suffix(name)[0] == '.' && name[|name| - |Suffix(name)|..] == Suffix(name)
  {
    LastDotTheorem(name);
  }

  /** A file is left out exactly when a directory on its path is a cache, its name ends in .pyc or
      .pyo in any letter case, or it is the marker. */
  lemma IncludedTheorem(rel: Path)
    requires rel != []
    ensures var name := rel[|rel| - 1];
      !Included(rel) <==>
        || name == ".tiangong-generated-source.json"
        || (exists k :: 0 <= k < |rel| && rel[k] in {"__pycache__", ".pytest_cache", ".mypy_cache", ".ruff_cache"})
        || (|name| > 4 && name[|name| - 4] == '.' && name[|name| - 3] in {'p', 'P'} && name[|name| - 2] in {'y', 'Y'}
            && name[|name| - 1] in {'c', 'C', 'o', 'O'})
  {
    var name := rel[|rel| - 1];
    BytecodeTheorem(name);
  }

  lemma BytecodeTheorem(name: string)
    ensures BytecodeSuffix(Suffix(name)) <==>
      && |name| > 4 && name[|name| - 4] == '.' && name[|name| - 3] in {'p', 'P'} && name[|name| - 2] in {'y', 'Y'}
      && name[|name| - 1] in {'c', 'C', 'o', 'O'}
  {
    var n := |name|;
    LastDotTheorem(name);
    if BytecodeSuffix(Suffix(name)) {
      assert LastDot(name) == n - 4;
    }
    if n > 4 && name[n - 4] == '.' && name[n - 3] in {'p', 'P'} && name[n - 2] in {'y', 'Y'}
      && name[n - 1] in {'c', 'C', 'o', 'O'}
    {
      assert LastDot(name) == n - 4;
      assert name[n - 4..] == [name[n - 4], name[n - 3], name[n - 2], name[n - 1]];
    }
  }

  /** The included files under a directory, relative to it. */
  function FilesUnder(files: Files, root: Path): set<Path> {
    set p | p in files && Under(root, p) && Included(p[|root|..]) :: p[|root|..]
  }

  lemma UnderRoot(files: Files, root: Path, rel: Path)
    ensures rel in FilesUnder(files, root) <==> Included(rel) && root + rel in files
  {
    assert (root + rel)[..|root|] == root && (root + rel)[|root|..] == rel;
    if rel in FilesUnder(files, root) {
      var p :| p in files && Under(root, p) && Included(p[|root|..]) && p[|root|..] == rel;
      assert p == root + rel;
    }
  }

  lemma PrefixesNest(a: Path, b: Path, p: Path)
    requires Within(a, p) && Within(b, p)
    ensures Within(a, b) || Within(b, a)
  {
    if |a| <= |b| { assert b[..|a|] == p[..|b|][..|a|] == a; } else { assert a[..|b|] == p[..|a|][..|b|] == b; }
  }

  lemma ApartRoots(a: Path, b: Path, p: Path)
    requires Apart(a, b) && Within(a, p)
    ensures !Within(b, p)
  {
    if Within(b, p) { PrefixesNest(a, b, p); }
  }

  // ---------- The tree hash ----------

  function Row(p: Platform, files: Files, source: Path, rel: Path): Entry<(Path, string)>
    requires source + rel in files
  {
    Entry(p.fold(rel), (rel, p.digest(files[source + rel])))
  }

  function Values<T>(es: seq<Entry<T>>): seq<T> { seq(|es|, k requires 0 <= k < |es| => es[k].value) }

  function TreeHash(p: Platform, rows: seq<Entry<(Path, string)>>): string { p.treeHash(Values(SortEntries(rows))) }

  /** Listing the rows in another order gives the same hash when no two different rows share a
      folded path. */
  lemma TreeHashTheorem(p: Platform, xs: seq<Entry<(Path, string)>>, ys: seq<Entry<(Path, string)>>)
    requires NoTwins(xs) && multiset(xs) == multiset(ys)
    ensures TreeHash(p, xs) == TreeHash(p, ys)
  {
    SortIgnoresOrder(xs, ys);
  }

  /** Every row stands under its folded path. */
  ghost predicate Keyed(p: Platform, rows: seq<Entry<(Path, string)>>) {
    forall k | 0 <= k < |rows| :: rows[k].key == p.fold(rows[k].value.0)
  }

  lemma KeyedPermutes(p: Platform, xs: seq<Entry<(Path, string)>>, ys: seq<Entry<(Path, string)>>)
    requires Keyed(p, xs) && multiset(xs) == multiset(ys)
    ensures Keyed(p, SortEntries(ys))
  {
    forall k | 0 <= k < |SortEntries(ys)|
      ensures SortEntries(ys)[k].key == p.fold(SortEntries(ys)[k].value.0)
    {
      SortMember(ys, k);
      var i :| 0 <= i < |ys| && ys[i] == SortEntries(ys)[k];
      assert ys[i] in multiset(xs);
    }
  }

  /** Keyed rows are told apart by their values. */
  lemma ValuesDetermine(p: Platform, xs: seq<Entry<(Path, string)>>, ys: seq<Entry<(Path, string)>>)
    requires Keyed(p, xs) && Keyed(p, ys) && Values(xs) == Values(ys)
    ensures xs == ys
  {
    assert |xs| == |Values(xs)| == |Values(ys)| == |ys|;
    forall k | 0 <= k < |xs| ensures xs[k] == ys[k] {
      assert xs[k].value == Values(xs)[k] == Values(ys)[k] == ys[k].value;
    }
  }

  ghost predicate ListingOrderFree(xs: seq<Entry<(Path, string)>>) {
    forall ys | multiset(ys) == multiset(xs) :: Values(SortEntries(ys)) == Values(SortEntries(xs))
  }

  lemma ListingDetermines(p: Platform, xs: seq<Entry<(Path, string)>>, ys: seq<Entry<(Path, string)>>)
    requires Keyed(p, xs) && multiset(ys) == multiset(xs) && Values(SortEntries(ys)) == Values(SortEntries(xs))
    ensures SortEntries(ys) == SortEntries(xs)
  {
    KeyedPermutes(p, xs, xs);
    KeyedPermutes(p, xs, ys);
    ValuesDetermine(p, SortEntries(ys), SortEntries(xs));
  }

  /** The listing that is hashed is the same for every order of the rows exactly when no two
      different rows have paths that fold alike. */
  lemma ListingTheorem(p: Platform, xs: seq<Entry<(Path, string)>>)
    requires Keyed(p, xs)
    ensures ListingOrderFree(xs) <==> NoTwins(xs)
  {
    ReorderTheorem(xs);
    if ListingOrderFree(xs) {
      forall ys | multiset(ys) == multiset(xs) ensures SortEntries(ys) == SortEntries(xs) {
        ListingDetermines(p, xs, ys);
      }
      assert OrderFree(xs);
    }
  }

  /** Two rows whose paths differ only by letter case keep the order they are listed in. */
  lemma CaseTwinsShuffle(p: Platform, a: Path, b: Path, d: string)
    requires a != b && p.fold(a) == p.fold(b)
    ensures var x, y := Entry(p.fold(a), (a, d)), Entry(p.fold(b), (b, d));
      Values(SortEntries([x, y])) == [(a, d), (b, d)] && Values(SortEntries([y, x])) == [(b, d), (a, d)]
  {
    var x, y := Entry(p.fold(a), (a, d)), Entry(p.fold(b), (b, d));
    SortTwins(x, y);
    SortTwins(y, x);
  }

  lemma SortTwins<T>(x: Entry<T>, y: Entry<T>)
    requires x.key == y.key
    ensures SortEntries([x, y]) == [x, y]
  {
    CompareTextEqual(x.key, y.key);
    assert [x, y][1..] == [y] && [y][1..] == [];
    assert SortEntries([y]) == [y];
  }

  // ---------- What a target should hold ----------

  function Rels(p: Platform, files: Files, source: Path): seq<Path> { p.list(FilesUnder(files, source)) }

  function Rows(p: Platform, files: Files, source: Path, rels: seq<Path>): seq<Entry<(Path, string)>>
    requires forall rel | rel in rels :: source + rel in files
  {
    if rels == [] then [] else [Row(p, files, source, rels[0])] + Rows(p, files, source, rels[1..])
  }

  lemma RelsExist(p: Platform, files: Files, source: Path)
    requires Sound(p)
    ensures forall rel :: rel in Rels(p, files, source) <==> rel in FilesUnder(files, source)
    ensures forall rel | rel in Rels(p, files, source) :: Included(rel) && source + rel in files
  {
    assert Listing(p, FilesUnder(files, source));
    forall rel | rel in Rels(p, files, source) ensures Included(rel) && source + rel in files {
      UnderRoot(files, source, rel);
    }
  }

  function Digest(p: Platform, files: Files, source: Path): string
    requires Sound(p)
  {
    RelsExist(p, files, source);
    TreeHash(p, Rows(p, files, source, Rels(p, files, source)))
  }

  lemma {:induction false} RowsHold(
      p: Platform, files: Files, source: Path, rels: seq<Path>, x: Entry<(Path, string)>)
    requires forall rel | rel in rels :: source + rel in files
    ensures x in Rows(p, files, source, rels) <==>
            x.value.0 in rels && x == Row(p, files, source, x.value.0)
  {
    if rels != [] {
      RowsHold(p, files, source, rels[1..], x);
      assert rels == [rels[0]] + rels[1..];
      assert rels[0] in rels;
    }
  }

  function HashedRows(p: Platform, files: Files, source: Path): seq<(Path, string)>
    requires Sound(p)
  {
    RelsExist(p, files, source);
    Values(SortEntries(Rows(p, files, source, Rels(p, files, source))))
  }

  ghost predicate ByFoldedPath(p: Platform, rows: seq<(Path, string)>) {
    forall i, j | 0 <= i < j < |rows| :: !TextLess(p.fold(rows[j].0), p.fold(rows[i].0))
  }

  lemma HashedInOrder(p: Platform, files: Files, source: Path)
    requires Sound(p)
    ensures ByFoldedPath(p, HashedRows(p, files, source))
  {
    RelsExist(p, files, source);
    var rows := Rows(p, files, source, Rels(p, files, source));
    var sorted := SortEntries(rows);
    SortWeaklyAscends(rows);
    forall k | 0 <= k < |sorted| ensures sorted[k].key == p.fold(sorted[k].value.0) {
      SortMember(rows, k);
      var i :| 0 <= i < |rows| && rows[i] == sorted[k];
      RowsHold(p, files, source, Rels(p, files, source), rows[i]);
    }
    forall i, j | 0 <= i < j < |sorted| ensures !TextLess(p.fold(sorted[j].value.0), p.fold(sorted[i].value.0)) {
      CompareTextEqual(sorted[i].key, sorted[j].key);
      CompareTextIsLess(sorted[j].key, sorted[i].key);
    }
  }

  /** What is hashed: the path and content digest of exactly the included files, by folded path. */
  lemma HashedTheorem(p: Platform, files: Files, source: Path, rel: Path, digest: string)
    requires Sound(p)
    ensures Digest(p, files, source) == p.treeHash(HashedRows(p, files, source))
    ensures (rel, digest) in HashedRows(p, files, source) <==>
            Included(rel) && source + rel in files && digest == p.digest(files[source + rel])
    ensures ByFoldedPath(p, HashedRows(p, files, source))
  {
    HashedInOrder(p, files, source);
    RelsExist(p, files, source);
    var rows := Rows(p, files, source, Rels(p, files, source));
    var sorted := SortEntries(rows);
    UnderRoot(files, source, rel);
    SortMembers(rows);
    if (rel, digest) in Values(sorted) {
      var k :| 0 <= k < |Values(sorted)| && Values(sorted)[k] == (rel, digest);
      SortMember(rows, k);
      var i :| 0 <= i < |rows| && rows[i] == sorted[k];
      RowsHold(p, files, source, Rels(p, files, source), rows[i]);
    }
    if Included(rel) && source + rel in files && digest == p.digest(files[source + rel]) {
      var x := Row(p, files, source, rel);
      RowsHold(p, files, source, Rels(p, files, source), x);
      assert x in sorted;
      var k :| 0 <= k < |sorted| && sorted[k] == x;
      assert Values(sorted)[k] == (rel, digest);
    }
  }

  function MarkerBytes(p: Platform, files: Files, m: Mapping): Bytes
    requires Sound(p)
  {
    p.encode(m.id, m.source, |Rels(p, files, m.source)|, Digest(p, files, m.source))
  }

  /** The target has exactly the source's included files, with their contents. */
  ghost predicate Copied(files: Files, m: Mapping, target: Path) {
    if m.source in files then target in files && files[target] == files[m.source]
    else
      && FilesUnder(files, target) == FilesUnder(files, m.source)
      && forall rel | Included(rel) && m.source + rel in files ::
           target + rel in files && files[target + rel] == files[m.source + rel]
  }

  ghost predicate MarkerAccepted(p: Platform, files: Files, m: Mapping, target: Path)
    requires Sound(p)
  {
    var at := target + [MARKER];
    at in files && p.decode(files[at]) == Some((m.id, Digest(p, files, m.source)))
  }

  ghost predicate MarkerWritten(p: Platform, files: Files, m: Mapping, target: Path)
    requires Sound(p)
  {
    var at := target + [MARKER];
    at in files && files[at] == MarkerBytes(p, files, m)
  }

  /** What a check accepts. */
  ghost predicate Matches(p: Platform, files: Files, m: Mapping, target: Path)
    requires Sound(p)
  {
    Copied(files, m, target) && (m.source !in files ==> MarkerAccepted(p, files, m, target))
  }

  /** What a write leaves. */
  ghost predicate Settled(p: Platform, files: Files, m: Mapping, target: Path)
    requires Sound(p)
  {
    Copied(files, m, target)
    && (m.source !in files && !HasSuffix(target) ==> MarkerWritten(p, files, m, target))
  }

  // ---------- One target ----------

  function Removed(files: Files, target: Path, rels: seq<Path>): Files {
    if rels == [] then files else Removed(files - {target + rels[0]}, target, rels[1..])
  }

  function CopiedOver(files: Files, source: Path, target: Path, rels: seq<Path>): Files
    decreases rels
  {
    if rels == [] then files
    else if source + rels[0] !in files then CopiedOver(files, source, target, rels[1..])
    else CopiedOver(files[target + rels[0] := files[source + rels[0]]], source, target, rels[1..])
  }

  function Extras(p: Platform, files: Files, m: Mapping, target: Path): seq<Path> {
    p.list(FilesUnder(files, target) - FilesUnder(files, m.source))
  }

  lemma ExtrasExactly(p: Platform, files: Files, m: Mapping, target: Path)
    requires Sound(p)
    ensures forall rel :: rel in Extras(p, files, m, target) <==> RelExtra(files, m, target, rel)
    ensures |Extras(p, files, m, target)| == |FilesUnder(files, target) - FilesUnder(files, m.source)|
  {
    assert Listing(p, FilesUnder(files, target) - FilesUnder(files, m.source));
  }

  /** The files after one target is written. */
  function Written(p: Platform, files: Files, m: Mapping, target: Path): Files
    requires Sound(p)
  {
    if m.source in files then files[target := files[m.source]]
    else
      var kept := Removed(files, target, Extras(p, files, m, target));
      var full := CopiedOver(kept, m.source, target, Rels(p, files, m.source));
      if HasSuffix(target) then full else full[target + [MARKER] := MarkerBytes(p, files, m)]
  }

  /** What a check accepts, spelled out: a copied file; or a directory with exactly the source's
      included files and a marker that names this mapping and the source's tree hash. */
  lemma MatchTheorem(p: Platform, files: Files, m: Mapping, target: Path)
    requires Sound(p)
    ensures m.source in files ==>
              (Matches(p, files, m, target) <==> target in files && files[target] == files[m.source])
    ensures m.source !in files ==>
              (Matches(p, files, m, target) <==>
                && (forall rel | Included(rel) ::
                      && (target + rel in files <==> m.source + rel in files)
                      && (target + rel in files ==> files[target + rel] == files[m.source + rel]))
                && target + [MARKER] in files
                && p.decode(files[target + [MARKER]]) == Some((m.id, p.treeHash(HashedRows(p, files, m.source)))))
  {
    if m.source !in files {
      var here, there := FilesUnder(files, target), FilesUnder(files, m.source);
      forall rel ensures rel in there <==> Included(rel) && m.source + rel in files { UnderRoot(files, m.source, rel); }
      forall rel ensures rel in here <==> Included(rel) && target + rel in files { UnderRoot(files, target, rel); }
      if forall rel | Included(rel) :: target + rel in files <==> m.source + rel in files {
        forall rel ensures rel in here <==> rel in there {}
        assert here == there;
      }
    }
  }

  datatype Failure =
    | SourceMissing(id: string)
    | Extra(id: string, at: Path)
    | Missing(id: string, at: Path)
    | Drift(id: string, at: Path)
    | MarkerMissing(id: string, at: Path)
    | MarkerDrift(id: string, at: Path)
    | MarkerInvalid(id: string, at: Path)

  ghost predicate RelExtra(files: Files, m: Mapping, target: Path, rel: Path) {
    rel in FilesUnder(files, target) && rel !in FilesUnder(files, m.source)
  }

  ghost predicate RelMissing(files: Files, m: Mapping, target: Path, rel: Path) {
    rel in FilesUnder(files, m.source) && target + rel !in files
  }

  ghost predicate RelDrifts(files: Files, m: Mapping, target: Path, rel: Path) {
    && rel in FilesUnder(files, m.source) && target + rel in files && m.source + rel in files
    && files[target + rel] != files[m.source + rel]
  }

  /** Exactly what is wrong with one target. */
  ghost predicate Wrong(p: Platform, files: Files, m: Mapping, target: Path, f: Failure)
    requires Sound(p)
  {
    if m.source in files then
      f == (if target in files then Drift(m.id, target) else Missing(m.id, target))
      && (target in files ==> files[target] != files[m.source])
    else
      f.id == m.id &&
      match f
      case SourceMissing(_) => false
      case Extra(_, at) => exists rel :: RelExtra(files, m, target, rel) && at == target + rel
      case Missing(_, at) => exists rel :: RelMissing(files, m, target, rel) && at == target + rel
      case Drift(_, at) => exists rel :: RelDrifts(files, m, target, rel) && at == target + rel
      case MarkerMissing(_, at) => at == target && target + [MARKER] !in files
      case MarkerDrift(_, at) =>
        at == target && target + [MARKER] in files && p.decode(files[target + [MARKER]]).Some?
        && !MarkerAccepted(p, files, m, target)
      case MarkerInvalid(_, at) =>
        at == target && target + [MARKER] in files && p.decode(files[target + [MARKER]]).None?
  }

  /** A target matches exactly when nothing is wrong with it. */
  lemma NothingWrong(p: Platform, files: Files, m: Mapping, target: Path)
    requires Sound(p)
    ensures Matches(p, files, m, target) <==> forall f :: !Wrong(p, files, m, target, f)
  {
    if m.source in files {
      assert Wrong(p, files, m, target, Drift(m.id, target)) <==> target in files && files[target] != files[m.source];
      assert Wrong(p, files, m, target, Missing(m.id, target)) <==> target !in files;
    } else {
      MarkerFaults(p, files, m, target);
      CopyFaults(files, m, target);
      CopyFailures(p, files, m, target);
    }
  }

  lemma MarkerFaults(p: Platform, files: Files, m: Mapping, target: Path)
    requires Sound(p) && m.source !in files
    ensures MarkerAccepted(p, files, m, target) <==>
            && !Wrong(p, files, m, target, MarkerMissing(m.id, target))
            && !Wrong(p, files, m, target, MarkerDrift(m.id, target))
            && !Wrong(p, files, m, target, MarkerInvalid(m.id, target))
  {
  }

  ghost predicate RelWrong(files: Files, m: Mapping, target: Path, rel: Path) {
    RelExtra(files, m, target, rel) || RelMissing(files, m, target, rel) || RelDrifts(files, m, target, rel)
  }

  lemma CopyFaults(files: Files, m: Mapping, target: Path)
    requires m.source !in files
    ensures Copied(files, m, target) <==> forall rel :: !RelWrong(files, m, target, rel)
  {
    var here, there := FilesUnder(files, target), FilesUnder(files, m.source);
    forall rel ensures rel in there <==> Included(rel) && m.source + rel in files { UnderRoot(files, m.source, rel); }
    forall rel ensures rel in here <==> Included(rel) && target + rel in files { UnderRoot(files, target, rel); }
    if forall rel :: !RelWrong(files, m, target, rel) {
      forall rel ensures rel in here <==> rel in there {
        assert !RelWrong(files, m, target, rel);
      }
      forall rel | Included(rel) && m.source + rel in files
        ensures target + rel in files && files[target + rel] == files[m.source + rel]
      {
        assert !RelWrong(files, m, target, rel);
      }
    }
  }

  lemma CopyFailures(p: Platform, files: Files, m: Mapping, target: Path)
    requires Sound(p) && m.source !in files
    ensures (exists f :: Wrong(p, files, m, target, f) && (f.Extra? || f.Missing? || f.Drift?)) <==>
            exists rel :: RelWrong(files, m, target, rel)
  {
    if rel :| RelWrong(files, m, target, rel) {
      assert RelExtra(files, m, target, rel) ==> Wrong(p, files, m, target, Extra(m.id, target + rel));
      assert RelMissing(files, m, target, rel) ==> Wrong(p, files, m, target, Missing(m.id, target + rel));
      assert RelDrifts(files, m, target, rel) ==> Wrong(p, files, m, target, Drift(m.id, target + rel));
    }
    if f :| Wrong(p, files, m, target, f) && (f.Extra? || f.Missing? || f.Drift?) {
      var rel :| RelWrong(files, m, target, rel) && f.at == target + rel;
    }
  }
}
