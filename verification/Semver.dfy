/** Release versions: parsing, and the comparator that orders updates. */
module Semver {
  import opened Wrappers
  import opened Texts

  const DOT := 46
  const DASH := 45
  const PLUS := 43
  const ZERO := 48

  predicate Digit(c: int) { 48 <= c <= 57 }

  predicate IdentifierChar(c: int) {
    Digit(c) || 65 <= c <= 90 || 97 <= c <= 122 || c == DASH
  }

  predicate Digits(t: Text) { t != [] && forall k | 0 <= k < |t| :: Digit(t[k]) }

  predicate Numeric(t: Text) { Digits(t) && (|t| == 1 || t[0] != ZERO) }

  predicate Identifier(t: Text) { t != [] && forall k | 0 <= k < |t| :: IdentifierChar(t[k]) }

  predicate PrereleaseIdentifier(t: Text) { Identifier(t) && (Digits(t) ==> Numeric(t)) }

  /** An empty `prerelease` or `build` means the version has none. */
  datatype Version = Version(core: seq<Text>, prerelease: seq<Text>, build: seq<Text>)

  predicate WellFormed(v: Version) {
    && |v.core| == 3 && (forall k | 0 <= k < 3 :: Numeric(v.core[k]))
    && (forall k | 0 <= k < |v.prerelease| :: PrereleaseIdentifier(v.prerelease[k]))
    && (forall k | 0 <= k < |v.build| :: Identifier(v.build[k]))
  }

  function Join(parts: seq<Text>): Text
    requires parts != []
  {
    if |parts| == 1 then parts[0] else parts[0] + [DOT] + Join(parts[1..])
  }

  /** The text of a version, as the grammar of Semantic Versioning 2.0.0 writes it. */
  function Render(v: Version): Text
    requires v.core != []
  {
    Join(v.core)
    + (if v.prerelease == [] then [] else [DASH] + Join(v.prerelease))
    + (if v.build == [] then [] else [PLUS] + Join(v.build))
  }

  // ---------- Parsing ----------

  /** The text before the first c, and the text after it if there is a c. */
  function Cut(t: Text, c: int): (Text, Option<Text>) {
    if t == [] then ([], None)
    else if t[0] == c then ([], Some(t[1..]))
    else
      var (head, tail) := Cut(t[1..], c);
      ([t[0]] + head, tail)
  }

  function Split(t: Text): (parts: seq<Text>)
    ensures parts != []
    decreases |t|
  {
    if t == [] then [[]]
    else
      var parts := Split(t[1..]);
      if t[0] == DOT then [[]] + parts else [[t[0]] + parts[0]] + parts[1..]
  }

  function Parts(t: Option<Text>): seq<Text> {
    if t.None? then [] else Split(t.value)
  }

  function Parse(t: Text): Option<Version> {
    var (main, build) := Cut(t, PLUS);
    var (core, prerelease) := Cut(main, DASH);
    var v := Version(Split(core), Parts(prerelease), Parts(build));
    if WellFormed(v) then Some(v) else None
  }

  predicate Free(t: Text, c: int) { c !in t }

  lemma {:induction false} CutInverts(t: Text, c: int)
    ensures var (head, tail) := Cut(t, c);
      Free(head, c) && t == head + (if tail.None? then [] else [c] + tail.value)
  {
    if t != [] && t[0] != c {
      CutInverts(t[1..], c);
      assert t == [t[0]] + t[1..];
    }
  }

  lemma {:induction false} CutOf(head: Text, c: int, tail: Option<Text>)
    requires Free(head, c)
    ensures Cut(head + (if tail.None? then [] else [c] + tail.value), c) == (head, tail)
  {
    var rest := if tail.None? then [] else [c] + tail.value;
    var t := head + rest;
    if head == [] {
      assert t == rest;
      if tail.Some? { assert t[1..] == tail.value; }
    } else {
      CutOf(head[1..], c, tail);
      assert t[1..] == head[1..] + rest;
      assert head == [head[0]] + head[1..];
    }
  }

  lemma {:induction false} SplitInverts(t: Text)
    ensures Join(Split(t)) == t
    ensures forall k | 0 <= k < |Split(t)| :: Free(Split(t)[k], DOT)
    decreases |t|
  {
    if t != [] {
      SplitInverts(t[1..]);
      var parts := Split(t[1..]);
      assert t == [t[0]] + t[1..];
      if t[0] == DOT {
        assert Split(t)[1..] == parts;
      } else {
        assert parts == [parts[0]] + parts[1..];
        assert Split(t)[1..] == parts[1..];
      }
    }
  }

  lemma {:induction false} SplitOf(parts: seq<Text>)
    requires parts != [] && forall k | 0 <= k < |parts| :: Free(parts[k], DOT)
    ensures Split(Join(parts)) == parts
    decreases |parts|, |parts[0]|
  {
    var t := Join(parts);
    if parts[0] == [] {
      if |parts| > 1 {
        SplitOf(parts[1..]);
        assert t[1..] == Join(parts[1..]);
        assert parts == [[]] + parts[1..];
      } else {
        assert parts == [[]];
      }
    } else {
      var shorter := [parts[0][1..]] + parts[1..];
      SplitOf(shorter);
      assert t == [parts[0][0]] + Join(shorter);
      assert t[1..] == Join(shorter);
      assert parts[0] == [parts[0][0]] + parts[0][1..];
      assert shorter[1..] == parts[1..];
    }
  }

  lemma {:induction false} JoinFree(parts: seq<Text>, c: int)
    requires parts != [] && c != DOT && forall k | 0 <= k < |parts| :: Free(parts[k], c)
    ensures Free(Join(parts), c)
  {
    if |parts| > 1 { JoinFree(parts[1..], c); }
  }

  /** Parsing accepts exactly the texts of well-formed versions, each as one version. */
  lemma ParseRender(v: Version)
    requires WellFormed(v)
    ensures Parse(Render(v)) == Some(v)
  {
    var core := Join(v.core);
    var prerelease := if v.prerelease == [] then None else Some(Join(v.prerelease));
    var build := if v.build == [] then None else Some(Join(v.build));
    var main := core + (if prerelease.None? then [] else [DASH] + prerelease.value);
    JoinFree(v.core, PLUS);
    JoinFree(v.core, DASH);
    if v.prerelease != [] {
      JoinFree(v.prerelease, PLUS);
      SplitOf(v.prerelease);
    }
    if v.build != [] { SplitOf(v.build); }
    SplitOf(v.core);
    CutOf(main, PLUS, build);
    CutOf(core, DASH, prerelease);
    assert Render(v) == main + (if build.None? then [] else [PLUS] + build.value);
  }

  lemma RenderParse(t: Text)
    requires Parse(t).Some?
    ensures WellFormed(Parse(t).value) && Render(Parse(t).value) == t
  {
    CutInverts(t, PLUS);
    var (main, build) := Cut(t, PLUS);
    CutInverts(main, DASH);
    var (core, prerelease) := Cut(main, DASH);
    SplitInverts(core);
    if prerelease.Some? { SplitInverts(prerelease.value); }
    if build.Some? { SplitInverts(build.value); }
  }

  // ---------- The comparator ----------

  function CompareNumericText(a: Text, b: Text): int {
    if |a| != |b| then (if |a| < |b| then -1 else 1) else CompareText(a, b)
  }

  function CompareCore(a: seq<Text>, b: seq<Text>): int
    requires |a| == |b|
  {
    if a == [] then 0
    else
      var compared := CompareNumericText(a[0], b[0]);
      if compared != 0 then compared else CompareCore(a[1..], b[1..])
  }

  function ComparePart(a: Text, b: Text): int {
    if Digits(a) != Digits(b) then (if Digits(a) then -1 else 1)
    else if Digits(a) then CompareNumericText(a, b)
    else CompareText(a, b)
  }

  function CompareParts(a: seq<Text>, b: seq<Text>): int {
    if a == [] then (if b == [] then 0 else -1)
    else if b == [] then 1
    else
      var compared := ComparePart(a[0], b[0]);
      if compared != 0 then compared else CompareParts(a[1..], b[1..])
  }

  function CompareVersions(a: Version, b: Version): int
    requires |a.core| == |b.core|
  {
    var compared := CompareCore(a.core, b.core);
    if compared != 0 then compared
    else if a.prerelease == [] || b.prerelease == [] then
      (if |a.prerelease| == |b.prerelease| then 0 else if a.prerelease != [] then -1 else 1)
    else CompareParts(a.prerelease, b.prerelease)
  }

  /** `lower` is the platform's lower-casing. */
  function CompareSemver(lower: Text -> Text, left: Text, right: Text): int {
    var a, b := Parse(left), Parse(right);
    if a.None? || b.None? then
      if a.Some? != b.Some? then (if a.Some? then 1 else -1)
      else
        var folded := CompareText(lower(left), lower(right));
        if folded != 0 then folded else CompareText(left, right)
    else CompareVersions(a.value, b.value)
  }

  /** The characters of versions. */
  lemma AlphabetTheorem(ch: char)
    ensures Digit(ch as int) <==> '0' <= ch <= '9'
    ensures IdentifierChar(ch as int) <==> '0' <= ch <= '9' || 'A' <= ch <= 'Z' || 'a' <= ch <= 'z' || ch == '-'
    ensures DOT == '.' as int && DASH == '-' as int && PLUS == '+' as int && ZERO == '0' as int
  {
  }
}
