/** The comparator is a total preorder, and on valid versions it is precedence by value. */
module SemverOrder {
  import opened Wrappers
  import opened Texts
  import opened Semver

  // ---------- Digit strings are ordered as integers ----------

  function Pow10(n: nat): nat { if n == 0 then 1 else 10 * Pow10(n - 1) }

  function Value(t: Text): nat
    requires forall k | 0 <= k < |t| :: Digit(t[k])
  {
    if t == [] then 0
    else
      assert Digit(t[0]);
      var d: nat := t[0] - ZERO;
      DigitTimes(d, Pow10(|t| - 1));
      d * Pow10(|t| - 1) + Value(t[1..])
  }

  lemma DigitTimes(d: nat, p: nat)
    requires d <= 9
    ensures 0 <= d * p && d * p + p <= 10 * p && (d >= 1 ==> p <= d * p)
  {
  }

  lemma {:induction false} ValueBounds(t: Text)
    requires forall k | 0 <= k < |t| :: Digit(t[k])
    ensures Value(t) < Pow10(|t|)
    ensures t != [] && t[0] != ZERO ==> Pow10(|t| - 1) <= Value(t)
  {
    if t != [] {
      ValueBounds(t[1..]);
      DigitTimes(t[0] - ZERO, Pow10(|t| - 1));
    }
  }

  lemma {:induction false} Pow10Monotone(m: nat, n: nat)
    requires m <= n
    ensures Pow10(m) <= Pow10(n)
    decreases n
  {
    if m < n { Pow10Monotone(m, n - 1); }
  }

  lemma DigitGap(d: nat, e: nat, p: nat)
    requires d < e
    ensures d * p + p <= e * p
  {
    assert e * p == (e - d) * p + d * p;
    assert (e - d) * p == (e - d - 1) * p + p;
  }

  lemma {:induction false} SameLengthValue(a: Text, b: Text)
    requires |a| == |b| && (forall k | 0 <= k < |a| :: Digit(a[k]) && Digit(b[k]))
    ensures CompareText(a, b) < 0 <==> Value(a) < Value(b)
    ensures CompareText(a, b) > 0 <==> Value(a) > Value(b)
  {
    if a != [] {
      SameLengthValue(a[1..], b[1..]);
      ValueBounds(a[1..]);
      ValueBounds(b[1..]);
      var p := Pow10(|a| - 1);
      if a[0] < b[0] { DigitGap(a[0] - ZERO, b[0] - ZERO, p); }
      if b[0] < a[0] { DigitGap(b[0] - ZERO, a[0] - ZERO, p); }
    }
  }

  lemma LongerIsLarger(a: Text, b: Text)
    requires Numeric(a) && Numeric(b) && |a| < |b|
    ensures Value(a) < Value(b)
  {
    ValueBounds(a);
    ValueBounds(b);
    Pow10Monotone(|a|, |b| - 1);
  }

  /** Length first, then text: exactly the order of the numbers, of any size. */
  lemma NumericTextIsValue(a: Text, b: Text)
    requires Numeric(a) && Numeric(b)
    ensures CompareNumericText(a, b) < 0 <==> Value(a) < Value(b)
    ensures CompareNumericText(a, b) > 0 <==> Value(a) > Value(b)
  {
    if |a| < |b| { LongerIsLarger(a, b); }
    if |b| < |a| { LongerIsLarger(b, a); }
    if |a| == |b| { SameLengthValue(a, b); }
  }

  // ---------- Precedence, as section 11 of Semantic Versioning 2.0.0 defines it ----------

  datatype Field = Number(n: nat) | Word(text: Text)

  datatype Meaning = Meaning(major: nat, minor: nat, patch: nat, prerelease: seq<Field>)

  function FieldOf(t: Text): Field
    requires PrereleaseIdentifier(t)
  {
    if Digits(t) then Number(Value(t)) else Word(t)
  }

  function MeaningOf(v: Version): Meaning
    requires WellFormed(v)
  {
    Meaning(Value(v.core[0]), Value(v.core[1]), Value(v.core[2]),
            seq(|v.prerelease|, k requires 0 <= k < |v.prerelease| => FieldOf(v.prerelease[k])))
  }

  /** Numbers by value, numbers below words, words in text order. */
  ghost predicate FieldLess(a: Field, b: Field) {
    match (a, b)
    case (Number(m), Number(n)) => m < n
    case (Number(_), Word(_)) => true
    case (Word(_), Number(_)) => false
    case (Word(s), Word(t)) => TextLess(s, t)
  }

  ghost predicate FieldsLessAt(a: seq<Field>, b: seq<Field>, i: nat) {
    i <= |a| && i < |b| && a[..i] == b[..i] && (i == |a| || FieldLess(a[i], b[i]))
  }

  /** The first differing field decides; a proper prefix comes first. */
  ghost predicate FieldsLess(a: seq<Field>, b: seq<Field>) {
    exists i: nat :: FieldsLessAt(a, b, i)
  }

  ghost predicate Precedes(a: Meaning, b: Meaning) {
    || a.major < b.major
    || (a.major == b.major && a.minor < b.minor)
    || (a.major == b.major && a.minor == b.minor && a.patch < b.patch)
    || (a.major == b.major && a.minor == b.minor && a.patch == b.patch &&
        ((a.prerelease != [] && b.prerelease == []) ||
         (a.prerelease != [] && b.prerelease != [] && FieldsLess(a.prerelease, b.prerelease))))
  }

  lemma PartIsField(a: Text, b: Text)
    requires PrereleaseIdentifier(a) && PrereleaseIdentifier(b)
    ensures ComparePart(a, b) < 0 <==> FieldLess(FieldOf(a), FieldOf(b))
    ensures ComparePart(a, b) > 0 <==> FieldLess(FieldOf(b), FieldOf(a))
    ensures ComparePart(a, b) == 0 <==> FieldOf(a) == FieldOf(b)
  {
    if Digits(a) && Digits(b) {
      NumericTextIsValue(a, b);
    } else if !Digits(a) && !Digits(b) {
      CompareTextIsLess(a, b);
      CompareTextIsLess(b, a);
      CompareTextEqual(a, b);
    }
  }

  function FieldsOf(parts: seq<Text>): seq<Field>
    requires forall k | 0 <= k < |parts| :: PrereleaseIdentifier(parts[k])
  {
    seq(|parts|, k requires 0 <= k < |parts| => FieldOf(parts[k]))
  }

  lemma FieldsShift(a: seq<Field>, b: seq<Field>, i: nat)
    requires a != [] && b != [] && a[0] == b[0]
    ensures FieldsLessAt(a[1..], b[1..], i) <==> FieldsLessAt(a, b, i + 1)
  {
    if i + 1 <= |a| && i + 1 <= |b| {
      assert a[..i + 1] == [a[0]] + a[1..][..i];
      assert b[..i + 1] == [b[0]] + b[1..][..i];
      assert a[..i + 1][1..] == a[1..][..i];
      assert b[..i + 1][1..] == b[1..][..i];
    }
  }

  lemma FieldsShareStart(a: seq<Field>, b: seq<Field>, i: nat)
    requires FieldsLessAt(a, b, i)
    ensures i > 0 ==> a != [] && b != [] && a[0] == b[0]
  {
    if i > 0 { assert a[..i][0] == a[0] && b[..i][0] == b[0]; }
  }

  lemma FieldsLessTail(a: seq<Field>, b: seq<Field>)
    requires a != [] && b != [] && a[0] == b[0] && !FieldLess(a[0], b[0])
    ensures FieldsLess(a, b) <==> FieldsLess(a[1..], b[1..])
  {
    if i: nat :| FieldsLessAt(a[1..], b[1..], i) {
      FieldsShift(a, b, i);
      assert FieldsLessAt(a, b, i + 1);
    }
    if i: nat :| FieldsLessAt(a, b, i) {
      assert i > 0;
      FieldsShift(a, b, i - 1);
      assert FieldsLessAt(a[1..], b[1..], i - 1);
    }
  }

  lemma FieldsLessHead(a: seq<Field>, b: seq<Field>)
    requires a == [] || b == [] || a[0] != b[0]
    ensures FieldsLess(a, b) <==> b != [] && (a == [] || FieldLess(a[0], b[0]))
  {
    if b != [] && (a == [] || FieldLess(a[0], b[0])) { assert FieldsLessAt(a, b, 0); }
    forall i: nat | FieldsLessAt(a, b, i) ensures i == 0 { FieldsShareStart(a, b, i); }
  }

  lemma {:induction false} PartsAreFields(a: seq<Text>, b: seq<Text>)
    requires forall k | 0 <= k < |a| :: PrereleaseIdentifier(a[k])
    requires forall k | 0 <= k < |b| :: PrereleaseIdentifier(b[k])
    ensures CompareParts(a, b) < 0 <==> FieldsLess(FieldsOf(a), FieldsOf(b))
    ensures CompareParts(a, b) > 0 <==> FieldsLess(FieldsOf(b), FieldsOf(a))
    ensures CompareParts(a, b) == 0 <==> FieldsOf(a) == FieldsOf(b)
  {
    var fa, fb := FieldsOf(a), FieldsOf(b);
    if a == [] || b == [] {
      FieldsLessHead(fa, fb);
      FieldsLessHead(fb, fa);
    } else {
      PartIsField(a[0], b[0]);
      if ComparePart(a[0], b[0]) != 0 {
        FieldsLessHead(fa, fb);
        FieldsLessHead(fb, fa);
      } else {
        PartsAreFields(a[1..], b[1..]);
        assert fa[1..] == FieldsOf(a[1..]) && fb[1..] == FieldsOf(b[1..]);
        PartIsField(a[0], a[0]);
        FieldsLessTail(fa, fb);
        FieldsLessTail(fb, fa);
        assert fa == [fa[0]] + fa[1..] && fb == [fb[0]] + fb[1..];
      }
    }
  }

  lemma CoreIsValues(a: Version, b: Version)
    requires WellFormed(a) && WellFormed(b)
    ensures
      var c, m, n := CompareCore(a.core, b.core), MeaningOf(a), MeaningOf(b);
      && (c < 0 <==> m.major < n.major || (m.major == n.major && (m.minor < n.minor ||
                      (m.minor == n.minor && m.patch < n.patch))))
      && (c == 0 <==> m.major == n.major && m.minor == n.minor && m.patch == n.patch)
  {
    NumericTextIsValue(a.core[0], b.core[0]);
    NumericTextIsValue(a.core[1], b.core[1]);
    NumericTextIsValue(a.core[2], b.core[2]);
    assert a.core[1..][1..] == a.core[2..] && b.core[1..][1..] == b.core[2..];
    assert a.core[2..][1..] == [] && b.core[2..][1..] == [];
    CompareCoreThree(a.core, b.core);
  }

  lemma CompareCoreThree(a: seq<Text>, b: seq<Text>)
    requires |a| == |b| == 3
    ensures CompareCore(a, b) ==
      var c0, c1, c2 := CompareNumericText(a[0], b[0]), CompareNumericText(a[1], b[1]), CompareNumericText(a[2], b[2]);
      if c0 != 0 then c0 else if c1 != 0 then c1 else c2
  {
    assert CompareCore(a[1..][1..][1..], b[1..][1..][1..]) == 0;
    assert CompareCore(a[1..][1..], b[1..][1..]) == CompareNumericText(a[2], b[2]);
  }

  /** On valid versions the sign is precedence; build metadata plays no part. */
  lemma ComparesPrecedence(lower: Text -> Text, left: Text, right: Text)
    requires Parse(left).Some? && Parse(right).Some?
    ensures
      var c, m, n := CompareSemver(lower, left, right), MeaningOf(Parse(left).value), MeaningOf(Parse(right).value);
      && (c < 0 <==> Precedes(m, n))
      && (c > 0 <==> Precedes(n, m))
      && (c == 0 <==> m == n)
  {
    var a, b := Parse(left).value, Parse(right).value;
    CoreIsValues(a, b);
    CoreIsValues(b, a);
    PartsAreFields(a.prerelease, b.prerelease);
    assert MeaningOf(a).prerelease == FieldsOf(a.prerelease);
    assert MeaningOf(b).prerelease == FieldsOf(b.prerelease);
    CoreSigns(a.core, b.core);
  }

  lemma {:induction false} CoreSigns(a: seq<Text>, b: seq<Text>)
    requires |a| == |b|
    ensures CompareCore(a, b) in {-1, 0, 1} && CompareCore(a, b) == -CompareCore(b, a)
  {
    if a != [] {
      CoreSigns(a[1..], b[1..]);
      CompareTextEqual(a[0], b[0]);
    }
  }

  lemma BuildIsIgnored(lower: Text -> Text, v: Version, build: seq<Text>)
    requires WellFormed(v) && WellFormed(v.(build := build))
    ensures CompareSemver(lower, Render(v), Render(v.(build := build))) == 0
  {
    ParseRender(v);
    ParseRender(v.(build := build));
    ComparesPrecedence(lower, Render(v), Render(v.(build := build)));
  }

  // ---------- A total preorder on all texts ----------

  lemma NumericTextOrder(a: Text, b: Text, c: Text)
    ensures CompareNumericText(a, b) in {-1, 0, 1} && CompareNumericText(a, b) == -CompareNumericText(b, a)
    ensures CompareNumericText(a, b) == 0 <==> a == b
    ensures CompareNumericText(a, b) <= 0 && CompareNumericText(b, c) <= 0 ==> CompareNumericText(a, c) <= 0
    ensures CompareNumericText(a, b) < 0 && CompareNumericText(b, c) <= 0 ==> CompareNumericText(a, c) < 0
    ensures CompareNumericText(a, b) <= 0 && CompareNumericText(b, c) < 0 ==> CompareNumericText(a, c) < 0
  {
    CompareTextEqual(a, b);
    if CompareText(a, b) <= 0 && CompareText(b, c) <= 0 { CompareTextTransitive(a, b, c); }
  }

  lemma PartOrder(a: Text, b: Text, c: Text)
    ensures ComparePart(a, b) in {-1, 0, 1} && ComparePart(a, b) == -ComparePart(b, a)
    ensures ComparePart(a, b) == 0 <==> a == b
    ensures ComparePart(a, b) <= 0 && ComparePart(b, c) <= 0 ==> ComparePart(a, c) <= 0
    ensures ComparePart(a, b) < 0 && ComparePart(b, c) <= 0 ==> ComparePart(a, c) < 0
    ensures ComparePart(a, b) <= 0 && ComparePart(b, c) < 0 ==> ComparePart(a, c) < 0
  {
    NumericTextOrder(a, b, c);
    CompareTextEqual(a, b);
    if CompareText(a, b) <= 0 && CompareText(b, c) <= 0 { CompareTextTransitive(a, b, c); }
  }

  lemma {:induction false} CoreOrder(a: seq<Text>, b: seq<Text>, c: seq<Text>)
    requires |a| == |b| == |c|
    ensures CompareCore(a, b) <= 0 && CompareCore(b, c) <= 0 ==> CompareCore(a, c) <= 0
    ensures CompareCore(a, b) < 0 && CompareCore(b, c) <= 0 ==> CompareCore(a, c) < 0
    ensures CompareCore(a, b) <= 0 && CompareCore(b, c) < 0 ==> CompareCore(a, c) < 0
  {
    if a != [] {
      CoreOrder(a[1..], b[1..], c[1..]);
      NumericTextOrder(a[0], b[0], c[0]);
      NumericTextOrder(b[0], c[0], a[0]);
    }
  }

  lemma {:induction false} PartsOrder(a: seq<Text>, b: seq<Text>, c: seq<Text>)
    ensures CompareParts(a, b) in {-1, 0, 1} && CompareParts(a, b) == -CompareParts(b, a)
    ensures CompareParts(a, b) <= 0 && CompareParts(b, c) <= 0 ==> CompareParts(a, c) <= 0
    ensures CompareParts(a, b) < 0 && CompareParts(b, c) <= 0 ==> CompareParts(a, c) < 0
    ensures CompareParts(a, b) <= 0 && CompareParts(b, c) < 0 ==> CompareParts(a, c) < 0
  {
    if a != [] && b != [] {
      PartOrder(a[0], b[0], if c == [] then [] else c[0]);
      PartOrder(b[0], if c == [] then [] else c[0], a[0]);
      PartsOrder(a[1..], b[1..], if c == [] then [] else c[1..]);
    }
  }

  lemma VersionsOrder(a: Version, b: Version, c: Version)
    requires |a.core| == |b.core| == |c.core|
    ensures CompareVersions(a, b) in {-1, 0, 1} && CompareVersions(a, b) == -CompareVersions(b, a)
    ensures CompareVersions(a, b) <= 0 && CompareVersions(b, c) <= 0 ==> CompareVersions(a, c) <= 0
    ensures CompareVersions(a, b) < 0 && CompareVersions(b, c) <= 0 ==> CompareVersions(a, c) < 0
    ensures CompareVersions(a, b) <= 0 && CompareVersions(b, c) < 0 ==> CompareVersions(a, c) < 0
  {
    CoreSigns(a.core, b.core);
    CoreSigns(b.core, c.core);
    CoreSigns(a.core, c.core);
    CoreOrder(a.core, b.core, c.core);
    PartsOrder(a.prerelease, b.prerelease, c.prerelease);
    PartsOrder(b.prerelease, a.prerelease, c.prerelease);
  }

  /** Sign-antisymmetric and transitive on all texts, valid or not, with every invalid text
      below every valid one. */
  lemma SemverPreorder(lower: Text -> Text, a: Text, b: Text, c: Text)
    ensures CompareSemver(lower, a, b) in {-1, 0, 1}
    ensures CompareSemver(lower, a, b) == -CompareSemver(lower, b, a)
    ensures CompareSemver(lower, a, b) <= 0 && CompareSemver(lower, b, c) <= 0 ==> CompareSemver(lower, a, c) <= 0
    ensures CompareSemver(lower, a, b) < 0 && CompareSemver(lower, b, c) <= 0 ==> CompareSemver(lower, a, c) < 0
    ensures CompareSemver(lower, a, b) <= 0 && CompareSemver(lower, b, c) < 0 ==> CompareSemver(lower, a, c) < 0
    ensures Parse(a).None? && Parse(b).Some? ==> CompareSemver(lower, a, b) < 0
    ensures Parse(a).None? && Parse(b).None? && CompareSemver(lower, a, b) == 0 ==> a == b
  {
    if Parse(a).Some? && Parse(b).Some? {
      if Parse(c).Some? {
        VersionsOrder(Parse(a).value, Parse(b).value, Parse(c).value);
      } else {
        VersionsOrder(Parse(a).value, Parse(b).value, Parse(b).value);
      }
    } else if Parse(a).None? && Parse(b).None? {
      CompareTextEqual(a, b);
      CompareTextEqual(lower(a), lower(b));
      CompareTextEqual(lower(b), lower(c));
      if CompareText(lower(a), lower(b)) <= 0 && CompareText(lower(b), lower(c)) <= 0 {
        CompareTextTransitive(lower(a), lower(b), lower(c));
      }
      if CompareText(a, b) <= 0 && CompareText(b, c) <= 0 { CompareTextTransitive(a, b, c); }
    }
  }
}
