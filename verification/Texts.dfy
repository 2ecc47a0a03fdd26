/** Text as a sequence of code units, compared unit by unit. */
module Texts {
  type Text = seq<int>

  /** The code points of a string. */
  function Codes(s: string): Text { seq(|s|, k requires 0 <= k < |s| => s[k] as int) }

  lemma CodesInjective(a: string, b: string)
    ensures Codes(a) == Codes(b) <==> a == b
  {
    if Codes(a) == Codes(b) {
      assert |a| == |Codes(a)| == |Codes(b)| == |b|;
      assert forall k | 0 <= k < |a| :: a[k] as int == Codes(a)[k] == Codes(b)[k] == b[k] as int;
    }
  }

  /** -1, 0 or 1, as `<` and `>` order two strings. */
  function CompareText(a: Text, b: Text): int {
    if a == [] then (if b == [] then 0 else -1)
    else if b == [] then 1
    else if a[0] < b[0] then -1
    else if a[0] > b[0] then 1
    else CompareText(a[1..], b[1..])
  }

  /** `a` runs along `b` up to position i and is then shorter, or smaller there. */
  ghost predicate LessAt(a: Text, b: Text, i: nat) {
    i <= |a| && i < |b| && a[..i] == b[..i] && (i == |a| || a[i] < b[i])
  }

  /** Text order by the first position that differs. */
  ghost predicate TextLess(a: Text, b: Text) {
    exists i: nat :: LessAt(a, b, i)
  }

  lemma {:induction false} CompareTextEqual(a: Text, b: Text)
    ensures CompareText(a, b) in {-1, 0, 1}
    ensures CompareText(a, b) == -CompareText(b, a)
    ensures CompareText(a, b) == 0 <==> a == b
  {
    if a != [] && b != [] {
      CompareTextEqual(a[1..], b[1..]);
      if a[0] == b[0] && a[1..] == b[1..] {
        assert a == [a[0]] + a[1..] && b == [b[0]] + b[1..];
      }
    }
  }

  lemma {:induction false} CompareTextTransitive(a: Text, b: Text, c: Text)
    requires CompareText(a, b) <= 0 && CompareText(b, c) <= 0
    ensures CompareText(a, c) <= 0
    ensures CompareText(a, b) < 0 || CompareText(b, c) < 0 ==> CompareText(a, c) < 0
  {
    if a != [] && b != [] && c != [] && a[0] == b[0] == c[0] {
      CompareTextTransitive(a[1..], b[1..], c[1..]);
    }
  }

  /** Comparing unit by unit finds the first difference. */
  lemma {:induction false} CompareTextIsLess(a: Text, b: Text)
    ensures CompareText(a, b) < 0 <==> TextLess(a, b)
  {
    if a == [] || b == [] || a[0] != b[0] {
      assert CompareText(a, b) < 0 ==> LessAt(a, b, 0);
      forall i: nat | LessAt(a, b, i) ensures i == 0 { LessAtSharesStart(a, b, i); }
    } else {
      CompareTextIsLess(a[1..], b[1..]);
      if i: nat :| LessAt(a[1..], b[1..], i) {
        LessShifts(a, b, i);
        assert LessAt(a, b, i + 1);
      }
      if i: nat :| LessAt(a, b, i) {
        assert i > 0;
        LessShifts(a, b, i - 1);
        assert LessAt(a[1..], b[1..], i - 1);
      }
    }
  }

  lemma LessAtSharesStart(a: Text, b: Text, i: nat)
    requires LessAt(a, b, i)
    ensures i > 0 ==> a != [] && b != [] && a[0] == b[0]
  {
    if i > 0 { assert a[..i][0] == a[0] && b[..i][0] == b[0]; }
  }

  lemma LessShifts(a: Text, b: Text, i: nat)
    requires a != [] && b != [] && a[0] == b[0]
    ensures LessAt(a[1..], b[1..], i) <==> LessAt(a, b, i + 1)
  {
    if i + 1 <= |a| && i + 1 <= |b| {
      assert a[..i + 1] == [a[0]] + a[1..][..i];
      assert b[..i + 1] == [b[0]] + b[1..][..i];
      assert a[..i + 1][1..] == a[1..][..i];
      assert b[..i + 1][1..] == b[1..][..i];
    }
  }
}
