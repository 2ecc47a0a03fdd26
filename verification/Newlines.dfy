/** Line endings of source text: the validator, the normaliser, and what they have to do with each other. */
module Newlines {
  import opened Sequences

  /** Code points; a byte order mark is a first code point of its own. */
  type Text = seq<int>

  const LF := 10
  const CR := 13
  const BOM := 0xFEFF
  const CRLF: Text := [CR, LF]

  function ExpectedNewline(windows: bool): Text { if windows then CRLF else [LF] }

  /** Replaces every occurrence, leftmost first and without overlap. */
  function Replace(s: Text, p: Text, r: Text): Text
    requires p != []
  {
    if s == [] then []
    else if StartsWith(s, p) then r + Replace(s[|p|..], p, r)
    else [s[0]] + Replace(s[1..], p, r)
  }

  predicate Contains(s: Text, p: Text) { s != [] && (StartsWith(s, p) || Contains(s[1..], p)) }

  // ---------- The validator ----------

  datatype Failure = LoneCR | MustUseLF | MustUseCRLF

  function Validate(windows: bool, raw: Text): seq<Failure> {
    var rest := Replace(raw, CRLF, []);
    (if CR in rest then [LoneCR] else [])
    + (if !windows && Contains(raw, CRLF) then [MustUseLF] else [])
    + (if windows && LF in rest then [MustUseCRLF] else [])
  }

  // ---------- The normaliser ----------

  function WithoutBom(raw: Text): Text { if raw != [] && raw[0] == BOM then raw[1..] else raw }

  function Rewrite(windows: bool, text: Text): Text {
    var unix := Replace(Replace(text, CRLF, [LF]), [CR], [LF]);
    if windows then Replace(unix, [LF], CRLF) else unix
  }

  function Normalize(windows: bool, raw: Text): Text { Rewrite(windows, WithoutBom(raw)) }

  datatype SourceFile = SourceFile(windows: bool, raw: Text)

  function Normalized(f: SourceFile): SourceFile { f.(raw := Normalize(f.windows, f.raw)) }

  /** Nothing to report and no byte order mark to drop. */
  ghost predicate Conforms(f: SourceFile) { Validate(f.windows, f.raw) == [] && WithoutBom(f.raw) == f.raw }

  ghost function Nonconforming(fs: seq<SourceFile>): nat {
    if fs == [] then 0
    else Nonconforming(fs[..|fs| - 1]) + (if Conforms(fs[|fs| - 1]) then 0 else 1)
  }

  /** Rewrites a tree and counts exactly the files that did not conform. */
  method NormalizeTree(fs: seq<SourceFile>) returns (out: seq<SourceFile>, changed: nat)
    ensures |out| == |fs| && forall k | 0 <= k < |fs| :: out[k] == Normalized(fs[k])
    ensures changed == Nonconforming(fs)
  {
    out, changed := [], 0;
    for k := 0 to |fs|
      invariant |out| == k && forall i | 0 <= i < k :: out[i] == Normalized(fs[i])
      invariant changed == Nonconforming(fs[..k])
    {
      assert fs[..k + 1][..k] == fs[..k];
      var after := Normalized(fs[k]);
      ChangedFile(fs[k]);
      if after != fs[k] { changed := changed + 1; }
      out := out + [after];
    }
    assert fs[..|fs|] == fs;
  }

  lemma ChangedFile(f: SourceFile)
    ensures Normalized(f) == f <==> Conforms(f)
  {
    UnchangedTheorem(f.windows, f.raw);
  }

  // ---------- Lines ----------

  /** The lines of a text, whichever of the three line ends it uses. */
  function Lines(s: Text): (ls: seq<Text>)
    ensures ls != []
    decreases |s|
  {
    if s == [] then [[]]
    else if StartsWith(s, CRLF) then [[]] + Lines(s[2..])
    else if s[0] == CR || s[0] == LF then [[]] + Lines(s[1..])
    else
      var ls := Lines(s[1..]);
      [[s[0]] + ls[0]] + ls[1..]
  }

  function Join(ls: seq<Text>, newline: Text): Text
    requires ls != []
  {
    if |ls| == 1 then ls[0] else ls[0] + newline + Join(ls[1..], newline)
  }

  predicate Plain(c: int) { c != CR && c != LF }

  ghost predicate LineTexts(ls: seq<Text>) {
    forall k, i | 0 <= k < |ls| && 0 <= i < |ls[k]| :: Plain(ls[k][i])
  }

  /** Every line end replaced, in one pass. */
  function Respelled(s: Text, newline: Text): Text
    decreases |s|
  {
    if s == [] then []
    else if StartsWith(s, CRLF) then newline + Respelled(s[2..], newline)
    else if Plain(s[0]) then [s[0]] + Respelled(s[1..], newline)
    else newline + Respelled(s[1..], newline)
  }

  lemma ReplaceHead(c: int, s: Text, p: Text, r: Text)
    requires p != []
    ensures c != p[0] ==> Replace([c] + s, p, r) == [c] + Replace(s, p, r)
    ensures p == [c] ==> Replace([c] + s, p, r) == r + Replace(s, p, r)
    ensures p == CRLF && c == CR && (s == [] || s[0] != LF) ==> Replace([c] + s, p, r) == [c] + Replace(s, p, r)
  {
    var t := [c] + s;
    assert t[1..] == s;
    if p == [c] { assert t[..1] == [c] && t[|p|..] == s; }
    CrlfHead(t);
  }

  lemma CrlfHead(s: Text)
    ensures StartsWith(s, CRLF) <==> |s| >= 2 && s[0] == CR && s[1] == LF
  {
    if |s| >= 2 { assert s[..2] == [s[0], s[1]]; }
  }

  /** The chain of replacements is one pass over the line ends. */
  lemma {:induction false} RewriteIsRespelling(windows: bool, s: Text)
    ensures Rewrite(windows, s) == Respelled(s, ExpectedNewline(windows))
    decreases |s|
  {
    if s != [] {
      var c, tail := s[0], s[1..];
      assert s == [c] + tail;
      CrlfHead(s);
      if StartsWith(s, CRLF) {
        RewriteIsRespelling(windows, s[2..]);
        assert Replace(s, CRLF, [LF]) == [LF] + Replace(s[2..], CRLF, [LF]);
        HeadLF(windows, Replace(s[2..], CRLF, [LF]));
      } else {
        RewriteIsRespelling(windows, tail);
        ReplaceHead(c, tail, CRLF, [LF]);
        var once := Replace(tail, CRLF, [LF]);
        assert Replace(s, CRLF, [LF]) == [c] + once;
        if c == CR {
          HeadCR(windows, once);
        } else if c == LF {
          HeadLF(windows, once);
        } else {
          HeadPlain(windows, c, once);
        }
      }
    }
  }

  function Finish(windows: bool, once: Text): Text {
    var unix := Replace(once, [CR], [LF]);
    if windows then Replace(unix, [LF], CRLF) else unix
  }

  lemma HeadLF(windows: bool, once: Text)
    ensures Finish(windows, [LF] + once) == ExpectedNewline(windows) + Finish(windows, once)
  {
    ReplaceHead(LF, once, [CR], [LF]);
    ReplaceHead(LF, Replace(once, [CR], [LF]), [LF], CRLF);
  }

  lemma HeadCR(windows: bool, once: Text)
    ensures Finish(windows, [CR] + once) == ExpectedNewline(windows) + Finish(windows, once)
  {
    ReplaceHead(CR, once, [CR], [LF]);
    ReplaceHead(LF, Replace(once, [CR], [LF]), [LF], CRLF);
  }

  lemma HeadPlain(windows: bool, c: int, once: Text)
    requires Plain(c)
    ensures Finish(windows, [c] + once) == [c] + Finish(windows, once)
  {
    ReplaceHead(c, once, [CR], [LF]);
    ReplaceHead(c, Replace(once, [CR], [LF]), [LF], CRLF);
  }

  lemma JoinBreak(ls: seq<Text>, newline: Text)
    requires ls != []
    ensures Join([[]] + ls, newline) == newline + Join(ls, newline)
  {
    assert ([[]] + ls)[1..] == ls;
  }

  lemma JoinHead(c: int, ls: seq<Text>, newline: Text)
    requires ls != []
    ensures Join([[c] + ls[0]] + ls[1..], newline) == [c] + Join(ls, newline)
  {
    var longer := [[c] + ls[0]] + ls[1..];
    assert longer[1..] == ls[1..];
    if |ls| > 1 {
      var rest := newline + Join(ls[1..], newline);
      assert longer[0] + newline + Join(ls[1..], newline) == [c] + (ls[0] + rest);
      assert ls[0] + newline + Join(ls[1..], newline) == ls[0] + rest;
    }
  }

  lemma {:induction false} RespelledJoins(s: Text, newline: Text)
    ensures Respelled(s, newline) == Join(Lines(s), newline)
    decreases |s|
  {
    if s != [] {
      CrlfHead(s);
      if StartsWith(s, CRLF) {
        RespelledJoins(s[2..], newline);
        JoinBreak(Lines(s[2..]), newline);
      } else if s[0] == CR || s[0] == LF {
        RespelledJoins(s[1..], newline);
        JoinBreak(Lines(s[1..]), newline);
      } else {
        RespelledJoins(s[1..], newline);
        JoinHead(s[0], Lines(s[1..]), newline);
      }
    }
  }

  lemma {:induction false} LinesAreTexts(s: Text)
    ensures LineTexts(Lines(s))
    decreases |s|
  {
    if s != [] {
      if StartsWith(s, CRLF) {
        LinesAreTexts(s[2..]);
      } else if s[0] == CR || s[0] == LF {
        LinesAreTexts(s[1..]);
      } else {
        LinesAreTexts(s[1..]);
        var ls := Lines(s[1..]);
        forall k, i | 0 <= k < |ls| && 0 <= i < |Lines(s)[k]| ensures Plain(Lines(s)[k][i]) {
          assert k > 0 ==> Lines(s)[k] == ls[k];
          assert k == 0 && i > 0 ==> Lines(s)[k][i] == ls[0][i - 1];
        }
      }
    }
  }

  lemma LinesBreak(windows: bool, rest: Text)
    ensures Lines(ExpectedNewline(windows) + rest) == [[]] + Lines(rest)
  {
    var newline := ExpectedNewline(windows);
    var s := newline + rest;
    CrlfHead(s);
    assert s[|newline|..] == rest;
  }

  lemma LinesHead(c: int, rest: Text)
    requires Plain(c)
    ensures Lines([c] + rest) == [[c] + Lines(rest)[0]] + Lines(rest)[1..]
  {
    var s := [c] + rest;
    CrlfHead(s);
    assert s[1..] == rest;
  }

  lemma {:induction false} LinesOfJoin(ls: seq<Text>, windows: bool)
    requires ls != [] && LineTexts(ls)
    ensures Lines(Join(ls, ExpectedNewline(windows))) == ls
    decreases |ls|, |ls[0]|
  {
    var newline := ExpectedNewline(windows);
    if ls[0] == [] {
      if |ls| == 1 {
        assert ls == [[]];
      } else {
        assert ls == [[]] + ls[1..];
        LinesOfJoin(ls[1..], windows);
        JoinBreak(ls[1..], newline);
        LinesBreak(windows, Join(ls[1..], newline));
      }
    } else {
      var c := ls[0][0];
      var shorter := [ls[0][1..]] + ls[1..];
      assert Plain(c);
      ShorterTexts(ls);
      LinesOfJoin(shorter, windows);
      assert shorter[1..] == ls[1..] && ls[0] == [c] + ls[0][1..] && ls == [ls[0]] + ls[1..];
      JoinHead(c, shorter, newline);
      LinesHead(c, Join(shorter, newline));
    }
  }

  lemma ShorterTexts(ls: seq<Text>)
    requires ls != [] && ls[0] != [] && LineTexts(ls)
    ensures LineTexts([ls[0][1..]] + ls[1..])
  {
    var shorter := [ls[0][1..]] + ls[1..];
    forall k, i | 0 <= k < |shorter| && 0 <= i < |shorter[k]| ensures Plain(shorter[k][i]) {
      assert k == 0 ==> shorter[0][i] == ls[0][i + 1];
      assert k > 0 ==> shorter[k] == ls[k];
    }
  }

  /** Normalising keeps the lines and joins them with the policy's line end. */
  lemma LinesTheorem(windows: bool, raw: Text)
    ensures Normalize(windows, raw) == Join(Lines(WithoutBom(raw)), ExpectedNewline(windows))
    ensures Lines(Normalize(windows, raw)) == Lines(WithoutBom(raw))
  {
    var text := WithoutBom(raw);
    RewriteIsRespelling(windows, text);
    RespelledJoins(text, ExpectedNewline(windows));
    LinesAreTexts(text);
    LinesOfJoin(Lines(text), windows);
  }

  // ---------- What the validator accepts ----------

  ghost predicate EndOk(windows: bool, s: Text, i: nat)
    requires i < |s|
  {
    if windows
    then (s[i] == CR ==> i + 1 < |s| && s[i + 1] == LF) && (s[i] == LF ==> i > 0 && s[i - 1] == CR)
    else s[i] != CR
  }

  /** Every line end is the policy's. */
  ghost predicate Uniform(windows: bool, s: Text) { forall i: nat | i < |s| :: EndOk(windows, s, i) }

  /** Reading from the left, line ends come as the policy writes them. */
  predicate Clean(windows: bool, s: Text)
    decreases |s|
  {
    s == []
    || (windows && StartsWith(s, CRLF) && Clean(windows, s[2..]))
    || ((if windows then Plain(s[0]) else s[0] != CR) && Clean(windows, s[1..]))
  }

  lemma {:induction false} CleanIsUniform(windows: bool, s: Text)
    ensures Clean(windows, s) <==> Uniform(windows, s)
    decreases |s|
  {
    if s != [] {
      CrlfHead(s);
      if GoodStart(windows, s, 2) {
        CleanIsUniform(windows, s[2..]);
        UniformDrop(windows, s, 2);
      } else if GoodStart(windows, s, 1) {
        CleanIsUniform(windows, s[1..]);
        UniformDrop(windows, s, 1);
      } else {
        assert !EndOk(windows, s, 0);
      }
    }
  }

  /** A well-formed start: a CRLF pair, or one code point that ends no line. */
  ghost predicate GoodStart(windows: bool, s: Text, n: nat) {
    || (n == 2 && windows && |s| >= 2 && s[0] == CR && s[1] == LF)
    || (n == 1 && |s| >= 1 && if windows then Plain(s[0]) else s[0] != CR)
  }

  lemma UniformDrop(windows: bool, s: Text, n: nat)
    requires GoodStart(windows, s, n)
    ensures Uniform(windows, s[n..]) <==> Uniform(windows, s)
  {
    var t := s[n..];
    forall i: nat | i < n ensures EndOk(windows, s, i) {}
    forall i: nat | i < |t| ensures EndOk(windows, t, i) <==> EndOk(windows, s, i + n) {}
    if Uniform(windows, t) {
      forall i: nat | i < |s| ensures EndOk(windows, s, i) {
        if i >= n { assert EndOk(windows, t, i - n); }
      }
    }
    if Uniform(windows, s) {
      forall i: nat | i < |t| ensures EndOk(windows, t, i) { assert EndOk(windows, s, i + n); }
    }
  }

  lemma {:induction false} RestIsPlain(s: Text)
    ensures CR !in Replace(s, CRLF, []) && LF !in Replace(s, CRLF, []) <==> Clean(true, s)
    decreases |s|
  {
    if s != [] {
      CrlfHead(s);
      if StartsWith(s, CRLF) {
        RestIsPlain(s[2..]);
        assert Replace(s, CRLF, []) == Replace(s[2..], CRLF, []);
      } else {
        RestIsPlain(s[1..]);
        assert Replace(s, CRLF, []) == [s[0]] + Replace(s[1..], CRLF, []);
      }
    }
  }

  lemma {:induction false} NoReturnAtAll(s: Text)
    ensures CR !in Replace(s, CRLF, []) && !Contains(s, CRLF) <==> Clean(false, s)
    decreases |s|
  {
    if s != [] {
      CrlfHead(s);
      if !StartsWith(s, CRLF) {
        NoReturnAtAll(s[1..]);
        assert Replace(s, CRLF, []) == [s[0]] + Replace(s[1..], CRLF, []);
      }
    }
  }

  /** The validator reports nothing exactly on texts whose line ends are all the policy's. */
  lemma ValidatorTheorem(windows: bool, raw: Text)
    ensures Validate(windows, raw) == [] <==> Uniform(windows, raw)
  {
    RestIsPlain(raw);
    NoReturnAtAll(raw);
    CleanIsUniform(windows, raw);
  }

  // ---------- What the validator reports ----------

  ghost predicate PairAt(s: Text, i: nat) { i + 1 < |s| && s[i] == CR && s[i + 1] == LF }

  ghost predicate LoneCrAt(s: Text, i: nat) { i < |s| && s[i] == CR && !PairAt(s, i) }

  ghost predicate LoneLfAt(s: Text, i: nat) { i < |s| && s[i] == LF && !(i > 0 && PairAt(s, i - 1)) }

  lemma {:induction false} RestKeepsLone(s: Text)
    ensures CR in Replace(s, CRLF, []) <==> exists i: nat :: LoneCrAt(s, i)
    ensures LF in Replace(s, CRLF, []) <==> exists i: nat :: LoneLfAt(s, i)
    decreases |s|
  {
    if s != [] {
      CrlfHead(s);
      var n := if StartsWith(s, CRLF) then 2 else 1;
      RestKeepsLone(s[n..]);
      LoneShift(s, n);
      if n == 2 {
        assert Replace(s, CRLF, []) == Replace(s[2..], CRLF, []);
      } else {
        assert Replace(s, CRLF, []) == [s[0]] + Replace(s[1..], CRLF, []);
        assert s[0] == CR ==> LoneCrAt(s, 0);
        assert s[0] == LF ==> LoneLfAt(s, 0);
      }
    }
  }

  /** Dropping a first pair, or a first code point that is not half of one, keeps what is lone. */
  lemma LoneShift(s: Text, n: nat)
    requires (n == 2 && PairAt(s, 0)) || (n == 1 && s != [] && !PairAt(s, 0))
    ensures (exists i: nat :: LoneCrAt(s, i)) <==> (n == 1 && s[0] == CR) || exists i: nat :: LoneCrAt(s[n..], i)
    ensures (exists i: nat :: LoneLfAt(s, i)) <==> (n == 1 && s[0] == LF) || exists i: nat :: LoneLfAt(s[n..], i)
  {
    var t := s[n..];
    forall i: nat | i < |t| ensures LoneCrAt(t, i) <==> LoneCrAt(s, i + n) {}
    forall i: nat | i < |t| ensures LoneLfAt(t, i) <==> LoneLfAt(s, i + n) {
      if i > 0 { assert PairAt(t, i - 1) <==> PairAt(s, i + n - 1); }
    }
    if i: nat :| LoneCrAt(s, i) { assert i >= n ==> LoneCrAt(t, i - n); }
    if i: nat :| LoneCrAt(t, i) { assert LoneCrAt(s, i + n); }
    if i: nat :| LoneLfAt(s, i) { assert i >= n ==> LoneLfAt(t, i - n); }
    if i: nat :| LoneLfAt(t, i) { assert LoneLfAt(s, i + n); }
    if n == 1 && s[0] == CR { assert LoneCrAt(s, 0); }
    if n == 1 && s[0] == LF { assert LoneLfAt(s, 0); }
  }

  lemma {:induction false} ContainsPair(s: Text)
    ensures Contains(s, CRLF) <==> exists i: nat :: PairAt(s, i)
  {
    if s != [] {
      CrlfHead(s);
      ContainsPair(s[1..]);
      if i: nat :| PairAt(s[1..], i) { assert PairAt(s, i + 1); }
      if i: nat :| PairAt(s, i) { assert i > 0 ==> PairAt(s[1..], i - 1); }
      if StartsWith(s, CRLF) { assert PairAt(s, 0); }
    }
  }

  /** Each report, exactly. */
  lemma ReportTheorem(windows: bool, raw: Text)
    ensures LoneCR in Validate(windows, raw) <==> exists i: nat :: LoneCrAt(raw, i)
    ensures MustUseLF in Validate(windows, raw) <==> !windows && exists i: nat :: PairAt(raw, i)
    ensures MustUseCRLF in Validate(windows, raw) <==> windows && exists i: nat :: LoneLfAt(raw, i)
  {
    RestKeepsLone(raw);
    ContainsPair(raw);
  }

  // ---------- Unchanged, idempotent ----------

  lemma {:induction false} RespelledSame(windows: bool, s: Text)
    ensures Respelled(s, ExpectedNewline(windows)) == s <==> Clean(windows, s)
    decreases |s|
  {
    var newline := ExpectedNewline(windows);
    if s != [] {
      CrlfHead(s);
      if StartsWith(s, CRLF) {
        var rest := Respelled(s[2..], newline);
        RespelledSame(windows, s[2..]);
        assert s == CRLF + s[2..];
        if windows { SameAfter(CRLF, rest, s[2..]); } else { assert Respelled(s, newline)[0] == LF; }
      } else {
        var rest := Respelled(s[1..], newline);
        RespelledSame(windows, s[1..]);
        assert s == [s[0]] + s[1..];
        if Plain(s[0]) {
          SameAfter([s[0]], rest, s[1..]);
        } else if windows {
          assert Respelled(s, newline)[0] == CR && Respelled(s, newline)[1] == LF;
        } else {
          assert Respelled(s, newline)[0] == LF;
          SameAfter([LF], rest, s[1..]);
        }
      }
    }
  }

  lemma SameAfter(head: Text, a: Text, b: Text)
    ensures head + a == head + b <==> a == b
  {
    assert (head + a)[|head|..] == a && (head + b)[|head|..] == b;
  }

  /** Dropping a byte order mark is never made up for. */
  lemma {:induction false} BomNeverReturns(s: Text, newline: Text)
    requires newline == [LF] || newline == CRLF
    ensures Respelled(s, newline) != [BOM] + s
    decreases |s|
  {
    if s != [] && s[0] == BOM {
      CrlfHead(s);
      BomNeverReturns(s[1..], newline);
      assert s == [BOM] + s[1..];
      SameAfter([BOM], Respelled(s[1..], newline), [BOM] + s[1..]);
    } else if s != [] {
      assert Respelled(s, newline)[0] != BOM;
    }
  }

  /** Normalising leaves a text unchanged exactly when it has no byte order mark and the
      validator reports nothing. */
  lemma UnchangedTheorem(windows: bool, raw: Text)
    ensures Normalize(windows, raw) == raw <==> WithoutBom(raw) == raw && Validate(windows, raw) == []
  {
    var text := WithoutBom(raw);
    RewriteIsRespelling(windows, text);
    if text == raw {
      RespelledSame(windows, raw);
      ValidatorTheorem(windows, raw);
      CleanIsUniform(windows, raw);
    } else {
      BomNeverReturns(text, ExpectedNewline(windows));
      assert raw == [BOM] + text;
    }
  }

  /** What the normaliser writes always validates. */
  lemma OutputValidates(windows: bool, raw: Text)
    ensures Validate(windows, Normalize(windows, raw)) == []
  {
    var out := Normalize(windows, raw);
    LinesTheorem(windows, raw);
    RespelledJoins(out, ExpectedNewline(windows));
    RespelledSame(windows, out);
    ValidatorTheorem(windows, out);
    CleanIsUniform(windows, out);
  }

  lemma RespelledHead(s: Text, newline: Text)
    requires newline == [LF] || newline == CRLF
    ensures WithoutBom(Respelled(s, newline)) == Respelled(s, newline) <==> WithoutBom(s) == s
  {
    CrlfHead(s);
  }

  /** Normalising twice is normalising once, except on a text with two byte order marks. */
  lemma IdempotenceTheorem(windows: bool, raw: Text)
    ensures Normalize(windows, Normalize(windows, raw)) == Normalize(windows, raw) <==> !StartsWith(raw, [BOM, BOM])
  {
    var text := WithoutBom(raw);
    var out := Normalize(windows, raw);
    OutputValidates(windows, raw);
    UnchangedTheorem(windows, out);
    RewriteIsRespelling(windows, text);
    RespelledHead(text, ExpectedNewline(windows));
    if |raw| >= 2 { assert raw[..2] == [raw[0], raw[1]]; }
  }
}
