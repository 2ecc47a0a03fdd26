/** Canonical text determines the value, up to the order of object members, and nothing more. */
module CanonicalJsonTheorems {
  import opened Wrappers
  import opened Texts
  import opened Sequences
  import opened KeyedSort
  import opened CanonicalJson

  // ---------- Texts and numbers ----------

  lemma HexSplits(c: int)
    requires 0 <= c < 0x10000
    ensures c / 0x1000 < 16
    ensures c == c / 0x1000 * 0x1000 + c / 0x100 % 16 * 0x100 + c / 16 % 16 * 16 + c % 16
  {
    var high, middle := c / 0x100, c / 16;
    assert middle / 16 == high && high / 16 == c / 0x1000;
    assert c == 16 * middle + c % 16;
    assert middle == 16 * high + middle % 16;
    assert high == 16 * (high / 16) + high % 16;
  }

  lemma HexFour(a: int, b: int, c: int, d: int)
    requires 0 <= a < 16 && 0 <= b < 16 && 0 <= c < 16 && 0 <= d < 16
    ensures ParseHex([Hex(a), Hex(b), Hex(c), Hex(d)]) == Some(a * 0x1000 + b * 0x100 + c * 16 + d)
  {
    HexDigit(a);
    HexDigit(b);
    HexDigit(c);
    HexDigit(d);
  }

  lemma HexReads(c: int)
    requires 0 <= c < 0x10000
    ensures ParseHex(Escaped(c)[2..]) == Some(c)
  {
    HexSplits(c);
    HexFour(c / 0x1000, c / 0x100 % 16, c / 16 % 16, c % 16);
    assert Escaped(c)[2..] == [Hex(c / 0x1000), Hex(c / 0x100 % 16), Hex(c / 16 % 16), Hex(c % 16)];
  }

  lemma HexDigit(d: int)
    requires 0 <= d < 16
    ensures HexValue(Hex(d)) == Some(d)
  {
  }

  lemma ParseHexPrefix(s: Text, t: Text)
    requires |s| == 4
    ensures ParseHex(s + t) == ParseHex(s)
  {
  }

  lemma PlainReads(c: int, tail: Text)
    requires c != 34 && c != 92
    ensures ParseQuoted([c] + tail) == Prepend(c, ParseQuoted(tail))
  {
    assert ([c] + tail)[1..] == tail;
  }

  lemma ShortReads(letter: int, c: int, tail: Text)
    requires letter != 117 && Unescape(letter) == Some(c)
    ensures ParseQuoted([92, letter] + tail) == Prepend(c, ParseQuoted(tail))
  {
    assert ([92, letter] + tail)[2..] == tail;
  }

  lemma EscapedReads(c: int, tail: Text)
    requires 0 <= c < 0x10000
    ensures ParseQuoted(Escaped(c) + tail) == Prepend(c, ParseQuoted(tail))
  {
    var s := Escaped(c) + tail;
    assert s[6..] == tail;
    assert s[2..] == Escaped(c)[2..] + tail;
    HexReads(c);
    ParseHexPrefix(Escaped(c)[2..], tail);
  }

  /** One quoted unit reads back as that unit. */
  lemma UnitReads(c: int, tail: Text)
    requires 0 <= c < 0x10000
    ensures ParseQuoted(QuoteUnit(c) + tail) == Prepend(c, ParseQuoted(tail))
  {
    if |QuoteUnit(c)| == 1 {
      PlainReads(c, tail);
    } else if |QuoteUnit(c)| == 2 {
      ShortReads(QuoteUnit(c)[1], c, tail);
      assert QuoteUnit(c) == [92, QuoteUnit(c)[1]];
    } else {
      EscapedReads(c, tail);
    }
  }

  predicate PairFirst(t: Text) { |t| > 1 && HighSurrogate(t[0]) && LowSurrogate(t[1]) }

  lemma PairStep(t: Text, end: Text)
    requires PairFirst(t)
    ensures ParseQuoted(Quote(t) + end) == Prepend(t[0], Prepend(t[1], ParseQuoted(Quote(t[2..]) + end)))
  {
    var after := Quote(t[2..]) + end;
    Regroup([t[0]], [t[1]], Quote(t[2..]), end);
    assert [t[0], t[1]] == [t[0]] + [t[1]];
    PlainReads(t[0], [t[1]] + after);
    PlainReads(t[1], after);
  }

  lemma UnitStep(t: Text, end: Text)
    requires t != [] && !PairFirst(t) && 0 <= t[0] < 0x10000
    ensures ParseQuoted(Quote(t) + end) == Prepend(t[0], ParseQuoted(Quote(t[1..]) + end))
  {
    var after := Quote(t[1..]) + end;
    assert QuoteUnit(t[0]) + Quote(t[1..]) + end == QuoteUnit(t[0]) + after;
    UnitReads(t[0], after);
  }

  lemma Regroup(a: Text, b: Text, c: Text, d: Text)
    ensures a + b + c + d == a + (b + (c + d))
  {
  }

  lemma PrependTwice(t: Text, rest: Text)
    requires |t| > 1
    ensures Prepend(t[0], Prepend(t[1], Some(Parsed(t[2..], rest)))) == Some(Parsed(t, rest))
  {
    assert t == [t[0]] + ([t[1]] + t[2..]);
  }

  lemma PrependOnce(t: Text, rest: Text)
    requires t != []
    ensures Prepend(t[0], Some(Parsed(t[1..], rest))) == Some(Parsed(t, rest))
  {
    assert t == [t[0]] + t[1..];
  }

  lemma {:induction false} QuoteReads(t: Text, rest: Text)
    requires Units(t)
    ensures ParseQuoted(Quote(t) + ([34] + rest)) == Some(Parsed(t, rest))
    decreases |t|
  {
    var end := [34] + rest;
    if t == [] {
      assert Quote(t) + end == end && end[1..] == rest;
    } else {
      if PairFirst(t) {
        QuoteReads(t[2..], rest);
        PairStep(t, end);
        PrependTwice(t, rest);
      } else {
        QuoteReads(t[1..], rest);
        UnitStep(t, end);
        PrependOnce(t, rest);
      }
    }
  }

  lemma {:induction false} NatReads(n: nat, rest: Text)
    requires !StartsWithDigit(rest)
    ensures var s := PrintNat(n) + rest;
      StartsWithDigit(s) && ParseDigits(s[1..], s[0] - 48) == Parsed(n, rest)
  {
    NatReadsOn(n, rest);
    var s := PrintNat(n) + rest;
    assert ParseDigits(rest, n) == Parsed(n, rest);
  }

  /** Reading a printed number digit by digit reaches its value. */
  lemma {:induction false} NatReadsOn(n: nat, rest: Text)
    ensures var s := PrintNat(n) + rest;
      StartsWithDigit(s) && ParseDigits(s[1..], s[0] - 48) == ParseDigits(rest, n)
  {
    var s := PrintNat(n) + rest;
    if n < 10 {
      assert s[1..] == rest;
    } else {
      var last := [48 + n % 10] + rest;
      NatReadsOn(n / 10, last);
      assert s == PrintNat(n / 10) + last;
      assert last[1..] == rest;
      assert n / 10 * 10 + n % 10 == n;
    }
  }

  lemma NumbersParse(s: Text)
    requires s != [] && (Digit(s[0]) || s[0] == 45)
    ensures ParseValue(s) == ParseInt(s)
  {
  }

  lemma NegativeParses(digits: Text, n: nat, rest: Text)
    requires StartsWithDigit(digits) && ParseDigits(digits[1..], digits[0] - 48) == Parsed(n, rest)
    ensures ParseInt([45] + digits) == Some(Parsed(Int(0 - n), rest))
  {
    assert ([45] + digits)[2..] == digits[1..];
  }

  lemma IntParses(n: int, rest: Text)
    requires !StartsWithDigit(rest)
    ensures ParseInt(PrintInt(n) + rest) == Some(Parsed(Int(n), rest))
  {
    if n < 0 {
      NatReads(-n, rest);
      NegativeParses(PrintNat(-n) + rest, -n, rest);
      assert [45] + PrintNat(-n) + rest == [45] + (PrintNat(-n) + rest);
    } else {
      NatReads(n, rest);
    }
  }

  lemma IntReads(n: int, rest: Text)
    requires !StartsWithDigit(rest)
    ensures ParseValue(PrintInt(n) + rest) == Some(Parsed(Int(n), rest))
  {
    IntParses(n, rest);
    NatReadsOn(if n < 0 then -n else n, rest);
    NumbersParse(PrintInt(n) + rest);
  }

  // ---------- Sorting before or after printing ----------

  lemma {:induction false} PrintMembersAt(ms: seq<Entry<Json>>, k: nat)
    requires k < |ms|
    ensures |PrintMembers(ms)| == |NormalMembers(ms)| == |ms|
    ensures PrintMembers(ms)[k] == Entry(ms[k].key, Print(ms[k].value))
    ensures NormalMembers(ms)[k] == Entry(ms[k].key, Normal(ms[k].value))
  {
    if |ms| > 1 { PrintMembersAt(ms[1..], if k == 0 then 0 else k - 1); }
  }

  lemma {:induction false} InsertCommutes(e: Entry<Json>, sorted: seq<Entry<Json>>)
    ensures InsertEntry(Entry(e.key, Print(e.value)), PrintMembers(sorted)) == PrintMembers(InsertEntry(e, sorted))
    ensures InsertEntry(Entry(e.key, Normal(e.value)), NormalMembers(sorted)) == NormalMembers(InsertEntry(e, sorted))
  {
    if sorted == [] {
    } else {
      assert PrintMembers(sorted)[1..] == PrintMembers(sorted[1..]);
      assert NormalMembers(sorted)[1..] == NormalMembers(sorted[1..]);
      if CompareText(e.key, sorted[0].key) <= 0 {
        assert ([e] + sorted)[1..] == sorted;
      } else {
        InsertCommutes(e, sorted[1..]);
        var tail := InsertEntry(e, sorted[1..]);
        assert ([sorted[0]] + tail)[1..] == tail;
      }
    }
  }

  lemma {:induction false} SortCommutes(ms: seq<Entry<Json>>)
    ensures SortEntries(PrintMembers(ms)) == PrintMembers(SortEntries(ms))
    ensures SortEntries(NormalMembers(ms)) == NormalMembers(SortEntries(ms))
  {
    if ms != [] {
      SortCommutes(ms[1..]);
      InsertCommutes(ms[0], SortEntries(ms[1..]));
      assert PrintMembers(ms)[1..] == PrintMembers(ms[1..]);
      assert NormalMembers(ms)[1..] == NormalMembers(ms[1..]);
    }
  }

  // ---------- The parser inverts the printer ----------

  ghost predicate Reads(v: Json) {
    forall rest | !StartsWithDigit(rest) :: ParseValue(Print(v) + rest) == Some(Parsed(Normal(v), rest))
  }

  lemma ReadsOn(v: Json, rest: Text)
    requires Reads(v) && !StartsWithDigit(rest)
    ensures ParseValue(Print(v) + rest) == Some(Parsed(Normal(v), rest))
  {
  }

  lemma ItemsOnce(s: Text, x: Json, rest: Text)
    requires ParseValue(s) == Some(Parsed(x, [93] + rest))
    ensures ParseItems(s) == Some(Parsed([x], rest))
  {
    assert ([93] + rest)[1..] == rest;
  }

  lemma ItemsAgain(s: Text, x: Json, more: Text, xs: seq<Json>, rest: Text)
    requires ParseValue(s) == Some(Parsed(x, [44] + more))
    requires ParseItems(more) == Some(Parsed(xs, rest))
    ensures ParseItems(s) == Some(Parsed([x] + xs, rest))
  {
    assert ([44] + more)[1..] == more;
  }

  /** The text of a list is its first text, then the end or a comma and the rest. */
  lemma JoinSplits(texts: seq<Text>, end: Text)
    requires texts != []
    ensures |texts| == 1 ==> JoinItems(texts) + end == texts[0] + end
    ensures |texts| > 1 ==> JoinItems(texts) + end == texts[0] + ([44] + (JoinItems(texts[1..]) + end))
  {
    if |texts| > 1 { Regroup(texts[0], [44], JoinItems(texts[1..]), end); }
  }

  lemma {:induction false} ItemsRead(items: seq<Json>, rest: Text)
    requires items != [] && forall k | 0 <= k < |items| :: Reads(items[k])
    ensures ParseItems(JoinItems(PrintItems(items)) + ([93] + rest)) == Some(Parsed(NormalItems(items), rest))
    decreases |items|
  {
    var end := [93] + rest;
    PrintItemsSplit(items);
    JoinSplits(PrintItems(items), end);
    if |items| == 1 {
      ReadsOn(items[0], end);
      ItemsOnce(Print(items[0]) + end, Normal(items[0]), rest);
    } else {
      ItemsRead(items[1..], rest);
      var more := JoinItems(PrintItems(items[1..])) + end;
      ReadsOn(items[0], [44] + more);
      ItemsAgain(Print(items[0]) + ([44] + more), Normal(items[0]), more, NormalItems(items[1..]), rest);
    }
  }

  lemma PrintItemsSplit(items: seq<Json>)
    requires items != []
    ensures |PrintItems(items)| == |items| && PrintItems(items)[0] == Print(items[0])
    ensures PrintItems(items)[1..] == PrintItems(items[1..])
    ensures NormalItems(items) == [Normal(items[0])] + NormalItems(items[1..])
    ensures |items| == 1 ==> NormalItems(items) == [Normal(items[0])]
  {
    PrintItemsLength(items);
  }

  lemma {:induction false} PrintItemsLength(items: seq<Json>)
    ensures |PrintItems(items)| == |NormalItems(items)| == |items|
  {
    if items != [] { PrintItemsLength(items[1..]); }
  }

  lemma MemberParts(s: Text, key: Text, after: Text, value: Json, rest: Text)
    requires s != [] && s[0] == 34 && ParseQuoted(s[1..]) == Some(Parsed(key, [58] + after))
    requires ParseValue(after) == Some(Parsed(value, rest))
    ensures ParseMember(s) == Some(Parsed(Entry(key, value), rest))
  {
    assert ([58] + after)[1..] == after;
  }

  function MemberText(m: Entry<Json>): Text { PrintText(m.key) + [58] + Print(m.value) }

  lemma MemberSplits(m: Entry<Json>, rest: Text)
    ensures var s := MemberText(m) + rest;
      s[0] == 34 && s[1..] == Quote(m.key) + ([34] + ([58] + (Print(m.value) + rest)))
  {
  }

  lemma MemberReads(m: Entry<Json>, rest: Text)
    requires Units(m.key) && Reads(m.value) && !StartsWithDigit(rest)
    ensures ParseMember(MemberText(m) + rest) == Some(Parsed(Entry(m.key, Normal(m.value)), rest))
  {
    var after := Print(m.value) + rest;
    QuoteReads(m.key, [58] + after);
    MemberSplits(m, rest);
    ReadsOn(m.value, rest);
    MemberParts(MemberText(m) + rest, m.key, after, Normal(m.value), rest);
  }

  lemma MembersOnce(s: Text, x: Entry<Json>, rest: Text)
    requires ParseMember(s) == Some(Parsed(x, [125] + rest))
    ensures ParseMembers(s) == Some(Parsed([x], rest))
  {
    assert ([125] + rest)[1..] == rest;
  }

  lemma MembersAgain(s: Text, x: Entry<Json>, more: Text, xs: seq<Entry<Json>>, rest: Text)
    requires ParseMember(s) == Some(Parsed(x, [44] + more))
    requires ParseMembers(more) == Some(Parsed(xs, rest))
    ensures ParseMembers(s) == Some(Parsed([x] + xs, rest))
  {
    assert ([44] + more)[1..] == more;
  }

  function MemberTexts(ms: seq<Entry<Json>>): seq<Text> { Members(PrintMembers(ms)) }

  lemma MembersSplit(ms: seq<Entry<Json>>)
    requires ms != []
    ensures |MemberTexts(ms)| == |ms| && MemberTexts(ms)[0] == MemberText(ms[0])
    ensures MemberTexts(ms)[1..] == MemberTexts(ms[1..])
  {
    var texts := PrintMembers(ms);
    PrintMembersAt(ms, 0);
    assert texts[1..] == PrintMembers(ms[1..]);
    MembersTail(texts);
  }

  lemma MembersTail(texts: seq<Entry<Text>>)
    requires texts != []
    ensures Members(texts)[1..] == Members(texts[1..])
  {
  }

  lemma NormalMembersSplit(ms: seq<Entry<Json>>)
    requires ms != []
    ensures NormalMembers(ms) == [Entry(ms[0].key, Normal(ms[0].value))] + NormalMembers(ms[1..])
    ensures |ms| == 1 ==> NormalMembers(ms) == [Entry(ms[0].key, Normal(ms[0].value))]
  {
  }

  lemma {:induction false} MembersRead(ms: seq<Entry<Json>>, rest: Text)
    requires ms != [] && forall k | 0 <= k < |ms| :: Units(ms[k].key) && Reads(ms[k].value)
    ensures ParseMembers(JoinItems(MemberTexts(ms)) + ([125] + rest)) == Some(Parsed(NormalMembers(ms), rest))
    decreases |ms|
  {
    var end := [125] + rest;
    MembersSplit(ms);
    NormalMembersSplit(ms);
    JoinSplits(MemberTexts(ms), end);
    var x := Entry(ms[0].key, Normal(ms[0].value));
    if |ms| == 1 {
      MemberReads(ms[0], end);
      MembersOnce(MemberText(ms[0]) + end, x, rest);
    } else {
      MembersRead(ms[1..], rest);
      var more := JoinItems(MemberTexts(ms[1..])) + end;
      MemberReads(ms[0], [44] + more);
      MembersAgain(MemberText(ms[0]) + ([44] + more), x, more, NormalMembers(ms[1..]), rest);
    }
  }

  // ---------- Where a value's text starts ----------

  /** A printed value never starts like the end of a list. */
  lemma PrintStarts(v: Json)
    ensures Print(v) != [] && Print(v)[0] !in {93, 125, 44, 58}
  {
    if v.Int? { NatReadsOn(if v.n < 0 then -v.n else v.n, []); }
  }

  lemma BracketParses(s: Text, items: seq<Json>, rest: Text)
    requires s != [] && s[0] != 93 && ParseItems(s) == Some(Parsed(items, rest))
    ensures ParseValue([91] + s) == Some(Parsed(Arr(items), rest))
  {
    assert ([91] + s)[1..] == s;
  }

  lemma BraceParses(s: Text, ms: seq<Entry<Json>>, rest: Text)
    requires s != [] && s[0] != 125 && ParseMembers(s) == Some(Parsed(ms, rest))
    ensures ParseValue([123] + s) == Some(Parsed(Obj(ms), rest))
  {
    assert ([123] + s)[1..] == s;
  }

  lemma EmptyParses(rest: Text)
    ensures ParseValue([91, 93] + rest) == Some(Parsed(Arr([]), rest))
    ensures ParseValue([123, 125] + rest) == Some(Parsed(Obj([]), rest))
  {
    assert ([91, 93] + rest)[2..] == rest && ([123, 125] + rest)[2..] == rest;
  }

  lemma JoinStarts(texts: seq<Text>, end: Text)
    requires texts != [] && texts[0] != []
    ensures JoinItems(texts) + end != [] && (JoinItems(texts) + end)[0] == texts[0][0]
  {
  }

  lemma ArrParses(items: seq<Json>, rest: Text)
    requires forall k | 0 <= k < |items| :: Reads(items[k])
    ensures ParseValue(Print(Arr(items)) + rest) == Some(Parsed(Normal(Arr(items)), rest))
  {
    if items == [] {
      EmptyParses(rest);
      assert Print(Arr(items)) == [91, 93];
    } else {
      var body := JoinItems(PrintItems(items)) + ([93] + rest);
      ItemsRead(items, rest);
      PrintItemsSplit(items);
      PrintStarts(items[0]);
      JoinStarts(PrintItems(items), [93] + rest);
      BracketParses(body, NormalItems(items), rest);
      assert Print(Arr(items)) + rest == [91] + body;
    }
  }

  lemma ObjText(ms: seq<Entry<Json>>, rest: Text)
    ensures Print(Obj(ms)) + rest == [123] + (JoinItems(MemberTexts(SortEntries(ms))) + ([125] + rest))
    ensures Normal(Obj(ms)) == Obj(NormalMembers(SortEntries(ms)))
  {
    SortCommutes(ms);
  }

  lemma ObjParses(ms: seq<Entry<Json>>, rest: Text)
    requires forall k | 0 <= k < |ms| :: Units(ms[k].key) && Reads(ms[k].value)
    ensures ParseValue(Print(Obj(ms)) + rest) == Some(Parsed(Normal(Obj(ms)), rest))
  {
    var sorted := SortEntries(ms);
    SortMembers(ms);
    ObjText(ms, rest);
    if ms == [] {
      EmptyParses(rest);
      assert Print(Obj(ms)) == [123, 125];
    } else {
      forall k | 0 <= k < |sorted| ensures Units(sorted[k].key) && Reads(sorted[k].value) {
        SortMember(ms, k);
      }
      MembersRead(sorted, rest);
      MembersSplit(sorted);
      JoinStarts(MemberTexts(sorted), [125] + rest);
      BraceParses(JoinItems(MemberTexts(sorted)) + ([125] + rest), NormalMembers(sorted), rest);
    }
  }

  lemma PrefixOf(p: Text, rest: Text)
    ensures StartsWith(p + rest, p) && (p + rest)[|p|..] == rest
  {
  }

  lemma WordReads(v: Json, rest: Text)
    requires v.Null? || v.Bool?
    ensures ParseValue(Print(v) + rest) == Some(Parsed(v, rest))
  {
    PrefixOf(Print(v), rest);
  }

  lemma StrReads(t: Text, rest: Text)
    requires Units(t)
    ensures ParseValue(PrintText(t) + rest) == Some(Parsed(Str(t), rest))
  {
    QuoteReads(t, rest);
    Regroup([34], Quote(t), [34], rest);
    QuotedParses(Quote(t) + ([34] + rest), t, rest);
  }

  lemma QuotedParses(s: Text, t: Text, rest: Text)
    requires ParseQuoted(s) == Some(Parsed(t, rest))
    ensures ParseValue([34] + s) == Some(Parsed(Str(t), rest))
  {
    assert ([34] + s)[1..] == s;
  }

  lemma LeafReads(v: Json, rest: Text)
    requires WellFormed(v) && !StartsWithDigit(rest) && !v.Arr? && !v.Obj?
    ensures ParseValue(Print(v) + rest) == Some(Parsed(Normal(v), rest))
  {
    match v {
      case Int(n) => IntReads(n, rest);
      case Str(t) => StrReads(t, rest);
      case _ => WordReads(v, rest);
    }
  }

  /** Parsing the canonical text of a value, whatever follows it, gives its normal form. */
  lemma {:induction false} CanonicalReads(v: Json)
    requires WellFormed(v)
    ensures Reads(v)
  {
    forall rest | !StartsWithDigit(rest)
      ensures ParseValue(Print(v) + rest) == Some(Parsed(Normal(v), rest))
    {
      if v.Arr? {
        forall k | 0 <= k < |v.items| ensures Reads(v.items[k]) { CanonicalReads(v.items[k]); }
        ArrParses(v.items, rest);
      } else if v.Obj? {
        forall k | 0 <= k < |v.members| ensures Units(v.members[k].key) && Reads(v.members[k].value) {
          CanonicalReads(v.members[k].value);
        }
        ObjParses(v.members, rest);
      } else {
        LeafReads(v, rest);
      }
    }
  }

  /** The inverse: reading a canonical text back gives the value, members in key order. */
  lemma RoundTrip(v: Json)
    requires WellFormed(v)
    ensures ParseValue(Print(v)) == Some(Parsed(Normal(v), []))
  {
    CanonicalReads(v);
    assert Print(v) + [] == Print(v);
  }

  // ---------- Equal up to member order ----------

  /** Same shape and leaves; objects pair their members by key. */
  ghost predicate Same(v: Json, w: Json)
    decreases v
  {
    match (v, w)
    case (Arr(xs), Arr(ys)) => |xs| == |ys| && forall k | 0 <= k < |xs| :: Same(xs[k], ys[k])
    case (Obj(ms), Obj(ns)) =>
      && |ms| == |ns|
      && (forall i | 0 <= i < |ms| ::
            exists j :: 0 <= j < |ns| && ns[j].key == ms[i].key && Same(ms[i].value, ns[j].value))
    case _ => v == w
  }

  lemma {:induction false} NormalItemsAt(items: seq<Json>, k: nat)
    requires k < |items|
    ensures |NormalItems(items)| == |items| && NormalItems(items)[k] == Normal(items[k])
    ensures |PrintItems(items)| == |items| && PrintItems(items)[k] == Print(items[k])
  {
    if |items| > 1 { NormalItemsAt(items[1..], if k == 0 then 0 else k - 1); }
  }

  lemma NormalMembersLength(ms: seq<Entry<Json>>)
    ensures |NormalMembers(ms)| == |ms| == |PrintMembers(ms)|
  {
    if ms != [] { PrintMembersAt(ms, 0); }
  }

  lemma NormalKeysDistinct(ms: seq<Entry<Json>>)
    requires DistinctKeys(ms)
    ensures DistinctKeys(NormalMembers(ms))
  {
    NormalMembersLength(ms);
    forall i, j | 0 <= i < j < |ms| ensures NormalMembers(ms)[i].key != NormalMembers(ms)[j].key {
      PrintMembersAt(ms, i);
      PrintMembersAt(ms, j);
    }
  }

  lemma {:induction false} NormalImpliesSame(v: Json, w: Json)
    requires WellFormed(v) && WellFormed(w) && Normal(v) == Normal(w)
    ensures Same(v, w)
    decreases v
  {
    match (v, w) {
      case (Arr(xs), Arr(ys)) =>
        PrintItemsLength(xs);
        PrintItemsLength(ys);
        forall k | 0 <= k < |xs| ensures Same(xs[k], ys[k]) {
          NormalItemsAt(xs, k);
          NormalItemsAt(ys, k);
          NormalImpliesSame(xs[k], ys[k]);
        }
      case (Obj(ms), Obj(ns)) =>
        SortMembers(NormalMembers(ms));
        SortMembers(NormalMembers(ns));
        NormalMembersLength(ms);
        NormalMembersLength(ns);
        forall i | 0 <= i < |ms|
          ensures exists j :: 0 <= j < |ns| && ns[j].key == ms[i].key && Same(ms[i].value, ns[j].value)
        {
          var j := NormalPartner(ms, ns, i);
          NormalImpliesSame(ms[i].value, ns[j].value);
        }
      case _ =>
    }
  }

  /** Objects with the same normal form pair their members by key and normal value. */
  lemma NormalPartner(ms: seq<Entry<Json>>, ns: seq<Entry<Json>>, i: nat) returns (j: nat)
    requires i < |ms| && SortEntries(NormalMembers(ms)) == SortEntries(NormalMembers(ns))
    ensures j < |ns| && ns[j].key == ms[i].key && Normal(ns[j].value) == Normal(ms[i].value)
  {
    SortMembers(NormalMembers(ms));
    SortMembers(NormalMembers(ns));
    NormalMembersLength(ns);
    PrintMembersAt(ms, i);
    assert NormalMembers(ms)[i] in NormalMembers(ms);
    assert NormalMembers(ms)[i] in NormalMembers(ns);
    j :| 0 <= j < |ns| && NormalMembers(ns)[j] == NormalMembers(ms)[i];
    PrintMembersAt(ns, j);
  }

  lemma {:induction false} SameImpliesNormal(v: Json, w: Json)
    requires WellFormed(v) && WellFormed(w) && Same(v, w)
    ensures Normal(v) == Normal(w)
    decreases v
  {
    match (v, w) {
      case (Arr(xs), Arr(ys)) =>
        PrintItemsLength(xs);
        PrintItemsLength(ys);
        forall k | 0 <= k < |xs| ensures NormalItems(xs)[k] == NormalItems(ys)[k] {
          NormalItemsAt(xs, k);
          NormalItemsAt(ys, k);
          SameImpliesNormal(xs[k], ys[k]);
        }
        assert NormalItems(xs) == NormalItems(ys);
      case (Obj(ms), Obj(ns)) =>
        SameMembers(v, w);
        NormalMembersLength(ms);
        NormalMembersLength(ns);
        NormalKeysDistinct(ms);
        NormalKeysDistinct(ns);
        SameSet(NormalMembers(ms), NormalMembers(ns));
        SortMembers(NormalMembers(ms));
        SortMembers(NormalMembers(ns));
        SortAscends(NormalMembers(ms));
        SortAscends(NormalMembers(ns));
        AscendingUnique(SortEntries(NormalMembers(ms)), SortEntries(NormalMembers(ns)));
      case _ =>
    }
  }

  lemma {:induction false} SameMembers(v: Json, w: Json)
    requires WellFormed(v) && WellFormed(w) && Same(v, w) && v.Obj? && w.Obj?
    ensures forall x | x in NormalMembers(v.members) :: x in NormalMembers(w.members)
    decreases v, 0
  {
    var ms, ns := v.members, w.members;
    NormalMembersLength(ms);
    NormalMembersLength(ns);
    forall x | x in NormalMembers(ms) ensures x in NormalMembers(ns) {
      var i :| 0 <= i < |ms| && NormalMembers(ms)[i] == x;
      PrintMembersAt(ms, i);
      var j :| 0 <= j < |ns| && ns[j].key == ms[i].key && Same(ms[i].value, ns[j].value);
      PrintMembersAt(ns, j);
      SameImpliesNormal(ms[i].value, ns[j].value);
      assert NormalMembers(ns)[j] == x;
    }
  }

  // ---------- Printing sees only the normal form ----------

  lemma {:induction false} PrintNormal(v: Json)
    requires WellFormed(v)
    ensures Print(Normal(v)) == Print(v)
  {
    match v {
      case Arr(items) =>
        PrintItemsLength(items);
        PrintItemsLength(NormalItems(items));
        forall k | 0 <= k < |items| ensures PrintItems(NormalItems(items))[k] == PrintItems(items)[k] {
          NormalItemsAt(items, k);
          NormalItemsAt(NormalItems(items), k);
          PrintNormal(items[k]);
        }
        assert PrintItems(NormalItems(items)) == PrintItems(items);
      case Obj(ms) =>
        var ns := NormalMembers(ms);
        NormalMembersLength(ms);
        NormalMembersLength(ns);
        forall k | 0 <= k < |ms| ensures PrintMembers(ns)[k] == PrintMembers(ms)[k] {
          PrintMembersAt(ms, k);
          PrintMembersAt(ns, k);
          PrintNormal(ms[k].value);
        }
        assert PrintMembers(ns) == PrintMembers(ms);
        NormalKeysDistinct(ms);
        SortCommutes(ns);
        SortSorted(ns);
        SortCommutes(SortEntries(ns));
      case _ =>
    }
  }

  /** Two values have the same canonical text exactly when they are equal up to the order
      of object members. */
  lemma CanonicalTheorem(v: Json, w: Json)
    requires WellFormed(v) && WellFormed(w)
    ensures Print(v) == Print(w) <==> Same(v, w)
  {
    if Print(v) == Print(w) {
      RoundTrip(v);
      RoundTrip(w);
      NormalImpliesSame(v, w);
    }
    if Same(v, w) {
      SameImpliesNormal(v, w);
      PrintNormal(v);
      PrintNormal(w);
    }
  }

  // ---------- The text itself ----------

  /** A unit that needs no escape. */
  predicate PlainUnit(c: int) {
    c >= 0x20 && c != 34 && c != 92 && !HighSurrogate(c) && !LowSurrogate(c)
  }

  /** How each unit is printed: as it is, as a backslash and a letter, or as four hex digits. */
  lemma UnitText(c: int)
    requires 0 <= c < 0x10000
    ensures QuoteUnit(c) == [c] <==> PlainUnit(c)
    ensures |QuoteUnit(c)| == 2 <==> c in {8, 9, 10, 12, 13, 34, 92}
    ensures |QuoteUnit(c)| == 2 ==> QuoteUnit(c)[0] == 92 && Unescape(QuoteUnit(c)[1]) == Some(c)
    ensures !PlainUnit(c) && c !in {8, 9, 10, 12, 13, 34, 92} ==>
              QuoteUnit(c)[..2] == [92, 117] && |QuoteUnit(c)| == 6 && ParseHex(QuoteUnit(c)[2..]) == Some(c)
  {
    HexReads(c);
  }

  /** Text without quotes, backslashes, control characters and surrogates stands as it is, and
      so does a surrogate pair. */
  lemma {:induction false} PlainTextPrints(t: Text)
    requires forall k | 0 <= k < |t| :: PlainUnit(t[k])
    ensures Quote(t) == t
  {
    if t != [] {
      PlainTextPrints(t[1..]);
      assert t == [t[0]] + t[1..];
    }
  }

  lemma PairPrints(high: int, low: int, t: Text)
    requires HighSurrogate(high) && LowSurrogate(low)
    ensures Quote([high, low] + t) == [high, low] + Quote(t)
  {
    assert ([high, low] + t)[2..] == t;
  }

  /** Numbers are printed without leading zeros. */
  lemma {:induction false} NatText(n: nat)
    ensures PrintNat(n) != [] && forall k | 0 <= k < |PrintNat(n)| :: Digit(PrintNat(n)[k])
    ensures PrintNat(n)[0] == 48 <==> n == 0
    ensures n == 0 ==> PrintNat(n) == [48]
  {
    if n >= 10 { NatText(n / 10); }
  }

  /** An object is printed with its members by ascending key, whichever way they were listed. */
  lemma ObjectText(ms: seq<Entry<Json>>, sorted: seq<Entry<Json>>)
    requires DistinctKeys(ms) && Ascending(sorted) && forall m :: m in sorted <==> m in ms
    ensures Print(Obj(ms)) == [123] + JoinItems(MemberTexts(sorted)) + [125]
  {
    SortAscends(ms);
    SortMembers(ms);
    AscendingUnique(SortEntries(ms), sorted);
    SortCommutes(ms);
  }

  /** The words and the empty collections. */
  lemma WordText()
    ensures Print(Null) == Codes("null") && Print(Bool(true)) == Codes("true") && Print(Bool(false)) == Codes("false")
    ensures Print(Arr([])) == Codes("[]") && Print(Obj([])) == Codes("{}")
  {
    assert Print(Arr([])) == [91, 93] && Print(Obj([])) == [123, 125];
  }
}
