/** The canonical JSON text that update signatures cover, and a parser that inverts it. */
module CanonicalJson {
  import opened Wrappers
  import opened Texts
  import opened Sequences
  import opened KeyedSort

  /** Members are in insertion order. */
  datatype Json =
    | Null
    | Bool(b: bool)
    | Int(n: int)
    | Str(t: Text)
    | Arr(items: seq<Json>)
    | Obj(members: seq<Entry<Json>>)

  ghost predicate Units(t: Text) { forall k | 0 <= k < |t| :: 0 <= t[k] < 0x10000 }

  /** Code units are 16 bits and no object repeats a key. */
  ghost predicate WellFormed(v: Json) {
    match v
    case Str(t) => Units(t)
    case Arr(items) => forall k | 0 <= k < |items| :: WellFormed(items[k])
    case Obj(members) =>
      DistinctKeys(members) &&
      forall k | 0 <= k < |members| :: Units(members[k].key) && WellFormed(members[k].value)
    case _ => true
  }

  // ---------- Printing ----------

  function Hex(d: int): int { if d < 10 then 48 + d else 87 + d }

  function Escaped(c: int): Text {
    [92, 117, Hex(c / 0x1000), Hex(c / 0x100 % 16), Hex(c / 16 % 16), Hex(c % 16)]
  }

  predicate HighSurrogate(c: int) { 0xD800 <= c <= 0xDBFF }

  predicate LowSurrogate(c: int) { 0xDC00 <= c <= 0xDFFF }

  function QuoteUnit(c: int): Text {
    if c == 8 then [92, 98] else if c == 9 then [92, 116] else if c == 10 then [92, 110]
    else if c == 12 then [92, 102] else if c == 13 then [92, 114]
    else if c == 34 then [92, 34] else if c == 92 then [92, 92]
    else if c < 0x20 || HighSurrogate(c) || LowSurrogate(c) then Escaped(c)
    else [c]
  }

  /** A surrogate pair stands as it is; a lone surrogate is escaped. */
  function Quote(t: Text): Text
    decreases |t|
  {
    if t == [] then []
    else if |t| > 1 && HighSurrogate(t[0]) && LowSurrogate(t[1]) then [t[0], t[1]] + Quote(t[2..])
    else QuoteUnit(t[0]) + Quote(t[1..])
  }

  function PrintText(t: Text): Text { [34] + Quote(t) + [34] }

  function PrintNat(n: nat): Text {
    if n < 10 then [48 + n] else PrintNat(n / 10) + [48 + n % 10]
  }

  function PrintInt(n: int): Text { if n < 0 then [45] + PrintNat(-n) else PrintNat(n) }

  function JoinItems(texts: seq<Text>): Text {
    if texts == [] then []
    else if |texts| == 1 then texts[0]
    else texts[0] + [44] + JoinItems(texts[1..])
  }

  function Members(es: seq<Entry<Text>>): seq<Text> {
    seq(|es|, k requires 0 <= k < |es| => PrintText(es[k].key) + [58] + es[k].value)
  }

  function Print(v: Json): Text
    decreases v, 1
  {
    match v
    case Null => [110, 117, 108, 108]
    case Bool(b) => if b then [116, 114, 117, 101] else [102, 97, 108, 115, 101]
    case Int(n) => PrintInt(n)
    case Str(t) => PrintText(t)
    case Arr(items) => [91] + JoinItems(PrintItems(items)) + [93]
    case Obj(members) => [123] + JoinItems(Members(SortEntries(PrintMembers(members)))) + [125]
  }

  function PrintItems(items: seq<Json>): seq<Text>
    decreases items, 0
  {
    if items == [] then [] else [Print(items[0])] + PrintItems(items[1..])
  }

  function PrintMembers(members: seq<Entry<Json>>): seq<Entry<Text>>
    decreases members, 0
  {
    if members == [] then []
    else [Entry(members[0].key, Print(members[0].value))] + PrintMembers(members[1..])
  }

  // ---------- Parsing ----------

  datatype Parsed<T> = Parsed(value: T, rest: Text)

  predicate Digit(c: int) { 48 <= c <= 57 }

  predicate StartsWithDigit(t: Text) { t != [] && Digit(t[0]) }

  function HexValue(c: int): Option<int> {
    if 48 <= c <= 57 then Some(c - 48) else if 97 <= c <= 102 then Some(c - 87) else None
  }

  function ParseHex(s: Text): Option<int> {
    if |s| < 4 then None
    else
      var a, b, c, d := HexValue(s[0]), HexValue(s[1]), HexValue(s[2]), HexValue(s[3]);
      if a.None? || b.None? || c.None? || d.None? then None
      else Some(a.value * 0x1000 + b.value * 0x100 + c.value * 16 + d.value)
  }

  function Unescape(c: int): Option<int> {
    if c == 98 then Some(8) else if c == 116 then Some(9) else if c == 110 then Some(10)
    else if c == 102 then Some(12) else if c == 114 then Some(13)
    else if c == 34 then Some(34) else if c == 92 then Some(92) else None
  }

  /** Reads a text up to its closing quote. */
  function ParseQuoted(s: Text): (r: Option<Parsed<Text>>)
    ensures r.Some? ==> |r.value.rest| < |s|
    decreases |s|
  {
    if s == [] then None
    else if s[0] == 34 then Some(Parsed([], s[1..]))
    else if s[0] != 92 then Prepend(s[0], ParseQuoted(s[1..]))
    else if |s| < 2 then None
    else if s[1] == 117 then
      var unit := ParseHex(s[2..]);
      if unit.None? then None else Prepend(unit.value, ParseQuoted(s[6..]))
    else
      var unit := Unescape(s[1]);
      if unit.None? then None else Prepend(unit.value, ParseQuoted(s[2..]))
  }

  function Prepend(unit: int, r: Option<Parsed<Text>>): Option<Parsed<Text>> {
    if r.None? then None else Some(Parsed([unit] + r.value.value, r.value.rest))
  }

  /** Reads digits after a number whose value so far is `sofar`. */
  function ParseDigits(s: Text, sofar: nat): (r: Parsed<nat>)
    ensures |r.rest| <= |s|
    decreases |s|
  {
    if StartsWithDigit(s) then ParseDigits(s[1..], sofar * 10 + (s[0] - 48)) else Parsed(sofar, s)
  }

  function ParseInt(s: Text): (r: Option<Parsed<Json>>)
    ensures r.Some? ==> |r.value.rest| < |s|
  {
    if StartsWithDigit(s) then
      var p := ParseDigits(s[1..], s[0] - 48);
      Some(Parsed(Int(p.value), p.rest))
    else if |s| > 1 && s[0] == 45 && Digit(s[1]) then
      var p := ParseDigits(s[2..], s[1] - 48);
      Some(Parsed(Int(0 - p.value), p.rest))
    else None
  }

  function ParseValue(s: Text): (r: Option<Parsed<Json>>)
    ensures r.Some? ==> |r.value.rest| < |s|
    decreases |s|, 2
  {
    if s == [] then None
    else if s[0] == 110 then (if StartsWith(s, Print(Null)) then Some(Parsed(Null, s[4..])) else None)
    else if s[0] == 116 then (if StartsWith(s, Print(Bool(true))) then Some(Parsed(Bool(true), s[4..])) else None)
    else if s[0] == 102 then (if StartsWith(s, Print(Bool(false))) then Some(Parsed(Bool(false), s[5..])) else None)
    else if s[0] == 34 then
      var r := ParseQuoted(s[1..]);
      if r.None? then None else Some(Parsed(Str(r.value.value), r.value.rest))
    else if s[0] == 91 then
      if |s| > 1 && s[1] == 93 then Some(Parsed(Arr([]), s[2..]))
      else
        var r := ParseItems(s[1..]);
        if r.None? then None else Some(Parsed(Arr(r.value.value), r.value.rest))
    else if s[0] == 123 then
      if |s| > 1 && s[1] == 125 then Some(Parsed(Obj([]), s[2..]))
      else
        var r := ParseMembers(s[1..]);
        if r.None? then None else Some(Parsed(Obj(r.value.value), r.value.rest))
    else ParseInt(s)
  }

  /** One or more values separated by commas, up to the closing bracket. */
  function ParseItems(s: Text): (r: Option<Parsed<seq<Json>>>)
    ensures r.Some? ==> |r.value.rest| < |s|
    decreases |s|, 3
  {
    var first := ParseValue(s);
    if first.None? || first.value.rest == [] then None
    else
      var rest := first.value.rest;
      if rest[0] == 93 then Some(Parsed([first.value.value], rest[1..]))
      else if rest[0] != 44 then None
      else
        var more := ParseItems(rest[1..]);
        if more.None? then None
        else Some(Parsed([first.value.value] + more.value.value, more.value.rest))
  }

  function ParseMember(s: Text): (r: Option<Parsed<Entry<Json>>>)
    ensures r.Some? ==> |r.value.rest| < |s|
    decreases |s|, 3
  {
    if s == [] || s[0] != 34 then None
    else
      var key := ParseQuoted(s[1..]);
      if key.None? || key.value.rest == [] || key.value.rest[0] != 58 then None
      else
        var value := ParseValue(key.value.rest[1..]);
        if value.None? then None
        else Some(Parsed(Entry(key.value.value, value.value.value), value.value.rest))
  }

  function ParseMembers(s: Text): (r: Option<Parsed<seq<Entry<Json>>>>)
    ensures r.Some? ==> |r.value.rest| < |s|
    decreases |s|, 4
  {
    var first := ParseMember(s);
    if first.None? || first.value.rest == [] then None
    else
      var rest := first.value.rest;
      if rest[0] == 125 then Some(Parsed([first.value.value], rest[1..]))
      else if rest[0] != 44 then None
      else
        var more := ParseMembers(rest[1..]);
        if more.None? then None
        else Some(Parsed([first.value.value] + more.value.value, more.value.rest))
  }

  // ---------- Normal form ----------

  /** The value with every object's members in key order. */
  function Normal(v: Json): Json
    decreases v, 1
  {
    match v
    case Arr(items) => Arr(NormalItems(items))
    case Obj(members) => Obj(SortEntries(NormalMembers(members)))
    case _ => v
  }

  function NormalItems(items: seq<Json>): seq<Json>
    decreases items, 0
  {
    if items == [] then [] else [Normal(items[0])] + NormalItems(items[1..])
  }

  function NormalMembers(members: seq<Entry<Json>>): seq<Entry<Json>>
    decreases members, 0
  {
    if members == [] then []
    else [Entry(members[0].key, Normal(members[0].value))] + NormalMembers(members[1..])
  }
}
