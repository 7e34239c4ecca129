/**
  Canonical JSON text, which digests are taken of: `canonical`
  (packages/core/src/account-migration.ts:982-994) and `canonicalJson`
  (packages/core/src/account-repository.ts:1063-1075).

  Text is a sequence of UTF-16 code units. A number is given by the text ECMAScript's Number::toString
  gives it, which is one-to-one except for -0, written "0". An object is its entries in insertion order.
 */
module Canonical {
  newtype CodeUnit = x: int | 0 <= x < 0x1_0000

  type Text = seq<CodeUnit>

  datatype Json =
    | Null
    | Bool(b: bool)
    | Number(text: Text)
    | NegativeZero
    | Str(s: Text)
    | Arr(items: seq<Json>)
    | Obj(members: seq<Member>)

  datatype Entry<+V> = Entry(key: Text, value: V)

  type Member = Entry<Json>

  /** What a document says, whatever the order of its objects' keys. */
  datatype Meaning =
    | MNull
    | MBool(b: bool)
    | MNumber(text: Text)
    | MStr(s: Text)
    | MArr(items: seq<Meaning>)
    | MObj(fields: map<Text, Meaning>)

  const ZERO: Text := [48]
  const NULL: Text := [110, 117, 108, 108]
  const TRUE: Text := [116, 114, 117, 101]
  const FALSE: Text := [102, 97, 108, 115, 101]
  const PROTO: Text := [95, 95, 112, 114, 111, 116, 111, 95, 95]

  const QUOTE: CodeUnit := 34
  const BACKSLASH: CodeUnit := 92
  const COMMA: CodeUnit := 44
  const COLON: CodeUnit := 58
  const OPEN_ARRAY: CodeUnit := 91
  const CLOSE_ARRAY: CodeUnit := 93
  const OPEN_OBJECT: CodeUnit := 123
  const CLOSE_OBJECT: CodeUnit := 125

  /** The units Number::toString writes a finite number with: digits, '+', '-', '.', 'e'. */
  predicate IsNumberUnit(c: CodeUnit) {
    48 <= c <= 57 || c == 43 || c == 45 || c == 46 || c == 101
  }

  predicate IsNumber(t: Text) {
    t != [] && forall i | 0 <= i < |t| :: IsNumberUnit(t[i])
  }

  predicate DistinctKeys<V>(ms: seq<Entry<V>>) {
    forall i, j | 0 <= i < j < |ms| :: ms[i].key != ms[j].key
  }

  /** A value JavaScript can hold: numbers as written, one entry a key. */
  predicate Valid(j: Json)
    decreases j
  {
    match j
    case Number(t) => IsNumber(t)
    case Arr(items) => forall i | 0 <= i < |items| :: Valid(items[i])
    case Obj(ms) => DistinctKeys(ms) && forall i | 0 <= i < |ms| :: Valid(ms[i].value)
    case _ => true
  }

  // ----- Strings ----------------------------------------------------------

  predicate IsSurrogate(c: CodeUnit) {
    0xD800 <= c <= 0xDFFF
  }

  /** A leading surrogate followed by a trailing one. */
  predicate IsPair(s: Text) {
    |s| >= 2 && 0xD800 <= s[0] <= 0xDBFF && 0xDC00 <= s[1] <= 0xDFFF
  }

  function HexDigit(n: CodeUnit): (d: CodeUnit)
    requires n < 16
  {
    if n < 10 then 48 + n else 87 + n
  }

  function HexValue(d: CodeUnit): CodeUnit {
    if 48 <= d <= 57 then d - 48 else if 97 <= d <= 102 then d - 87 else 0
  }

  /** The letter of a two-unit escape, or 0. */
  function ShortEscape(c: CodeUnit): CodeUnit {
    if c == 8 then 98 else if c == 9 then 116 else if c == 10 then 110 else if c == 12 then 102
    else if c == 13 then 114 else if c == 34 then 34 else if c == 92 then 92 else 0
  }

  function LongText(c: CodeUnit): Text {
    [BACKSLASH, 117, HexDigit(c / 4096), HexDigit(c / 256 % 16), HexDigit(c / 16 % 16), HexDigit(c % 16)]
  }

  function EscapedUnit(c: CodeUnit): Text {
    if ShortEscape(c) != 0 then [BACKSLASH, ShortEscape(c)]
    else if c < 32 || IsSurrogate(c) then LongText(c)
    else [c]
  }

  /** A string's text and its closing quote. */
  function QuotedRest(s: Text): Text {
    if s == [] then [QUOTE]
    else if IsPair(s) then [s[0], s[1]] + QuotedRest(s[2..])
    else EscapedUnit(s[0]) + QuotedRest(s[1..])
  }

  /** `JSON.stringify` of a string (section 25.5.2.3 of ECMA-262). */
  function Quoted(s: Text): Text {
    [QUOTE] + QuotedRest(s)
  }

  function LongEscape(c: CodeUnit): CodeUnit {
    if c == 98 then 8 else if c == 116 then 9 else if c == 110 then 10 else if c == 102 then 12
    else if c == 114 then 13 else c
  }

  datatype Read = Unread | Done(s: Text, rest: Text)

  function Before(c: CodeUnit, r: Read): Read {
    match r
    case Unread => Unread
    case Done(s, rest) => Done([c] + s, rest)
  }

  /** Reads a string's text up to its closing quote, and returns what follows. */
  function ReadString(t: Text): Read {
    if t == [] then Unread
    else if t[0] == QUOTE then Done([], t[1..])
    else if t[0] != BACKSLASH then Before(t[0], ReadString(t[1..]))
    else if |t| < 2 then Unread
    else if t[1] != 117 then Before(LongEscape(t[1]), ReadString(t[2..]))
    else if |t| < 6 then Unread
    else
      var n := HexValue(t[2]) as int * 4096 + HexValue(t[3]) as int * 256 + HexValue(t[4]) as int * 16
               + HexValue(t[5]) as int;
      if n < 0x1_0000 then Before(n as CodeUnit, ReadString(t[6..])) else Unread
  }

  lemma HexDigitReads(n: CodeUnit)
    requires n < 16
    ensures HexValue(HexDigit(n)) == n
  {
  }

  lemma Nibbles(n: int)
    ensures n == n / 4096 * 4096 + n / 256 % 16 * 256 + n / 16 % 16 * 16 + n % 16
  {
    var a := n / 16;
    assert n / 256 == a / 16;
    assert n / 4096 == a / 16 / 16;
  }

  lemma HexReads(c: CodeUnit)
    ensures HexValue(HexDigit(c / 4096)) as int * 4096 + HexValue(HexDigit(c / 256 % 16)) as int * 256
            + HexValue(HexDigit(c / 16 % 16)) as int * 16 + HexValue(HexDigit(c % 16)) as int == c as int
  {
    hide HexDigit, HexValue;
    HexDigitReads(c / 4096);
    HexDigitReads(c / 256 % 16);
    HexDigitReads(c / 16 % 16);
    HexDigitReads(c % 16);
    Nibbles(c as int);
  }

  lemma LongTextReads(c: CodeUnit, t: Text)
    ensures ReadString(LongText(c) + t) == Before(c, ReadString(t))
  {
    hide HexDigit, HexValue;
    var w := LongText(c) + t;
    assert w[6..] == t;
    HexReads(c);
  }

  lemma ShortTextReads(c: CodeUnit, t: Text)
    requires ShortEscape(c) != 0
    ensures ReadString([BACKSLASH, ShortEscape(c)] + t) == Before(c, ReadString(t))
  {
    var w := [BACKSLASH, ShortEscape(c)] + t;
    assert w[2..] == t;
  }

  lemma UnitReads(c: CodeUnit, t: Text)
    ensures ReadString(EscapedUnit(c) + t) == Before(c, ReadString(t))
  {
    hide LongText;
    if ShortEscape(c) != 0 {
      ShortTextReads(c, t);
    } else if c < 32 || IsSurrogate(c) {
      LongTextReads(c, t);
    } else {
      assert ([c] + t)[1..] == t;
    }
  }

  lemma EndReads(rest: Text)
    ensures ReadString([QUOTE] + rest) == Done([], rest)
  {
    assert ([QUOTE] + rest)[1..] == rest;
  }

  lemma PairReads(s: Text, t: Text)
    requires IsPair(s)
    ensures ReadString([s[0], s[1]] + t) == Before(s[0], Before(s[1], ReadString(t)))
  {
    var w := [s[0], s[1]] + t;
    assert w[1..] == [s[1]] + t;
    assert w[1..][1..] == t;
  }

  /** Reading a quoted string gives it back, with whatever follows it. */
  lemma {:induction false} QuotedReads(s: Text, rest: Text)
    ensures ReadString(QuotedRest(s) + rest) == Done(s, rest)
    decreases s
  {
    hide ReadString, EscapedUnit;
    if s == [] {
      EndReads(rest);
    } else if IsPair(s) {
      QuotedReads(s[2..], rest);
      PairReads(s, QuotedRest(s[2..]) + rest);
      assert QuotedRest(s) + rest == [s[0], s[1]] + (QuotedRest(s[2..]) + rest);
      assert s == [s[0]] + ([s[1]] + s[2..]);
    } else {
      QuotedReads(s[1..], rest);
      assert QuotedRest(s) + rest == EscapedUnit(s[0]) + (QuotedRest(s[1..]) + rest);
      UnitReads(s[0], QuotedRest(s[1..]) + rest);
      assert s == [s[0]] + s[1..];
    }
  }

  // ----- Writing ----------------------------------------------------------

  /** `JSON.stringify` of a value, its object entries in their own order. */
  function Write(j: Json): Text
    decreases j
  {
    match j
    case Null => NULL
    case Bool(b) => if b then TRUE else FALSE
    case Number(t) => t
    case NegativeZero => ZERO
    case Str(s) => Quoted(s)
    case Arr(items) => [OPEN_ARRAY] + WriteItems(items)
    case Obj(ms) => [OPEN_OBJECT] + WriteMembers(ms)
  }

  function WriteItems(items: seq<Json>): Text
    decreases items
  {
    if items == [] then [CLOSE_ARRAY] else Write(items[0]) + MoreItems(items[1..])
  }

  function MoreItems(items: seq<Json>): Text
    decreases items
  {
    if items == [] then [CLOSE_ARRAY] else [COMMA] + Write(items[0]) + MoreItems(items[1..])
  }

  function WriteMembers(ms: seq<Member>): Text
    decreases ms
  {
    if ms == [] then [CLOSE_OBJECT] else Quoted(ms[0].key) + [COLON] + Write(ms[0].value) + MoreMembers(ms[1..])
  }

  function MoreMembers(ms: seq<Member>): Text
    decreases ms
  {
    if ms == [] then [CLOSE_OBJECT]
    else [COMMA] + Quoted(ms[0].key) + [COLON] + Write(ms[0].value) + MoreMembers(ms[1..])
  }

  /** A tree of valid numbers without -0. */
  predicate Plain(j: Json)
    decreases j
  {
    match j
    case Number(t) => IsNumber(t)
    case NegativeZero => false
    case Arr(items) => forall i | 0 <= i < |items| :: Plain(items[i])
    case Obj(ms) => forall i | 0 <= i < |ms| :: Plain(ms[i].value)
    case _ => true
  }

  /** What follows a value cannot go on with a number. */
  predicate Ends(t: Text) {
    t == [] || !IsNumberUnit(t[0])
  }

  datatype Kind = Word(first: CodeUnit) | Numeric | Quote | Bracket | Brace

  function KindOf(j: Json): Kind {
    match j
    case Null => Word(110)
    case Bool(b) => if b then Word(116) else Word(102)
    case Number(_) | NegativeZero => Numeric
    case Str(_) => Quote
    case Arr(_) => Bracket
    case Obj(_) => Brace
  }

  function KindFrom(c: CodeUnit): Kind {
    if c == QUOTE then Quote
    else if c == OPEN_ARRAY then Bracket
    else if c == OPEN_OBJECT then Brace
    else if IsNumberUnit(c) then Numeric
    else Word(c)
  }

  /** The first unit of a value's text tells what the value is. */
  lemma FirstUnitDecides(j: Json)
    requires Plain(j)
    ensures Write(j) != [] && KindFrom(Write(j)[0]) == KindOf(j)
    ensures Write(j)[0] != CLOSE_ARRAY
  {
  }

  function NumberLength(t: Text): nat {
    if t == [] || !IsNumberUnit(t[0]) then 0 else 1 + NumberLength(t[1..])
  }

  lemma {:induction false} NumberIsPrefix(a: Text, x: Text)
    requires (forall i | 0 <= i < |a| :: IsNumberUnit(a[i])) && Ends(x)
    ensures NumberLength(a + x) == |a|
  {
    if a == [] {
      assert a + x == x;
    } else {
      assert (a + x)[1..] == a[1..] + x;
      NumberIsPrefix(a[1..], x);
    }
  }

  lemma NumbersPrefixFree(a: Text, b: Text, x: Text, y: Text)
    requires IsNumber(a) && IsNumber(b) && Ends(x) && Ends(y) && a + x == b + y
    ensures a == b && x == y
  {
    NumberIsPrefix(a, x);
    NumberIsPrefix(b, y);
    assert a == (a + x)[..|a|] && b == (b + y)[..|b|];
    assert x == (a + x)[|a|..] && y == (b + y)[|b|..];
  }

  lemma QuotedPrefixFree(a: Text, b: Text, x: Text, y: Text)
    requires Quoted(a) + x == Quoted(b) + y
    ensures a == b && x == y
  {
    hide ReadString, QuotedRest;
    QuotedReads(a, x);
    QuotedReads(b, y);
    assert (Quoted(a) + x)[1..] == QuotedRest(a) + x;
    assert (Quoted(b) + y)[1..] == QuotedRest(b) + y;
  }

  /** Two texts that start alike can only continue alike. */
  lemma Cancel(w: Text, x: Text, y: Text)
    requires w + x == w + y
    ensures x == y
  {
    assert x == (w + x)[|w|..] && y == (w + y)[|w|..];
  }

  /** No value's text is the start of another's: equal texts are of equal values. */
  lemma {:induction false} WritePrefixFree(a: Json, b: Json, x: Text, y: Text)
    requires Plain(a) && Plain(b) && Ends(x) && Ends(y) && Write(a) + x == Write(b) + y
    ensures a == b && x == y
    decreases a, 1
  {
    hide QuotedRest, WriteItems, WriteMembers, IsNumberUnit;
    FirstUnitDecides(a);
    FirstUnitDecides(b);
    assert Write(a)[0] == (Write(a) + x)[0] == (Write(b) + y)[0] == Write(b)[0];
    assert KindOf(a) == KindOf(b);
    match a
    case Null => Cancel(NULL, x, y);
    case Bool(v) => Cancel(Write(a), x, y);
    case Number(_) => NumbersPrefixFree(a.text, b.text, x, y);
    case Str(_) => QuotedPrefixFree(a.s, b.s, x, y);
    case Arr(items) =>
      assert (Write(a) + x)[1..] == WriteItems(items) + x;
      assert (Write(b) + y)[1..] == WriteItems(b.items) + y;
      ItemsPrefixFree(items, b.items, x, y);
    case Obj(ms) =>
      assert (Write(a) + x)[1..] == WriteMembers(ms) + x;
      assert (Write(b) + y)[1..] == WriteMembers(b.members) + y;
      MembersPrefixFree(ms, b.members, x, y);
  }

  lemma MoreItemsEnd(items: seq<Json>, x: Text)
    ensures Ends(MoreItems(items) + x)
  {
  }

  lemma {:induction false} ItemsPrefixFree(a: seq<Json>, b: seq<Json>, x: Text, y: Text)
    requires (forall i | 0 <= i < |a| :: Plain(a[i])) && (forall i | 0 <= i < |b| :: Plain(b[i]))
    requires WriteItems(a) + x == WriteItems(b) + y
    ensures a == b && x == y
    decreases a, 0
  {
    var first := (WriteItems(a) + x)[0];
    if a != [] {
      FirstUnitDecides(a[0]);
      assert first == Write(a[0])[0];
    }
    if b != [] {
      FirstUnitDecides(b[0]);
      assert first == Write(b[0])[0];
    }
    if a == [] || b == [] {
      Cancel([CLOSE_ARRAY], x, y);
    } else {
      assert WriteItems(a) + x == Write(a[0]) + (MoreItems(a[1..]) + x);
      assert WriteItems(b) + y == Write(b[0]) + (MoreItems(b[1..]) + y);
      MoreItemsEnd(a[1..], x);
      MoreItemsEnd(b[1..], y);
      WritePrefixFree(a[0], b[0], MoreItems(a[1..]) + x, MoreItems(b[1..]) + y);
      MoreItemsPrefixFree(a[1..], b[1..], x, y);
      assert a == [a[0]] + a[1..] && b == [b[0]] + b[1..];
    }
  }

  lemma {:induction false} MoreItemsPrefixFree(a: seq<Json>, b: seq<Json>, x: Text, y: Text)
    requires (forall i | 0 <= i < |a| :: Plain(a[i])) && (forall i | 0 <= i < |b| :: Plain(b[i]))
    requires MoreItems(a) + x == MoreItems(b) + y
    ensures a == b && x == y
    decreases a, 0
  {
    hide Write, IsNumberUnit;
    var t := MoreItems(a) + x;
    assert t[0] == if a == [] then CLOSE_ARRAY else COMMA;
    assert t[0] == if b == [] then CLOSE_ARRAY else COMMA;
    if a == [] {
      Cancel([CLOSE_ARRAY], x, y);
    } else {
      assert t[1..] == Write(a[0]) + (MoreItems(a[1..]) + x);
      assert t[1..] == Write(b[0]) + (MoreItems(b[1..]) + y);
      MoreItemsEnd(a[1..], x);
      MoreItemsEnd(b[1..], y);
      WritePrefixFree(a[0], b[0], MoreItems(a[1..]) + x, MoreItems(b[1..]) + y);
      MoreItemsPrefixFree(a[1..], b[1..], x, y);
      assert a == [a[0]] + a[1..] && b == [b[0]] + b[1..];
    }
  }

  function MemberText(m: Member): Text {
    Quoted(m.key) + [COLON] + Write(m.value)
  }

  lemma MoreMembersEnd(ms: seq<Member>, x: Text)
    ensures Ends(MoreMembers(ms) + x)
  {
  }

  lemma {:induction false} MemberPrefixFree(a: Member, b: Member, x: Text, y: Text)
    requires Plain(a.value) && Plain(b.value) && Ends(x) && Ends(y) && MemberText(a) + x == MemberText(b) + y
    ensures a == b && x == y
    decreases a, 0
  {
    hide Write, Quoted, IsNumberUnit;
    var u := [COLON] + (Write(a.value) + x);
    var v := [COLON] + (Write(b.value) + y);
    assert MemberText(a) + x == Quoted(a.key) + u;
    assert MemberText(b) + y == Quoted(b.key) + v;
    QuotedPrefixFree(a.key, b.key, u, v);
    Cancel([COLON], Write(a.value) + x, Write(b.value) + y);
    WritePrefixFree(a.value, b.value, x, y);
  }

  lemma {:induction false} MembersPrefixFree(a: seq<Member>, b: seq<Member>, x: Text, y: Text)
    requires (forall i | 0 <= i < |a| :: Plain(a[i].value)) && (forall i | 0 <= i < |b| :: Plain(b[i].value))
    requires WriteMembers(a) + x == WriteMembers(b) + y
    ensures a == b && x == y
    decreases a, 1
  {
    var t := WriteMembers(a) + x;
    assert t[0] == if a == [] then CLOSE_OBJECT else QUOTE;
    assert t[0] == if b == [] then CLOSE_OBJECT else QUOTE;
    if a == [] {
      Cancel([CLOSE_OBJECT], x, y);
    } else {
      assert t == MemberText(a[0]) + (MoreMembers(a[1..]) + x);
      assert t == MemberText(b[0]) + (MoreMembers(b[1..]) + y);
      MoreMembersEnd(a[1..], x);
      MoreMembersEnd(b[1..], y);
      MemberPrefixFree(a[0], b[0], MoreMembers(a[1..]) + x, MoreMembers(b[1..]) + y);
      MoreMembersPrefixFree(a[1..], b[1..], x, y);
      assert a == [a[0]] + a[1..] && b == [b[0]] + b[1..];
    }
  }

  lemma {:induction false} MoreMembersPrefixFree(a: seq<Member>, b: seq<Member>, x: Text, y: Text)
    requires (forall i | 0 <= i < |a| :: Plain(a[i].value)) && (forall i | 0 <= i < |b| :: Plain(b[i].value))
    requires MoreMembers(a) + x == MoreMembers(b) + y
    ensures a == b && x == y
    decreases a, 1
  {
    hide Write, Quoted, IsNumberUnit;
    var t := MoreMembers(a) + x;
    assert t[0] == if a == [] then CLOSE_OBJECT else COMMA;
    assert t[0] == if b == [] then CLOSE_OBJECT else COMMA;
    if a == [] {
      Cancel([CLOSE_OBJECT], x, y);
    } else {
      assert t[1..] == MemberText(a[0]) + (MoreMembers(a[1..]) + x);
      assert t[1..] == MemberText(b[0]) + (MoreMembers(b[1..]) + y);
      MoreMembersEnd(a[1..], x);
      MoreMembersEnd(b[1..], y);
      MemberPrefixFree(a[0], b[0], MoreMembers(a[1..]) + x, MoreMembers(b[1..]) + y);
      MoreMembersPrefixFree(a[1..], b[1..], x, y);
      assert a == [a[0]] + a[1..] && b == [b[0]] + b[1..];
    }
  }

  // ----- Key order --------------------------------------------------------

  /** JavaScript's `<` on strings: by code unit. */
  predicate LexLess(a: Text, b: Text) {
    b != [] && (a == [] || a[0] < b[0] || (a[0] == b[0] && LexLess(a[1..], b[1..])))
  }

  function Numeral(t: Text): int {
    if t == [] then 0 else 10 * Numeral(t[..|t| - 1]) + (t[|t| - 1] as int - 48)
  }

  /** An array index in canonical form (section 6.1.7 of ECMA-262). */
  predicate IsIndex(key: Text) {
    key != [] && (forall i | 0 <= i < |key| :: 48 <= key[i] <= 57) && (key[0] != 48 || |key| == 1)
    && Numeral(key) < 0xFFFF_FFFF
  }

  /** How a writer orders keys: by code unit, or as an object enumerates keys added in that order. */
  datatype Order = ByCodeUnit | IndicesFirst

  predicate Precedes(o: Order, a: Text, b: Text) {
    if o == IndicesFirst && IsIndex(a) then IsIndex(b) ==> Numeral(a) < Numeral(b)
    else if o == IndicesFirst && IsIndex(b) then false
    else LexLess(a, b)
  }

  lemma {:induction false} LexOrders(a: Text, b: Text)
    ensures a == b || LexLess(a, b) || LexLess(b, a)
    ensures LexLess(a, b) ==> a != b && !LexLess(b, a)
  {
    if a != [] && b != [] {
      LexOrders(a[1..], b[1..]);
      assert a == [a[0]] + a[1..] && b == [b[0]] + b[1..];
    }
  }

  lemma {:induction false} LexChains(a: Text, b: Text, c: Text)
    requires LexLess(a, b) && LexLess(b, c)
    ensures LexLess(a, c)
  {
    if a != [] && a[0] == b[0] == c[0] {
      LexChains(a[1..], b[1..], c[1..]);
    }
  }

  lemma {:induction false} NumeralAtLeast(t: Text)
    requires t != [] && (forall i | 0 <= i < |t| :: 48 <= t[i] <= 57)
    ensures Numeral(t) >= t[0] as int - 48
  {
    if |t| > 1 {
      NumeralAtLeast(t[..|t| - 1]);
    }
  }

  lemma EmptyNumeral()
    ensures Numeral([]) == 0
  {
  }

  lemma LastDigit(a: Text, b: Text)
    requires a != [] && (forall i | 0 <= i < |a| :: 48 <= a[i] <= 57)
    requires b != [] && (forall i | 0 <= i < |b| :: 48 <= b[i] <= 57)
    requires Numeral(a) == Numeral(b)
    ensures Numeral(a[..|a| - 1]) == Numeral(b[..|b| - 1]) && a[|a| - 1] == b[|b| - 1]
  {
  }

  /** Canonical numerals are told apart by their value. */
  lemma {:induction false} NumeralsDiffer(a: Text, b: Text)
    requires a != [] && (forall i | 0 <= i < |a| :: 48 <= a[i] <= 57) && (a[0] != 48 || |a| == 1)
    requires b != [] && (forall i | 0 <= i < |b| :: 48 <= b[i] <= 57) && (b[0] != 48 || |b| == 1)
    requires Numeral(a) == Numeral(b)
    ensures a == b
    decreases |a|
  {
    var c, d := a[..|a| - 1], b[..|b| - 1];
    LastDigit(a, b);
    hide Numeral;
    assert a == c + [a[|a| - 1]] && b == d + [b[|b| - 1]];
    EmptyNumeral();
    if c != [] {
      NumeralAtLeast(c);
    }
    if d != [] {
      NumeralAtLeast(d);
    }
    if c != [] && d != [] {
      NumeralsDiffer(c, d);
    }
  }

  lemma KeysOrdered(o: Order, a: Text, b: Text)
    ensures a == b || Precedes(o, a, b) || Precedes(o, b, a)
    ensures Precedes(o, a, b) ==> a != b && !Precedes(o, b, a)
  {
    LexOrders(a, b);
    if IsIndex(a) && IsIndex(b) && Numeral(a) == Numeral(b) {
      NumeralsDiffer(a, b);
    }
  }

  lemma KeysChain(o: Order, a: Text, b: Text, c: Text)
    requires Precedes(o, a, b) && Precedes(o, b, c)
    ensures Precedes(o, a, c)
  {
    if LexLess(a, b) && LexLess(b, c) {
      LexChains(a, b, c);
    }
  }

  // ----- Sorting ----------------------------------------------------------

  predicate SortedKeys<V>(o: Order, ms: seq<Entry<V>>) {
    forall i, j | 0 <= i < j < |ms| :: Precedes(o, ms[i].key, ms[j].key)
  }

  function Insert<V>(o: Order, m: Entry<V>, ms: seq<Entry<V>>): seq<Entry<V>> {
    if ms == [] || Precedes(o, m.key, ms[0].key) then [m] + ms else [ms[0]] + Insert(o, m, ms[1..])
  }

  function Sort<V>(o: Order, ms: seq<Entry<V>>): seq<Entry<V>> {
    if ms == [] then [] else Insert(o, ms[0], Sort(o, ms[1..]))
  }

  lemma {:induction false} InsertSorts<V>(o: Order, m: Entry<V>, ms: seq<Entry<V>>)
    requires SortedKeys(o, ms) && forall i | 0 <= i < |ms| :: ms[i].key != m.key
    ensures SortedKeys(o, Insert(o, m, ms))
    ensures multiset(Insert(o, m, ms)) == multiset(ms) + multiset{m}
  {
    if ms == [] {
    } else if Precedes(o, m.key, ms[0].key) {
      forall j | 0 < j < |ms| ensures Precedes(o, m.key, ms[j].key) {
        KeysChain(o, m.key, ms[0].key, ms[j].key);
      }
    } else {
      KeysOrdered(o, m.key, ms[0].key);
      InsertSorts(o, m, ms[1..]);
      var rest := Insert(o, m, ms[1..]);
      forall j | 0 <= j < |rest| ensures Precedes(o, ms[0].key, rest[j].key) {
        assert rest[j] in multiset(rest);
        assert rest[j] == m || rest[j] in ms[1..];
      }
      assert ms == [ms[0]] + ms[1..];
    }
  }

  lemma {:induction false} SortSorts<V>(o: Order, ms: seq<Entry<V>>)
    requires DistinctKeys(ms)
    ensures SortedKeys(o, Sort(o, ms)) && multiset(Sort(o, ms)) == multiset(ms)
  {
    if ms != [] {
      SortSorts(o, ms[1..]);
      var rest := Sort(o, ms[1..]);
      forall i | 0 <= i < |rest| ensures rest[i].key != ms[0].key {
        assert rest[i] in multiset(ms[1..]);
      }
      InsertSorts(o, ms[0], rest);
      assert ms == [ms[0]] + ms[1..];
    }
  }

  // ----- Meaning ----------------------------------------------------------

  function MeaningOf(j: Json): Meaning
    decreases j
  {
    match j
    case Null => MNull
    case Bool(b) => MBool(b)
    case Number(t) => MNumber(t)
    case NegativeZero => MNumber(ZERO)
    case Str(s) => MStr(s)
    case Arr(items) => MArr(seq(|items|, i requires 0 <= i < |items| => MeaningOf(items[i])))
    case Obj(ms) => MObj(FieldsOf(ms))
  }

  function FieldsOf(ms: seq<Member>): map<Text, Meaning>
    decreases ms
  {
    if ms == [] then map[] else FieldsOf(ms[1..])[ms[0].key := MeaningOf(ms[0].value)]
  }

  predicate HasKey(ms: seq<Member>, key: Text) {
    exists i | 0 <= i < |ms| :: ms[i].key == key
  }

  lemma {:induction false} FieldsAt(ms: seq<Member>)
    requires DistinctKeys(ms)
    ensures forall k :: k in FieldsOf(ms) <==> HasKey(ms, k)
    ensures forall i | 0 <= i < |ms| :: ms[i].key in FieldsOf(ms) && FieldsOf(ms)[ms[i].key] == MeaningOf(ms[i].value)
  {
    if ms != [] {
      FieldsAt(ms[1..]);
      forall k ensures k in FieldsOf(ms) <==> HasKey(ms, k) {
        if HasKey(ms[1..], k) {
          var i :| 0 <= i < |ms| - 1 && ms[1..][i].key == k;
          assert ms[i + 1].key == k;
        }
        if HasKey(ms, k) && k != ms[0].key {
          var i :| 0 <= i < |ms| && ms[i].key == k;
          assert ms[1..][i - 1].key == k;
        }
      }
      forall i | 1 <= i < |ms| ensures FieldsOf(ms)[ms[i].key] == MeaningOf(ms[i].value) {
        assert ms[i] == ms[1..][i - 1];
      }
    }
  }

  lemma FieldsInclude(a: seq<Member>, b: seq<Member>, k: Text)
    requires DistinctKeys(a) && DistinctKeys(b) && k in FieldsOf(a) && forall i | 0 <= i < |a| :: a[i] in b
    ensures k in FieldsOf(b) && FieldsOf(b)[k] == FieldsOf(a)[k]
  {
    hide FieldsOf, MeaningOf;
    FieldsAt(a);
    FieldsAt(b);
    assert HasKey(a, k);
    var i :| 0 <= i < |a| && a[i].key == k;
    var j :| 0 <= j < |b| && b[j] == a[i];
  }

  /** The order of entries does not matter to what they say. */
  lemma FieldsOfReordered(a: seq<Member>, b: seq<Member>)
    requires DistinctKeys(a) && DistinctKeys(b) && multiset(a) == multiset(b)
    ensures FieldsOf(a) == FieldsOf(b)
  {
    hide FieldsOf, DistinctKeys;
    forall i | 0 <= i < |a| ensures a[i] in b {
      assert a[i] in multiset(b);
    }
    forall j | 0 <= j < |b| ensures b[j] in a {
      assert b[j] in multiset(a);
    }
    forall k | k in FieldsOf(a) ensures k in FieldsOf(b) && FieldsOf(b)[k] == FieldsOf(a)[k] {
      FieldsInclude(a, b, k);
    }
    forall k | k in FieldsOf(b) ensures k in FieldsOf(a) {
      FieldsInclude(b, a, k);
    }
  }

  // ----- Canonical text ----------------------------------------------------

  /** The value with every object's entries sorted and -0 written as 0. */
  function Normal(o: Order, j: Json): Json
    decreases j
  {
    match j
    case NegativeZero => Number(ZERO)
    case Arr(items) => Arr(seq(|items|, i requires 0 <= i < |items| => Normal(o, items[i])))
    case Obj(ms) => Obj(Sort(o, NormalMembers(o, ms)))
    case _ => j
  }

  function NormalMembers(o: Order, ms: seq<Member>): (r: seq<Member>)
    ensures |r| == |ms| && forall i | 0 <= i < |ms| :: r[i].key == ms[i].key && r[i].value == Normal(o, ms[i].value)
    decreases ms
  {
    if ms == [] then [] else [Entry(ms[0].key, Normal(o, ms[0].value))] + NormalMembers(o, ms[1..])
  }

  predicate Normalised(o: Order, j: Json)
    decreases j
  {
    match j
    case Number(t) => IsNumber(t)
    case NegativeZero => false
    case Arr(items) => forall i | 0 <= i < |items| :: Normalised(o, items[i])
    case Obj(ms) => SortedKeys(o, ms) && forall i | 0 <= i < |ms| :: Normalised(o, ms[i].value)
    case _ => true
  }

  lemma SortedAreDistinct(o: Order, ms: seq<Member>)
    requires SortedKeys(o, ms)
    ensures DistinctKeys(ms)
  {
    forall i, j | 0 <= i < j < |ms| ensures ms[i].key != ms[j].key {
      KeysOrdered(o, ms[i].key, ms[j].key);
    }
  }

  /** Normalising sorts every object and changes nothing a document says. */
  lemma {:induction false} NormalKeepsMeaning(o: Order, j: Json)
    requires Valid(j)
    ensures MeaningOf(Normal(o, j)) == MeaningOf(j)
    ensures Normalised(o, Normal(o, j))
    decreases j
  {
    match j
    case Arr(items) =>
      forall i | 0 <= i < |items|
        ensures MeaningOf(Normal(o, items[i])) == MeaningOf(items[i]) && Normalised(o, Normal(o, items[i])) {
        NormalKeepsMeaning(o, items[i]);
      }
    case Obj(ms) =>
      forall i | 0 <= i < |ms|
        ensures MeaningOf(Normal(o, ms[i].value)) == MeaningOf(ms[i].value) && Normalised(o, Normal(o, ms[i].value)) {
        NormalKeepsMeaning(o, ms[i].value);
      }
      NormalMembersKeepMeaning(o, ms);
    case _ =>
  }

  lemma NormalMembersKeepMeaning(o: Order, ms: seq<Member>)
    requires DistinctKeys(ms)
    requires forall i | 0 <= i < |ms| ::
               MeaningOf(Normal(o, ms[i].value)) == MeaningOf(ms[i].value) && Normalised(o, Normal(o, ms[i].value))
    ensures FieldsOf(Sort(o, NormalMembers(o, ms))) == FieldsOf(ms)
    ensures Normalised(o, Obj(Sort(o, NormalMembers(o, ms))))
  {
    hide FieldsOf, MeaningOf, Normal, Sort, SortedKeys, NormalMembers;
    var changed := NormalMembers(o, ms);
    var sorted := Sort(o, changed);
    SortSorts(o, changed);
    SortedAreDistinct(o, sorted);
    FieldsOfReordered(sorted, changed);
    NormalMembersSayTheSame(o, ms);
    forall i | 0 <= i < |sorted| ensures Normalised(o, sorted[i].value) {
      assert sorted[i] in multiset(changed);
    }
  }

  lemma {:induction false} NormalMembersSayTheSame(o: Order, ms: seq<Member>)
    requires forall i | 0 <= i < |ms| :: MeaningOf(Normal(o, ms[i].value)) == MeaningOf(ms[i].value)
    ensures FieldsOf(NormalMembers(o, ms)) == FieldsOf(ms)
    decreases ms
  {
    hide MeaningOf, Normal;
    if ms != [] {
      NormalMembersSayTheSame(o, ms[1..]);
    }
  }

  /** Sorted values that say the same are the same. */
  lemma {:induction false} NormalisedByMeaning(o: Order, a: Json, b: Json)
    requires Normalised(o, a) && Normalised(o, b) && MeaningOf(a) == MeaningOf(b)
    ensures a == b
    decreases a, 1
  {
    match a
    case Arr(items) =>
      var n := |items|;
      assert |MeaningOf(a).items| == n && |MeaningOf(b).items| == |b.items|;
      forall i | 0 <= i < n ensures items[i] == b.items[i] {
        assert MeaningOf(a).items[i] == MeaningOf(items[i]) && MeaningOf(b).items[i] == MeaningOf(b.items[i]);
        NormalisedByMeaning(o, items[i], b.items[i]);
      }
    case Obj(ms) => MembersByMeaning(o, ms, b.members);
    case _ =>
  }

  /** The first key of sorted entries is determined by the keys alone. */
  lemma SameFirstKey(o: Order, a: seq<Member>, b: seq<Member>)
    requires SortedKeys(o, a) && SortedKeys(o, b) && FieldsOf(a) == FieldsOf(b) && a != [] && b != []
    ensures a[0].key == b[0].key
  {
    SortedAreDistinct(o, a);
    SortedAreDistinct(o, b);
    FieldsAt(a);
    FieldsAt(b);
    assert HasKey(b, a[0].key) && HasKey(a, b[0].key);
    var i :| 0 <= i < |a| && a[i].key == b[0].key;
    var j :| 0 <= j < |b| && b[j].key == a[0].key;
    KeysOrdered(o, a[0].key, b[0].key);
  }

  lemma RemovesAdded(m: map<Text, Meaning>, k: Text, v: Meaning)
    requires k !in m
    ensures m[k := v] - {k} == m
  {
  }

  lemma RestOfFields(ms: seq<Member>)
    requires DistinctKeys(ms) && ms != []
    ensures FieldsOf(ms[1..]) == FieldsOf(ms) - {ms[0].key}
  {
    hide MeaningOf;
    FieldsAt(ms[1..]);
    assert !HasKey(ms[1..], ms[0].key);
    RemovesAdded(FieldsOf(ms[1..]), ms[0].key, MeaningOf(ms[0].value));
  }

  lemma NoFields(ms: seq<Member>)
    ensures FieldsOf(ms) == map[] <==> ms == []
  {
    if ms != [] {
      assert ms[0].key in FieldsOf(ms);
    }
  }

  lemma {:induction false} MembersByMeaning(o: Order, a: seq<Member>, b: seq<Member>)
    requires SortedKeys(o, a) && SortedKeys(o, b) && FieldsOf(a) == FieldsOf(b)
    requires (forall i | 0 <= i < |a| :: Normalised(o, a[i].value))
             && (forall i | 0 <= i < |b| :: Normalised(o, b[i].value))
    ensures a == b
    decreases a, 0
  {
    if a == [] || b == [] {
      NoFields(a);
      NoFields(b);
    } else {
      SameFirstKey(o, a, b);
      SortedAreDistinct(o, a);
      SortedAreDistinct(o, b);
      assert MeaningOf(a[0].value) == FieldsOf(a)[a[0].key] == FieldsOf(b)[b[0].key] == MeaningOf(b[0].value);
      NormalisedByMeaning(o, a[0].value, b[0].value);
      RestOfFields(a);
      RestOfFields(b);
      MembersByMeaning(o, a[1..], b[1..]);
      assert a == [a[0]] + a[1..] && b == [b[0]] + b[1..];
    }
  }

  lemma {:induction false} NormalisedIsPlain(o: Order, j: Json)
    requires Normalised(o, j)
    ensures Plain(j)
    decreases j
  {
    match j
    case Arr(items) =>
      forall i | 0 <= i < |items| ensures Plain(items[i]) {
        NormalisedIsPlain(o, items[i]);
      }
    case Obj(ms) =>
      forall i | 0 <= i < |ms| ensures Plain(ms[i].value) {
        NormalisedIsPlain(o, ms[i].value);
      }
    case _ =>
  }

  /** Sorted text is equal exactly where the values say the same, whatever their key order. */
  lemma SortedTextIff(o: Order, a: Json, b: Json)
    requires Valid(a) && Valid(b)
    ensures Write(Normal(o, a)) == Write(Normal(o, b)) <==> MeaningOf(a) == MeaningOf(b)
  {
    var x, y := Normal(o, a), Normal(o, b);
    NormalKeepsMeaning(o, a);
    NormalKeepsMeaning(o, b);
    NormalisedIsPlain(o, x);
    NormalisedIsPlain(o, y);
    if Write(x) == Write(y) {
      assert Write(x) + [] == Write(x) && Write(y) + [] == Write(y);
      WritePrefixFree(x, y, [], []);
    }
    if MeaningOf(a) == MeaningOf(b) {
      NormalisedByMeaning(o, x, y);
    }
  }

  // ----- The two writers ----------------------------------------------------

  /** `canonical`: entries sorted by code unit, each value canonical in its turn. */
  function CanonicalText(j: Json): Text
    decreases j
  {
    match j
    case Arr(items) => [OPEN_ARRAY] + CanonicalItems(items, true)
    case Obj(ms) => [OPEN_OBJECT] + JoinedEntries(Sort(ByCodeUnit, CanonicalEntries(ms)), true)
    case _ => Write(j)
  }

  function CanonicalItems(items: seq<Json>, first: bool): Text
    decreases items
  {
    if items == [] then [CLOSE_ARRAY]
    else (if first then [] else [COMMA]) + CanonicalText(items[0]) + CanonicalItems(items[1..], false)
  }

  function CanonicalEntries(ms: seq<Member>): seq<Entry<Text>>
    decreases ms
  {
    if ms == [] then [] else [Entry(ms[0].key, CanonicalText(ms[0].value))] + CanonicalEntries(ms[1..])
  }

  function JoinedEntries(entries: seq<Entry<Text>>, first: bool): Text {
    if entries == [] then [CLOSE_OBJECT]
    else
      (if first then [] else [COMMA]) + Quoted(entries[0].key) + [COLON] + entries[0].value
      + JoinedEntries(entries[1..], false)
  }

  /** The texts of the entries' values. */
  predicate TextsOf(texts: seq<Entry<Text>>, ms: seq<Member>) {
    |texts| == |ms| && forall i | 0 <= i < |ms| :: texts[i].key == ms[i].key && texts[i].value == Write(ms[i].value)
  }

  lemma {:induction false} InsertKeepsTexts(o: Order, x: Entry<Text>, m: Member, texts: seq<Entry<Text>>,
                                            ms: seq<Member>)
    requires TextsOf(texts, ms) && x.key == m.key && x.value == Write(m.value)
    ensures TextsOf(Insert(o, x, texts), Insert(o, m, ms))
  {
    hide Write, Precedes;
    if ms != [] && !Precedes(o, m.key, ms[0].key) {
      InsertKeepsTexts(o, x, m, texts[1..], ms[1..]);
    }
  }

  lemma {:induction false} SortKeepsTexts(o: Order, texts: seq<Entry<Text>>, ms: seq<Member>)
    requires TextsOf(texts, ms)
    ensures TextsOf(Sort(o, texts), Sort(o, ms))
  {
    hide Write;
    if ms != [] {
      SortKeepsTexts(o, texts[1..], ms[1..]);
      InsertKeepsTexts(o, texts[0], ms[0], Sort(o, texts[1..]), Sort(o, ms[1..]));
    }
  }

  lemma {:induction false} JoinsAsWritten(texts: seq<Entry<Text>>, ms: seq<Member>, first: bool)
    requires TextsOf(texts, ms)
    ensures JoinedEntries(texts, first) == if first then WriteMembers(ms) else MoreMembers(ms)
    decreases |ms|
  {
    hide Write, Quoted;
    if ms != [] {
      JoinsAsWritten(texts[1..], ms[1..], false);
    }
  }

  lemma {:induction false} CanonicalItemsWritten(items: seq<Json>, normal: seq<Json>, first: bool)
    requires |items| == |normal| && forall i | 0 <= i < |items| :: CanonicalText(items[i]) == Write(normal[i])
    ensures CanonicalItems(items, first) == if first then WriteItems(normal) else MoreItems(normal)
    decreases |items|
  {
    hide CanonicalText, Write;
    if items != [] {
      CanonicalItemsWritten(items[1..], normal[1..], false);
    }
  }

  lemma {:induction false} CanonicalEntriesWritten(ms: seq<Member>)
    requires forall i | 0 <= i < |ms| :: CanonicalText(ms[i].value) == Write(Normal(ByCodeUnit, ms[i].value))
    ensures TextsOf(CanonicalEntries(ms), NormalMembers(ByCodeUnit, ms))
    decreases ms
  {
    hide CanonicalText, Write, Normal;
    if ms != [] {
      CanonicalEntriesWritten(ms[1..]);
    }
  }

  /** Sorting each object as it is written, or sorting them all first, writes the same text. */
  lemma {:induction false} CanonicalIsSortedText(j: Json)
    ensures CanonicalText(j) == Write(Normal(ByCodeUnit, j))
    decreases j
  {
    match j
    case Arr(items) =>
      forall i | 0 <= i < |items| ensures CanonicalText(items[i]) == Write(Normal(ByCodeUnit, items[i])) {
        CanonicalIsSortedText(items[i]);
      }
      CanonicalItemsWritten(items, Normal(ByCodeUnit, j).items, true);
    case Obj(ms) =>
      forall i | 0 <= i < |ms| ensures CanonicalText(ms[i].value) == Write(Normal(ByCodeUnit, ms[i].value)) {
        CanonicalIsSortedText(ms[i].value);
      }
      CanonicalEntriesWritten(ms);
      SortKeepsTexts(ByCodeUnit, CanonicalEntries(ms), NormalMembers(ByCodeUnit, ms));
      JoinsAsWritten(Sort(ByCodeUnit, CanonicalEntries(ms)), Normal(ByCodeUnit, j).members, true);
    case _ =>
  }

  /**
    Digests are taken of values: two values have the same canonical text exactly when they say the
    same, ignoring the key order of objects and telling 0 from -0 nowhere.
   */
  lemma CanonicalIff(a: Json, b: Json)
    requires Valid(a) && Valid(b)
    ensures CanonicalText(a) == CanonicalText(b) <==> MeaningOf(a) == MeaningOf(b)
  {
    CanonicalIsSortedText(a);
    CanonicalIsSortedText(b);
    SortedTextIff(ByCodeUnit, a, b);
  }

  /** `sorted`'s copy: assigning to the key `__proto__` adds no entry. */
  function WithoutProto(j: Json): Json
    decreases j
  {
    match j
    case Arr(items) => Arr(seq(|items|, i requires 0 <= i < |items| => WithoutProto(items[i])))
    case Obj(ms) => Obj(MembersWithoutProto(ms))
    case _ => j
  }

  function MembersWithoutProto(ms: seq<Member>): seq<Member>
    decreases ms
  {
    if ms == [] then []
    else if ms[0].key == PROTO then MembersWithoutProto(ms[1..])
    else [Entry(ms[0].key, WithoutProto(ms[0].value))] + MembersWithoutProto(ms[1..])
  }

  /** `canonicalJson`: a copy whose keys were added in sorted order, enumerated as objects are. */
  function CanonicalJson(j: Json): Text {
    Write(Normal(IndicesFirst, WithoutProto(j)))
  }

  predicate ProtoFree(j: Json)
    decreases j
  {
    match j
    case Arr(items) => forall i | 0 <= i < |items| :: ProtoFree(items[i])
    case Obj(ms) => forall i | 0 <= i < |ms| :: ms[i].key != PROTO && ProtoFree(ms[i].value)
    case _ => true
  }

  lemma {:induction false} ProtoFreeKept(j: Json)
    requires ProtoFree(j)
    ensures WithoutProto(j) == j
    decreases j, 1
  {
    match j
    case Arr(items) =>
      forall i | 0 <= i < |items| ensures WithoutProto(items[i]) == items[i] {
        ProtoFreeKept(items[i]);
      }
    case Obj(ms) => ProtoFreeMembersKept(ms);
    case _ =>
  }

  lemma {:induction false} ProtoFreeMembersKept(ms: seq<Member>)
    requires forall i | 0 <= i < |ms| :: ms[i].key != PROTO && ProtoFree(ms[i].value)
    ensures MembersWithoutProto(ms) == ms
    decreases ms, 0
  {
    if ms != [] {
      ProtoFreeKept(ms[0].value);
      ProtoFreeMembersKept(ms[1..]);
      assert ms == [ms[0]] + ms[1..];
    }
  }

  lemma {:induction false} WithoutProtoIsValid(j: Json)
    requires Valid(j)
    ensures Valid(WithoutProto(j))
    decreases j, 1
  {
    match j
    case Arr(items) =>
      forall i | 0 <= i < |items| ensures Valid(WithoutProto(items[i])) {
        WithoutProtoIsValid(items[i]);
      }
    case Obj(ms) => MembersWithoutProtoValid(ms);
    case _ =>
  }

  lemma {:induction false} MembersWithoutProtoValid(ms: seq<Member>)
    requires DistinctKeys(ms) && forall i | 0 <= i < |ms| :: Valid(ms[i].value)
    ensures Valid(Obj(MembersWithoutProto(ms)))
    ensures forall i | 0 <= i < |MembersWithoutProto(ms)| :: HasKey(ms, MembersWithoutProto(ms)[i].key)
    decreases ms, 0
  {
    if ms != [] {
      WithoutProtoIsValid(ms[0].value);
      MembersWithoutProtoValid(ms[1..]);
      var rest := MembersWithoutProto(ms[1..]);
      forall i | 0 <= i < |rest| ensures rest[i].key != ms[0].key && HasKey(ms, rest[i].key) {
        assert HasKey(ms[1..], rest[i].key);
        var k :| 0 <= k < |ms| - 1 && ms[1..][k].key == rest[i].key;
        assert ms[k + 1].key == rest[i].key;
      }
      assert HasKey(ms, ms[0].key);
    }
  }

  /** The other writer tells apart exactly the values that differ outside keys named `__proto__`. */
  lemma CanonicalJsonIff(a: Json, b: Json)
    requires Valid(a) && Valid(b)
    ensures CanonicalJson(a) == CanonicalJson(b) <==> MeaningOf(WithoutProto(a)) == MeaningOf(WithoutProto(b))
    ensures ProtoFree(a) && ProtoFree(b) ==> (CanonicalJson(a) == CanonicalJson(b) <==> MeaningOf(a) == MeaningOf(b))
  {
    WithoutProtoIsValid(a);
    WithoutProtoIsValid(b);
    SortedTextIff(IndicesFirst, WithoutProto(a), WithoutProto(b));
    if ProtoFree(a) && ProtoFree(b) {
      ProtoFreeKept(a);
      ProtoFreeKept(b);
    }
  }

  /** Such a key is lost: an object holding it and nothing else has the text of an empty one. */
  lemma ProtoKeyIsLost(value: Json)
    requires Valid(value)
    ensures var with := Obj([Entry(PROTO, value)]);
            CanonicalJson(with) == CanonicalJson(Obj([])) && CanonicalText(with) != CanonicalText(Obj([]))
  {
    hide CanonicalText, Write, Normal;
    var ms := [Entry(PROTO, value)];
    assert MembersWithoutProto(ms) == [];
    assert Valid(Obj(ms));
    CanonicalIff(Obj(ms), Obj([]));
    NoFields(ms);
  }
}
