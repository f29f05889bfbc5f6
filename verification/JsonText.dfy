/**
 JSON texts as concrete syntax trees (RFC 8259): whitespace, number and literal lexemes and the
 spelling of every string are kept, so that rendering a tree gives the text itself, in UTF-16
 code units.  A string that needs a surrogate pair spells it raw or as two adjacent escapes;
 lone-surrogate escapes have no tree.
 */
module JsonText {
  import opened Unicode

  const QUOTE: Unit := 0x22
  const PLUS: Unit := 0x2B
  const COMMA: Unit := 0x2C
  const MINUS: Unit := 0x2D
  const DOT: Unit := 0x2E
  const SLASH: Unit := 0x2F
  const COLON: Unit := 0x3A
  const OPEN_ARRAY: Unit := 0x5B
  const BACKSLASH: Unit := 0x5C
  const CLOSE_ARRAY: Unit := 0x5D
  const OPEN_OBJECT: Unit := 0x7B
  const CLOSE_OBJECT: Unit := 0x7D
  const SMALL_U: Unit := 0x75

  type Units = seq<Unit>

  /** One character of a string as it is spelt. */
  datatype Item =
    | Raw(c: char)
    | Short(letter: Unit)
    | Hex(d0: Unit, d1: Unit, d2: Unit, d3: Unit)
    | HexPair(high: Item, low: Item)

  datatype Value =
    | Scalar(lexeme: Units)
    | Text(items: seq<Item>)
    | Array(empty: Units, elements: Elements)
    | Object(empty: Units, members: Members)

  datatype Elements =
    | NoElements
    | Element(before: Units, value: Value, after: Units, rest: Elements)

  datatype Members =
    | NoMembers
    | Member(before: Units, key: seq<Item>, afterKey: Units, beforeValue: Units, value: Value, after: Units,
             rest: Members)

  datatype Document = Document(before: Units, value: Value, after: Units)

  lemma Assoc(a: Units, b: Units, c: Units)
    ensures (a + b) + c == a + (b + c)
  {
  }

  // ----- strings -----

  /** What the letter of a two-character escape stands for; RFC 8259 section 7. */
  function ShortValue(letter: Unit): int {
    if letter == QUOTE || letter == BACKSLASH || letter == SLASH then letter
    else if letter == 0x62 then 0x08
    else if letter == 0x66 then 0x0C
    else if letter == 0x6E then 0x0A
    else if letter == 0x72 then 0x0D
    else if letter == 0x74 then 0x09
    else -1
  }

  function HexDigit(u: Unit): (value: int)
    ensures -1 <= value < 16
  {
    if 0x30 <= u <= 0x39 then u - 0x30
    else if 0x41 <= u <= 0x46 then u - 0x41 + 10
    else if 0x61 <= u <= 0x66 then u - 0x61 + 10
    else -1
  }

  predicate HexDigits(d0: Unit, d1: Unit, d2: Unit, d3: Unit) {
    HexDigit(d0) >= 0 && HexDigit(d1) >= 0 && HexDigit(d2) >= 0 && HexDigit(d3) >= 0
  }

  function HexValue(d0: Unit, d1: Unit, d2: Unit, d3: Unit): (value: Unit)
    requires HexDigits(d0, d1, d2, d3)
  {
    0x1000 * HexDigit(d0) + 0x100 * HexDigit(d1) + 0x10 * HexDigit(d2) + HexDigit(d3)
  }

  predicate ValidHex(i: Item) {
    i.Hex? && HexDigits(i.d0, i.d1, i.d2, i.d3)
  }

  function UnitOf(i: Item): Unit
    requires ValidHex(i)
  {
    HexValue(i.d0, i.d1, i.d2, i.d3)
  }

  predicate ValidItem(i: Item) {
    match i
    case Raw(c) => c as int >= 0x20 && c as int != QUOTE && c as int != BACKSLASH
    case Short(letter) => ShortValue(letter) >= 0
    case Hex(_, _, _, _) => ValidHex(i) && !High(UnitOf(i)) && !Low(UnitOf(i))
    case HexPair(high, low) => ValidHex(high) && ValidHex(low) && High(UnitOf(high)) && Low(UnitOf(low))
  }

  predicate ValidItems(items: seq<Item>) {
    forall i :: 0 <= i < |items| ==> ValidItem(items[i])
  }

  function HexUnits(i: Item): Units
    requires i.Hex?
  {
    [BACKSLASH, SMALL_U, i.d0, i.d1, i.d2, i.d3]
  }

  function RenderItem(i: Item): (units: Units)
    requires ValidItem(i)
    ensures |units| >= 1
  {
    match i
    case Raw(c) => Utf16(c)
    case Short(letter) => [BACKSLASH, letter]
    case Hex(_, _, _, _) => HexUnits(i)
    case HexPair(high, low) => HexUnits(high) + HexUnits(low)
  }

  function RenderItems(items: seq<Item>): Units
    requires ValidItems(items)
  {
    if items == [] then [] else RenderItem(items[0]) + RenderItems(items[1..])
  }

  /** The string as serde_json decodes it: scalar values. */
  function CharOf(i: Item): char
    requires ValidItem(i)
  {
    match i
    case Raw(c) => c
    case Short(letter) => ShortValue(letter) as char
    case Hex(_, _, _, _) => UnitOf(i) as char
    case HexPair(high, low) => PairScalar(UnitOf(high), UnitOf(low))
  }

  function Decoded(items: seq<Item>): (s: string)
    requires ValidItems(items)
    ensures |s| == |items|
  {
    if items == [] then [] else [CharOf(items[0])] + Decoded(items[1..])
  }

  // ----- whitespace and scalars -----

  predicate JsonSpace(u: Unit) {
    u == 0x20 || u == 0x09 || u == 0x0A || u == 0x0D
  }

  predicate Spaces(units: Units) {
    forall i :: 0 <= i < |units| ==> JsonSpace(units[i])
  }

  predicate Digit(u: Unit) {
    0x30 <= u <= 0x39
  }

  /** How many units at the front are digits. */
  function DigitRun(units: Units): (n: nat)
    ensures n <= |units|
  {
    if units != [] && Digit(units[0]) then 1 + DigitRun(units[1..]) else 0
  }

  predicate Exponent(units: Units) {
    units == [] ||
    ((units[0] == 0x65 || units[0] == 0x45) &&
     var digits := if |units| > 1 && (units[1] == PLUS || units[1] == MINUS) then units[2..] else units[1..];
     digits != [] && DigitRun(digits) == |digits|)
  }

  predicate Fraction(units: Units) {
    if units != [] && units[0] == DOT then
      DigitRun(units[1..]) > 0 && Exponent(units[1 + DigitRun(units[1..])..])
    else Exponent(units)
  }

  /** RFC 8259 section 6: no leading zeros. */
  predicate NumberLexeme(units: Units) {
    var digits := if units != [] && units[0] == MINUS then units[1..] else units;
    digits != [] && Digit(digits[0]) &&
    Fraction(if digits[0] == 0x30 then digits[1..] else digits[DigitRun(digits)..])
  }

  predicate Literal(units: Units) {
    units == [0x74, 0x72, 0x75, 0x65] || units == [0x66, 0x61, 0x6C, 0x73, 0x65] || units == [0x6E, 0x75, 0x6C, 0x6C]
  }

  /** The units numbers and literals are made of. */
  predicate Plain(u: Unit) {
    Digit(u) || 0x41 <= u <= 0x5A || 0x61 <= u <= 0x7A || u == PLUS || u == MINUS || u == DOT
  }

  predicate ValidLexeme(units: Units) {
    units != [] && (forall i :: 0 <= i < |units| ==> Plain(units[i])) && (Literal(units) || NumberLexeme(units))
  }

  // ----- values -----

  predicate Valid(v: Value) {
    match v
    case Scalar(lexeme) => ValidLexeme(lexeme)
    case Text(items) => ValidItems(items)
    case Array(empty, elements) => Spaces(empty) && (elements.Element? ==> empty == []) && ValidElements(elements)
    case Object(empty, members) => Spaces(empty) && (members.Member? ==> empty == []) && ValidMembers(members)
  }

  predicate ValidElements(es: Elements) {
    match es
    case NoElements => true
    case Element(before, value, after, rest) => Spaces(before) && Valid(value) && Spaces(after) && ValidElements(rest)
  }

  predicate ValidMembers(ms: Members) {
    match ms
    case NoMembers => true
    case Member(before, key, afterKey, beforeValue, value, after, rest) =>
      Spaces(before) && ValidItems(key) && Spaces(afterKey) && Spaces(beforeValue) && Valid(value) && Spaces(after) &&
      ValidMembers(rest)
  }

  predicate ValidDocument(d: Document) {
    Spaces(d.before) && Valid(d.value) && Spaces(d.after)
  }

  function RenderString(items: seq<Item>): Units
    requires ValidItems(items)
  {
    [QUOTE] + RenderItems(items) + [QUOTE]
  }

  function Render(v: Value): Units
    requires Valid(v)
  {
    match v
    case Scalar(lexeme) => lexeme
    case Text(items) => RenderString(items)
    case Array(empty, elements) => [OPEN_ARRAY] + empty + RenderElements(elements) + [CLOSE_ARRAY]
    case Object(empty, members) => [OPEN_OBJECT] + empty + RenderMembers(members) + [CLOSE_OBJECT]
  }

  /** What separates an element from the ones after it. */
  function Separator(last: bool): Units {
    if last then [] else [COMMA]
  }

  function RenderElements(es: Elements): Units
    requires ValidElements(es)
  {
    match es
    case NoElements => []
    case Element(before, value, after, rest) =>
      before + (Render(value) + (after + (Separator(rest.NoElements?) + RenderElements(rest))))
  }

  function RenderMembers(ms: Members): Units
    requires ValidMembers(ms)
  {
    match ms
    case NoMembers => []
    case Member(before, key, afterKey, beforeValue, value, after, rest) =>
      before + (RenderString(key) + (afterKey +
        ([COLON] + (beforeValue + (Render(value) + (after + (Separator(rest.NoMembers?) + RenderMembers(rest))))))))
  }

  lemma ElementsSplit(es: Elements, tail: Units)
    requires ValidElements(es) && es.Element?
    ensures RenderElements(es) + tail ==
            es.before + (Render(es.value) + (es.after +
              (Separator(es.rest.NoElements?) + (RenderElements(es.rest) + tail))))
  {
    var separator := Separator(es.rest.NoElements?);
    var separated := separator + RenderElements(es.rest);
    Assoc(separator, RenderElements(es.rest), tail);
    Assoc(es.after, separated, tail);
    Assoc(Render(es.value), es.after + separated, tail);
    Assoc(es.before, Render(es.value) + (es.after + separated), tail);
  }

  lemma MembersSplit(ms: Members, tail: Units)
    requires ValidMembers(ms) && ms.Member?
    ensures RenderMembers(ms) + tail ==
            ms.before + (RenderString(ms.key) +
              (ms.afterKey + ([COLON] + (ms.beforeValue +
                (Render(ms.value) + (ms.after + (Separator(ms.rest.NoMembers?) + (RenderMembers(ms.rest) + tail))))))))
  {
    var separator := Separator(ms.rest.NoMembers?);
    var separated := separator + RenderMembers(ms.rest);
    var fromValue := Render(ms.value) + (ms.after + separated);
    var fromColon := [COLON] + (ms.beforeValue + fromValue);
    Assoc(separator, RenderMembers(ms.rest), tail);
    Assoc(ms.after, separated, tail);
    Assoc(Render(ms.value), ms.after + separated, tail);
    Assoc(ms.beforeValue, fromValue, tail);
    Assoc([COLON], ms.beforeValue + fromValue, tail);
    Assoc(ms.afterKey, fromColon, tail);
    Assoc(RenderString(ms.key), ms.afterKey + fromColon, tail);
    Assoc(ms.before, RenderString(ms.key) + (ms.afterKey + fromColon), tail);
  }

  lemma QuotedParts(content: Units, rest: Units)
    ensures var t := [QUOTE] + content + [QUOTE] + rest;
            t[1..] == content + ([QUOTE] + rest) && t[1..|content| + 1] == content && t[|content| + 2..] == rest
  {
  }

  lemma BracketedParts(open: Unit, empty: Units, inner: Units, close: Unit, rest: Units)
    ensures [open] + empty + inner + [close] + rest == [open] + (empty + (inner + ([close] + rest)))
    ensures ([open] + empty + inner + [close] + rest)[1..] == empty + (inner + ([close] + rest))
  {
    Assoc([open] + empty + inner, [close], rest);
    Assoc([open] + empty, inner, [close] + rest);
    Assoc([open], empty, inner + ([close] + rest));
  }

  function RenderDocument(d: Document): Units
    requires ValidDocument(d)
  {
    d.before + (Render(d.value) + d.after)
  }
}
