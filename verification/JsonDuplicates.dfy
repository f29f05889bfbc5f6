/**
 The two duplicate-key detectors.  The browser scans the text once with a stack of key sets
 (frontend/src/protocol.ts, `detectDuplicateKeys`); the server visits the parsed value
 recursively (crates/ttygated/src/protocol.rs, `DuplicateVisitor`).
 */
module JsonDuplicates {
  import opened Wrappers
  import opened Unicode
  import opened JsonText

  // ----- what both are for -----

  predicate Repeats<T(==)>(keys: seq<T>) {
    exists i, j :: 0 <= i < j < |keys| && keys[i] == keys[j]
  }

  function Keys(ms: Members): seq<string>
    requires ValidMembers(ms)
  {
    match ms
    case NoMembers => []
    case Member(_, key, _, _, _, _, rest) => [Decoded(key)] + Keys(rest)
  }

  /** Some object at some depth repeats a decoded key. */
  predicate HasDuplicate(v: Value)
    requires Valid(v)
  {
    match v
    case Scalar(_) => false
    case Text(_) => false
    case Array(_, elements) => AnyElement(elements)
    case Object(_, members) => Repeats(Keys(members)) || AnyMember(members)
  }

  predicate AnyElement(es: Elements)
    requires ValidElements(es)
  {
    es.Element? && (HasDuplicate(es.value) || AnyElement(es.rest))
  }

  predicate AnyMember(ms: Members)
    requires ValidMembers(ms)
  {
    ms.Member? && (HasDuplicate(ms.value) || AnyMember(ms.rest))
  }

  // ----- the browser -----

  /** `\s` of a JavaScript regular expression. */
  predicate JsSpace(u: Unit) {
    0x09 <= u <= 0x0D || u == 0x20 || u == 0xA0 || u == 0x1680 || 0x2000 <= u <= 0x200A ||
    u == 0x2028 || u == 0x2029 || u == 0x202F || u == 0x205F || u == 0x3000 || u == 0xFEFF
  }

  /** Where the string whose first unit is given ends; beyond the text if it never does. */
  function StringEnd(t: Units): (n: nat) {
    if t == [] then 0
    else if t[0] == BACKSLASH then if |t| == 1 then 2 else 2 + StringEnd(t[2..])
    else if t[0] == QUOTE then 0
    else 1 + StringEnd(t[1..])
  }

  function SpaceRun(t: Units): (n: nat)
    ensures n <= |t|
  {
    if t != [] && JsSpace(t[0]) then 1 + SpaceRun(t[1..]) else 0
  }

  predicate ColonFollows(t: Units) {
    SpaceRun(t) < |t| && t[SpaceRun(t)] == COLON
  }

  /** `JSON.parse` of a string literal, given the units between its quotes. */
  function ParseContent(t: Units): Option<Units> {
    if t == [] then Some([])
    else if t[0] == BACKSLASH then
      if |t| < 2 then None
      else if t[1] == SMALL_U then
        if |t| < 6 || !HexDigits(t[2], t[3], t[4], t[5]) then None
        else Prepend(HexValue(t[2], t[3], t[4], t[5]), ParseContent(t[6..]))
      else if ShortValue(t[1]) < 0 then None
      else Prepend(ShortValue(t[1]), ParseContent(t[2..]))
    else if t[0] < 0x20 || t[0] == QUOTE then None
    else Prepend(t[0], ParseContent(t[1..]))
  }

  function Prepend(u: Unit, s: Option<Units>): Option<Units> {
    if s.None? then None else Some([u] + s.value)
  }

  /** The enclosing containers, innermost last; an array has no keys. */
  type Stack = seq<Option<set<Units>>>

  function Pop(stack: Stack): Stack {
    if stack == [] then [] else stack[..|stack| - 1]
  }

  /** The verdict of the scan on what is left of the text. */
  function Scan(t: Units, stack: Stack): bool
    decreases |t|
  {
    if t == [] then false
    else if t[0] == OPEN_OBJECT then Scan(t[1..], stack + [Some({})])
    else if t[0] == OPEN_ARRAY then Scan(t[1..], stack + [None])
    else if t[0] == CLOSE_OBJECT || t[0] == CLOSE_ARRAY then Scan(t[1..], Pop(stack))
    else if t[0] == QUOTE then
      var end := StringEnd(t[1..]);
      if end >= |t| - 1 then false
      else AfterString(t[1..end + 1], t[end + 2..], stack)
    else Scan(t[1..], stack)
  }

  function AfterString(content: Units, t: Units, stack: Stack): bool
    decreases |t| + 1
  {
    if ColonFollows(t) && stack != [] && stack[|stack| - 1].Some? then
      match ParseContent(content)
      case None => false
      case Some(key) =>
        var keys := stack[|stack| - 1].value;
        key in keys || Scan(t, Pop(stack) + [Some(keys + {key})])
    else Scan(t, stack)
  }

  method SkipString(text: Units, from: nat) returns (index: nat)
    requires from <= |text|
    ensures index == from + StringEnd(text[from..])
  {
    index := from;
    while index < |text|
      invariant from <= index
      invariant from + StringEnd(text[from..]) == if index <= |text| then index + StringEnd(text[index..]) else index
    {
      assert text[index..][1..] == text[index + 1..];
      if text[index] == BACKSLASH {
        if index + 1 < |text| {
          assert text[index..][2..] == text[index + 2..];
        }
        index := index + 2;
        continue;
      }
      if text[index] == QUOTE {
        break;
      }
      index := index + 1;
    }
  }

  method SkipSpaces(text: Units, from: nat) returns (next: nat)
    requires from <= |text|
    ensures next == from + SpaceRun(text[from..])
  {
    next := from;
    while next < |text| && JsSpace(text[next])
      invariant from <= next <= |text|
      invariant from + SpaceRun(text[from..]) == next + SpaceRun(text[next..])
    {
      assert text[next..][1..] == text[next + 1..];
      next := next + 1;
    }
  }

  /** One string of the text, by positions. */
  lemma ScanAtQuote(text: Units, start: nat, end: nat, stack: Stack)
    requires start < |text| && text[start] == QUOTE && end == start + 1 + StringEnd(text[start + 1..])
    ensures Scan(text[start..], stack) ==
            if end < |text| then AfterString(text[start + 1..end], text[end + 1..], stack) else false
  {
    var t := text[start..];
    assert t[1..] == text[start + 1..];
    if end < |text| {
      assert t[1..end - start] == text[start + 1..end];
      assert t[end - start + 1..] == text[end + 1..];
    }
  }

  /**
   The key a string is, if it is one: `Some(None)` for a key that does not decode, which ends
   the scan.
   */
  method KeyAt(text: Units, start: nat, end: nat, stack: Stack) returns (key: Option<Option<Units>>)
    requires start < end < |text|
    ensures key.Some? <==> ColonFollows(text[end + 1..]) && stack != [] && stack[|stack| - 1].Some?
    ensures key.Some? ==> key.value == ParseContent(text[start + 1..end])
  {
    var next := SkipSpaces(text, end + 1);
    if next < |text| && text[next] == COLON && stack != [] && stack[|stack| - 1].Some? {
      return Some(ParseContent(text[start + 1..end]));
    }
    return None;
  }

  method DetectDuplicateKeys(text: Units) returns (duplicate: bool)
    ensures duplicate == Scan(text, [])
  {
    var stack: Stack := [];
    var index := 0;
    while index < |text|
      invariant 0 <= index <= |text|
      invariant Scan(text, []) == Scan(text[index..], stack)
    {
      var character := text[index];
      assert text[index..][1..] == text[index + 1..];
      if character == OPEN_OBJECT {
        stack := stack + [Some({})];
      } else if character == OPEN_ARRAY {
        stack := stack + [None];
      } else if character == CLOSE_OBJECT || character == CLOSE_ARRAY {
        stack := Pop(stack);
      } else if character == QUOTE {
        var start := index;
        index := SkipString(text, start + 1);
        ScanAtQuote(text, start, index, stack);
        if index >= |text| {
          return false;
        }
        var found := KeyAt(text, start, index, stack);
        match found {
          case None =>
          case Some(None) =>
            return false;
          case Some(Some(key)) =>
            var keys := stack[|stack| - 1].value;
            if key in keys {
              return true;
            }
            stack := Pop(stack) + [Some(keys + {key})];
        }
      }
      index := index + 1;
    }
    return false;
  }

  // ----- the server -----

  method VisitValue(v: Value) returns (duplicate: bool)
    requires Valid(v)
    ensures duplicate <==> HasDuplicate(v)
    decreases v
  {
    match v {
      case Scalar(_) => duplicate := false;
      case Text(_) => duplicate := false;
      case Array(_, elements) => duplicate := VisitSequence(elements);
      case Object(_, members) => duplicate := VisitMap(members);
    }
  }

  method VisitSequence(elements: Elements) returns (duplicate: bool)
    requires ValidElements(elements)
    ensures duplicate <==> AnyElement(elements)
    decreases elements
  {
    var left := elements;
    while left.Element?
      invariant left == elements || left < elements
      invariant ValidElements(left) && (AnyElement(left) <==> AnyElement(elements))
      decreases left
    {
      var inner := VisitValue(left.value);
      if inner {
        return true;
      }
      left := left.rest;
    }
    return false;
  }

  predicate Collides<T(==)>(keys: seq<T>, seen: set<T>) {
    exists i :: 0 <= i < |keys| && keys[i] in seen
  }

  lemma CollidesOrRepeats<T>(key: T, keys: seq<T>, seen: set<T>)
    ensures Collides([key] + keys, seen) || Repeats([key] + keys) <==>
            key in seen || Collides(keys, seen + {key}) || Repeats(keys)
  {
    var all := [key] + keys;
    assert forall i :: 0 <= i < |keys| ==> all[i + 1] == keys[i];
    assert forall i :: 0 < i < |all| ==> all[i] == keys[i - 1];
    assert all[0] == key;
  }

  /** Stops at the first repetition, so a value after it is never looked at. */
  method VisitMap(members: Members) returns (duplicate: bool)
    requires ValidMembers(members)
    ensures duplicate <==> Repeats(Keys(members)) || AnyMember(members)
    decreases members
  {
    var keys: set<string> := {};
    var left := members;
    while left.Member?
      invariant left == members || left < members
      invariant ValidMembers(left)
      invariant Collides(Keys(left), keys) || Repeats(Keys(left)) || AnyMember(left) <==>
                Repeats(Keys(members)) || AnyMember(members)
      decreases left
    {
      var key := Decoded(left.key);
      CollidesOrRepeats(key, Keys(left.rest), keys);
      if key in keys {
        return true;
      }
      keys := keys + {key};
      var inner := VisitValue(left.value);
      if inner {
        return true;
      }
      left := left.rest;
    }
    return false;
  }

  // ----- the scan of a rendered string -----

  lemma EscapedPair(high: Item, low: Item)
    requires ValidItem(HexPair(high, low))
    ensures Utf16(CharOf(HexPair(high, low))) == [UnitOf(high), UnitOf(low)]
  {
    var h, l := UnitOf(high) - 0xD800, UnitOf(low) - 0xDC00;
    assert (0x400 * h + l) / 0x400 == h && (0x400 * h + l) % 0x400 == l;
  }

  function PrependAll(units: Units, s: Option<Units>): Option<Units> {
    if s.None? then None else Some(units + s.value)
  }

  lemma PrependTwice(a: Unit, b: Unit, s: Option<Units>)
    ensures Prepend(a, Prepend(b, s)) == PrependAll([a, b], s)
  {
    if s.Some? {
      assert [a] + ([b] + s.value) == [a, b] + s.value;
    }
  }

  lemma RawContent(c: char, rest: Units)
    requires ValidItem(Raw(c))
    ensures ParseContent(Utf16(c) + rest) == PrependAll(Utf16(c), ParseContent(rest))
  {
    var units := Utf16(c);
    var t := units + rest;
    if |units| == 1 {
      assert t[1..] == rest;
    } else {
      assert units == [units[0], units[1]];
      assert t[1..] == [units[1]] + rest;
      assert t[1..][1..] == rest;
      PrependTwice(units[0], units[1], ParseContent(rest));
    }
  }

  lemma PairContent(high: Item, low: Item, rest: Units)
    requires ValidItem(HexPair(high, low))
    ensures ParseContent(HexUnits(high) + HexUnits(low) + rest) ==
            PrependAll(Utf16(CharOf(HexPair(high, low))), ParseContent(rest))
  {
    Assoc(HexUnits(high), HexUnits(low), rest);
    HexContent(low, rest);
    HexContent(high, HexUnits(low) + rest);
    EscapedPair(high, low);
    PrependTwice(UnitOf(high), UnitOf(low), ParseContent(rest));
  }

  lemma ItemContent(i: Item, rest: Units)
    requires ValidItem(i)
    ensures ParseContent(RenderItem(i) + rest) == PrependAll(Utf16(CharOf(i)), ParseContent(rest))
  {
    match i {
      case Raw(c) => RawContent(c, rest);
      case Short(letter) =>
        assert (RenderItem(i) + rest)[2..] == rest;
      case Hex(_, _, _, _) => HexContent(i, rest);
      case HexPair(high, low) => PairContent(high, low, rest);
    }
  }

  lemma HexContent(i: Item, rest: Units)
    requires ValidHex(i)
    ensures ParseContent(HexUnits(i) + rest) == Prepend(UnitOf(i), ParseContent(rest))
  {
    var t := HexUnits(i) + rest;
    assert t[2] == i.d0 && t[3] == i.d1 && t[4] == i.d2 && t[5] == i.d3 && t[6..] == rest;
  }

  /** The browser decodes a key to the UTF-16 form of what the server decodes it to. */
  lemma {:induction false} BrowserDecodes(items: seq<Item>)
    requires ValidItems(items)
    ensures ParseContent(RenderItems(items)) == Some(ToUtf16(Decoded(items)))
  {
    if items != [] {
      BrowserDecodes(items[1..]);
      ItemContent(items[0], RenderItems(items[1..]));
    }
  }

  lemma {:induction false} OrdinaryIsInside(units: Units, rest: Units)
    requires forall i :: 0 <= i < |units| ==> units[i] != QUOTE && units[i] != BACKSLASH
    ensures StringEnd(units + rest) == |units| + StringEnd(rest)
  {
    if units == [] {
      assert units + rest == rest;
    } else {
      assert (units + rest)[1..] == units[1..] + rest;
      OrdinaryIsInside(units[1..], rest);
    }
  }

  lemma HexIsInside(i: Item, rest: Units)
    requires ValidHex(i)
    ensures StringEnd(HexUnits(i) + rest) == 6 + StringEnd(rest)
  {
    var digits := [i.d0, i.d1, i.d2, i.d3];
    assert (HexUnits(i) + rest)[2..] == digits + rest;
    OrdinaryIsInside(digits, rest);
  }

  lemma ItemIsInside(i: Item, rest: Units)
    requires ValidItem(i)
    ensures StringEnd(RenderItem(i) + rest) == |RenderItem(i)| + StringEnd(rest)
  {
    match i {
      case Raw(c) => OrdinaryIsInside(Utf16(c), rest);
      case Short(letter) =>
        assert (RenderItem(i) + rest)[2..] == rest;
      case Hex(_, _, _, _) => HexIsInside(i, rest);
      case HexPair(high, low) =>
        assert RenderItem(i) + rest == HexUnits(high) + (HexUnits(low) + rest);
        HexIsInside(high, HexUnits(low) + rest);
        HexIsInside(low, rest);
    }
  }

  lemma {:induction false} StringEndsAtItsQuote(items: seq<Item>, rest: Units)
    requires ValidItems(items)
    ensures StringEnd(RenderItems(items) + ([QUOTE] + rest)) == |RenderItems(items)|
  {
    if items == [] {
      assert RenderItems(items) + ([QUOTE] + rest) == [QUOTE] + rest;
    } else {
      var more := RenderItems(items[1..]) + ([QUOTE] + rest);
      StringEndsAtItsQuote(items[1..], rest);
      ItemIsInside(items[0], more);
      assert RenderItems(items) + ([QUOTE] + rest) == RenderItem(items[0]) + more;
    }
  }

  lemma ScanString(items: seq<Item>, rest: Units, stack: Stack)
    requires ValidItems(items)
    ensures Scan(RenderString(items) + rest, stack) == AfterString(RenderItems(items), rest, stack)
  {
    var content := RenderItems(items);
    StringEndsAtItsQuote(items, rest);
    QuotedParts(content, rest);
  }

  // ----- the scan of a rendered value -----

  predicate Inert(u: Unit) {
    u != OPEN_OBJECT && u != OPEN_ARRAY && u != CLOSE_OBJECT && u != CLOSE_ARRAY && u != QUOTE
  }

  lemma {:induction false} ScanInert(units: Units, rest: Units, stack: Stack)
    requires forall i :: 0 <= i < |units| ==> Inert(units[i])
    ensures Scan(units + rest, stack) == Scan(rest, stack)
  {
    if units == [] {
      assert units + rest == rest;
    } else {
      assert (units + rest)[1..] == units[1..] + rest;
      ScanInert(units[1..], rest, stack);
    }
  }

  lemma {:induction false} SpacesBeforeColon(spaces: Units, rest: Units)
    requires Spaces(spaces) && rest != [] && !JsSpace(rest[0])
    ensures ColonFollows(spaces + rest) <==> rest[0] == COLON
  {
    if spaces == [] {
      assert spaces + rest == rest;
    } else {
      assert (spaces + rest)[1..] == spaces[1..] + rest;
      SpacesBeforeColon(spaces[1..], rest);
    }
  }

  lemma {:induction false} OnlySpaces(spaces: Units)
    requires Spaces(spaces)
    ensures !ColonFollows(spaces)
  {
    if spaces != [] {
      OnlySpaces(spaces[1..]);
    }
  }

  function BrowserKeys(ms: Members): seq<Units>
    requires ValidMembers(ms)
  {
    match ms
    case NoMembers => []
    case Member(_, key, _, _, _, _, rest) => [ToUtf16(Decoded(key))] + BrowserKeys(rest)
  }

  lemma {:induction false} BrowserKeysAreKeys(ms: Members)
    requires ValidMembers(ms)
    ensures |BrowserKeys(ms)| == |Keys(ms)|
    ensures forall i :: 0 <= i < |Keys(ms)| ==> BrowserKeys(ms)[i] == ToUtf16(Keys(ms)[i])
  {
    if ms.Member? {
      BrowserKeysAreKeys(ms.rest);
    }
  }

  lemma SameRepetitions(ms: Members)
    requires ValidMembers(ms)
    ensures Repeats(BrowserKeys(ms)) <==> Repeats(Keys(ms))
  {
    BrowserKeysAreKeys(ms);
    forall i, j | 0 <= i < j < |Keys(ms)|
      ensures BrowserKeys(ms)[i] == BrowserKeys(ms)[j] <==> Keys(ms)[i] == Keys(ms)[j]
    {
      if BrowserKeys(ms)[i] == BrowserKeys(ms)[j] {
        ToUtf16IsInjective(Keys(ms)[i], Keys(ms)[j]);
      }
    }
  }

  lemma ScanOpen(open: Unit, empty: Units, inner: Units, tail: Units, stack: Stack)
    requires open == OPEN_ARRAY || open == OPEN_OBJECT
    requires Spaces(empty)
    ensures Scan([open] + empty + inner + tail, stack) ==
            Scan(inner + tail, stack + [if open == OPEN_ARRAY then None else Some({})])
  {
    assert ([open] + empty + inner + tail)[1..] == empty + (inner + tail);
    ScanInert(empty, inner + tail, stack + [if open == OPEN_ARRAY then None else Some({})]);
  }

  lemma ScanClose(close: Unit, rest: Units, stack: Stack, top: Option<set<Units>>)
    requires close == CLOSE_ARRAY || close == CLOSE_OBJECT
    ensures Scan([close] + rest, stack + [top]) == Scan(rest, stack)
  {
    assert ([close] + rest)[1..] == rest && Pop(stack + [top]) == stack;
  }

  /** Scanning a value leaves the stack as it was, unless a duplicate ends the scan. */
  lemma {:induction false} ScanValue(v: Value, rest: Units, stack: Stack)
    requires Valid(v) && !ColonFollows(rest)
    ensures Scan(Render(v) + rest, stack) == (HasDuplicate(v) || Scan(rest, stack))
    decreases v, 0
  {
    match v {
      case Scalar(lexeme) => ScanInert(lexeme, rest, stack);
      case Text(items) => ScanString(items, rest, stack);
      case Array(empty, elements) =>
        var inner := RenderElements(elements);
        assert Render(v) + rest == [OPEN_ARRAY] + empty + inner + ([CLOSE_ARRAY] + rest);
        ScanOpen(OPEN_ARRAY, empty, inner, [CLOSE_ARRAY] + rest, stack);
        ScanElements(elements, [CLOSE_ARRAY] + rest, stack + [None]);
        ScanClose(CLOSE_ARRAY, rest, stack, None);
      case Object(empty, members) =>
        var inner := RenderMembers(members);
        assert Render(v) + rest == [OPEN_OBJECT] + empty + inner + ([CLOSE_OBJECT] + rest);
        ScanOpen(OPEN_OBJECT, empty, inner, [CLOSE_OBJECT] + rest, stack);
        ScanMembers(members, {}, rest, stack);
        SameRepetitions(members);
    }
  }

  /** A value and what separates it from the next one. */
  lemma {:induction false} ScanSeparated(before: Units, value: Value, after: Units, last: bool, more: Units,
                                         stack: Stack)
    requires Spaces(before) && Valid(value) && Spaces(after)
    requires last ==> more != [] && !JsSpace(more[0]) && more[0] != COLON
    ensures Scan(before + (Render(value) + (after + (Separator(last) + more))), stack) ==
            (HasDuplicate(value) || Scan(more, stack))
    decreases value, 1
  {
    var separated := Separator(last) + more;
    if last {
      assert separated == more;
    }
    ScanInert(before, Render(value) + (after + separated), stack);
    SpacesBeforeColon(after, separated);
    ScanValue(value, after + separated, stack);
    ScanInert(after, separated, stack);
    ScanInert(Separator(last), more, stack);
  }

  lemma {:induction false} ScanElements(es: Elements, tail: Units, stack: Stack)
    requires ValidElements(es) && tail != [] && tail[0] == CLOSE_ARRAY
    ensures Scan(RenderElements(es) + tail, stack) == (AnyElement(es) || Scan(tail, stack))
    decreases es, 2
  {
    match es {
      case NoElements =>
        assert RenderElements(es) + tail == tail;
      case Element(before, value, after, rest) =>
        ElementsSplit(es, tail);
        if rest.NoElements? {
          assert RenderElements(rest) + tail == tail;
        }
        ScanSeparated(before, value, after, rest.NoElements?, RenderElements(rest) + tail, stack);
        ScanElements(rest, tail, stack);
    }
  }

  lemma ScanKey(key: seq<Item>, afterKey: Units, more: Units, keys: set<Units>, stack: Stack)
    requires ValidItems(key) && Spaces(afterKey)
    ensures Scan(RenderString(key) + (afterKey + ([COLON] + more)), stack + [Some(keys)]) ==
            (ToUtf16(Decoded(key)) in keys || Scan(more, stack + [Some(keys + {ToUtf16(Decoded(key))})]))
  {
    var follows := afterKey + ([COLON] + more);
    ScanString(key, follows, stack + [Some(keys)]);
    SpacesBeforeColon(afterKey, [COLON] + more);
    BrowserDecodes(key);
    assert Pop(stack + [Some(keys)]) == stack;
    var after := stack + [Some(keys + {ToUtf16(Decoded(key))})];
    ScanInert(afterKey, [COLON] + more, after);
    ScanInert([COLON], more, after);
  }

  lemma {:induction false} ScanMembers(ms: Members, keys: set<Units>, rest: Units, stack: Stack)
    requires ValidMembers(ms)
    ensures Scan(RenderMembers(ms) + ([CLOSE_OBJECT] + rest), stack + [Some(keys)]) ==
            (Collides(BrowserKeys(ms), keys) || Repeats(BrowserKeys(ms)) || AnyMember(ms) || Scan(rest, stack))
    decreases ms, 2
  {
    var tail := [CLOSE_OBJECT] + rest;
    match ms {
      case NoMembers =>
        assert RenderMembers(ms) + tail == tail;
        ScanClose(CLOSE_OBJECT, rest, stack, Some(keys));
      case Member(before, key, afterKey, beforeValue, value, after, others) =>
        var more := RenderMembers(others) + tail;
        var afterColon := beforeValue + (Render(value) + (after + (Separator(others.NoMembers?) + more)));
        MembersSplit(ms, tail);
        ScanInert(before, RenderString(key) + (afterKey + ([COLON] + afterColon)), stack + [Some(keys)]);
        ScanKey(key, afterKey, afterColon, keys, stack);
        if others.NoMembers? {
          assert more == tail;
        }
        var k := ToUtf16(Decoded(key));
        ScanSeparated(beforeValue, value, after, others.NoMembers?, more, stack + [Some(keys + {k})]);
        ScanMembers(others, keys + {k}, rest, stack);
        CollidesOrRepeats(k, BrowserKeys(others), keys);
    }
  }

  /** The scanner finds a duplicate exactly when the visitor does. */
  lemma DetectorsAgree(d: Document)
    requires ValidDocument(d)
    ensures Scan(RenderDocument(d), []) <==> HasDuplicate(d.value)
  {
    ScanInert(d.before, Render(d.value) + d.after, []);
    OnlySpaces(d.after);
    ScanValue(d.value, d.after, []);
    assert d.after + [] == d.after;
    ScanInert(d.after, [], []);
  }
}
