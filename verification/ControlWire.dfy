/** What a serialised control amounts to: its size in bytes and the fields it is read back as. */
module ControlWire {
  import opened Wrappers
  import opened Unicode
  import opened JsonText
  import opened JsonParse
  import opened JsonDuplicates
  import opened ControlCodec

  // ----- the size of a text -----

  function ItemBytes(i: Item): nat
    requires ValidItem(i)
  {
    match i
    case Raw(c) => |Utf8(c)|
    case Short(_) => 2
    case Hex(_, _, _, _) => 6
    case HexPair(_, _) => 12
  }

  function ItemsBytes(items: seq<Item>): nat
    requires ValidItems(items)
  {
    if items == [] then 0 else ItemBytes(items[0]) + ItemsBytes(items[1..])
  }

  function ValueBytes(v: Value): nat
    requires Valid(v)
  {
    match v
    case Scalar(lexeme) => |lexeme|
    case Text(items) => ItemsBytes(items) + 2
    case Array(empty, elements) => |empty| + ElementsBytes(elements) + 2
    case Object(empty, members) => |empty| + MembersBytes(members) + 2
  }

  function ElementsBytes(es: Elements): nat
    requires ValidElements(es)
  {
    if es.NoElements? then 0
    else |es.before| + ValueBytes(es.value) + |es.after| + |Separator(es.rest.NoElements?)| + ElementsBytes(es.rest)
  }

  function MembersBytes(ms: Members): nat
    requires ValidMembers(ms)
  {
    if ms.NoMembers? then 0
    else
      |ms.before| + (ItemsBytes(ms.key) + 2) + |ms.afterKey| + 1 + |ms.beforeValue| + ValueBytes(ms.value) + |ms.after|
      + |Separator(ms.rest.NoMembers?)| + MembersBytes(ms.rest)
  }

  predicate AddsBefore(a: Units, n: nat, rest: Units) {
    Size(a + rest) == Plus(n, Size(rest))
  }

  /** Put before any text, `a` adds `n` bytes to its size. */
  ghost predicate Adds(a: Units, n: nat) {
    forall rest: Units :: AddsBefore(a, n, rest)
  }

  lemma Joined(a: Units, m: nat, b: Units, n: nat)
    requires Adds(a, m) && Adds(b, n)
    ensures Adds(a + b, m + n)
  {
    var ab, mn := a + b, m + n;
    forall rest: Units ensures AddsBefore(ab, mn, rest) {
      Assoc(a, b, rest);
      assert AddsBefore(a, m, b + rest) && AddsBefore(b, n, rest);
    }
  }

  lemma {:induction false} AsciiAdds(units: Units)
    requires forall i :: 0 <= i < |units| ==> units[i] <= 0x7F
    ensures Adds(units, |units|)
  {
    if units == [] {
      forall rest: Units ensures AddsBefore(units, 0, rest) {
        assert units + rest == rest;
      }
    } else {
      AsciiAdds(units[1..]);
      forall rest: Units ensures AddsBefore(units, |units|, rest) {
        assert (units + rest)[1..] == units[1..] + rest;
        assert AddsBefore(units[1..], |units| - 1, rest);
      }
    }
  }

  lemma CharAdds(c: char)
    ensures Adds(Utf16(c), |Utf8(c)|)
  {
    Utf16Shape(c);
    forall rest: Units ensures AddsBefore(Utf16(c), |Utf8(c)|, rest) {
      var t := Utf16(c) + rest;
      if |Utf16(c)| == 1 {
        assert t[1..] == rest;
      } else {
        assert t[1] == Utf16(c)[1] && t[2..] == rest;
      }
    }
  }

  /** The size of a text is the length of its UTF-8 encoding. */
  lemma {:induction false} SizeIsUtf8Length(s: string)
    ensures Size(ToUtf16(s)) == Some(|ToUtf8(s)|)
  {
    if s != [] {
      SizeIsUtf8Length(s[1..]);
      CharAdds(s[0]);
      assert AddsBefore(Utf16(s[0]), |Utf8(s[0])|, ToUtf16(s[1..]));
    }
  }

  lemma ItemAdds(i: Item)
    requires ValidItem(i)
    ensures Adds(RenderItem(i), ItemBytes(i))
  {
    match i {
      case Raw(c) => CharAdds(c);
      case Short(letter) => AsciiAdds(RenderItem(i));
      case Hex(_, _, _, _) => AsciiAdds(RenderItem(i));
      case HexPair(high, low) => AsciiAdds(RenderItem(i));
    }
  }

  lemma {:induction false} ItemsAdd(items: seq<Item>)
    requires ValidItems(items)
    ensures Adds(RenderItems(items), ItemsBytes(items))
  {
    if items == [] {
      AsciiAdds([]);
    } else {
      ItemAdds(items[0]);
      ItemsAdd(items[1..]);
      Joined(RenderItem(items[0]), ItemBytes(items[0]), RenderItems(items[1..]), ItemsBytes(items[1..]));
    }
  }

  lemma Bracketed(open: Units, inner: Units, n: nat, close: Units)
    requires (forall i :: 0 <= i < |open| ==> open[i] <= 0x7F) && (forall i :: 0 <= i < |close| ==> close[i] <= 0x7F)
    requires Adds(inner, n)
    ensures Adds(open + inner + close, |open| + n + |close|)
  {
    AsciiAdds(open);
    AsciiAdds(close);
    Joined(open, |open|, inner, n);
    Joined(open + inner, |open| + n, close, |close|);
  }

  lemma StringAdds(items: seq<Item>)
    requires ValidItems(items)
    ensures Adds(RenderString(items), ItemsBytes(items) + 2)
  {
    ItemsAdd(items);
    Bracketed([QUOTE], RenderItems(items), ItemsBytes(items), [QUOTE]);
  }

  lemma {:induction false} ValueAdds(v: Value)
    requires Valid(v)
    ensures Adds(Render(v), ValueBytes(v))
    decreases v, 0
  {
    match v {
      case Scalar(lexeme) => AsciiAdds(lexeme);
      case Text(items) => StringAdds(items);
      case Array(empty, elements) =>
        ElementsAdd(elements);
        Bracketed([OPEN_ARRAY] + empty, RenderElements(elements), ElementsBytes(elements), [CLOSE_ARRAY]);
      case Object(empty, members) =>
        MembersAdd(members);
        Bracketed([OPEN_OBJECT] + empty, RenderMembers(members), MembersBytes(members), [CLOSE_OBJECT]);
    }
  }

  /** A value between whitespace, and the rest of its list. */
  lemma {:induction false} SpacedAdds(before: Units, value: Value, after: Units, last: bool, more: Units, n: nat)
    requires Spaces(before) && Valid(value) && Spaces(after) && Adds(more, n)
    ensures Adds(before + (Render(value) + (after + (Separator(last) + more))),
                 |before| + ValueBytes(value) + |after| + |Separator(last)| + n)
    decreases value, 1
  {
    AsciiAdds(before);
    ValueAdds(value);
    AsciiAdds(after);
    AsciiAdds(Separator(last));
    var separated := Separator(last) + more;
    Joined(Separator(last), |Separator(last)|, more, n);
    Joined(after, |after|, separated, |Separator(last)| + n);
    Joined(Render(value), ValueBytes(value), after + separated, |after| + |Separator(last)| + n);
    Joined(before, |before|, Render(value) + (after + separated), ValueBytes(value) + |after| + |Separator(last)| + n);
  }

  lemma {:induction false} ElementsAdd(es: Elements)
    requires ValidElements(es)
    ensures Adds(RenderElements(es), ElementsBytes(es))
    decreases es, 2
  {
    if es.NoElements? {
      AsciiAdds([]);
    } else {
      ElementsAdd(es.rest);
      SpacedAdds(es.before, es.value, es.after, es.rest.NoElements?, RenderElements(es.rest), ElementsBytes(es.rest));
    }
  }

  lemma KeyAdds(before: Units, key: seq<Item>, afterKey: Units, value: Units, n: nat)
    requires Spaces(before) && ValidItems(key) && Spaces(afterKey) && Adds(value, n)
    ensures Adds(before + (RenderString(key) + (afterKey + ([COLON] + value))),
              |before| + (ItemsBytes(key) + 2) + |afterKey| + 1 + n)
  {
    AsciiAdds(before);
    StringAdds(key);
    AsciiAdds(afterKey);
    AsciiAdds([COLON]);
    Joined([COLON], 1, value, n);
    Joined(afterKey, |afterKey|, [COLON] + value, 1 + n);
    Joined(RenderString(key), ItemsBytes(key) + 2, afterKey + ([COLON] + value), |afterKey| + 1 + n);
    Joined(before, |before|, RenderString(key) + (afterKey + ([COLON] + value)),
      ItemsBytes(key) + 2 + |afterKey| + 1 + n);
  }

  lemma {:induction false} MembersAdd(ms: Members)
    requires ValidMembers(ms)
    ensures Adds(RenderMembers(ms), MembersBytes(ms))
    decreases ms, 2
  {
    if ms.NoMembers? {
      AsciiAdds([]);
    } else {
      var last := ms.rest.NoMembers?;
      var n := |ms.beforeValue| + ValueBytes(ms.value) + |ms.after| + |Separator(last)| + MembersBytes(ms.rest);
      MembersAdd(ms.rest);
      SpacedAdds(ms.beforeValue, ms.value, ms.after, last, RenderMembers(ms.rest), MembersBytes(ms.rest));
      KeyAdds(ms.before, ms.key, ms.afterKey,
              ms.beforeValue + (Render(ms.value) + (ms.after + (Separator(last) + RenderMembers(ms.rest)))), n);
    }
  }

  lemma BeforeNothing(a: Units, n: nat)
    requires Adds(a, n)
    ensures Size(a) == Some(n)
  {
    assert AddsBefore(a, n, []);
    assert a + [] == a;
  }

  lemma SizeOfValue(v: Value)
    requires Valid(v)
    ensures Size(Render(v)) == Some(ValueBytes(v))
  {
    ValueAdds(v);
    BeforeNothing(Render(v), ValueBytes(v));
  }

  // ----- what an encoder writes -----

  function Names(fs: Fields): (names: seq<string>)
    ensures |names| == |fs| && forall i :: 0 <= i < |fs| ==> names[i] == fs[i].0
  {
    if fs == [] then [] else [fs[0].0] + Names(fs[1..])
  }

  predicate Flat(v: Value) {
    v.Scalar? || v.Text?
  }

  lemma {:induction false} NamesAreKeys(fs: Fields)
    requires ValidFields(fs)
    ensures Keys(MembersOf(fs)) == Names(fs)
    ensures (forall i :: 0 <= i < |fs| ==> !HasDuplicate(fs[i].1)) ==> !AnyMember(MembersOf(fs))
  {
    if fs != [] {
      NamesAreKeys(fs[1..]);
    }
  }

  lemma {:induction false} LookupMisses(fs: Fields, name: string)
    requires ValidFields(fs) && name !in Names(fs)
    ensures Lookup(MembersOf(fs), name) == None
  {
    if fs != [] {
      assert Names(fs)[0] == fs[0].0;
      assert forall i :: 0 <= i < |fs[1..]| ==> Names(fs[1..])[i] == Names(fs)[i + 1];
      LookupMisses(fs[1..], name);
    }
  }

  lemma {:induction false} LookupFinds(fs: Fields, i: nat)
    requires ValidFields(fs) && i < |fs| && !Repeats(Names(fs))
    ensures Lookup(MembersOf(fs), fs[i].0) == Some(fs[i].1)
  {
    var rest := fs[1..];
    assert forall j :: 0 <= j < |rest| ==> Names(rest)[j] == Names(fs)[j + 1];
    if i == 0 {
      assert fs[0].0 == Names(fs)[0];
      LookupMisses(rest, fs[0].0);
    } else {
      assert !Repeats(Names(rest));
      assert rest[i - 1] == fs[i];
      LookupFinds(rest, i - 1);
    }
  }

  lemma FieldsHaveNoFault(fs: Fields, expected: seq<string>)
    requires ValidFields(fs) && Names(fs) == expected
    ensures KeyFault(MembersOf(fs), expected) == None
  {
    NamesAreKeys(fs);
  }

  /** A serialised object without repeated names is read back as its own fields. */
  lemma CompactParses(side: Side, fs: Fields)
    requires ValidFields(fs) && !Repeats(Names(fs))
    requires forall i :: 0 <= i < |fs| ==> !HasDuplicate(fs[i].1)
    requires ValueBytes(Compact(fs)) <= MAX_CONTROL_BYTES
    ensures Serialize(Compact(fs)) == Ok(Render(Compact(fs)))
    ensures ParseControl(side, Render(Compact(fs))) == Ok(MembersOf(fs))
  {
    SizeOfValue(Compact(fs));
    MeasureDecides(Render(Compact(fs)), 0, MAX_CONTROL_BYTES);
    NamesAreKeys(fs);
    ValueParses(side, Compact(fs));
  }

  /** A text without whitespace around it reads back, and has duplicates if its value has. */
  lemma ValueParses(side: Side, v: Value)
    requires Valid(v)
    ensures ParseDocument(Render(v)) == Some(Document([], v, []))
    ensures Duplicated(side, Render(v), v) == HasDuplicate(v)
  {
    var d := Document([], v, []);
    assert RenderDocument(d) == Render(v);
    DocumentReadsBack(d);
    DetectorsAgree(d);
  }

  // ----- every message is small -----

  lemma {:induction false} SpelledBytes(s: string)
    ensures ItemsBytes(Spell(s)) <= 6 * |s|
  {
    if s != [] {
      SpelledBytes(s[1..]);
    }
  }

  /** An upper bound on the bytes of the fields of an object. */
  function Budget(fs: Fields): nat
    requires ValidFields(fs)
  {
    if fs == [] then 0 else 6 * |fs[0].0| + 4 + ValueBytes(fs[0].1) + Budget(fs[1..])
  }

  lemma {:induction false} WithinBudget(fs: Fields)
    requires ValidFields(fs)
    ensures MembersBytes(MembersOf(fs)) <= Budget(fs)
  {
    if fs != [] {
      WithinBudget(fs[1..]);
      SpelledBytes(fs[0].0);
    }
  }

  lemma BudgetOfPair(a: (string, Value), b: (string, Value), rest: Fields)
    requires Valid(a.1) && Valid(b.1) && ValidFields(rest)
    ensures Budget([a, b] + rest) == 6 * |a.0| + 6 * |b.0| + 8 + ValueBytes(a.1) + ValueBytes(b.1) + Budget(rest)
  {
    var all := [a, b] + rest;
    assert all[1..] == [b] + rest;
    assert all[1..][1..] == rest;
  }

  lemma BudgetOfOne(a: (string, Value))
    requires Valid(a.1)
    ensures Budget([a]) == 6 * |a.0| + 4 + ValueBytes(a.1)
  {
    assert [a][1..] == [];
  }

  lemma CompactBudget(fs: Fields)
    requires ValidFields(fs)
    ensures ValueBytes(Compact(fs)) <= 2 + Budget(fs)
  {
    WithinBudget(fs);
  }

  lemma StringBudget(s: string)
    ensures ValueBytes(Str(s)) <= 2 + 6 * |s|
  {
    SpelledBytes(s);
  }

  lemma NumberBudget(n: nat)
    requires n < 10_000
    ensures ValueBytes(Num(n)) <= 4
  {
    DecimalReadsBack(n);
  }

  lemma TaggedBudget(kind: string, rest: Fields)
    requires ValidFields(rest)
    ensures Budget(Tagged(kind, rest)) <= 90 + 6 * |kind| + Budget(rest)
  {
    NumberBudget(PROTOCOL_VERSION);
    StringBudget(kind);
    BudgetOfPair(("version", Num(PROTOCOL_VERSION)), ("type", Str(kind)), rest);
  }

  lemma KindedBudget(kind: string, rest: Fields)
    requires ValidFields(rest)
    ensures Budget(Kinded(kind, rest)) <= 40 + 6 * |kind| + Budget(rest)
  {
    var fs := Kinded(kind, rest);
    assert fs[1..] == rest;
    StringBudget(kind);
  }

  // ----- what the decoders see of a serialised message -----

  /** Field names whose first characters differ pairwise are different. */
  predicate Telling(names: seq<string>) {
    (forall i :: 0 <= i < |names| ==> names[i] != "") &&
    (forall i, j :: 0 <= i < j < |names| ==> names[i][0] != names[j][0])
  }

  lemma TellingNamesDiffer(names: seq<string>)
    requires Telling(names)
    ensures !Repeats(names)
  {
  }

  lemma TaggedNames(kind: string, rest: Fields)
    requires ValidFields(rest)
    ensures Names(Tagged(kind, rest)) == ["version", "type"] + Names(rest)
  {
    var all := Tagged(kind, rest);
    assert all[1..] == [("type", Str(kind))] + rest;
    assert all[1..][1..] == rest;
  }

  lemma FieldFound(fs: Fields, i: nat, name: string)
    requires ValidFields(fs) && i < |fs| && !Repeats(Names(fs)) && fs[i].0 == name
    ensures Field(MembersOf(fs), name) == Ok(fs[i].1)
  {
    LookupFinds(fs, i);
  }

  lemma IntegerFound(side: Side, fs: Fields, i: nat, name: string, n: nat)
    requires ReadsExactly(side) && n < 0x20_0000_0000_0000
    requires ValidFields(fs) && i < |fs| && !Repeats(Names(fs)) && fs[i] == (name, Num(n))
    ensures IntegerField(side, MembersOf(fs), name) == Ok(n)
  {
    FieldFound(fs, i, name);
    IntegerReadsBack(side, n);
  }

  lemma StringFound(fs: Fields, i: nat, name: string, s: string)
    requires ValidFields(fs) && i < |fs| && !Repeats(Names(fs)) && fs[i] == (name, Str(s))
    ensures StringField(MembersOf(fs), name) == Ok(s)
  {
    FieldFound(fs, i, name);
  }

  predicate Labelled(fs: Fields, kind: string) {
    |fs| >= 2 && fs[0] == ("version", Num(PROTOCOL_VERSION)) && fs[1] == ("type", Str(kind))
  }

  lemma LabelledHeader(side: Side, fs: Fields, kind: string)
    requires ReadsExactly(side) && ValidFields(fs) && Labelled(fs, kind) && !Repeats(Names(fs))
    ensures Header(side, MembersOf(fs)) == Ok(kind)
  {
    IntegerFound(side, fs, 0, "version", PROTOCOL_VERSION);
    StringFound(fs, 1, "type", kind);
  }

  /** Both decoders get as far as the fields of the message's own type. */
  lemma LabelledDecodes(side: Side, fs: Fields, kind: string)
    requires ReadsExactly(side) && ValidFields(fs) && Labelled(fs, kind) && !Repeats(Names(fs))
    requires forall i :: 0 <= i < |fs| ==> !HasDuplicate(fs[i].1)
    requires ValueBytes(Compact(fs)) < MAX_CONTROL_BYTES
    ensures Serialize(Compact(fs)) == Ok(Render(Compact(fs)))
    ensures Size(Render(Compact(fs))) == Some(ValueBytes(Compact(fs)))
    ensures DecodeClient(side, Render(Compact(fs))) == DecodeClientFields(side, MembersOf(fs), kind)
    ensures DecodeServer(side, Render(Compact(fs))) == DecodeServerFields(side, MembersOf(fs), kind)
  {
    CompactParses(side, fs);
    SizeOfValue(Compact(fs));
    LabelledHeader(side, fs, kind);
  }

  lemma TaggedIsLabelled(kind: string, rest: Fields)
    requires ValidFields(rest)
    requires Telling(["version", "type"] + Names(rest))
    requires forall i :: 0 <= i < |rest| ==> !HasDuplicate(rest[i].1)
    ensures var fs := Tagged(kind, rest);
            && |fs| == 2 + |rest| && fs[2..] == rest
            && Labelled(fs, kind) && !Repeats(Names(fs)) && Names(fs) == ["version", "type"] + Names(rest)
            && (forall i :: 0 <= i < |fs| ==> !HasDuplicate(fs[i].1))
  {
    TaggedNames(kind, rest);
    TellingNamesDiffer(["version", "type"] + Names(rest));
  }
}
