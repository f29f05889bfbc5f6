/**
 A reader of JSON texts, standing for `JSON.parse` and serde_json, which are not part of this
 model.  It finds the one tree a text renders from.
 */
module JsonParse {
  import opened Wrappers
  import opened Unicode
  import opened JsonText

  function WsRun(t: Units): (n: nat)
    ensures n <= |t| && Spaces(t[..n])
  {
    if t != [] && JsonSpace(t[0]) then 1 + WsRun(t[1..]) else 0
  }

  function PlainRun(t: Units): (n: nat)
    ensures n <= |t|
  {
    if t != [] && Plain(t[0]) then 1 + PlainRun(t[1..]) else 0
  }

  function ParseHex(t: Units): (r: Option<Item>)
    ensures r.Some? ==> |t| >= 6 && ValidHex(r.value) && HexUnits(r.value) == t[..6]
  {
    if |t| >= 6 && t[0] == BACKSLASH && t[1] == SMALL_U && HexDigits(t[2], t[3], t[4], t[5]) then
      Some(Hex(t[2], t[3], t[4], t[5]))
    else None
  }

  /** One character of a string, not at its closing quote. */
  function ParseItem(t: Units): (r: Option<Item>)
    requires t != []
    ensures
      r.Some? ==>
        && ValidItem(r.value)
        && |RenderItem(r.value)| <= |t| && RenderItem(r.value) == t[..|RenderItem(r.value)|]
  {
    if t[0] == BACKSLASH then
      if |t| >= 2 && ShortValue(t[1]) >= 0 then Some(Short(t[1]))
      else
        match ParseHex(t)
        case None => None
        case Some(first) =>
          if Low(UnitOf(first)) then None
          else if !High(UnitOf(first)) then Some(first)
          else
            match ParseHex(t[6..])
            case None => None
            case Some(second) => if Low(UnitOf(second)) then Some(HexPair(first, second)) else None
    else if t[0] < 0x20 || t[0] == QUOTE || Low(t[0]) then None
    else if !High(t[0]) then Some(Raw(t[0] as char))
    else if |t| >= 2 && Low(t[1]) then PairOf(t[0], t[1])
    else None
  }

  function PairOf(high: Unit, low: Unit): (r: Option<Item>)
    requires High(high) && Low(low)
    ensures r.Some? && ValidItem(r.value) && RenderItem(r.value) == [high, low]
  {
    var c := PairScalar(high, low);
    assert c as int - 0x1_0000 == 0x400 * (high as int - 0xD800) + (low as int - 0xDC00);
    Some(Raw(c))
  }

  /** The characters up to the closing quote, and what follows it. */
  function ParseItems(t: Units): (r: Option<(seq<Item>, Units)>)
    ensures r.Some? ==> |r.value.1| < |t| && ValidItems(r.value.0)
    decreases |t|
  {
    if t == [] then None
    else if t[0] == QUOTE then Some(([], t[1..]))
    else
      match ParseItem(t)
      case None => None
      case Some(item) =>
        match ParseItems(t[|RenderItem(item)|..])
        case None => None
        case Some((items, rest)) => Some(([item] + items, rest))
  }

  /** A literal or a number. */
  function ParseScalar(t: Units): (r: Option<(Value, Units)>)
    ensures r.Some? ==> |r.value.1| < |t| && Valid(r.value.0)
  {
    var n := PlainRun(t);
    if ValidLexeme(t[..n]) then Some((Scalar(t[..n]), t[n..])) else None
  }

  function ParseValue(t: Units): (r: Option<(Value, Units)>)
    ensures r.Some? ==> |r.value.1| < |t| && Valid(r.value.0)
    decreases |t|, 0
  {
    if t == [] then None
    else if t[0] == QUOTE then
      match ParseItems(t[1..])
      case None => None
      case Some((items, rest)) => Some((Text(items), rest))
    else if t[0] == OPEN_ARRAY then
      var n := WsRun(t[1..]);
      if 1 + n < |t| && t[1 + n] == CLOSE_ARRAY then Some((Array(t[1..][..n], NoElements), t[2 + n..]))
      else
        match ParseElements(t[1..])
        case None => None
        case Some((elements, rest)) => Some((Array([], elements), rest))
    else if t[0] == OPEN_OBJECT then
      var n := WsRun(t[1..]);
      if 1 + n < |t| && t[1 + n] == CLOSE_OBJECT then Some((Object(t[1..][..n], NoMembers), t[2 + n..]))
      else
        match ParseMembers(t[1..])
        case None => None
        case Some((members, rest)) => Some((Object([], members), rest))
    else ParseScalar(t)
  }

  /** A value with whitespace on both sides. */
  function ParseSpaced(t: Units): (r: Option<(Units, Value, Units, Units)>)
    ensures r.Some? ==> |r.value.3| < |t| && Spaces(r.value.0) && Valid(r.value.1) && Spaces(r.value.2)
    decreases |t|, 1
  {
    var n := WsRun(t);
    match ParseValue(t[n..])
    case None => None
    case Some((value, rest)) => var m := WsRun(rest); Some((t[..n], value, rest[..m], rest[m..]))
  }

  function ParseElements(t: Units): (r: Option<(Elements, Units)>)
    ensures r.Some? ==> |r.value.1| < |t| && r.value.0.Element? && ValidElements(r.value.0)
    decreases |t|, 2
  {
    match ParseSpaced(t)
    case None => None
    case Some((before, value, after, rest)) =>
      if rest != [] && rest[0] == CLOSE_ARRAY then Some((Element(before, value, after, NoElements), rest[1..]))
      else if rest != [] && rest[0] == COMMA then
        match ParseElements(rest[1..])
        case None => None
        case Some((more, tail)) => Some((Element(before, value, after, more), tail))
      else None
  }

  /** A key with whitespace on both sides and its colon. */
  function ParseKey(t: Units): (r: Option<(Units, seq<Item>, Units, Units)>)
    ensures r.Some? ==> |r.value.3| < |t| && Spaces(r.value.0) && ValidItems(r.value.1) && Spaces(r.value.2)
  {
    var n := WsRun(t);
    if n == |t| || t[n] != QUOTE then None
    else
      match ParseItems(t[n + 1..])
      case None => None
      case Some((key, rest)) =>
        var m := WsRun(rest);
        if m == |rest| || rest[m] != COLON then None else Some((t[..n], key, rest[..m], rest[m + 1..]))
  }

  function ParseMembers(t: Units): (r: Option<(Members, Units)>)
    ensures r.Some? ==> |r.value.1| < |t| && r.value.0.Member? && ValidMembers(r.value.0)
    decreases |t|, 2
  {
    match ParseKey(t)
    case None => None
    case Some((before, key, afterKey, afterColon)) =>
      match ParseSpaced(afterColon)
      case None => None
      case Some((beforeValue, value, after, rest)) =>
        if rest != [] && rest[0] == CLOSE_OBJECT then
          Some((Member(before, key, afterKey, beforeValue, value, after, NoMembers), rest[1..]))
        else if rest != [] && rest[0] == COMMA then
          match ParseMembers(rest[1..])
          case None => None
          case Some((more, tail)) => Some((Member(before, key, afterKey, beforeValue, value, after, more), tail))
        else None
  }

  function ParseDocument(t: Units): (r: Option<Document>)
    ensures r.Some? ==> ValidDocument(r.value)
  {
    match ParseSpaced(t)
    case None => None
    case Some((before, value, after, rest)) => if rest == [] then Some(Document(before, value, after)) else None
  }

  // ----- reading back what was rendered -----

  lemma {:induction false} WsRunOf(spaces: Units, rest: Units)
    requires Spaces(spaces) && (rest != [] ==> !JsonSpace(rest[0]))
    ensures WsRun(spaces + rest) == |spaces|
    ensures (spaces + rest)[..|spaces|] == spaces && (spaces + rest)[|spaces|..] == rest
  {
    if spaces == [] {
      assert spaces + rest == rest;
    } else {
      assert (spaces + rest)[1..] == spaces[1..] + rest;
      WsRunOf(spaces[1..], rest);
    }
  }

  lemma {:induction false} PlainRunOf(units: Units, rest: Units)
    requires (forall i :: 0 <= i < |units| ==> Plain(units[i])) && (rest != [] ==> !Plain(rest[0]))
    ensures PlainRun(units + rest) == |units|
    ensures (units + rest)[..|units|] == units && (units + rest)[|units|..] == rest
  {
    if units == [] {
      assert units + rest == rest;
    } else {
      assert (units + rest)[1..] == units[1..] + rest;
      PlainRunOf(units[1..], rest);
    }
  }

  lemma HexReadsBack(i: Item, rest: Units)
    requires ValidHex(i)
    ensures ParseHex(HexUnits(i) + rest) == Some(i) && (HexUnits(i) + rest)[6..] == rest
  {
  }

  lemma RawReadsBack(c: char, rest: Units)
    requires ValidItem(Raw(c))
    ensures ParseItem(Utf16(c) + rest) == Some(Raw(c))
  {
    Utf16Shape(c);
    if |Utf16(c)| == 2 {
      var read := PairOf(Utf16(c)[0], Utf16(c)[1]);
      assert Utf16(read.value.c) == Utf16(c);
      Utf16Determines(read.value.c, c);
    }
  }

  lemma ItemReadsBack(i: Item, rest: Units)
    requires ValidItem(i)
    ensures ParseItem(RenderItem(i) + rest) == Some(i)
    ensures (RenderItem(i) + rest)[|RenderItem(i)|..] == rest
  {
    match i {
      case Raw(c) => RawReadsBack(c, rest);
      case Short(letter) =>
      case Hex(_, _, _, _) => HexReadsBack(i, rest);
      case HexPair(high, low) =>
        Assoc(HexUnits(high), HexUnits(low), rest);
        HexReadsBack(high, HexUnits(low) + rest);
        HexReadsBack(low, rest);
    }
  }

  lemma {:induction false} ItemsReadBack(items: seq<Item>, rest: Units)
    requires ValidItems(items)
    ensures ParseItems(RenderItems(items) + ([QUOTE] + rest)) == Some((items, rest))
  {
    var t := RenderItems(items) + ([QUOTE] + rest);
    if items == [] {
      assert t == [QUOTE] + rest && t[1..] == rest;
    } else {
      var more := RenderItems(items[1..]) + ([QUOTE] + rest);
      Assoc(RenderItem(items[0]), RenderItems(items[1..]), [QUOTE] + rest);
      FirstUnit(items[0]);
      assert t[0] == RenderItem(items[0])[0];
      ItemReadsBack(items[0], more);
      ItemsReadBack(items[1..], rest);
      assert [items[0]] + items[1..] == items;
    }
  }

  lemma FirstUnit(i: Item)
    requires ValidItem(i)
    ensures RenderItem(i)[0] != QUOTE
  {
  }

  /** No value begins with whitespace or a closing bracket. */
  lemma RenderStarts(v: Value)
    requires Valid(v)
    ensures Render(v) != [] && !JsonSpace(Render(v)[0])
    ensures Render(v)[0] != CLOSE_ARRAY && Render(v)[0] != CLOSE_OBJECT && Render(v)[0] != COMMA
  {
  }

  /** What may follow a value: nothing that would extend a number or literal. */
  predicate Ends(rest: Units) {
    rest != [] ==> !Plain(rest[0])
  }

  lemma {:induction false} ValueReadsBack(v: Value, rest: Units)
    requires Valid(v) && Ends(rest)
    ensures ParseValue(Render(v) + rest) == Some((v, rest))
    decreases v, 0
  {
    match v {
      case Scalar(lexeme) =>
        PlainRunOf(lexeme, rest);
      case Text(items) =>
        ItemsReadBack(items, rest);
        QuotedTail(items, rest);
      case Array(empty, elements) =>
        if elements.NoElements? {
          EmptyReadsBack(OPEN_ARRAY, empty, CLOSE_ARRAY, rest);
        } else {
          ElementsReadBack(elements, rest);
          ArrayReadsBack(elements, rest);
        }
      case Object(empty, members) =>
        if members.NoMembers? {
          EmptyReadsBack(OPEN_OBJECT, empty, CLOSE_OBJECT, rest);
        } else {
          MembersReadBack(members, rest);
          ObjectReadsBack(members, rest);
        }
    }
  }

  lemma ArrayStep(t: Units, inner: Units)
    requires t != [] && t[0] == OPEN_ARRAY && t[1..] == inner
    requires WsRun(inner) < |inner| && inner[WsRun(inner)] != CLOSE_ARRAY
    requires ParseElements(inner).Some?
    ensures ParseValue(t) == Some((Array([], ParseElements(inner).value.0), ParseElements(inner).value.1))
  {
  }

  lemma ObjectStep(t: Units, inner: Units)
    requires t != [] && t[0] == OPEN_OBJECT && t[1..] == inner
    requires WsRun(inner) < |inner| && inner[WsRun(inner)] != CLOSE_OBJECT
    requires ParseMembers(inner).Some?
    ensures ParseValue(t) == Some((Object([], ParseMembers(inner).value.0), ParseMembers(inner).value.1))
  {
  }

  lemma ArrayReadsBack(es: Elements, rest: Units)
    requires ValidElements(es) && es.Element?
    requires ParseElements(RenderElements(es) + ([CLOSE_ARRAY] + rest)) == Some((es, rest))
    ensures ParseValue(Render(Array([], es)) + rest) == Some((Array([], es), rest))
  {
    var inner := RenderElements(es) + ([CLOSE_ARRAY] + rest);
    BracketedParts(OPEN_ARRAY, [], RenderElements(es), CLOSE_ARRAY, rest);
    ElementsOpen(es, [CLOSE_ARRAY] + rest);
    assert [] + inner == inner;
    ArrayStep(Render(Array([], es)) + rest, inner);
  }

  lemma ObjectReadsBack(ms: Members, rest: Units)
    requires ValidMembers(ms) && ms.Member?
    requires ParseMembers(RenderMembers(ms) + ([CLOSE_OBJECT] + rest)) == Some((ms, rest))
    ensures ParseValue(Render(Object([], ms)) + rest) == Some((Object([], ms), rest))
  {
    var inner := RenderMembers(ms) + ([CLOSE_OBJECT] + rest);
    BracketedParts(OPEN_OBJECT, [], RenderMembers(ms), CLOSE_OBJECT, rest);
    MembersOpen(ms, [CLOSE_OBJECT] + rest);
    assert [] + inner == inner;
    ObjectStep(Render(Object([], ms)) + rest, inner);
  }

  lemma EmptyReadsBack(open: Unit, empty: Units, close: Unit, rest: Units)
    requires Spaces(empty)
    requires (open == OPEN_ARRAY && close == CLOSE_ARRAY) || (open == OPEN_OBJECT && close == CLOSE_OBJECT)
    ensures var v := if open == OPEN_ARRAY then Array(empty, NoElements) else Object(empty, NoMembers);
            ParseValue([open] + empty + [] + [close] + rest) == Some((v, rest))
  {
    var t := [open] + empty + [] + [close] + rest;
    var tail := [close] + rest;
    BracketedParts(open, empty, [], close, rest);
    assert [] + tail == tail;
    WsRunOf(empty, tail);
    assert t[1..] == empty + tail && t[2 + |empty|..] == (empty + tail)[|empty|..][1..];
    assert t[1 + |empty|] == close && t[0] == open;
    assert tail[1..] == rest;
  }

  /** A nonempty list does not look like an empty one. */
  lemma ElementsOpen(es: Elements, tail: Units)
    requires ValidElements(es) && es.Element?
    ensures var t := RenderElements(es) + tail;
            WsRun(t) < |t| && t[WsRun(t)] != CLOSE_ARRAY
  {
    ElementsSplit(es, tail);
    RenderStarts(es.value);
    WsRunOf(es.before,
            Render(es.value) + (es.after + (Separator(es.rest.NoElements?) + (RenderElements(es.rest) + tail))));
  }

  lemma MembersOpen(ms: Members, tail: Units)
    requires ValidMembers(ms) && ms.Member?
    ensures var t := RenderMembers(ms) + tail;
            WsRun(t) < |t| && t[WsRun(t)] != CLOSE_OBJECT
  {
    MembersSplit(ms, tail);
    var fromValue := Render(ms.value) + (ms.after + (Separator(ms.rest.NoMembers?) + (RenderMembers(ms.rest) + tail)));
    var fromKey := RenderString(ms.key) + (ms.afterKey + ([COLON] + (ms.beforeValue + fromValue)));
    WsRunOf(ms.before, fromKey);
  }

  lemma {:induction false} SpacedReadsBack(before: Units, value: Value, after: Units, rest: Units)
    requires Spaces(before) && Valid(value) && Spaces(after)
    requires rest != [] ==> !JsonSpace(rest[0]) && !Plain(rest[0])
    ensures ParseSpaced(before + (Render(value) + (after + rest))) == Some((before, value, after, rest))
    decreases value, 1
  {
    RenderStarts(value);
    WsRunOf(before, Render(value) + (after + rest));
    WsRunOf(after, rest);
    assert Ends(after + rest);
    ValueReadsBack(value, after + rest);
  }

  lemma {:induction false} ElementsReadBack(es: Elements, rest: Units)
    requires ValidElements(es) && es.Element?
    ensures ParseElements(RenderElements(es) + ([CLOSE_ARRAY] + rest)) == Some((es, rest))
    decreases es, 2
  {
    var tail := [CLOSE_ARRAY] + rest;
    var more := RenderElements(es.rest) + tail;
    var separated := Separator(es.rest.NoElements?) + more;
    ElementsSplit(es, tail);
    if es.rest.NoElements? {
      assert more == tail && separated == tail;
      assert separated[0] == CLOSE_ARRAY && separated[1..] == rest;
    } else {
      ElementsReadBack(es.rest, rest);
      assert separated[0] == COMMA && separated[1..] == more;
    }
    SpacedReadsBack(es.before, es.value, es.after, separated);
  }

  lemma QuotedTail(items: seq<Item>, rest: Units)
    requires ValidItems(items)
    ensures var t := RenderString(items) + rest;
            t[0] == QUOTE && t[1..] == RenderItems(items) + ([QUOTE] + rest)
  {
    QuotedParts(RenderItems(items), rest);
  }

  lemma KeyReadsBack(before: Units, key: seq<Item>, afterKey: Units, more: Units)
    requires Spaces(before) && ValidItems(key) && Spaces(afterKey)
    ensures ParseKey(before + (RenderString(key) + (afterKey + ([COLON] + more)))) ==
            Some((before, key, afterKey, more))
  {
    var fromColon := [COLON] + more;
    var fromKey := RenderString(key) + (afterKey + fromColon);
    var t := before + fromKey;
    WsRunOf(before, fromKey);
    WsRunOf(afterKey, fromColon);
    ItemsReadBack(key, afterKey + fromColon);
    QuotedTail(key, afterKey + fromColon);
    assert t[|before|] == fromKey[0] && t[|before| + 1..] == t[|before|..][1..];
    assert (afterKey + fromColon)[|afterKey|] == COLON;
    assert (afterKey + fromColon)[|afterKey| + 1..] == (afterKey + fromColon)[|afterKey|..][1..];
    assert fromColon[1..] == more;
  }

  lemma MembersStep(t: Units, ms: Members, afterColon: Units, separated: Units, rest: Units)
    requires ms.Member?
    requires ParseKey(t) == Some((ms.before, ms.key, ms.afterKey, afterColon))
    requires ParseSpaced(afterColon) == Some((ms.beforeValue, ms.value, ms.after, separated))
    requires separated != []
    requires if ms.rest.NoMembers? then separated[0] == CLOSE_OBJECT && separated[1..] == rest
             else separated[0] == COMMA && ParseMembers(separated[1..]) == Some((ms.rest, rest))
    ensures ParseMembers(t) == Some((ms, rest))
  {
  }

  lemma {:induction false} MembersReadBack(ms: Members, rest: Units)
    requires ValidMembers(ms) && ms.Member?
    ensures ParseMembers(RenderMembers(ms) + ([CLOSE_OBJECT] + rest)) == Some((ms, rest))
    decreases ms, 2
  {
    var tail := [CLOSE_OBJECT] + rest;
    var more := RenderMembers(ms.rest) + tail;
    var separated := Separator(ms.rest.NoMembers?) + more;
    var afterColon := ms.beforeValue + (Render(ms.value) + (ms.after + separated));
    MembersSplit(ms, tail);
    if ms.rest.NoMembers? {
      assert more == tail && separated == tail;
      assert separated[0] == CLOSE_OBJECT && separated[1..] == rest;
    } else {
      MembersReadBack(ms.rest, rest);
      assert separated[0] == COMMA && separated[1..] == more;
    }
    KeyReadsBack(ms.before, ms.key, ms.afterKey, afterColon);
    SpacedReadsBack(ms.beforeValue, ms.value, ms.after, separated);
    MembersStep(RenderMembers(ms) + tail, ms, afterColon, separated, rest);
  }

  /** A text has at most one tree, and the reader finds it. */
  lemma DocumentReadsBack(d: Document)
    requires ValidDocument(d)
    ensures ParseDocument(RenderDocument(d)) == Some(d)
  {
    assert d.after + [] == d.after;
    SpacedReadsBack(d.before, d.value, d.after, []);
  }

  // ----- rendering what was read -----

  lemma {:induction false} ItemsRender(t: Units)
    requires ParseItems(t).Some?
    ensures var (items, rest) := ParseItems(t).value;
            t == RenderItems(items) + ([QUOTE] + rest)
    decreases |t|
  {
    var (items, rest) := ParseItems(t).value;
    if t[0] != QUOTE {
      var item := ParseItem(t).value;
      var more := t[|RenderItem(item)|..];
      ItemsRender(more);
      assert items[1..] == ParseItems(more).value.0 && items[0] == item;
      Cut(t, |RenderItem(item)|);
      Assoc(RenderItem(item), RenderItems(items[1..]), [QUOTE] + rest);
    }
  }

  lemma {:induction false} ValueRenders(t: Units)
    requires ParseValue(t).Some?
    ensures var (v, rest) := ParseValue(t).value;
            t == Render(v) + rest
    decreases |t|, 0
  {
    var inside := t[1..];
    Cut(t, 1);
    if t[0] == QUOTE {
      ItemsRender(inside);
      StringRenders(t);
    } else if t[0] == OPEN_ARRAY {
      if !EmptyFollows(inside, CLOSE_ARRAY) {
        ElementsRender(inside);
      }
      ArrayRenders(t, inside);
    } else if t[0] == OPEN_OBJECT {
      if !EmptyFollows(inside, CLOSE_OBJECT) {
        MembersRender(inside);
      }
      ObjectRenders(t, inside);
    } else {
      Cut(t, PlainRun(t));
    }
  }

  lemma Cut(t: Units, n: nat)
    requires n <= |t|
    ensures t == t[..n] + t[n..]
  {
  }

  lemma Following(t: Units, n: nat)
    requires n < |t|
    ensures t[n..] == [t[n]] + t[n + 1..]
  {
  }

  predicate EmptyFollows(inside: Units, close: Unit) {
    WsRun(inside) < |inside| && inside[WsRun(inside)] == close
  }

  lemma StringRenders(t: Units)
    requires ParseValue(t).Some? && t[0] == QUOTE
    requires var (items, rest) := ParseItems(t[1..]).value;
             t[1..] == RenderItems(items) + ([QUOTE] + rest)
    ensures var (v, rest) := ParseValue(t).value;
            t == Render(v) + rest
  {
    var (items, rest) := ParseItems(t[1..]).value;
    Cut(t, 1);
    Assoc([QUOTE] + RenderItems(items), [QUOTE], rest);
    Assoc([QUOTE], RenderItems(items), [QUOTE] + rest);
  }

  lemma EmptyBody(inside: Units, close: Unit)
    requires EmptyFollows(inside, close)
    ensures inside == inside[..WsRun(inside)] + ([] + ([close] + inside[WsRun(inside) + 1..]))
  {
    Cut(inside, WsRun(inside));
    Following(inside, WsRun(inside));
    assert [] + inside[WsRun(inside)..] == inside[WsRun(inside)..];
  }

  lemma ArrayParts(t: Units, inside: Units)
    requires ParseValue(t).Some? && t[0] == OPEN_ARRAY && inside == t[1..]
    requires EmptyFollows(inside, CLOSE_ARRAY) ||
             var (es, rest) := ParseElements(inside).value;
             inside == RenderElements(es) + ([CLOSE_ARRAY] + rest)
    ensures var (v, rest) := ParseValue(t).value;
            v.Array? && inside == v.empty + (RenderElements(v.elements) + ([CLOSE_ARRAY] + rest))
  {
    var (v, rest) := ParseValue(t).value;
    if EmptyFollows(inside, CLOSE_ARRAY) {
      EmptyBody(inside, CLOSE_ARRAY);
      assert rest == inside[WsRun(inside) + 1..];
    } else {
      assert inside == [] + inside;
    }
  }

  lemma ArrayRenders(t: Units, inside: Units)
    requires ParseValue(t).Some? && t[0] == OPEN_ARRAY && inside == t[1..]
    requires EmptyFollows(inside, CLOSE_ARRAY) ||
             var (es, rest) := ParseElements(inside).value;
             inside == RenderElements(es) + ([CLOSE_ARRAY] + rest)
    ensures var (v, rest) := ParseValue(t).value;
            t == Render(v) + rest
  {
    var (v, rest) := ParseValue(t).value;
    Cut(t, 1);
    ArrayParts(t, inside);
    ArrayFromParts(t, inside, v, rest);
  }

  lemma ArrayFromParts(t: Units, inside: Units, v: Value, rest: Units)
    requires Valid(v) && v.Array? && t == [OPEN_ARRAY] + inside
    requires inside == v.empty + (RenderElements(v.elements) + ([CLOSE_ARRAY] + rest))
    ensures t == Render(v) + rest
  {
    BracketedParts(OPEN_ARRAY, v.empty, RenderElements(v.elements), CLOSE_ARRAY, rest);
  }

  lemma ObjectParts(t: Units, inside: Units)
    requires ParseValue(t).Some? && t[0] == OPEN_OBJECT && inside == t[1..]
    requires EmptyFollows(inside, CLOSE_OBJECT) ||
             var (ms, rest) := ParseMembers(inside).value;
             inside == RenderMembers(ms) + ([CLOSE_OBJECT] + rest)
    ensures var (v, rest) := ParseValue(t).value;
            v.Object? && inside == v.empty + (RenderMembers(v.members) + ([CLOSE_OBJECT] + rest))
  {
    var (v, rest) := ParseValue(t).value;
    if EmptyFollows(inside, CLOSE_OBJECT) {
      EmptyBody(inside, CLOSE_OBJECT);
      assert rest == inside[WsRun(inside) + 1..];
    } else {
      assert inside == [] + inside;
    }
  }

  lemma ObjectRenders(t: Units, inside: Units)
    requires ParseValue(t).Some? && t[0] == OPEN_OBJECT && inside == t[1..]
    requires EmptyFollows(inside, CLOSE_OBJECT) ||
             var (ms, rest) := ParseMembers(inside).value;
             inside == RenderMembers(ms) + ([CLOSE_OBJECT] + rest)
    ensures var (v, rest) := ParseValue(t).value;
            t == Render(v) + rest
  {
    var (v, rest) := ParseValue(t).value;
    Cut(t, 1);
    ObjectParts(t, inside);
    ObjectFromParts(t, inside, v, rest);
  }

  lemma ObjectFromParts(t: Units, inside: Units, v: Value, rest: Units)
    requires Valid(v) && v.Object? && t == [OPEN_OBJECT] + inside
    requires inside == v.empty + (RenderMembers(v.members) + ([CLOSE_OBJECT] + rest))
    ensures t == Render(v) + rest
  {
    BracketedParts(OPEN_OBJECT, v.empty, RenderMembers(v.members), CLOSE_OBJECT, rest);
  }

  lemma {:induction false} SpacedRenders(t: Units)
    requires ParseSpaced(t).Some?
    ensures var (before, value, after, rest) := ParseSpaced(t).value;
            t == before + (Render(value) + (after + rest))
    decreases |t|, 1
  {
    var n := WsRun(t);
    ValueRenders(t[n..]);
    var tail := ParseValue(t[n..]).value.1;
    Cut(tail, WsRun(tail));
    Cut(t, n);
  }

  lemma {:induction false} ElementsRender(t: Units)
    requires ParseElements(t).Some?
    ensures var (es, rest) := ParseElements(t).value;
            t == RenderElements(es) + ([CLOSE_ARRAY] + rest)
    decreases |t|, 2
  {
    var (es, rest) := ParseElements(t).value;
    var tail := ParseSpaced(t).value.3;
    SpacedRenders(t);
    Following(tail, 0);
    ElementsSplit(es, [CLOSE_ARRAY] + rest);
    if es.rest.NoElements? {
      assert tail == [] + ([] + ([CLOSE_ARRAY] + rest));
    } else {
      ElementsRender(tail[1..]);
    }
  }

  lemma KeyRenders(t: Units)
    requires ParseKey(t).Some?
    ensures var (before, key, afterKey, rest) := ParseKey(t).value;
            t == before + (RenderString(key) + (afterKey + ([COLON] + rest)))
  {
    var n := WsRun(t);
    var (before, key, afterKey, rest) := ParseKey(t).value;
    ItemsRender(t[n + 1..]);
    var tail := ParseItems(t[n + 1..]).value.1;
    var m := WsRun(tail);
    Cut(tail, m);
    Following(tail, m);
    Cut(t, n);
    Following(t, n);
    KeyFromParts(t[n..], t[n + 1..], key, tail);
  }

  lemma KeyFromParts(t: Units, inside: Units, key: seq<Item>, tail: Units)
    requires ValidItems(key) && t == [QUOTE] + inside && inside == RenderItems(key) + ([QUOTE] + tail)
    ensures t == RenderString(key) + tail
  {
    Assoc([QUOTE] + RenderItems(key), [QUOTE], tail);
    Assoc([QUOTE], RenderItems(key), [QUOTE] + tail);
  }

  lemma {:induction false} MembersRender(t: Units)
    requires ParseMembers(t).Some?
    ensures var (ms, rest) := ParseMembers(t).value;
            t == RenderMembers(ms) + ([CLOSE_OBJECT] + rest)
    decreases |t|, 2
  {
    var (ms, rest) := ParseMembers(t).value;
    var afterColon := ParseKey(t).value.3;
    var tail := ParseSpaced(afterColon).value.3;
    KeyRenders(t);
    SpacedRenders(afterColon);
    Following(tail, 0);
    MembersSplit(ms, [CLOSE_OBJECT] + rest);
    if ms.rest.NoMembers? {
      assert tail == [] + ([] + ([CLOSE_OBJECT] + rest));
    } else {
      MembersRender(tail[1..]);
    }
  }

  /** Whatever is read is spelt by the tree that was found. */
  lemma DocumentRenders(t: Units)
    requires ParseDocument(t).Some?
    ensures RenderDocument(ParseDocument(t).value) == t
  {
    SpacedRenders(t);
    var after := ParseSpaced(t).value.2;
    assert after + [] == after;
  }
}
