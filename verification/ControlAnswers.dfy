/**
 What the decoders of both sides answer to any text, in terms of the JSON object it spells: its
 keys, each once, and the values under them.
 */
module ControlAnswers {
  import opened Wrappers
  import opened Unicode
  import opened JsonText
  import opened JsonParse
  import opened JsonDuplicates
  import opened ControlCodec
  import opened ControlRoundTrip

  // ----- what an object says -----

  function KeySet(ms: Members): set<string>
    requires ValidMembers(ms)
  {
    set k | k in Keys(ms)
  }

  function Values(ms: Members): (vs: seq<Value>)
    requires ValidMembers(ms)
    ensures |vs| == |Keys(ms)|
  {
    match ms
    case NoMembers => []
    case Member(_, _, _, _, value, _, rest) => [value] + Values(rest)
  }

  /** Some member of the object has this key and this value. */
  predicate Holds(ms: Members, name: string, v: Value)
    requires ValidMembers(ms)
  {
    exists i :: 0 <= i < |Keys(ms)| && Keys(ms)[i] == name && Values(ms)[i] == v
  }

  ghost predicate Says(ms: Members, name: string, s: string)
    requires ValidMembers(ms)
  {
    exists v :: Holds(ms, name, v) && IsString(v, s)
  }

  predicate IsString(v: Value, s: string) {
    v.Text? && ValidItems(v.items) && Decoded(v.items) == s
  }

  ghost predicate Numbers(side: Side, ms: Members, name: string, n: int)
    requires ValidMembers(ms)
  {
    exists v :: Holds(ms, name, v) && IsNumber(side, v, n)
  }

  /** The server takes plain decimals below 2^64, a browser whatever it reads as an integer. */
  predicate IsNumber(side: Side, v: Value, n: int) {
    && v.Scalar? && NumberLexeme(v.lexeme)
    && match side
       case Server => DigitUnits(v.lexeme) && n == DecimalValue(v.lexeme) && n < 0x1_0000_0000_0000_0000
       case Browser(read) => read(v.lexeme) == Some(n)
  }

  lemma {:induction false} HeldKeys(ms: Members, i: nat)
    requires ValidMembers(ms) && i < |Keys(ms)|
    ensures ms.Member?
    ensures Keys(ms)[i] == if i == 0 then Decoded(ms.key) else Keys(ms.rest)[i - 1]
    ensures Values(ms)[i] == if i == 0 then ms.value else Values(ms.rest)[i - 1]
  {
  }

  lemma {:induction false} LookupIsHeld(ms: Members, name: string)
    requires ValidMembers(ms) && !Repeats(Keys(ms))
    ensures Lookup(ms, name).None? <==> name !in Keys(ms)
    ensures forall v :: Lookup(ms, name) == Some(v) <==> Holds(ms, name, v)
  {
    if ms.Member? {
      var ks, rest := Keys(ms), Keys(ms.rest);
      assert ks[1..] == rest && forall i :: 0 <= i < |rest| ==> ks[i + 1] == rest[i];
      assert ks[0] == Decoded(ms.key);
      assert !Repeats(rest);
      LookupIsHeld(ms.rest, name);
      forall v ensures Holds(ms, name, v) <==> (ks[0] == name && ms.value == v) || Holds(ms.rest, name, v) {
        HoldsInRest(ms, name, v);
      }
      if ks[0] == name {
        assert name !in rest;
      }
    }
  }

  lemma HoldsInRest(ms: Members, name: string, v: Value)
    requires ValidMembers(ms) && ms.Member?
    ensures Holds(ms, name, v) <==> (Decoded(ms.key) == name && ms.value == v) || Holds(ms.rest, name, v)
  {
    if Holds(ms, name, v) {
      var i :| 0 <= i < |Keys(ms)| && Keys(ms)[i] == name && Values(ms)[i] == v;
      HeldKeys(ms, i);
      if i > 0 {
        assert Keys(ms.rest)[i - 1] == name && Values(ms.rest)[i - 1] == v;
      }
    }
    if Decoded(ms.key) == name && ms.value == v {
      HeldKeys(ms, 0);
    }
    if Holds(ms.rest, name, v) {
      var i :| 0 <= i < |Keys(ms.rest)| && Keys(ms.rest)[i] == name && Values(ms.rest)[i] == v;
      HeldKeys(ms, i + 1);
    }
  }

  /** Reading a field finds what the object holds under the name. */
  lemma FieldAnswersExactly(side: Side, ms: Members, name: string)
    requires ValidMembers(ms) && !Repeats(Keys(ms))
    ensures Field(ms, name) == Err(MissingField) <==> name !in KeySet(ms)
    ensures forall s :: StringField(ms, name) == Ok(s) <==> Says(ms, name, s)
    ensures forall n :: IntegerField(side, ms, name) == Ok(n) <==> Numbers(side, ms, name, n)
    ensures StringField(ms, name) == Err(MissingField) || IntegerField(side, ms, name) == Err(MissingField) <==>
            name !in KeySet(ms)
    ensures StringField(ms, name).Err? && name in KeySet(ms) ==> StringField(ms, name) == Err(InvalidField)
    ensures IntegerField(side, ms, name).Err? && name in KeySet(ms) ==>
              IntegerField(side, ms, name) == Err(InvalidField)
  {
    LookupIsHeld(ms, name);
    if Lookup(ms, name).Some? {
      var v := Lookup(ms, name).value;
      assert Holds(ms, name, v);
      forall u | Holds(ms, name, u) ensures u == v {
        assert Lookup(ms, name) == Some(u);
      }
    }
  }

  function Named(expected: seq<string>): set<string> {
    set n | n in expected
  }

  /** Of the keys a message must have: all and no other, some missing, or all and another. */
  lemma KeysAnswerExactly(ms: Members, expected: seq<string>)
    requires ValidMembers(ms)
    ensures KeyFault(ms, expected) == None <==> KeySet(ms) == Named(expected)
    ensures KeyFault(ms, expected) == Some(MissingField) <==> !(Named(expected) <= KeySet(ms))
    ensures KeyFault(ms, expected) == Some(UnknownField) <==> Named(expected) < KeySet(ms)
  {
    if forall i :: 0 <= i < |expected| ==> expected[i] in Keys(ms) {
      assert Named(expected) <= KeySet(ms);
    } else {
      var i :| 0 <= i < |expected| && expected[i] !in Keys(ms);
      assert expected[i] in Named(expected);
    }
    if exists i :: 0 <= i < |Keys(ms)| && Keys(ms)[i] !in expected {
      var i :| 0 <= i < |Keys(ms)| && Keys(ms)[i] !in expected;
      assert Keys(ms)[i] in KeySet(ms) && Keys(ms)[i] !in Named(expected);
    } else {
      assert KeySet(ms) <= Named(expected);
    }
  }

  // ----- the text -----

  /** The text is short enough, and is an object in which no object repeats a key. */
  predicate Sound(t: Units) {
    && Size(t).Some? && Size(t).value <= MAX_CONTROL_BYTES
    && ParseDocument(t).Some? && ParseDocument(t).value.value.Object?
    && !HasDuplicate(ParseDocument(t).value.value)
  }

  function Object(t: Units): (ms: Members)
    requires Sound(t)
    ensures ValidMembers(ms) && !Repeats(Keys(ms)) && !AnyMember(ms)
  {
    ParseDocument(t).value.value.members
  }

  lemma {:induction false} MeasuredIsSize(t: Units, bytes: nat, limit: nat)
    requires bytes <= limit && Measure(t, bytes, limit).Some? && Measure(t, bytes, limit).value <= limit
    ensures Size(t) == Some(Measure(t, bytes, limit).value - bytes)
    decreases |t|
  {
    if t != [] {
      if High(t[0]) {
        if |t| > 1 {
          MeasuredIsSize(t[2..], bytes + 4, limit);
        } else {
          assert Measure([], bytes + 4, limit) == Some(bytes + 4);
        }
      } else {
        MeasuredIsSize(t[1..], bytes + UnitBytes(t[0]), limit);
      }
    }
  }

  /** Exactly the sound texts get past the reader, whichever side looks for duplicates. */
  lemma TextAnswersExactly(side: Side, t: Units)
    ensures ParseControl(side, t).Ok? <==> Sound(t)
    ensures Sound(t) ==> ParseControl(side, t) == Ok(Object(t))
    ensures Size(t).Some? ==>
      && (ParseControl(side, t) == Err(ControlTooLarge) <==> Size(t).value > MAX_CONTROL_BYTES)
      && (Size(t).value <= MAX_CONTROL_BYTES && ParseDocument(t).Some? ==>
            && (ParseControl(side, t) == Err(DuplicateField) <==> HasDuplicate(ParseDocument(t).value.value))
            && (ParseControl(side, t) == Err(InvalidControl) <==>
                  !HasDuplicate(ParseDocument(t).value.value) && !ParseDocument(t).value.value.Object?))
      && (Size(t).value <= MAX_CONTROL_BYTES && ParseDocument(t).None? ==>
            ParseControl(side, t) == Err(if side.Browser? && Scan(t, []) then DuplicateField else MalformedControl))
    ensures Size(t).None? ==> ParseControl(side, t) in {Err(ControlTooLarge), Err(MalformedControl)}
  {
    if Size(t).Some? {
      MeasureDecides(t, 0, MAX_CONTROL_BYTES);
    }
    var measure := Measure(t, 0, MAX_CONTROL_BYTES);
    if measure.Some? && measure.value <= MAX_CONTROL_BYTES {
      MeasuredIsSize(t, 0, MAX_CONTROL_BYTES);
    }
    if ParseDocument(t).Some? {
      DetectorsAgreeOnTexts(t);
    }
  }

  /** What is wrong with a text for either decoder before it is an object. */
  predicate TextError(e: ProtocolError) {
    e == ControlTooLarge || e == MalformedControl || e == DuplicateField || e == InvalidControl
  }

  lemma UnsoundIsATextError(side: Side, t: Units)
    requires !Sound(t)
    ensures ParseControl(side, t).Err? && TextError(ParseControl(side, t).error)
  {
    TextAnswersExactly(side, t);
  }

  // ----- the header -----

  ghost predicate Versioned(side: Side, ms: Members)
    requires ValidMembers(ms)
  {
    Numbers(side, ms, "version", 1)
  }

  /** Version and type of a message, or what is wrong with them, in the order they are looked at. */
  lemma HeaderAnswersExactly(side: Side, ms: Members)
    requires ValidMembers(ms) && !Repeats(Keys(ms))
    ensures forall kind :: Header(side, ms) == Ok(kind) <==> Versioned(side, ms) && Says(ms, "type", kind)
    ensures Header(side, ms) == Err(UnsupportedVersion) <==> exists n :: n != 1 && Numbers(side, ms, "version", n)
    ensures Header(side, ms) == Err(MissingField) <==>
            "version" !in KeySet(ms) || (Versioned(side, ms) && "type" !in KeySet(ms))
    ensures Header(side, ms).Err? ==>
            Header(side, ms).error in {MissingField, InvalidField, UnsupportedVersion}
  {
    FieldAnswersExactly(side, ms, "version");
    FieldAnswersExactly(side, ms, "type");
    var version := IntegerField(side, ms, "version");
    if version.Ok? {
      assert Numbers(side, ms, "version", version.value);
      forall n | Numbers(side, ms, "version", n) ensures n == version.value {
        assert version == Ok(n);
      }
    }
  }

  // ----- the client's messages -----

  const RESIZE_NAMES := ["version", "type", "cols", "rows"]
  const CLOSE_NAMES := ["version", "type"]
  const EXIT_NAMES := ["version", "type", "status"]
  const ERROR_NAMES := ["version", "type", "code", "message"]
  const CLOSED_NAMES := ["version", "type", "reason"]

  /** The object is this message and nothing else. */
  ghost predicate IsClient(side: Side, ms: Members, m: ClientControl)
    requires ValidMembers(ms)
  {
    && Versioned(side, ms)
    && match m
       case Resize(cols, rows) =>
         && Says(ms, "type", "resize") && KeySet(ms) == Named(RESIZE_NAMES)
         && Numbers(side, ms, "cols", cols) && 1 <= cols <= 4096
         && Numbers(side, ms, "rows", rows) && 1 <= rows <= 4096
       case Close => Says(ms, "type", "close") && KeySet(ms) == Named(CLOSE_NAMES)
  }

  lemma DimensionAnswersExactly(side: Side, ms: Members, name: string)
    requires ValidMembers(ms) && !Repeats(Keys(ms))
    ensures forall n :: Dimension(side, ms, name) == Ok(n) <==> Numbers(side, ms, name, n) && 1 <= n <= 4096
    ensures Dimension(side, ms, name).Err? && name in KeySet(ms) ==> Dimension(side, ms, name) == Err(InvalidField)
  {
    FieldAnswersExactly(side, ms, name);
  }

  lemma SaysOneThing(ms: Members, name: string, s: string, other: string)
    requires ValidMembers(ms) && !Repeats(Keys(ms)) && Says(ms, name, s) && Says(ms, name, other)
    ensures s == other
  {
    FieldAnswersExactly(Server, ms, name);
    assert StringField(ms, name) == Ok(s) && StringField(ms, name) == Ok(other);
  }

  lemma ResizeAnswersExactly(side: Side, ms: Members)
    requires ValidMembers(ms) && !Repeats(Keys(ms)) && Versioned(side, ms) && Says(ms, "type", "resize")
    ensures forall m :: DecodeClientFields(side, ms, "resize") == Ok(m) <==> IsClient(side, ms, m)
    ensures DecodeClientFields(side, ms, "resize") == Err(MissingField) <==> !(Named(RESIZE_NAMES) <= KeySet(ms))
    ensures DecodeClientFields(side, ms, "resize") == Err(UnknownField) <==> Named(RESIZE_NAMES) < KeySet(ms)
    ensures DecodeClientFields(side, ms, "resize").Err? ==>
            DecodeClientFields(side, ms, "resize").error in {MissingField, UnknownField, InvalidField}
  {
    KeysAnswerExactly(ms, RESIZE_NAMES);
    assert RESIZE_NAMES[2] == "cols" && RESIZE_NAMES[3] == "rows";
    DimensionAnswersExactly(side, ms, "cols");
    DimensionAnswersExactly(side, ms, "rows");
    forall m | IsClient(side, ms, m) ensures m.Resize? {
      if m.Close? {
        SaysOneThing(ms, "type", "resize", "close");
      }
    }
  }

  lemma CloseAnswersExactly(side: Side, ms: Members)
    requires ValidMembers(ms) && !Repeats(Keys(ms)) && Versioned(side, ms) && Says(ms, "type", "close")
    ensures forall m :: DecodeClientFields(side, ms, "close") == Ok(m) <==> IsClient(side, ms, m)
    ensures DecodeClientFields(side, ms, "close") == Err(InvalidDirection) <==> "reason" in KeySet(ms)
    ensures DecodeClientFields(side, ms, "close") == Err(MissingField) <==>
            "reason" !in KeySet(ms) && !(Named(CLOSE_NAMES) <= KeySet(ms))
    ensures DecodeClientFields(side, ms, "close") == Err(UnknownField) <==>
            "reason" !in KeySet(ms) && Named(CLOSE_NAMES) < KeySet(ms)
  {
    KeysAnswerExactly(ms, CLOSE_NAMES);
    NotAName("reason", "version", "type");
    forall m | IsClient(side, ms, m) ensures m.Close? {
      if m.Resize? {
        SaysOneThing(ms, "type", "close", "resize");
      }
    }
  }

  lemma NotAName(name: string, a: string, b: string)
    requires name != a && name != b
    ensures name !in Named([a, b])
  {
  }

  /** The object is a message of this type, whose own keys are all there, with another one besides. */
  ghost predicate HasStrangeKey(side: Side, ms: Members, kind: string, names: seq<string>)
    requires ValidMembers(ms)
  {
    Versioned(side, ms) && Says(ms, "type", kind) && Named(names) < KeySet(ms)
  }

  lemma ClientFieldsAnswerExactly(side: Side, ms: Members, kind: string)
    requires ValidMembers(ms) && !Repeats(Keys(ms)) && Versioned(side, ms) && Says(ms, "type", kind)
    ensures forall m :: DecodeClientFields(side, ms, kind) == Ok(m) <==> IsClient(side, ms, m)
    ensures DecodeClientFields(side, ms, kind) == Err(UnknownField) <==>
            || HasStrangeKey(side, ms, "resize", RESIZE_NAMES)
            || (HasStrangeKey(side, ms, "close", CLOSE_NAMES) && "reason" !in KeySet(ms))
    ensures DecodeClientFields(side, ms, kind) == Err(InvalidDirection) <==>
            kind == "exit-status" || kind == "error" || (kind == "close" && "reason" in KeySet(ms))
    ensures DecodeClientFields(side, ms, kind) == Err(UnknownMessageType) <==>
            kind != "resize" && kind != "close" && kind != "exit-status" && kind != "error"
    ensures DecodeClientFields(side, ms, kind) != Err(UnsupportedVersion)
    ensures DecodeClientFields(side, ms, kind).Err? ==> !TextError(DecodeClientFields(side, ms, kind).error)
  {
    if Says(ms, "type", "resize") {
      SaysOneThing(ms, "type", kind, "resize");
    }
    if Says(ms, "type", "close") {
      SaysOneThing(ms, "type", kind, "close");
    }
    if kind == "resize" {
      ResizeAnswersExactly(side, ms);
    } else if kind == "close" {
      CloseAnswersExactly(side, ms);
    }
  }

  /** The text is this message, whichever side wrote it. */
  ghost predicate SpellsClient(side: Side, t: Units, m: ClientControl) {
    Sound(t) && IsClient(side, Object(t), m)
  }

  lemma ClientIsTyped(side: Side, ms: Members, m: ClientControl)
    requires ValidMembers(ms) && IsClient(side, ms, m)
    ensures exists kind :: Says(ms, "type", kind)
  {
    match m {
      case Resize(_, _) => assert Says(ms, "type", "resize");
      case Close => assert Says(ms, "type", "close");
    }
  }

  lemma DecodesByFields(side: Side, t: Units, kind: string)
    requires Sound(t) && Versioned(side, Object(t)) && Says(Object(t), "type", kind)
    ensures DecodeClient(side, t) == DecodeClientFields(side, Object(t), kind)
    ensures DecodeServer(side, t) == DecodeServerFields(side, Object(t), kind)
  {
    TextAnswersExactly(side, t);
    HeaderAnswersExactly(side, Object(t));
  }

  /** Otherwise both decoders answer what is wrong with the text or with its header. */
  lemma DecodesNoFurther(side: Side, t: Units)
    requires !(Sound(t) && Versioned(side, Object(t)) && exists kind :: Says(Object(t), "type", kind))
    ensures DecodeClient(side, t).Err? && DecodeServer(side, t) == Err(DecodeClient(side, t).error)
    ensures DecodeClient(side, t).error !in {UnknownField, InvalidDirection, UnknownMessageType}
    ensures !Sound(t) ==> TextError(DecodeClient(side, t).error)
    ensures Sound(t) ==>
      && (DecodeClient(side, t) == Err(UnsupportedVersion) <==>
            exists n :: n != 1 && Numbers(side, Object(t), "version", n))
      && (DecodeClient(side, t) == Err(MissingField) <==>
            || "version" !in KeySet(Object(t))
            || (Versioned(side, Object(t)) && "type" !in KeySet(Object(t))))
      && DecodeClient(side, t).error in {MissingField, InvalidField, UnsupportedVersion}
  {
    TextAnswersExactly(side, t);
    if Sound(t) {
      HeaderAnswersExactly(side, Object(t));
    } else {
      UnsoundIsATextError(side, t);
    }
  }

  /**
   A text decodes to a client's message exactly when it is short enough, repeats no key, and its
   object holds the version 1, the type, and the fields of that message under exactly their names.
   */
  lemma ClientDecodesExactly(side: Side, t: Units, m: ClientControl)
    ensures DecodeClient(side, t) == Ok(m) <==> SpellsClient(side, t, m)
  {
    if Sound(t) && Versioned(side, Object(t)) && exists kind :: Says(Object(t), "type", kind) {
      var kind :| Says(Object(t), "type", kind);
      DecodesByFields(side, t, kind);
      ClientFieldsAnswerExactly(side, Object(t), kind);
    } else {
      DecodesNoFurther(side, t);
      if SpellsClient(side, t, m) {
        ClientIsTyped(side, Object(t), m);
      }
    }
  }

  /** An unknown field is named exactly when all keys of the message's type are there and another one is. */
  lemma ClientNamesUnknownFieldExactly(side: Side, t: Units)
    ensures DecodeClient(side, t) == Err(UnknownField) <==>
            && Sound(t)
            && (|| HasStrangeKey(side, Object(t), "resize", RESIZE_NAMES)
                || (HasStrangeKey(side, Object(t), "close", CLOSE_NAMES) && "reason" !in KeySet(Object(t))))
  {
    if Sound(t) && Versioned(side, Object(t)) && exists kind :: Says(Object(t), "type", kind) {
      var kind :| Says(Object(t), "type", kind);
      DecodesByFields(side, t, kind);
      ClientFieldsAnswerExactly(side, Object(t), kind);
    } else {
      DecodesNoFurther(side, t);
    }
  }

  // ----- the server's messages -----

  lemma {:induction false} HeldValues(ms: Members, i: nat)
    requires ValidMembers(ms) && i < |Keys(ms)|
    ensures Valid(Values(ms)[i]) && (!AnyMember(ms) ==> !HasDuplicate(Values(ms)[i]))
  {
    HeldKeys(ms, i);
    if i > 0 {
      HeldValues(ms.rest, i - 1);
    }
  }

  lemma HeldIsValid(ms: Members, name: string, v: Value)
    requires ValidMembers(ms) && Holds(ms, name, v)
    ensures Valid(v) && (!AnyMember(ms) ==> !HasDuplicate(v))
  {
    var i :| 0 <= i < |Keys(ms)| && Keys(ms)[i] == name && Values(ms)[i] == v;
    HeldValues(ms, i);
  }

  const CODE_NAMES := ["kind", "code"]
  const SIGNAL_NAMES := ["kind", "signal"]
  const UNAVAILABLE_NAMES := ["kind"]

  /** The value is an object of its own, which is this status and nothing else. */
  ghost predicate IsStatus(side: Side, v: Value, status: ExitStatus) {
    && v.Object? && ValidMembers(v.members)
    && match status
       case Code(n) =>
         && Says(v.members, "kind", "code") && KeySet(v.members) == Named(CODE_NAMES)
         && Numbers(side, v.members, "code", n) && 0 <= n <= 255
       case Signal(n) =>
         && Says(v.members, "kind", "signal") && KeySet(v.members) == Named(SIGNAL_NAMES)
         && Numbers(side, v.members, "signal", n) && 1 <= n <= 127
       case Unavailable => Says(v.members, "kind", "unavailable") && KeySet(v.members) == Named(UNAVAILABLE_NAMES)
  }

  ghost predicate StrangeStatus(v: Value) {
    && v.Object? && ValidMembers(v.members)
    && (|| (Says(v.members, "kind", "code") && Named(CODE_NAMES) < KeySet(v.members))
        || (Says(v.members, "kind", "signal") && Named(SIGNAL_NAMES) < KeySet(v.members))
        || (Says(v.members, "kind", "unavailable") && Named(UNAVAILABLE_NAMES) < KeySet(v.members)))
  }

  lemma KindIsOne(ms: Members, kind: string)
    requires ValidMembers(ms) && !Repeats(Keys(ms)) && Says(ms, "kind", kind)
    ensures forall other :: Says(ms, "kind", other) <==> other == kind
  {
    forall other | Says(ms, "kind", other) ensures other == kind {
      SaysOneThing(ms, "kind", kind, other);
    }
  }

  lemma CodeAnswersExactly(side: Side, v: Value)
    requires Valid(v) && v.Object? && !Repeats(Keys(v.members)) && Says(v.members, "kind", "code")
    ensures forall status :: ParseExitStatus(side, v) == Ok(status) <==> IsStatus(side, v, status)
    ensures ParseExitStatus(side, v) == Err(UnknownField) <==> StrangeStatus(v)
  {
    var ms := v.members;
    KindIsOne(ms, "code");
    KeysAnswerExactly(ms, CODE_NAMES);
    FieldAnswersExactly(side, ms, "kind");
    assert CODE_NAMES[1] == "code";
    FieldAnswersExactly(side, ms, "code");
  }

  lemma SignalAnswersExactly(side: Side, v: Value)
    requires Valid(v) && v.Object? && !Repeats(Keys(v.members)) && Says(v.members, "kind", "signal")
    ensures forall status :: ParseExitStatus(side, v) == Ok(status) <==> IsStatus(side, v, status)
    ensures ParseExitStatus(side, v) == Err(UnknownField) <==> StrangeStatus(v)
  {
    var ms := v.members;
    KindIsOne(ms, "signal");
    KeysAnswerExactly(ms, SIGNAL_NAMES);
    FieldAnswersExactly(side, ms, "kind");
    assert SIGNAL_NAMES[1] == "signal";
    FieldAnswersExactly(side, ms, "signal");
  }

  lemma UnavailableAnswersExactly(side: Side, v: Value)
    requires Valid(v) && v.Object? && !Repeats(Keys(v.members)) && Says(v.members, "kind", "unavailable")
    ensures forall status :: ParseExitStatus(side, v) == Ok(status) <==> IsStatus(side, v, status)
    ensures ParseExitStatus(side, v) == Err(UnknownField) <==> StrangeStatus(v)
  {
    KindIsOne(v.members, "unavailable");
    KeysAnswerExactly(v.members, UNAVAILABLE_NAMES);
    FieldAnswersExactly(side, v.members, "kind");
  }

  lemma OtherKindAnswersExactly(side: Side, v: Value)
    requires Valid(v) && v.Object? && !Repeats(Keys(v.members))
    requires !Says(v.members, "kind", "code") && !Says(v.members, "kind", "signal")
    requires !Says(v.members, "kind", "unavailable")
    ensures ParseExitStatus(side, v) == Err(if "kind" in KeySet(v.members) then InvalidField else MissingField)
    ensures !StrangeStatus(v) && forall status :: !IsStatus(side, v, status)
  {
    FieldAnswersExactly(side, v.members, "kind");
    var kind := StringField(v.members, "kind");
    if kind.Ok? {
      assert Says(v.members, "kind", kind.value);
    }
  }

  /** A status object is read exactly when it is one, and has an unknown field exactly when one is there besides. */
  lemma StatusAnswersExactly(side: Side, v: Value)
    requires Valid(v) && !HasDuplicate(v)
    ensures forall status :: ParseExitStatus(side, v) == Ok(status) <==> IsStatus(side, v, status)
    ensures ParseExitStatus(side, v) == Err(UnknownField) <==> StrangeStatus(v)
  {
    if v.Object? {
      if Says(v.members, "kind", "code") {
        CodeAnswersExactly(side, v);
      } else if Says(v.members, "kind", "signal") {
        SignalAnswersExactly(side, v);
      } else if Says(v.members, "kind", "unavailable") {
        UnavailableAnswersExactly(side, v);
      } else {
        OtherKindAnswersExactly(side, v);
      }
    }
  }

  ghost predicate IsServer(side: Side, ms: Members, m: ServerControl)
    requires ValidMembers(ms)
  {
    && Versioned(side, ms)
    && match m
       case Exit(status) =>
         && Says(ms, "type", "exit-status") && KeySet(ms) == Named(EXIT_NAMES)
         && exists v :: Holds(ms, "status", v) && IsStatus(side, v, status)
       case Error(code, message) =>
         && Says(ms, "type", "error") && KeySet(ms) == Named(ERROR_NAMES)
         && Says(ms, "code", code) && ValidCode(code)
         && Says(ms, "message", message) && ValidMessage(side, message)
       case Closed(reason) =>
         && Says(ms, "type", "close") && KeySet(ms) == Named(CLOSED_NAMES) && Says(ms, "reason", ReasonName(reason))
  }

  /** The type of the server's message, if it is one. */
  function KindOf(m: ServerControl): string {
    match m
    case Exit(_) => "exit-status"
    case Error(_, _) => "error"
    case Closed(_) => "close"
  }

  lemma ServerIsTyped(side: Side, ms: Members, m: ServerControl)
    requires ValidMembers(ms) && IsServer(side, ms, m)
    ensures Says(ms, "type", KindOf(m))
  {
  }

  lemma ServerIsOfItsType(side: Side, ms: Members, kind: string, m: ServerControl)
    requires ValidMembers(ms) && !Repeats(Keys(ms)) && Says(ms, "type", kind) && IsServer(side, ms, m)
    ensures KindOf(m) == kind
  {
    ServerIsTyped(side, ms, m);
    SaysOneThing(ms, "type", kind, KindOf(m));
  }

  /** A message with a strange key, at the top or in its status. */
  ghost predicate HasStrangeStatus(side: Side, ms: Members)
    requires ValidMembers(ms)
  {
    && Versioned(side, ms) && Says(ms, "type", "exit-status") && KeySet(ms) == Named(EXIT_NAMES)
    && exists v :: Holds(ms, "status", v) && StrangeStatus(v)
  }

  lemma FieldIsHeld(ms: Members, name: string)
    requires ValidMembers(ms) && !Repeats(Keys(ms)) && name in Keys(ms)
    ensures Field(ms, name).Ok? && Holds(ms, name, Field(ms, name).value)
    ensures forall v :: Holds(ms, name, v) ==> v == Field(ms, name).value
  {
    LookupIsHeld(ms, name);
    var found := Lookup(ms, name);
    assert Holds(ms, name, found.value);
    forall v | Holds(ms, name, v) ensures v == found.value {
      assert Lookup(ms, name) == Some(v);
    }
  }

  lemma ExitAnswersExactly(side: Side, ms: Members)
    requires ValidMembers(ms) && !Repeats(Keys(ms)) && !AnyMember(ms)
    requires Versioned(side, ms) && Says(ms, "type", "exit-status")
    ensures forall m :: DecodeServerFields(side, ms, "exit-status") == Ok(m) <==> IsServer(side, ms, m)
    ensures DecodeServerFields(side, ms, "exit-status") == Err(UnknownField) <==>
            Named(EXIT_NAMES) < KeySet(ms) || HasStrangeStatus(side, ms)
  {
    KeysAnswerExactly(ms, EXIT_NAMES);
    assert EXIT_NAMES[2] == "status";
    if KeySet(ms) == Named(EXIT_NAMES) {
      assert "status" in Named(EXIT_NAMES);
      FieldIsHeld(ms, "status");
      var v := Field(ms, "status").value;
      HeldIsValid(ms, "status", v);
      StatusAnswersExactly(side, v);
    }
    forall m | IsServer(side, ms, m) ensures m.Exit? {
      ServerIsOfItsType(side, ms, "exit-status", m);
    }
  }

  lemma ErrorAnswersExactly(side: Side, ms: Members)
    requires ValidMembers(ms) && !Repeats(Keys(ms)) && Versioned(side, ms) && Says(ms, "type", "error")
    ensures forall m :: DecodeServerFields(side, ms, "error") == Ok(m) <==> IsServer(side, ms, m)
    ensures DecodeServerFields(side, ms, "error") == Err(UnknownField) <==> Named(ERROR_NAMES) < KeySet(ms)
  {
    KeysAnswerExactly(ms, ERROR_NAMES);
    assert ERROR_NAMES[2] == "code" && ERROR_NAMES[3] == "message";
    FieldAnswersExactly(side, ms, "code");
    FieldAnswersExactly(side, ms, "message");
    forall m | IsServer(side, ms, m) ensures m.Error? {
      ServerIsOfItsType(side, ms, "error", m);
    }
  }

  lemma ReasonIsItsName(name: string, reason: CloseReason)
    ensures ReasonOf(name) == Some(reason) <==> name == ReasonName(reason)
  {
  }

  lemma ThreeNamesNeedThreeKeys(ms: Members, a: string, b: string, c: string)
    requires ValidMembers(ms) && a != b && a != c && b != c && a in Keys(ms) && b in Keys(ms) && c in Keys(ms)
    ensures |Keys(ms)| >= 3
  {
    var i :| 0 <= i < |Keys(ms)| && Keys(ms)[i] == a;
    var j :| 0 <= j < |Keys(ms)| && Keys(ms)[j] == b;
    var k :| 0 <= k < |Keys(ms)| && Keys(ms)[k] == c;
  }

  lemma ClosedNeedsThreeKeys(ms: Members)
    requires ValidMembers(ms) && Named(CLOSED_NAMES) <= KeySet(ms)
    ensures |Keys(ms)| >= 3
  {
    assert CLOSED_NAMES[0] in Named(CLOSED_NAMES) && CLOSED_NAMES[1] in Named(CLOSED_NAMES);
    assert CLOSED_NAMES[2] in Named(CLOSED_NAMES);
    ThreeNamesNeedThreeKeys(ms, "version", "type", "reason");
  }

  /** What is left to say of a close once its keys are those it must have. */
  lemma ReasonAnswersExactly(side: Side, ms: Members, reason: CloseReason)
    requires ValidMembers(ms) && !Repeats(Keys(ms)) && KeyFault(ms, ["version", "type", "reason"]) == None
    requires |Keys(ms)| >= 3
    ensures DecodeServerFields(side, ms, "close") == Ok(Closed(reason)) <==> Says(ms, "reason", ReasonName(reason))
    ensures DecodeServerFields(side, ms, "close") != Err(UnknownField)
    ensures DecodeServerFields(side, ms, "close") != Err(InvalidDirection)
  {
    FieldAnswersExactly(side, ms, "reason");
    assert ["version", "type", "reason"][2] == "reason";
    var name := StringField(ms, "reason");
    if name.Ok? {
      ReasonIsItsName(name.value, reason);
    }
  }

  lemma ClosedAnswersExactly(side: Side, ms: Members)
    requires ValidMembers(ms) && !Repeats(Keys(ms)) && Versioned(side, ms) && Says(ms, "type", "close")
    ensures forall m :: DecodeServerFields(side, ms, "close") == Ok(m) <==> IsServer(side, ms, m)
    ensures DecodeServerFields(side, ms, "close") == Err(InvalidDirection) <==> |Keys(ms)| == 2
    ensures DecodeServerFields(side, ms, "close") == Err(UnknownField) <==> Named(CLOSED_NAMES) < KeySet(ms)
  {
    KeysAnswerExactly(ms, CLOSED_NAMES);
    if Named(CLOSED_NAMES) <= KeySet(ms) {
      ClosedNeedsThreeKeys(ms);
    }
    forall m | IsServer(side, ms, m) ensures m.Closed? {
      ServerIsOfItsType(side, ms, "close", m);
    }
    if KeySet(ms) == Named(CLOSED_NAMES) {
      forall reason
        ensures DecodeServerFields(side, ms, "close") == Ok(Closed(reason)) <==> Says(ms, "reason", ReasonName(reason))
      {
        ReasonAnswersExactly(side, ms, reason);
      }
      ReasonAnswersExactly(side, ms, Policy);
    }
    forall m | DecodeServerFields(side, ms, "close") == Ok(m) ensures m.Closed? && KeySet(ms) == Named(CLOSED_NAMES) {
      OnlyClosedIsAnswered(side, ms, m);
    }
  }

  lemma OnlyClosedIsAnswered(side: Side, ms: Members, m: ServerControl)
    requires ValidMembers(ms) && DecodeServerFields(side, ms, "close") == Ok(m)
    ensures m.Closed? && KeyFault(ms, ["version", "type", "reason"]) == None
  {
  }

  lemma ServerFieldsAnswerExactly(side: Side, ms: Members, kind: string)
    requires ValidMembers(ms) && !Repeats(Keys(ms)) && !AnyMember(ms)
    requires Versioned(side, ms) && Says(ms, "type", kind)
    ensures forall m :: DecodeServerFields(side, ms, kind) == Ok(m) <==> IsServer(side, ms, m)
    ensures DecodeServerFields(side, ms, kind) == Err(UnknownField) <==>
            || HasStrangeKey(side, ms, "exit-status", EXIT_NAMES) || HasStrangeStatus(side, ms)
            || HasStrangeKey(side, ms, "error", ERROR_NAMES) || HasStrangeKey(side, ms, "close", CLOSED_NAMES)
    ensures kind == "resize" ==> DecodeServerFields(side, ms, kind) == Err(InvalidDirection)
    ensures kind == "close" ==> (DecodeServerFields(side, ms, kind) == Err(InvalidDirection) <==> |Keys(ms)| == 2)
    ensures kind !in {"exit-status", "error", "close", "resize"} ==>
              DecodeServerFields(side, ms, kind) == Err(UnknownMessageType)
  {
    TypeIsOne(ms, kind);
    if kind == "exit-status" {
      ExitAnswersExactly(side, ms);
    } else if kind == "error" {
      ErrorAnswersExactly(side, ms);
    } else if kind == "close" {
      ClosedAnswersExactly(side, ms);
    } else {
      forall m ensures !IsServer(side, ms, m) {
        if IsServer(side, ms, m) {
          ServerIsOfItsType(side, ms, kind, m);
        }
      }
    }
  }

  lemma TypeIsOne(ms: Members, kind: string)
    requires ValidMembers(ms) && !Repeats(Keys(ms)) && Says(ms, "type", kind)
    ensures forall other :: Says(ms, "type", other) <==> other == kind
  {
    forall other | Says(ms, "type", other) ensures other == kind {
      SaysOneThing(ms, "type", kind, other);
    }
  }

  ghost predicate SpellsServer(side: Side, t: Units, m: ServerControl) {
    Sound(t) && IsServer(side, Object(t), m)
  }

  /** The same for the server's messages, down to the status object inside an exit message. */
  lemma ServerDecodesExactly(side: Side, t: Units, m: ServerControl)
    ensures DecodeServer(side, t) == Ok(m) <==> SpellsServer(side, t, m)
  {
    if Sound(t) && Versioned(side, Object(t)) && exists kind :: Says(Object(t), "type", kind) {
      var kind :| Says(Object(t), "type", kind);
      DecodesByFields(side, t, kind);
      ServerFieldsAnswerExactly(side, Object(t), kind);
    } else {
      DecodesNoFurther(side, t);
      if SpellsServer(side, t, m) {
        ServerIsTyped(side, Object(t), m);
      }
    }
  }

  lemma ServerNamesUnknownFieldExactly(side: Side, t: Units)
    ensures DecodeServer(side, t) == Err(UnknownField) <==>
            && Sound(t)
            && (|| HasStrangeKey(side, Object(t), "exit-status", EXIT_NAMES)
                || HasStrangeStatus(side, Object(t))
                || HasStrangeKey(side, Object(t), "error", ERROR_NAMES)
                || HasStrangeKey(side, Object(t), "close", CLOSED_NAMES))
  {
    if Sound(t) && Versioned(side, Object(t)) && exists kind :: Says(Object(t), "type", kind) {
      var kind :| Says(Object(t), "type", kind);
      DecodesByFields(side, t, kind);
      ServerFieldsAnswerExactly(side, Object(t), kind);
    } else {
      DecodesNoFurther(side, t);
    }
  }

  // ----- the encoders -----

  /** An encoder writes exactly the messages within its ranges, and refuses all others as an invalid field. */
  lemma ClientEncodesExactly(m: ClientControl)
    ensures EncodeClient(m).Ok? <==> (m.Resize? ==> 1 <= m.cols <= 4096 && 1 <= m.rows <= 4096)
    ensures EncodeClient(m).Err? ==> EncodeClient(m) == Err(InvalidField)
  {
    if Encodable(m) {
      DecodedClientEncodes(m);
    }
  }

  lemma ServerEncodesExactly(side: Side, m: ServerControl)
    ensures EncodeServer(side, m).Ok? <==>
            match m
            case Exit(Code(code)) => 0 <= code <= 255
            case Exit(Signal(signal)) => 1 <= signal <= 127
            case Exit(Unavailable) => true
            case Error(code, message) => ValidCode(code) && ValidMessage(side, message)
            case Closed(_) => true
    ensures EncodeServer(side, m).Err? ==> EncodeServer(side, m) == Err(InvalidField)
  {
    if ServerEncodable(side, m) {
      DecodedServerEncodes(side, m);
    }
  }

  // ----- error codes -----

  predicate WordCharacter(c: char) {
    'a' <= c <= 'z' || '0' <= c <= '9'
  }

  predicate Word(w: string) {
    w != [] && forall i :: 0 <= i < |w| ==> WordCharacter(w[i])
  }

  predicate Words(ws: seq<string>) {
    ws != [] && forall i :: 0 <= i < |ws| ==> Word(ws[i])
  }

  function Hyphenated(ws: seq<string>): string {
    if ws == [] then []
    else if |ws| == 1 then ws[0]
    else ws[0] + ['-'] + Hyphenated(ws[1..])
  }

  /** No hyphen at either end and no two in a row. */
  predicate WellHyphenated(s: string) {
    && s != [] && s[0] != '-' && s[|s| - 1] != '-'
    && (forall i :: 0 <= i < |s| ==> WordCharacter(s[i]) || s[i] == '-')
    && (forall i :: 0 < i < |s| ==> !(s[i - 1] == '-' && s[i] == '-'))
  }

  lemma {:induction false} HyphenatedSplits(s: string) returns (ws: seq<string>)
    requires WellHyphenated(s)
    ensures Words(ws) && Hyphenated(ws) == s
    decreases |s|
  {
    if '-' in s {
      var i := FirstHyphen(s);
      var rest := s[i + 1..];
      assert rest[0] == s[i + 1] && rest[|rest| - 1] == s[|s| - 1];
      assert forall j :: 0 <= j < |rest| ==> rest[j] == s[i + 1 + j];
      var more := HyphenatedSplits(rest);
      ws := [s[..i]] + more;
      assert ws[1..] == more && s == s[..i] + ['-'] + rest;
    } else {
      ws := [s];
    }
  }

  lemma FirstHyphen(s: string) returns (i: nat)
    requires WellHyphenated(s) && '-' in s
    ensures 0 < i < |s| - 1 && s[i] == '-' && s[i + 1] != '-' && Word(s[..i])
  {
    i := 0;
    while s[i] != '-'
      invariant i < |s| && forall j :: 0 <= j < i ==> s[j] != '-'
      invariant exists j :: i <= j < |s| && s[j] == '-'
      decreases |s| - i
    {
      i := i + 1;
    }
  }

  lemma {:induction false} JoinedIsWellHyphenated(ws: seq<string>)
    requires Words(ws)
    ensures WellHyphenated(Hyphenated(ws)) && Hyphenated(ws)[0] == ws[0][0]
  {
    if |ws| > 1 {
      var rest := Hyphenated(ws[1..]);
      JoinedIsWellHyphenated(ws[1..]);
      var s := ws[0] + ['-'] + rest;
      forall i | 0 <= i < |s| ensures WordCharacter(s[i]) || s[i] == '-' {
        if i > |ws[0]| {
          assert s[i] == rest[i - |ws[0]| - 1];
        }
      }
      forall i | 0 < i < |s| ensures !(s[i - 1] == '-' && s[i] == '-') {
        if i > |ws[0]| + 1 {
          assert s[i] == rest[i - |ws[0]| - 1] && s[i - 1] == rest[i - |ws[0]| - 2];
        }
      }
      assert s[|s| - 1] == rest[|rest| - 1];
    }
  }

  /** An error code is valid exactly when it is lower-case words joined by hyphens, led by a letter. */
  lemma CodesAreHyphenatedWords(code: string)
    ensures ValidCode(code) <==>
            |code| <= 64 && exists ws :: Words(ws) && Hyphenated(ws) == code && 'a' <= ws[0][0] <= 'z'
  {
    if ValidCode(code) {
      var ws := HyphenatedSplits(code);
      JoinedIsWellHyphenated(ws);
    }
    forall ws | Words(ws) && Hyphenated(ws) == code ensures WellHyphenated(code) && code[0] == ws[0][0] {
      JoinedIsWellHyphenated(ws);
    }
  }

  // ----- messages -----

  lemma {:induction false} PlainTextIsAsLong(s: string)
    ensures |ToUtf16(s)| >= |s|
    ensures |ToUtf16(s)| == |s| <==> forall i :: 0 <= i < |s| ==> !Astral(s[i])
  {
    if s != [] {
      PlainTextIsAsLong(s[1..]);
      assert forall i :: 0 < i < |s| ==> s[i] == s[1..][i - 1];
      assert (forall i :: 0 <= i < |s| ==> !Astral(s[i])) <==>
             !Astral(s[0]) && forall i :: 0 <= i < |s[1..]| ==> !Astral(s[1..][i]);
    }
  }

  /**
   A message is valid exactly when it is short, has no control character and, in a browser, as many
   units as characters.
   */
  lemma MessagesAreShortAndPlain(side: Side, message: string)
    ensures ValidMessage(side, message) <==>
            && message != "" && |message| < 257
            && (forall c :: c in message ==> ' ' <= c && c as int != 127)
            && (side.Browser? ==> |ToUtf16(message)| == |message|)
  {
    PlainTextIsAsLong(message);
    assert forall i :: 0 <= i < |message| ==> message[i] in message;
  }
}
