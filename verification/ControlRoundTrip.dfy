/** Every control that is written is understood, by the right reader and no other. */
module ControlRoundTrip {
  import opened Wrappers
  import opened Unicode
  import opened JsonText
  import opened JsonParse
  import opened JsonDuplicates
  import opened ControlCodec
  import opened ControlWire

  // ----- the messages -----

  /** What a message written with these fields amounts to on the wire. */
  lemma TaggedDecodes(side: Side, kind: string, rest: Fields)
    requires ReadsExactly(side) && ValidFields(rest)
    requires Telling(["version", "type"] + Names(rest))
    requires forall i :: 0 <= i < |rest| ==> !HasDuplicate(rest[i].1)
    requires 92 + 6 * |kind| + Budget(rest) < MAX_CONTROL_BYTES
    ensures var fs := Tagged(kind, rest);
            && Fits(Compact(fs))
            && DecodeClient(side, Render(Compact(fs))) == DecodeClientFields(side, MembersOf(fs), kind)
            && DecodeServer(side, Render(Compact(fs))) == DecodeServerFields(side, MembersOf(fs), kind)
  {
    var fs := Tagged(kind, rest);
    TaggedIsLabelled(kind, rest);
    TaggedBudget(kind, rest);
    CompactBudget(fs);
    LabelledDecodes(side, fs, kind);
  }

  predicate Fits(v: Value)
    requires Valid(v)
  {
    Serialize(v) == Ok(Render(v)) && Size(Render(v)).Some? && Size(Render(v)).value < MAX_CONTROL_BYTES
  }

  lemma NamesOfTwo(a: (string, Value), b: (string, Value))
    ensures Names([a, b]) == [a.0, b.0]
  {
    assert [a, b][1..] == [b];
  }

  /** Fields that carry these names and values, in this order. */
  predicate Carries(fs: Fields, names: seq<string>) {
    ValidFields(fs) && Names(fs) == names && !Repeats(names)
  }

  lemma TaggedCarries(kind: string, rest: Fields)
    requires ValidFields(rest)
    requires Telling(["version", "type"] + Names(rest))
    requires forall i :: 0 <= i < |rest| ==> !HasDuplicate(rest[i].1)
    ensures var fs := Tagged(kind, rest);
            |fs| == 2 + |rest| && Carries(fs, ["version", "type"] + Names(rest)) &&
            forall i :: 0 <= i < |rest| ==> fs[i + 2] == rest[i]
  {
    TaggedIsLabelled(kind, rest);
    AfterTwo(Tagged(kind, rest), rest);
  }

  lemma AfterTwo(fs: Fields, rest: Fields)
    requires |fs| == 2 + |rest| && fs[2..] == rest
    ensures forall i :: 0 <= i < |rest| ==> fs[i + 2] == rest[i]
  {
    forall i | 0 <= i < |rest| ensures fs[i + 2] == rest[i] {
      assert fs[2..][i] == rest[i];
    }
  }

  lemma BudgetOfTwo(a: (string, Value), b: (string, Value))
    requires Valid(a.1) && Valid(b.1)
    ensures Budget([a, b]) == 6 * |a.0| + 6 * |b.0| + 8 + ValueBytes(a.1) + ValueBytes(b.1)
  {
    BudgetOfPair(a, b, []);
    assert [a, b] + [] == [a, b];
  }

  /** What the decoders make of a message with two flat fields of its own. */
  lemma TwoFieldsDecode(side: Side, kind: string, a: (string, Value), b: (string, Value))
    requires ReadsExactly(side) && Valid(a.1) && Valid(b.1) && Flat(a.1) && Flat(b.1)
    requires Telling(["version", "type", a.0, b.0])
    requires 100 + 6 * |kind| + 6 * |a.0| + 6 * |b.0| + ValueBytes(a.1) + ValueBytes(b.1) < MAX_CONTROL_BYTES
    ensures var fs := Tagged(kind, [a, b]);
            && Fits(Compact(fs)) && |fs| == 4 && fs[2] == a && fs[3] == b && Carries(fs, ["version", "type", a.0, b.0])
            && DecodeClient(side, Render(Compact(fs))) == DecodeClientFields(side, MembersOf(fs), kind)
            && DecodeServer(side, Render(Compact(fs))) == DecodeServerFields(side, MembersOf(fs), kind)
  {
    NamesOfTwo(a, b);
    BudgetOfTwo(a, b);
    assert ["version", "type"] + Names([a, b]) == ["version", "type", a.0, b.0];
    TaggedDecodes(side, kind, [a, b]);
    TaggedCarries(kind, [a, b]);
  }

  lemma ResizeRead(side: Side, ms: Members, cols: int, rows: int)
    requires ValidDimension(cols) && ValidDimension(rows)
    requires ValidMembers(ms) && KeyFault(ms, ["version", "type", "cols", "rows"]) == None
    requires IntegerField(side, ms, "cols") == Ok(cols) && IntegerField(side, ms, "rows") == Ok(rows)
    ensures DecodeClientFields(side, ms, "resize") == Ok(Resize(cols, rows))
    ensures DecodeServerFields(side, ms, "resize") == Err(InvalidDirection)
  {
  }

  lemma ResizeFieldsDecode(side: Side, fs: Fields, cols: nat, rows: nat)
    requires ReadsExactly(side) && ValidDimension(cols) && ValidDimension(rows)
    requires Carries(fs, ["version", "type", "cols", "rows"]) && fs[2].1 == Num(cols) && fs[3].1 == Num(rows)
    ensures DecodeClientFields(side, MembersOf(fs), "resize") == Ok(Resize(cols, rows))
    ensures DecodeServerFields(side, MembersOf(fs), "resize") == Err(InvalidDirection)
  {
    FieldsHaveNoFault(fs, ["version", "type", "cols", "rows"]);
    IntegerFound(side, fs, 2, "cols", cols);
    IntegerFound(side, fs, 3, "rows", rows);
    ResizeRead(side, MembersOf(fs), cols, rows);
  }

  lemma ResizeNames()
    ensures Telling(["version", "type", "cols", "rows"])
    ensures |"resize"| == 6 && |"cols"| == 4 && |"rows"| == 4
  {
  }

  lemma ResizeShape(side: Side, cols: nat, rows: nat)
    requires ReadsExactly(side) && ValidDimension(cols) && ValidDimension(rows)
    ensures var fs := ResizeFields(cols, rows);
            && Fits(Compact(fs)) && Carries(fs, ["version", "type", "cols", "rows"])
            && fs[2].1 == Num(cols) && fs[3].1 == Num(rows)
            && DecodeClient(side, Render(Compact(fs))) == DecodeClientFields(side, MembersOf(fs), "resize")
            && DecodeServer(side, Render(Compact(fs))) == DecodeServerFields(side, MembersOf(fs), "resize")
  {
    NumberBudget(cols);
    NumberBudget(rows);
    ResizeNames();
    TwoFieldsDecode(side, "resize", ("cols", Num(cols)), ("rows", Num(rows)));
  }

  lemma ResizeDecodes(side: Side, cols: nat, rows: nat)
    requires ReadsExactly(side) && ValidDimension(cols) && ValidDimension(rows)
    ensures var fs := ResizeFields(cols, rows);
            && Fits(Compact(fs))
            && DecodeClient(side, Render(Compact(fs))) == Ok(Resize(cols, rows))
            && DecodeServer(side, Render(Compact(fs))) == Err(InvalidDirection)
  {
    ResizeShape(side, cols, rows);
    ResizeFieldsDecode(side, ResizeFields(cols, rows), cols, rows);
  }

  lemma CloseRead(side: Side, ms: Members)
    requires ValidMembers(ms) && Keys(ms) == ["version", "type"] && KeyFault(ms, ["version", "type"]) == None
    ensures DecodeClientFields(side, ms, "close") == Ok(Close)
    ensures DecodeServerFields(side, ms, "close") == Err(InvalidDirection)
  {
    assert "reason" != "version" && "reason" != "type";
  }

  lemma CloseFieldsDecode(side: Side, fs: Fields)
    requires Carries(fs, ["version", "type"])
    ensures DecodeClientFields(side, MembersOf(fs), "close") == Ok(Close)
    ensures DecodeServerFields(side, MembersOf(fs), "close") == Err(InvalidDirection)
  {
    NamesAreKeys(fs);
    FieldsHaveNoFault(fs, ["version", "type"]);
    CloseRead(side, MembersOf(fs));
  }

  lemma CloseFieldsShape()
    ensures var fs := CloseFields();
            Labelled(fs, "close") && Carries(fs, ["version", "type"]) && ValueBytes(Compact(fs)) < MAX_CONTROL_BYTES
    ensures forall i :: 0 <= i < |CloseFields()| ==> !HasDuplicate(CloseFields()[i].1)
  {
    assert ["version", "type"] + Names([]) == ["version", "type"];
    TaggedIsLabelled("close", []);
    TaggedBudget("close", []);
    CompactBudget(CloseFields());
  }

  lemma CloseMessage(side: Side, fs: Fields)
    requires ReadsExactly(side) && Labelled(fs, "close") && Carries(fs, ["version", "type"])
    requires ValueBytes(Compact(fs)) < MAX_CONTROL_BYTES && forall i :: 0 <= i < |fs| ==> !HasDuplicate(fs[i].1)
    ensures Fits(Compact(fs))
    ensures DecodeClient(side, Render(Compact(fs))) == Ok(Close)
    ensures DecodeServer(side, Render(Compact(fs))) == Err(InvalidDirection)
  {
    LabelledDecodes(side, fs, "close");
    CloseFieldsDecode(side, fs);
  }

  lemma CloseDecodes(side: Side)
    requires ReadsExactly(side)
    ensures var fs := CloseFields();
            && Fits(Compact(fs))
            && DecodeClient(side, Render(Compact(fs))) == Ok(Close)
            && DecodeServer(side, Render(Compact(fs))) == Err(InvalidDirection)
  {
    CloseFieldsShape();
    CloseMessage(side, CloseFields());
  }

  /** What the decoders make of a message with one field of its own. */
  lemma OneFieldDecodes(side: Side, kind: string, name: string, v: Value)
    requires ReadsExactly(side) && Valid(v) && !HasDuplicate(v)
    requires Telling(["version", "type", name])
    requires 96 + 6 * |kind| + 6 * |name| + ValueBytes(v) < MAX_CONTROL_BYTES
    ensures var fs := Tagged(kind, Single(name, v));
            && Fits(Compact(fs)) && |fs| == 3 && fs[2] == (name, v) && Carries(fs, ["version", "type", name])
            && DecodeClient(side, Render(Compact(fs))) == DecodeClientFields(side, MembersOf(fs), kind)
            && DecodeServer(side, Render(Compact(fs))) == DecodeServerFields(side, MembersOf(fs), kind)
  {
    BudgetOfOne((name, v));
    assert Names([(name, v)]) == [name];
    assert ["version", "type"] + Names([(name, v)]) == ["version", "type", name];
    TaggedDecodes(side, kind, Single(name, v));
    TaggedCarries(kind, Single(name, v));
  }

  lemma ReasonReadsBack(reason: CloseReason)
    ensures ReasonOf(ReasonName(reason)) == Some(reason) && |ReasonName(reason)| <= 15
  {
  }

  lemma ClosedRead(side: Side, ms: Members, name: string, reason: CloseReason)
    requires ValidMembers(ms) && KeyFault(ms, ["version", "type", "reason"]) == None
    requires |Keys(ms)| == 3 && "reason" in Keys(ms)
    requires StringField(ms, "reason") == Ok(name) && ReasonOf(name) == Some(reason)
    ensures DecodeServerFields(side, ms, "close") == Ok(Closed(reason))
    ensures DecodeClientFields(side, ms, "close") == Err(InvalidDirection)
  {
  }

  lemma ClosedFieldsDecode(side: Side, fs: Fields, name: string, reason: CloseReason)
    requires Carries(fs, ["version", "type", "reason"]) && fs[2].1 == Str(name) && ReasonOf(name) == Some(reason)
    ensures DecodeServerFields(side, MembersOf(fs), "close") == Ok(Closed(reason))
    ensures DecodeClientFields(side, MembersOf(fs), "close") == Err(InvalidDirection)
  {
    NamesAreKeys(fs);
    FieldsHaveNoFault(fs, ["version", "type", "reason"]);
    assert Keys(MembersOf(fs))[2] == "reason";
    StringFound(fs, 2, "reason", name);
    ClosedRead(side, MembersOf(fs), name, reason);
  }

  lemma ClosedShape(side: Side, name: string)
    requires ReadsExactly(side) && |name| <= 15
    ensures var fs := ClosedFields(name);
            && Fits(Compact(fs)) && Carries(fs, ["version", "type", "reason"]) && fs[2].1 == Str(name)
            && DecodeClient(side, Render(Compact(fs))) == DecodeClientFields(side, MembersOf(fs), "close")
            && DecodeServer(side, Render(Compact(fs))) == DecodeServerFields(side, MembersOf(fs), "close")
  {
    StringBudget(name);
    OneFieldDecodes(side, "close", "reason", Str(name));
  }

  lemma ClosedDecodes(side: Side, name: string, reason: CloseReason)
    requires ReadsExactly(side) && ReasonOf(name) == Some(reason) && |name| <= 15
    ensures var fs := ClosedFields(name);
            && Fits(Compact(fs))
            && DecodeServer(side, Render(Compact(fs))) == Ok(Closed(reason))
            && DecodeClient(side, Render(Compact(fs))) == Err(InvalidDirection)
  {
    ClosedShape(side, name);
    ClosedFieldsDecode(side, ClosedFields(name), name, reason);
  }

  lemma ErrorRead(side: Side, ms: Members, code: string, message: string)
    requires ValidMembers(ms) && KeyFault(ms, ["version", "type", "code", "message"]) == None
    requires StringField(ms, "code") == Ok(code) && StringField(ms, "message") == Ok(message)
    ensures DecodeServerFields(side, ms, "error") ==
            if ValidCode(code) && ValidMessage(side, message) then Ok(Error(code, message)) else Err(InvalidField)
    ensures DecodeClientFields(side, ms, "error") == Err(InvalidDirection)
  {
  }

  lemma ErrorFieldsDecode(side: Side, fs: Fields, code: string, message: string)
    requires Carries(fs, ["version", "type", "code", "message"]) && fs[2].1 == Str(code) && fs[3].1 == Str(message)
    ensures DecodeServerFields(side, MembersOf(fs), "error") ==
            if ValidCode(code) && ValidMessage(side, message) then Ok(Error(code, message)) else Err(InvalidField)
    ensures DecodeClientFields(side, MembersOf(fs), "error") == Err(InvalidDirection)
  {
    FieldsHaveNoFault(fs, ["version", "type", "code", "message"]);
    StringFound(fs, 2, "code", code);
    StringFound(fs, 3, "message", message);
    ErrorRead(side, MembersOf(fs), code, message);
  }

  lemma ErrorShape(side: Side, code: string, message: string)
    requires ReadsExactly(side) && |code| <= 64 && |message| <= 256
    ensures var fs := ErrorFields(code, message);
            && Fits(Compact(fs)) && Carries(fs, ["version", "type", "code", "message"])
            && fs[2].1 == Str(code) && fs[3].1 == Str(message)
            && DecodeClient(side, Render(Compact(fs))) == DecodeClientFields(side, MembersOf(fs), "error")
            && DecodeServer(side, Render(Compact(fs))) == DecodeServerFields(side, MembersOf(fs), "error")
  {
    StringBudget(code);
    StringBudget(message);
    TwoFieldsDecode(side, "error", ("code", Str(code)), ("message", Str(message)));
  }

  lemma ErrorDecodes(side: Side, code: string, message: string)
    requires ReadsExactly(side) && |code| <= 64 && |message| <= 256
    ensures var fs := ErrorFields(code, message);
            && Fits(Compact(fs))
            && DecodeServer(side, Render(Compact(fs))) ==
               (if ValidCode(code) && ValidMessage(side, message) then Ok(Error(code, message)) else Err(InvalidField))
            && DecodeClient(side, Render(Compact(fs))) == Err(InvalidDirection)
  {
    ErrorShape(side, code, message);
    ErrorFieldsDecode(side, ErrorFields(code, message), code, message);
  }

  // An exit status is an object of its own inside the message.

  predicate StatusCarries(fs: Fields, kind: string, name: string, n: nat) {
    && fs == [("kind", Str(kind)), (name, Num(n))]
    && Carries(fs, ["kind", name])
  }

  lemma KindedCarries(kind: string, name: string, n: nat)
    requires Telling(["kind", name]) && n < 10_000
    ensures StatusCarries(Kinded(kind, Single(name, Num(n))), kind, name, n)
    ensures var v := Compact(Kinded(kind, Single(name, Num(n))));
            !HasDuplicate(v) && ValueBytes(v) <= 60 + 6 * |kind| + 6 * |name|
  {
    var fs := Kinded(kind, Single(name, Num(n)));
    NamesOfTwo(("kind", Str(kind)), (name, Num(n)));
    assert fs == [("kind", Str(kind)), (name, Num(n))];
    TellingNamesDiffer(["kind", name]);
    NamesAreKeys(fs);
    BudgetOfOne((name, Num(n)));
    NumberBudget(n);
    KindedBudget(kind, Single(name, Num(n)));
    CompactBudget(fs);
  }

  lemma StatusFieldsRead(side: Side, fs: Fields, kind: string, name: string, n: nat)
    requires ReadsExactly(side) && StatusCarries(fs, kind, name, n) && n < 10_000
    ensures var ms := MembersOf(fs);
            StringField(ms, "kind") == Ok(kind) && IntegerField(side, ms, name) == Ok(n) &&
            KeyFault(ms, ["kind", name]) == None
  {
    FieldsHaveNoFault(fs, ["kind", name]);
    StringFound(fs, 0, "kind", kind);
    IntegerFound(side, fs, 1, name, n);
  }

  lemma CodeStatusRead(side: Side, ms: Members, code: nat)
    requires ValidMembers(ms) && code <= 255
    requires StringField(ms, "kind") == Ok("code") && IntegerField(side, ms, "code") == Ok(code) &&
             KeyFault(ms, ["kind", "code"]) == None
    ensures ParseExitStatus(side, Object([], ms)) == Ok(Code(code))
  {
  }

  lemma SignalStatusRead(side: Side, ms: Members, signal: nat)
    requires ValidMembers(ms) && 1 <= signal <= 127
    requires StringField(ms, "kind") == Ok("signal") && IntegerField(side, ms, "signal") == Ok(signal) &&
             KeyFault(ms, ["kind", "signal"]) == None
    ensures ParseExitStatus(side, Object([], ms)) == Ok(Signal(signal))
  {
  }

  lemma KindOnly(fs: Fields, kind: string)
    requires fs == [("kind", Str(kind))] && |kind| <= 11
    ensures ValidFields(fs) && StringField(MembersOf(fs), "kind") == Ok(kind) &&
            KeyFault(MembersOf(fs), ["kind"]) == None
    ensures !HasDuplicate(Compact(fs)) && ValueBytes(Compact(fs)) <= 200
  {
    assert Names(fs) == ["kind"];
    NamesAreKeys(fs);
    FieldsHaveNoFault(fs, ["kind"]);
    StringFound(fs, 0, "kind", kind);
    StringBudget(kind);
    BudgetOfOne(fs[0]);
    CompactBudget(fs);
  }

  lemma UnavailableStatusRead(side: Side, ms: Members)
    requires ValidMembers(ms) && StringField(ms, "kind") == Ok("unavailable") && KeyFault(ms, ["kind"]) == None
    ensures ParseExitStatus(side, Object([], ms)) == Ok(Unavailable)
  {
  }

  lemma UnavailableReadsBack(side: Side)
    ensures ParseExitStatus(side, StatusValue(Unavailable)) == Ok(Unavailable)
    ensures !HasDuplicate(StatusValue(Unavailable)) && ValueBytes(StatusValue(Unavailable)) <= 200
  {
    var fs := StatusFields(Unavailable);
    assert fs == [("kind", Str("unavailable"))];
    KindOnly(fs, "unavailable");
    UnavailableStatusRead(side, MembersOf(fs));
  }

  lemma StatusReadsBack(side: Side, status: ExitStatus)
    requires ReadsExactly(side) && ValidStatus(status)
    ensures ParseExitStatus(side, StatusValue(status)) == Ok(status)
    ensures !HasDuplicate(StatusValue(status)) && ValueBytes(StatusValue(status)) <= 200
  {
    match status {
      case Code(code) =>
        KindedCarries("code", "code", code);
        StatusFieldsRead(side, StatusFields(status), "code", "code", code);
        CodeStatusRead(side, MembersOf(StatusFields(status)), code);
      case Signal(signal) =>
        KindedCarries("signal", "signal", signal);
        StatusFieldsRead(side, StatusFields(status), "signal", "signal", signal);
        SignalStatusRead(side, MembersOf(StatusFields(status)), signal);
      case Unavailable => UnavailableReadsBack(side);
    }
  }

  lemma ExitRead(side: Side, ms: Members, v: Value, status: ExitStatus)
    requires ValidMembers(ms) && KeyFault(ms, ["version", "type", "status"]) == None
    requires Field(ms, "status") == Ok(v) && ParseExitStatus(side, v) == Ok(status)
    ensures DecodeServerFields(side, ms, "exit-status") == Ok(Exit(status))
    ensures DecodeClientFields(side, ms, "exit-status") == Err(InvalidDirection)
  {
  }

  lemma ExitFieldsDecode(side: Side, fs: Fields, v: Value, status: ExitStatus)
    requires Carries(fs, ["version", "type", "status"]) && fs[2].1 == v && ParseExitStatus(side, v) == Ok(status)
    ensures DecodeServerFields(side, MembersOf(fs), "exit-status") == Ok(Exit(status))
    ensures DecodeClientFields(side, MembersOf(fs), "exit-status") == Err(InvalidDirection)
  {
    FieldsHaveNoFault(fs, ["version", "type", "status"]);
    FieldFound(fs, 2, "status");
    ExitRead(side, MembersOf(fs), v, status);
  }

  lemma ExitShape(side: Side, v: Value)
    requires ReadsExactly(side) && Valid(v) && !HasDuplicate(v) && ValueBytes(v) <= 200
    ensures var fs := ExitFields(v);
            && Fits(Compact(fs)) && Carries(fs, ["version", "type", "status"]) && fs[2].1 == v
            && DecodeClient(side, Render(Compact(fs))) == DecodeClientFields(side, MembersOf(fs), "exit-status")
            && DecodeServer(side, Render(Compact(fs))) == DecodeServerFields(side, MembersOf(fs), "exit-status")
  {
    OneFieldDecodes(side, "exit-status", "status", v);
  }

  lemma ExitDecodes(side: Side, v: Value, status: ExitStatus)
    requires ReadsExactly(side) && Valid(v) && !HasDuplicate(v) && ValueBytes(v) <= 200
    requires ParseExitStatus(side, v) == Ok(status)
    ensures var fs := ExitFields(v);
            && Fits(Compact(fs))
            && DecodeServer(side, Render(Compact(fs))) == Ok(Exit(status))
            && DecodeClient(side, Render(Compact(fs))) == Err(InvalidDirection)
  {
    ExitShape(side, v);
    ExitFieldsDecode(side, ExitFields(v), v, status);
  }

  // ----- the promises -----

  /**
   A client control that an encoder accepts is small, reads back as itself on either side, and
   is refused by the other direction's decoder; the size check never fails.
   */
  lemma ClientControlsRoundTrip(reader: Side, m: ClientControl)
    requires ReadsExactly(reader)
    ensures EncodeClient(m) != Err(ControlTooLarge)
    ensures EncodeClient(m).Ok? ==>
              var t := EncodeClient(m).value;
              && Size(t).Some? && Size(t).value < MAX_CONTROL_BYTES
              && DecodeClient(reader, t) == Ok(m)
              && DecodeServer(reader, t) == Err(InvalidDirection)
  {
    match m {
      case Resize(cols, rows) =>
        if ValidDimension(cols) && ValidDimension(rows) {
          ResizeDecodes(reader, cols, rows);
        }
      case Close => CloseDecodes(reader);
    }
  }

  /** What a reader does not understand of another side's messages. */
  predicate Understood(reader: Side, m: ServerControl) {
    m.Error? && reader.Browser? ==> forall i :: 0 <= i < |m.message| ==> !Astral(m.message[i])
  }

  /** What becomes of a message between a writer and a reader. */
  predicate ServerOutcome(writer: Side, reader: Side, m: ServerControl) {
    match EncodeServer(writer, m)
    case Err(e) => e != ControlTooLarge
    case Ok(t) =>
      && Size(t).Some? && Size(t).value < MAX_CONTROL_BYTES
      && DecodeServer(reader, t) == (if Understood(reader, m) then Ok(m) else Err(InvalidField))
      && DecodeClient(reader, t) == Err(InvalidDirection)
      && (writer.Browser? || reader.Server? ==> Understood(reader, m))
  }

  lemma OutcomeOf(writer: Side, reader: Side, m: ServerControl, t: Units)
    requires EncodeServer(writer, m) == Ok(t) && Size(t).Some? && Size(t).value < MAX_CONTROL_BYTES
    requires DecodeServer(reader, t) == if Understood(reader, m) then Ok(m) else Err(InvalidField)
    requires DecodeClient(reader, t) == Err(InvalidDirection)
    requires writer.Browser? || reader.Server? ==> Understood(reader, m)
    ensures ServerOutcome(writer, reader, m)
  {
  }

  lemma ExitText(writer: Side, status: ExitStatus, v: Value)
    requires ValidStatus(status) && v == StatusValue(status)
    ensures Fits(Compact(ExitFields(v))) ==> EncodeServer(writer, Exit(status)) == Ok(Render(Compact(ExitFields(v))))
  {
  }

  lemma ExitOutcome(writer: Side, reader: Side, status: ExitStatus, v: Value)
    requires ReadsExactly(reader) && Valid(v) && !HasDuplicate(v) && ValueBytes(v) <= 200
    requires ParseExitStatus(reader, v) == Ok(status)
    requires Fits(Compact(ExitFields(v))) ==> EncodeServer(writer, Exit(status)) == Ok(Render(Compact(ExitFields(v))))
    ensures ServerOutcome(writer, reader, Exit(status))
  {
    ExitDecodes(reader, v, status);
    OutcomeOf(writer, reader, Exit(status), Render(Compact(ExitFields(v))));
  }

  lemma ErrorText(writer: Side, code: string, message: string)
    requires ValidCode(code) && ValidMessage(writer, message) && Fits(Compact(ErrorFields(code, message)))
    ensures EncodeServer(writer, Error(code, message)) == Ok(Render(Compact(ErrorFields(code, message))))
  {
  }

  lemma ErrorOutcome(writer: Side, reader: Side, code: string, message: string)
    requires ReadsExactly(reader) && ValidCode(code) && ValidMessage(writer, message)
    ensures ServerOutcome(writer, reader, Error(code, message))
  {
    ErrorDecodes(reader, code, message);
    ErrorText(writer, code, message);
    MessageUnderstood(writer, reader, code, message);
    OutcomeOf(writer, reader, Error(code, message), Render(Compact(ErrorFields(code, message))));
  }

  lemma MessageUnderstood(writer: Side, reader: Side, code: string, message: string)
    requires ValidCode(code) && ValidMessage(writer, message)
    ensures Understood(reader, Error(code, message)) <==> ValidCode(code) && ValidMessage(reader, message)
    ensures writer.Browser? || reader.Server? ==> Understood(reader, Error(code, message))
  {
  }

  lemma ClosedText(writer: Side, name: string, reason: CloseReason)
    requires name == ReasonName(reason) && Fits(Compact(ClosedFields(name)))
    ensures EncodeServer(writer, Closed(reason)) == Ok(Render(Compact(ClosedFields(name))))
  {
  }

  lemma ClosedOutcome(writer: Side, reader: Side, name: string, reason: CloseReason)
    requires ReadsExactly(reader) && ReasonOf(name) == Some(reason) && |name| <= 15
    requires Fits(Compact(ClosedFields(name))) ==>
             EncodeServer(writer, Closed(reason)) == Ok(Render(Compact(ClosedFields(name))))
    ensures ServerOutcome(writer, reader, Closed(reason))
  {
    ClosedDecodes(reader, name, reason);
    OutcomeOf(writer, reader, Closed(reason), Render(Compact(ClosedFields(name))));
  }

  lemma ExitRoundTrip(writer: Side, reader: Side, status: ExitStatus)
    requires ReadsExactly(reader)
    ensures ServerOutcome(writer, reader, Exit(status))
  {
    if ValidStatus(status) {
      var v := StatusValue(status);
      StatusReadsBack(reader, status);
      ExitText(writer, status, v);
      ExitOutcome(writer, reader, status, v);
    } else {
      StatusRefused(writer, reader, status);
    }
  }

  lemma StatusRefused(writer: Side, reader: Side, status: ExitStatus)
    requires !ValidStatus(status)
    ensures ServerOutcome(writer, reader, Exit(status))
  {
  }

  lemma ClosedRoundTrip(writer: Side, reader: Side, reason: CloseReason)
    requires ReadsExactly(reader)
    ensures ServerOutcome(writer, reader, Closed(reason))
  {
    var name := ReasonName(reason);
    ReasonReadsBack(reason);
    if Fits(Compact(ClosedFields(name))) {
      ClosedText(writer, name, reason);
    }
    ClosedOutcome(writer, reader, name, reason);
  }

  /**
   The same for server controls, with one exception: a browser refuses an error message that
   has a character outside the basic plane, which the server's encoder accepts.
   */
  lemma ServerControlsRoundTrip(writer: Side, reader: Side, m: ServerControl)
    requires ReadsExactly(reader)
    ensures ServerOutcome(writer, reader, m)
  {
    match m {
      case Exit(status) => ExitRoundTrip(writer, reader, status);
      case Error(code, message) =>
        if ValidCode(code) && ValidMessage(writer, message) {
          ErrorOutcome(writer, reader, code, message);
        }
      case Closed(reason) => ClosedRoundTrip(writer, reader, reason);
    }
  }

  /** The exception is real: the server sends such messages, no browser takes them. */
  lemma AstralMessageIsRefused(reader: Side, code: string, message: string, i: nat)
    requires ReadsExactly(reader) && reader.Browser?
    requires ValidCode(code) && ValidMessage(Server, message) && i < |message| && Astral(message[i])
    ensures EncodeServer(Server, Error(code, message)).Ok?
    ensures DecodeServer(reader, EncodeServer(Server, Error(code, message)).value) == Err(InvalidField)
  {
    ErrorDecodes(reader, code, message);
    ErrorText(Server, code, message);
    ErrorOutcome(Server, reader, code, message);
  }

  lemma SomeMessageIsAstral()
    ensures ValidCode("a") && ValidMessage(Server, [0x1_F600 as char]) && Astral([0x1_F600 as char][0])
  {
  }

  /** One such message: the server sends U+1F600, the browser answers that a field is invalid. */
  lemma SomeMessageIsRefused(reader: Side) returns (text: Units)
    requires ReadsExactly(reader) && reader.Browser?
    ensures EncodeServer(Server, Error("a", [0x1_F600 as char])) == Ok(text)
    ensures DecodeServer(reader, text) == Err(InvalidField)
  {
    SomeMessageIsAstral();
    AstralMessageIsRefused(reader, "a", [0x1_F600 as char], 0);
    text := EncodeServer(Server, Error("a", [0x1_F600 as char])).value;
  }

  /** Whatever a decoder returns, the encoder of its side accepts. */
  lemma DecodedControlsEncode(side: Side, t: Units)
    ensures DecodeClient(side, t).Ok? ==> EncodeClient(DecodeClient(side, t).value).Ok?
    ensures DecodeServer(side, t).Ok? ==> EncodeServer(side, DecodeServer(side, t).value).Ok?
  {
    if DecodeClient(side, t).Ok? {
      DecodedClientEncodes(DecodeClient(side, t).value);
    }
    if DecodeServer(side, t).Ok? {
      DecodedServerEncodes(side, DecodeServer(side, t).value);
    }
  }

  lemma DecodedClientEncodes(m: ClientControl)
    requires Encodable(m)
    ensures EncodeClient(m).Ok?
  {
    match m {
      case Resize(cols, rows) => ResizeDecodes(Server, cols, rows);
      case Close => CloseDecodes(Server);
    }
  }

  lemma DecodedServerEncodes(side: Side, m: ServerControl)
    requires ServerEncodable(side, m)
    ensures EncodeServer(side, m).Ok?
  {
    match m {
      case Exit(status) =>
        StatusReadsBack(Server, status);
        ExitDecodes(Server, StatusValue(status), status);
      case Error(code, message) => ErrorDecodes(Server, code, message);
      case Closed(reason) =>
        ReasonReadsBack(reason);
        ClosedDecodes(Server, ReasonName(reason), reason);
    }
  }

  lemma FieldsAreDisjoint(side: Side, ms: Members, kind: string)
    requires ValidMembers(ms) && DecodeClientFields(side, ms, kind).Ok?
    ensures !DecodeServerFields(side, ms, kind).Ok?
  {
  }

  /** No text is a control of both directions. */
  lemma DirectionsAreDisjoint(side: Side, t: Units)
    ensures DecodeClient(side, t).Ok? ==> !DecodeServer(side, t).Ok?
  {
    if DecodeClient(side, t).Ok? {
      var ms := ParseControl(side, t).value;
      FieldsAreDisjoint(side, ms, Header(side, ms).value);
    }
  }

  /** The detectors agree on every text that is JSON, not only on texts built from a tree. */
  lemma DetectorsAgreeOnTexts(t: Units)
    requires ParseDocument(t).Some?
    ensures Scan(t, []) <==> HasDuplicate(ParseDocument(t).value.value)
  {
    DocumentRenders(t);
    DetectorsAgree(ParseDocument(t).value);
  }
}
