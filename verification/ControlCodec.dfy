/**
 The control codec of both sides (crates/ttygated/src/protocol.rs, frontend/src/protocol.ts).
 The two differ in how they look for duplicates, in which number lexemes they take for
 integers, and in which characters they allow in an error message.
 */
module ControlCodec {
  import opened Wrappers
  import opened Unicode
  import opened JsonText
  import opened JsonParse
  import opened JsonDuplicates

  const MAX_CONTROL_BYTES := 4096
  const MAX_DIMENSION := 4096
  const PROTOCOL_VERSION := 1

  datatype ProtocolError =
    ControlTooLarge | MalformedControl | InvalidControl | DuplicateField | MissingField | UnknownField |
    UnknownMessageType | UnsupportedVersion | InvalidDirection | InvalidField

  datatype Result<+T> = Ok(value: T) | Err(error: ProtocolError)

  datatype ClientControl = Resize(cols: int, rows: int) | Close

  datatype ExitStatus = Code(code: int) | Signal(signal: int) | Unavailable

  datatype CloseReason = ClientRequest | Exited | Timeout | Policy | ProtocolFailure | TransportError | InternalError

  datatype ServerControl = Exit(status: ExitStatus) | Error(code: string, message: string) | Closed(reason: CloseReason)

  /** `read` is the number a browser gives a lexeme, if that number is an integer. */
  datatype Side = Server | Browser(read: Units -> Option<int>)

  // ----- numbers -----

  function Decimal(n: nat): (units: Units)
    ensures units != [] && forall i :: 0 <= i < |units| ==> Digit(units[i])
  {
    if n < 10 then [0x30 + n] else Decimal(n / 10) + [0x30 + n % 10]
  }

  function DecimalValue(units: Units): nat
    requires DigitUnits(units)
  {
    if units == [] then 0
    else
      assert Digit(units[|units| - 1]);
      var last: int := units[|units| - 1];
      10 * DecimalValue(units[..|units| - 1]) + (last - 0x30)
  }

  predicate DigitUnits(units: Units) {
    forall i :: 0 <= i < |units| ==> Digit(units[i])
  }

  /** `as_u64`, or an integral JavaScript number. */
  function Integer(side: Side, lexeme: Units): Option<int> {
    if !NumberLexeme(lexeme) then None
    else
      match side
      case Server =>
        if DigitUnits(lexeme) && DecimalValue(lexeme) < 0x1_0000_0000_0000_0000 then Some(DecimalValue(lexeme))
        else None
      case Browser(read) => read(lexeme)
  }

  /** Numbers both sides can represent exactly are read back exactly. */
  ghost predicate ReadsExactly(side: Side) {
    side.Browser? ==> forall n: nat :: n < 0x20_0000_0000_0000 ==> side.read(Decimal(n)) == Some(n)
  }

  // ----- fields -----

  /** Of repeated keys the last one wins. */
  function Lookup(ms: Members, name: string): Option<Value>
    requires ValidMembers(ms)
  {
    if ms.NoMembers? then None
    else
      match Lookup(ms.rest, name)
      case Some(v) => Some(v)
      case None => if Decoded(ms.key) == name then Some(ms.value) else None
  }

  function Field(ms: Members, name: string): Result<Value>
    requires ValidMembers(ms)
  {
    match Lookup(ms, name)
    case None => Err(MissingField)
    case Some(v) => Ok(v)
  }

  function IntegerField(side: Side, ms: Members, name: string): Result<int>
    requires ValidMembers(ms)
  {
    match Field(ms, name)
    case Err(e) => Err(e)
    case Ok(v) =>
      if !v.Scalar? then Err(InvalidField)
      else
        match Integer(side, v.lexeme)
        case None => Err(InvalidField)
        case Some(n) => Ok(n)
  }

  function StringField(ms: Members, name: string): Result<string>
    requires ValidMembers(ms)
  {
    match Field(ms, name)
    case Err(e) => Err(e)
    case Ok(v) => if v.Text? && ValidItems(v.items) then Ok(Decoded(v.items)) else Err(InvalidField)
  }

  /** What `exact_keys` finds wrong, if anything. */
  function KeyFault(ms: Members, expected: seq<string>): Option<ProtocolError>
    requires ValidMembers(ms)
  {
    if exists i :: 0 <= i < |expected| && expected[i] !in Keys(ms) then Some(MissingField)
    else if exists i :: 0 <= i < |Keys(ms)| && Keys(ms)[i] !in expected then Some(UnknownField)
    else None
  }

  function Dimension(side: Side, ms: Members, name: string): Result<int>
    requires ValidMembers(ms)
  {
    match IntegerField(side, ms, name)
    case Err(e) => Err(e)
    case Ok(n) => if 1 <= n <= MAX_DIMENSION then Ok(n) else Err(InvalidField)
  }

  // ----- decoding -----

  /** The bytes of the text in UTF-8; `None` for a stray surrogate. */
  function Size(t: Units): Option<nat> {
    if t == [] then Some(0)
    else if High(t[0]) then
      if |t| == 1 then Some(4)
      else if !Low(t[1]) then None
      else Plus(4, Size(t[2..]))
    else if Low(t[0]) then None
    else Plus(UnitBytes(t[0]), Size(t[1..]))
  }

  function Plus(n: nat, size: Option<nat>): Option<nat> {
    if size.None? then None else Some(n + size.value)
  }

  function UnitBytes(u: Unit): nat {
    if u <= 0x7F then 1 else if u <= 0x7FF then 2 else 3
  }

  /** `boundedUtf8Length`: it stops at the first character beyond the limit. */
  function Measure(t: Units, bytes: nat, limit: nat): Option<nat>
    decreases |t|
  {
    if t == [] then Some(bytes)
    else if High(t[0]) then
      if |t| > 1 && !Low(t[1]) then None
      else if bytes + 4 > limit then Some(bytes + 4)
      else Measure(if |t| == 1 then [] else t[2..], bytes + 4, limit)
    else if Low(t[0]) then None
    else if bytes + UnitBytes(t[0]) > limit then Some(bytes + UnitBytes(t[0]))
    else Measure(t[1..], bytes + UnitBytes(t[0]), limit)
  }

  method BoundedUtf8Length(text: Units, limit: nat) returns (length: Option<nat>)
    ensures length == Measure(text, 0, limit)
  {
    var bytes: nat := 0;
    var index := 0;
    while index < |text|
      invariant 0 <= index <= |text| + 1
      invariant Measure(text, 0, limit) == Measure(if 0 <= index <= |text| then text[index..] else [], bytes, limit)
    {
      var code := text[index];
      assert text[index..][1..] == text[index + 1..];
      if High(code) {
        if index + 1 < |text| {
          assert text[index..][2..] == text[index + 2..];
          if !Low(text[index + 1]) {
            return None;
          }
        }
        bytes := bytes + 4;
        index := index + 1;
      } else if Low(code) {
        return None;
      } else {
        bytes := bytes + UnitBytes(code);
      }
      if bytes > limit {
        return Some(bytes);
      }
      index := index + 1;
    }
    return Some(bytes);
  }

  /** On well-formed text the bounded length decides whether the whole text fits. */
  lemma {:induction false} MeasureDecides(t: Units, bytes: nat, limit: nat)
    requires Size(t).Some?
    ensures bytes + Size(t).value <= limit ==> Measure(t, bytes, limit) == Some(bytes + Size(t).value)
    ensures bytes + Size(t).value > limit && bytes <= limit ==>
            Measure(t, bytes, limit).Some? && Measure(t, bytes, limit).value > limit
  {
    if t != [] {
      if High(t[0]) {
        if |t| > 1 {
          MeasureDecides(t[2..], bytes + 4, limit);
        }
      } else {
        MeasureDecides(t[1..], bytes + UnitBytes(t[0]), limit);
      }
    }
  }

  function Duplicated(side: Side, t: Units, v: Value): bool
    requires Valid(v)
  {
    if side.Server? then HasDuplicate(v) else Scan(t, [])
  }

  function ParseControl(side: Side, t: Units): (r: Result<Members>)
    ensures r.Ok? ==> ValidMembers(r.value)
  {
    match Measure(t, 0, MAX_CONTROL_BYTES)
    case None => Err(MalformedControl)
    case Some(bytes) =>
      if bytes > MAX_CONTROL_BYTES then Err(ControlTooLarge)
      else ParseMeasured(side, t)
  }

  /** The browser looks for duplicates before it parses. */
  function ParseMeasured(side: Side, t: Units): (r: Result<Members>)
    ensures r.Ok? ==> ValidMembers(r.value)
  {
    match ParseDocument(t)
    case None => if side.Browser? && Scan(t, []) then Err(DuplicateField) else Err(MalformedControl)
    case Some(d) =>
      if Duplicated(side, t, d.value) then Err(DuplicateField)
      else if !d.value.Object? then Err(InvalidControl)
      else Ok(d.value.members)
  }

  function Header(side: Side, ms: Members): Result<string>
    requires ValidMembers(ms)
  {
    match IntegerField(side, ms, "version")
    case Err(e) => Err(e)
    case Ok(n) => if n != PROTOCOL_VERSION then Err(UnsupportedVersion) else StringField(ms, "type")
  }

  predicate Encodable(m: ClientControl) {
    m.Resize? ==> ValidDimension(m.cols) && ValidDimension(m.rows)
  }

  predicate ServerEncodable(side: Side, m: ServerControl) {
    match m
    case Exit(status) => ValidStatus(status)
    case Error(code, message) => ValidCode(code) && ValidMessage(side, message)
    case Closed(_) => true
  }

  function DecodeClient(side: Side, t: Units): (r: Result<ClientControl>)
    ensures r.Ok? ==> Encodable(r.value)
  {
    match ParseControl(side, t)
    case Err(e) => Err(e)
    case Ok(ms) =>
      match Header(side, ms)
      case Err(e) => Err(e)
      case Ok(kind) => DecodeClientFields(side, ms, kind)
  }

  function DecodeClientFields(side: Side, ms: Members, kind: string): (r: Result<ClientControl>)
    requires ValidMembers(ms)
    ensures r.Ok? ==> Encodable(r.value) && (kind == "resize" || (kind == "close" && "reason" !in Keys(ms)))
  {
    if kind == "resize" then
      match KeyFault(ms, ["version", "type", "cols", "rows"])
      case Some(e) => Err(e)
      case None =>
        match Dimension(side, ms, "cols")
        case Err(e) => Err(e)
        case Ok(cols) =>
          match Dimension(side, ms, "rows")
          case Err(e) => Err(e)
          case Ok(rows) => Ok(Resize(cols, rows))
    else if kind == "close" then
      if "reason" in Keys(ms) then Err(InvalidDirection)
      else
        match KeyFault(ms, ["version", "type"])
        case Some(e) => Err(e)
        case None => Ok(Close)
    else if kind == "exit-status" || kind == "error" then Err(InvalidDirection)
    else Err(UnknownMessageType)
  }

  function DecodeServer(side: Side, t: Units): (r: Result<ServerControl>)
    ensures r.Ok? ==> ServerEncodable(side, r.value)
  {
    match ParseControl(side, t)
    case Err(e) => Err(e)
    case Ok(ms) =>
      match Header(side, ms)
      case Err(e) => Err(e)
      case Ok(kind) => DecodeServerFields(side, ms, kind)
  }

  function DecodeServerFields(side: Side, ms: Members, kind: string): (r: Result<ServerControl>)
    requires ValidMembers(ms)
    ensures r.Ok? ==> ServerEncodable(side, r.value) && kind != "resize" && (kind == "close" ==> "reason" in Keys(ms))
  {
    if kind == "exit-status" then
      match KeyFault(ms, ["version", "type", "status"])
      case Some(e) => Err(e)
      case None =>
        match Field(ms, "status")
        case Err(e) => Err(e)
        case Ok(v) =>
          match ParseExitStatus(side, v)
          case Err(e) => Err(e)
          case Ok(status) => Ok(Exit(status))
    else if kind == "error" then
      match KeyFault(ms, ["version", "type", "code", "message"])
      case Some(e) => Err(e)
      case None =>
        match StringField(ms, "code")
        case Err(e) => Err(e)
        case Ok(code) =>
          match StringField(ms, "message")
          case Err(e) => Err(e)
          case Ok(message) =>
            if ValidCode(code) && ValidMessage(side, message) then Ok(Error(code, message)) else Err(InvalidField)
    else if kind == "close" then
      if |Keys(ms)| == 2 then Err(InvalidDirection)
      else
        match KeyFault(ms, ["version", "type", "reason"])
        case Some(e) => Err(e)
        case None =>
          assert ["version", "type", "reason"][2] == "reason";
          match StringField(ms, "reason")
          case Err(e) => Err(e)
          case Ok(name) =>
            match ReasonOf(name)
            case None => Err(InvalidField)
            case Some(reason) => Ok(Closed(reason))
    else if kind == "resize" then Err(InvalidDirection)
    else Err(UnknownMessageType)
  }

  function ParseExitStatus(side: Side, v: Value): (r: Result<ExitStatus>)
    ensures r.Ok? ==> ValidStatus(r.value)
  {
    if !v.Object? || !ValidMembers(v.members) then Err(InvalidField)
    else
      match StringField(v.members, "kind")
      case Err(e) => Err(e)
      case Ok(kind) =>
        if kind == "code" then
          match KeyFault(v.members, ["kind", "code"])
          case Some(e) => Err(e)
          case None =>
            match IntegerField(side, v.members, "code")
            case Err(e) => Err(e)
            case Ok(n) => if 0 <= n <= 255 then Ok(Code(n)) else Err(InvalidField)
        else if kind == "signal" then
          match KeyFault(v.members, ["kind", "signal"])
          case Some(e) => Err(e)
          case None =>
            match IntegerField(side, v.members, "signal")
            case Err(e) => Err(e)
            case Ok(n) => if 1 <= n <= 127 then Ok(Signal(n)) else Err(InvalidField)
        else if kind == "unavailable" then
          match KeyFault(v.members, ["kind"])
          case Some(e) => Err(e)
          case None => Ok(Unavailable)
        else Err(InvalidField)
  }

  function ReasonName(reason: CloseReason): string {
    match reason
    case ClientRequest => "client-request"
    case Exited => "exited"
    case Timeout => "timeout"
    case Policy => "policy"
    case ProtocolFailure => "protocol-error"
    case TransportError => "transport-error"
    case InternalError => "internal-error"
  }

  function ReasonOf(name: string): Option<CloseReason> {
    if name == "client-request" then Some(ClientRequest)
    else if name == "exited" then Some(Exited)
    else if name == "timeout" then Some(Timeout)
    else if name == "policy" then Some(Policy)
    else if name == "protocol-error" then Some(ProtocolFailure)
    else if name == "transport-error" then Some(TransportError)
    else if name == "internal-error" then Some(InternalError)
    else None
  }

  predicate ValidCode(code: string) {
    && 1 <= |code| <= 64
    && 'a' <= code[0] <= 'z' && code[|code| - 1] != '-'
    && (forall i :: 0 <= i < |code| ==> 'a' <= code[i] <= 'z' || '0' <= code[i] <= '9' || code[i] == '-')
    && (forall i :: 0 < i < |code| ==> !(code[i - 1] == '-' && code[i] == '-'))
  }

  predicate Control(c: char) {
    c as int <= 0x1F || c as int == 0x7F
  }

  /** A character outside the basic plane: its first UTF-16 unit is a surrogate. */
  predicate Astral(c: char) {
    c as int >= 0x1_0000
  }

  /** The browser looks at the first unit of every character, so it refuses astral ones. */
  predicate ValidMessage(side: Side, message: string) {
    && 1 <= |message| <= 256
    && (forall i :: 0 <= i < |message| ==> !Control(message[i]))
    && (side.Browser? ==> forall i :: 0 <= i < |message| ==> !Astral(message[i]))
  }

  // ----- encoding -----

  function HexOf(n: nat): Unit
    requires n < 16
  {
    if n < 10 then 0x30 + n else 0x61 + n - 10
  }

  /** How both serialisers spell a character. */
  function SpellChar(c: char): (i: Item)
    ensures ValidItem(i) && CharOf(i) == c
  {
    if c as int == QUOTE || c as int == BACKSLASH then Short(c as int)
    else if c as int == 0x08 then Short(0x62)
    else if c as int == 0x09 then Short(0x74)
    else if c as int == 0x0A then Short(0x6E)
    else if c as int == 0x0C then Short(0x66)
    else if c as int == 0x0D then Short(0x72)
    else if c as int < 0x20 then Hex(0x30, 0x30, HexOf(c as int / 16), HexOf(c as int % 16))
    else Raw(c)
  }

  function Spell(s: string): (items: seq<Item>)
    ensures ValidItems(items) && Decoded(items) == s
  {
    if s == [] then [] else [SpellChar(s[0])] + Spell(s[1..])
  }

  type Fields = seq<(string, Value)>

  predicate ValidFields(fs: Fields) {
    forall i :: 0 <= i < |fs| ==> Valid(fs[i].1)
  }

  function MembersOf(fs: Fields): (ms: Members)
    requires ValidFields(fs)
    ensures ValidMembers(ms)
  {
    if fs == [] then NoMembers else Member([], Spell(fs[0].0), [], [], fs[0].1, [], MembersOf(fs[1..]))
  }

  function Compact(fs: Fields): (v: Value)
    requires ValidFields(fs)
    ensures Valid(v)
  {
    Object([], MembersOf(fs))
  }

  function Num(n: nat): (v: Value)
    ensures Valid(v)
  {
    DecimalIsALexeme(n);
    Scalar(Decimal(n))
  }

  function Str(s: string): (v: Value)
    ensures Valid(v)
  {
    Text(Spell(s))
  }

  function Serialize(v: Value): Result<Units>
    requires Valid(v)
  {
    match Measure(Render(v), 0, MAX_CONTROL_BYTES)
    case None => Err(InvalidField)
    case Some(n) => if n > MAX_CONTROL_BYTES then Err(ControlTooLarge) else Ok(Render(v))
  }

  function Tagged(kind: string, rest: Fields): (fs: Fields)
    requires ValidFields(rest)
    ensures ValidFields(fs)
  {
    [("version", Num(PROTOCOL_VERSION)), ("type", Str(kind))] + rest
  }

  function Single(name: string, v: Value): (fs: Fields)
    requires Valid(v)
    ensures ValidFields(fs)
  {
    [(name, v)]
  }

  predicate ValidDimension(n: int) {
    1 <= n <= MAX_DIMENSION
  }

  function ResizeFields(cols: nat, rows: nat): (fs: Fields)
    ensures ValidFields(fs)
  {
    Tagged("resize", [("cols", Num(cols)), ("rows", Num(rows))])
  }

  function CloseFields(): (fs: Fields)
    ensures ValidFields(fs)
  {
    Tagged("close", [])
  }

  function EncodeClient(m: ClientControl): Result<Units> {
    match m
    case Resize(cols, rows) =>
      if ValidDimension(cols) && ValidDimension(rows) then Serialize(Compact(ResizeFields(cols, rows)))
      else Err(InvalidField)
    case Close => Serialize(Compact(CloseFields()))
  }

  predicate ValidStatus(status: ExitStatus) {
    match status
    case Code(code) => 0 <= code <= 255
    case Signal(signal) => 1 <= signal <= 127
    case Unavailable => true
  }

  function Kinded(kind: string, rest: Fields): (fs: Fields)
    requires ValidFields(rest)
    ensures ValidFields(fs)
  {
    [("kind", Str(kind))] + rest
  }

  function StatusFields(status: ExitStatus): (fs: Fields)
    requires ValidStatus(status)
    ensures ValidFields(fs)
  {
    match status
    case Code(code) => Kinded("code", Single("code", Num(code)))
    case Signal(signal) => Kinded("signal", Single("signal", Num(signal)))
    case Unavailable => Kinded("unavailable", [])
  }

  function StatusValue(status: ExitStatus): (v: Value)
    requires ValidStatus(status)
    ensures Valid(v)
  {
    Compact(StatusFields(status))
  }

  function ExitFields(status: Value): (fs: Fields)
    requires Valid(status)
    ensures ValidFields(fs)
  {
    Tagged("exit-status", Single("status", status))
  }

  function ErrorFields(code: string, message: string): (fs: Fields)
    ensures ValidFields(fs)
  {
    Tagged("error", [("code", Str(code)), ("message", Str(message))])
  }

  function ClosedFields(reason: string): (fs: Fields)
    ensures ValidFields(fs)
  {
    Tagged("close", Single("reason", Str(reason)))
  }

  function EncodeServer(side: Side, m: ServerControl): Result<Units> {
    match m
    case Exit(status) =>
      if ValidStatus(status) then Serialize(Compact(ExitFields(StatusValue(status)))) else Err(InvalidField)
    case Error(code, message) =>
      if ValidCode(code) && ValidMessage(side, message) then Serialize(Compact(ErrorFields(code, message)))
      else Err(InvalidField)
    case Closed(reason) => Serialize(Compact(ClosedFields(ReasonName(reason))))
  }

  // ----- numbers round-trip -----

  lemma {:induction false} DecimalReadsBack(n: nat)
    ensures DecimalValue(Decimal(n)) == n
    ensures n > 0 ==> Decimal(n)[0] != 0x30
    ensures n < 10_000 ==> |Decimal(n)| <= 4
  {
    if n >= 10 {
      DecimalReadsBack(n / 10);
      var units := Decimal(n);
      assert units[..|units| - 1] == Decimal(n / 10);
      if n < 10_000 {
        DigitsBelow(n);
      }
    }
  }

  lemma DigitsBelow(n: nat)
    requires n < 10_000
    ensures |Decimal(n)| <= 4
  {
    assert n / 10 < 1_000 && n / 10 / 10 < 100 && n / 10 / 10 / 10 < 10;
    if n >= 10 {
      assert |Decimal(n)| == |Decimal(n / 10)| + 1;
      if n / 10 >= 10 {
        assert |Decimal(n / 10)| == |Decimal(n / 10 / 10)| + 1;
        if n / 10 / 10 >= 10 {
          assert |Decimal(n / 10 / 10)| == |Decimal(n / 10 / 10 / 10)| + 1;
        }
      }
    }
  }

  lemma {:induction false} DigitRunOfDigits(units: Units)
    requires DigitUnits(units)
    ensures DigitRun(units) == |units|
  {
    if units != [] {
      DigitRunOfDigits(units[1..]);
    }
  }

  lemma DecimalIsALexeme(n: nat)
    ensures ValidLexeme(Decimal(n))
  {
    var units := Decimal(n);
    DecimalReadsBack(n);
    DigitRunOfDigits(units);
    assert units[|units|..] == [];
    if n == 0 {
      assert units[1..] == [];
    }
  }

  lemma IntegerReadsBack(side: Side, n: nat)
    requires ReadsExactly(side) && n < 0x20_0000_0000_0000
    ensures Integer(side, Decimal(n)) == Some(n)
  {
    DecimalReadsBack(n);
    DecimalIsALexeme(n);
  }
}
