/** UTF-16 and UTF-8 forms of strings of scalar values (RFC 3629 section 3). */
module Unicode {
  type Unit = u: int | 0 <= u < 0x1_0000

  type Byte = b: int | 0 <= b < 0x100

  /** One or two code units. */
  function Utf16(c: char): (units: seq<Unit>)
    ensures 1 <= |units| <= 2
  {
    var p := c as int;
    if p < 0x1_0000 then [p]
    else [0xD800 + (p - 0x1_0000) / 0x400, 0xDC00 + (p - 0x1_0000) % 0x400]
  }

  function ToUtf16(s: string): seq<Unit> {
    if s == [] then [] else Utf16(s[0]) + ToUtf16(s[1..])
  }

  predicate High(u: Unit) {
    0xD800 <= u <= 0xDBFF
  }

  predicate Low(u: Unit) {
    0xDC00 <= u <= 0xDFFF
  }

  /** The shape of a scalar value's units; the first unit tells how many there are. */
  lemma Utf16Shape(c: char)
    ensures |Utf16(c)| == 2 <==> High(Utf16(c)[0])
    ensures |Utf16(c)| == 2 ==> Low(Utf16(c)[1])
    ensures !Low(Utf16(c)[0])
  {
  }

  lemma {:induction false} ToUtf16IsInjective(s: string, t: string)
    requires ToUtf16(s) == ToUtf16(t)
    ensures s == t
  {
    if s != [] && t != [] {
      var whole := ToUtf16(s);
      Utf16Shape(s[0]);
      Utf16Shape(t[0]);
      assert whole[0] == Utf16(s[0])[0] && whole[0] == Utf16(t[0])[0];
      assert |Utf16(s[0])| == 2 ==> whole[1] == Utf16(s[0])[1] && whole[1] == Utf16(t[0])[1];
      Utf16Determines(s[0], t[0]);
      assert whole[|Utf16(s[0])|..] == ToUtf16(s[1..]);
      assert whole[|Utf16(t[0])|..] == ToUtf16(t[1..]);
      ToUtf16IsInjective(s[1..], t[1..]);
    }
  }

  lemma Utf16Determines(c: char, d: char)
    requires |Utf16(c)| == |Utf16(d)| && Utf16(c)[0] == Utf16(d)[0]
    requires |Utf16(c)| == 2 ==> Utf16(c)[1] == Utf16(d)[1]
    ensures c == d
  {
    assert c as int == d as int;
    assert c == c as int as char;
  }

  /** A high surrogate with its low one. */
  predicate Paired(units: seq<Unit>) {
    |units| >= 2 && High(units[0]) && Low(units[1])
  }

  /** The scalar value a pair of surrogates stands for. */
  function PairScalar(high: Unit, low: Unit): char
    requires High(high) && Low(low)
  {
    var h: int, l: int := high, low;
    (0x1_0000 + 0x400 * (h - 0xD800) + (l - 0xDC00)) as char
  }

  /** The scalar value a browser's encoder sees first: a surrogate alone counts as U+FFFD. */
  function FirstScalar(units: seq<Unit>): char
    requires units != []
  {
    if Paired(units) then PairScalar(units[0], units[1])
    else if High(units[0]) || Low(units[0]) then 0xFFFD as char
    else units[0] as char
  }

  /** The scalar values of any sequence of units. */
  function Scalars(units: seq<Unit>): string {
    if units == [] then []
    else [FirstScalar(units)] + Scalars(units[if Paired(units) then 2 else 1..])
  }

  /** Nothing is replaced in the UTF-16 form of a string. */
  lemma {:induction false} ScalarsReadBack(s: string)
    ensures Scalars(ToUtf16(s)) == s
  {
    if s != [] {
      var units, first := ToUtf16(s), Utf16(s[0]);
      Utf16Shape(s[0]);
      assert units[0] == first[0] && (|first| == 2 ==> units[1] == first[1]);
      FirstScalarReadsBack(s[0], units);
      assert units[|first|..] == ToUtf16(s[1..]);
      ScalarsReadBack(s[1..]);
    }
  }

  lemma FirstScalarReadsBack(c: char, units: seq<Unit>)
    requires |units| >= |Utf16(c)| && units[0] == Utf16(c)[0]
    requires |Utf16(c)| == 2 ==> units[1] == Utf16(c)[1]
    ensures FirstScalar(units) == c && (Paired(units) <==> |Utf16(c)| == 2)
  {
    Utf16Shape(c);
    assert c == c as int as char;
  }

  /** One to four bytes. */
  function Utf8(c: char): (bytes: seq<Byte>)
    ensures 1 <= |bytes| <= 4
  {
    var p := c as int;
    if p < 0x80 then [p]
    else if p < 0x800 then [0xC0 + p / 0x40, 0x80 + p % 0x40]
    else if p < 0x1_0000 then [0xE0 + p / 0x1000, 0x80 + p / 0x40 % 0x40, 0x80 + p % 0x40]
    else [0xF0 + p / 0x4_0000, 0x80 + p / 0x1000 % 0x40, 0x80 + p / 0x40 % 0x40, 0x80 + p % 0x40]
  }

  function ToUtf8(s: string): (bytes: seq<Byte>)
    ensures |bytes| >= |s|
  {
    if s == [] then [] else Utf8(s[0]) + ToUtf8(s[1..])
  }

  lemma {:induction false} ToUtf8Append(s: string, t: string)
    ensures ToUtf8(s + t) == ToUtf8(s) + ToUtf8(t)
  {
    if s == [] {
      assert s + t == t;
    } else {
      assert (s + t)[1..] == s[1..] + t;
      ToUtf8Append(s[1..], t);
    }
  }
}
