/**
 The OpenSSH private key envelope (crates/ttygated/src/ssh.rs, `validate_identity` after base64
 decoding): length-prefixed strings (RFC 4251 section 5) around an Ed25519 public key blob
 (RFC 8709 section 4) and an unencrypted private block.
 */
module Identity {
  import opened Wrappers
  import opened Unicode

  type Bytes = seq<Byte>

  const MAX_COMMENT := 1_024
  const BLOCK := 8

  const MAGIC: Bytes := [0x6F, 0x70, 0x65, 0x6E, 0x73, 0x73, 0x68, 0x2D, 0x6B, 0x65, 0x79, 0x2D, 0x76, 0x31, 0x00]
  const NONE: Bytes := [0x6E, 0x6F, 0x6E, 0x65]
  const ED25519: Bytes := [0x73, 0x73, 0x68, 0x2D, 0x65, 0x64, 0x32, 0x35, 0x35, 0x31, 0x39]

  // ----- what a key file is -----

  /** An Ed25519 key as it is stored: the check number, both halves of the key, and a comment. */
  datatype Key = Key(check: nat, public: Bytes, seed: Bytes, comment: Bytes)

  predicate ValidKey(k: Key) {
    k.check < 0x1_0000_0000 && |k.public| == 32 && |k.seed| == 32 && |k.comment| <= MAX_COMMENT
  }

  function U32(n: nat): (bytes: Bytes)
    requires n < 0x1_0000_0000
    ensures |bytes| == 4
  {
    [n / 0x100_0000, n / 0x1_0000 % 0x100, n / 0x100 % 0x100, n % 0x100]
  }

  function Str(value: Bytes): (bytes: Bytes)
    requires |value| < 0x1_0000_0000
    ensures |bytes| == 4 + |value|
  {
    U32(|value|) + value
  }

  /** The bytes 1, 2, 3, and so on. */
  function Padding(n: nat): (bytes: Bytes)
    requires n <= 8
    ensures |bytes| == n
  {
    seq(n, i requires 0 <= i < n => i + 1)
  }

  /** The private block before its padding. */
  function PrivateBody(k: Key): (bytes: Bytes)
    requires ValidKey(k)
    ensures |bytes| == 131 + |k.comment|
  {
    U32(k.check) + (U32(k.check) + (Str(ED25519) + (Str(k.public) + (Str(k.seed + k.public) + Str(k.comment)))))
  }

  function PublicBlob(public: Bytes): (bytes: Bytes)
    requires |public| == 32
    ensures |bytes| == 51
  {
    Str(ED25519) + Str(public)
  }

  /** The envelope around any private block. */
  function Envelope(public: Bytes, block: Bytes): Bytes
    requires |public| == 32 && |block| < 0x1_0000_0000
  {
    MAGIC + (Str(NONE) + (Str(NONE) + (Str([]) + (U32(1) + (Str(PublicBlob(public)) + Str(block))))))
  }

  /** The padding the checks ask for: never empty, so a full block when the body is aligned. */
  function PadLength(k: Key): (n: nat)
    requires ValidKey(k)
    ensures 1 <= n <= BLOCK && (|PrivateBody(k)| + n) % BLOCK == 0
  {
    BLOCK - |PrivateBody(k)| % BLOCK
  }

  function Serialize(k: Key): Bytes
    requires ValidKey(k)
  {
    Envelope(k.public, PrivateBody(k) + Padding(PadLength(k)))
  }

  // ----- reading -----

  function ReadU32(s: Bytes): Option<nat> {
    if |s| < 4 then None else Some(BigEndian(s[0], s[1], s[2], s[3]))
  }

  function BigEndian(a: int, b: int, c: int, d: int): int {
    0x100_0000 * a + 0x1_0000 * b + 0x100 * c + d
  }

  function TakeU32(s: Bytes): Option<(nat, Bytes)> {
    match ReadU32(s)
    case None => None
    case Some(n) => Some((n, s[4..]))
  }

  function TakeStr(s: Bytes): Option<(Bytes, Bytes)> {
    match ReadU32(s)
    case None => None
    case Some(length) => if 4 + length > |s| then None else Some((s[4..4 + length], s[4 + length..]))
  }

  predicate CanonicalPadding(s: Bytes) {
    1 <= |s| <= 8 && forall i :: 0 <= i < |s| ==> s[i] == i + 1
  }

  /** What is left to read of a byte string. */
  class Cursor {
    var remaining: Bytes

    constructor (s: Bytes)
      ensures remaining == s
    {
      remaining := s;
    }

    method TakeSshString() returns (value: Option<Bytes>)
      modifies this
      ensures match TakeStr(old(remaining))
              case None => value == None && remaining == old(remaining)
              case Some((v, rest)) => value == Some(v) && remaining == rest
    {
      var length := ReadU32(remaining);
      if length.None? || 4 + length.value > |remaining| {
        return None;
      }
      value := Some(remaining[4..4 + length.value]);
      remaining := remaining[4 + length.value..];
    }

    method TakeU32Value() returns (value: Option<nat>)
      modifies this
      ensures match TakeU32(old(remaining))
              case None => value == None && remaining == old(remaining)
              case Some((v, rest)) => value == Some(v) && remaining == rest
    {
      value := ReadU32(remaining);
      if value.Some? {
        remaining := remaining[4..];
      }
    }
  }

  /** The public key of the outer blob, if it is one. */
  function ReadPublicBlob(s: Bytes): Option<Bytes> {
    match TakeStr(s)
    case None => None
    case Some((kind, s1)) =>
      match TakeStr(s1)
      case None => None
      case Some((public, s2)) => if kind == ED25519 && |public| == 32 && s2 == [] then Some(public) else None
  }

  /** The private block, given the outer public key. */
  function ReadPrivateBlock(s: Bytes, outer: Bytes): Option<Key> {
    match TakeU32(s)
    case None => None
    case Some((first, s1)) =>
      match TakeU32(s1)
      case None => None
      case Some((second, s2)) => ReadChecked(first, second, s2, outer)
  }

  function ReadChecked(first: nat, second: nat, s: Bytes, outer: Bytes): Option<Key> {
    match TakeStr(s)
    case None => None
    case Some((kind, s1)) =>
      match TakeStr(s1)
      case None => None
      case Some((public, s2)) =>
        match TakeStr(s2)
        case None => None
        case Some((private, s3)) =>
          match TakeStr(s3)
          case None => None
          case Some((comment, s4)) =>
            if first != second || kind != ED25519 || |public| != 32 || |private| != 64 || private[32..] != public ||
               public != outer || |comment| > MAX_COMMENT || !CanonicalPadding(s4) then None
            else Some(Key(first, public, private[..32], comment))
  }

  function ReadHeader(s: Bytes): Option<Bytes> {
    match TakeStr(s)
    case None => None
    case Some((cipher, s1)) =>
      match TakeStr(s1)
      case None => None
      case Some((kdf, s2)) =>
        match TakeStr(s2)
        case None => None
        case Some((options, s3)) =>
          if cipher != NONE || kdf != NONE || options != [] then None
          else
            match TakeU32(s3)
            case None => None
            case Some((count, s4)) => if count != 1 then None else Some(s4)
  }

  function ReadKey(s: Bytes): Option<Key> {
    match ReadHeader(s)
    case None => None
    case Some(s1) =>
      match TakeStr(s1)
      case None => None
      case Some((blob, s2)) =>
        match TakeStr(s2)
        case None => None
        case Some((block, s3)) =>
          if |block| % BLOCK != 0 || s3 != [] then None
          else
            match ReadPublicBlob(blob)
            case None => None
            case Some(outer) => ReadPrivateBlock(block, outer)
  }

  function Validate(s: Bytes): Option<Key> {
    if MAGIC <= s then ReadKey(s[|MAGIC|..]) else None
  }

  method ValidateHeader(cursor: Cursor) returns (ok: bool)
    modifies cursor
    ensures ok <==> ReadHeader(old(cursor.remaining)).Some?
    ensures ok ==> cursor.remaining == ReadHeader(old(cursor.remaining)).value
  {
    var cipher := cursor.TakeSshString();
    if cipher.None? { return false; }
    var kdf := cursor.TakeSshString();
    if kdf.None? { return false; }
    var options := cursor.TakeSshString();
    if options.None? { return false; }
    if cipher.value != NONE || kdf.value != NONE || options.value != [] {
      return false;
    }
    var count := cursor.TakeU32Value();
    if count.None? { return false; }
    ok := count.value == 1;
  }

  method ValidatePublicBlob(blob: Bytes) returns (public: Option<Bytes>)
    ensures public == ReadPublicBlob(blob)
  {
    var cursor := new Cursor(blob);
    var kind := cursor.TakeSshString();
    if kind.None? { return None; }
    var outer := cursor.TakeSshString();
    if outer.None? { return None; }
    if kind.value != ED25519 || |outer.value| != 32 || cursor.remaining != [] {
      return None;
    }
    public := outer;
  }

  method ValidatePrivateBlock(block: Bytes, outer: Bytes) returns (ok: bool)
    ensures ok <==> ReadPrivateBlock(block, outer).Some?
  {
    var cursor := new Cursor(block);
    var first := cursor.TakeU32Value();
    if first.None? { return false; }
    var second := cursor.TakeU32Value();
    if second.None? { return false; }
    var kind := cursor.TakeSshString();
    if kind.None? { return false; }
    var public := cursor.TakeSshString();
    if public.None? { return false; }
    var private := cursor.TakeSshString();
    if private.None? { return false; }
    var comment := cursor.TakeSshString();
    if comment.None? { return false; }
    ok := !(first.value != second.value || kind.value != ED25519 || |public.value| != 32 || |private.value| != 64 ||
            private.value[32..] != public.value || public.value != outer || |comment.value| > MAX_COMMENT ||
            !CanonicalPadding(cursor.remaining));
  }

  method ValidateIdentity(decoded: Bytes) returns (ok: bool)
    ensures ok <==> exists k :: ValidKey(k) && Serialize(k) == decoded
  {
    if Validate(decoded).Some? {
      AcceptedIsSerialized(decoded);
    }
    forall k | ValidKey(k) && Serialize(k) == decoded ensures Validate(decoded).Some? {
      SerializedIsAccepted(k);
    }
    if !(MAGIC <= decoded) {
      return false;
    }
    var cursor := new Cursor(decoded[|MAGIC|..]);
    var header := ValidateHeader(cursor);
    if !header { return false; }
    var blob := cursor.TakeSshString();
    if blob.None? { return false; }
    var block := cursor.TakeSshString();
    if block.None? { return false; }
    if |block.value| % BLOCK != 0 || cursor.remaining != [] {
      return false;
    }
    var outer := ValidatePublicBlob(blob.value);
    if outer.None? { return false; }
    ok := ValidatePrivateBlock(block.value, outer.value);
  }

  // ----- serialised keys are accepted -----

  lemma U32ReadsBack(n: nat, rest: Bytes)
    requires n < 0x1_0000_0000
    ensures TakeU32(U32(n) + rest) == Some((n, rest))
  {
    assert (U32(n) + rest)[4..] == rest;
    Digits(n);
  }

  lemma Digits(n: nat)
    requires n < 0x1_0000_0000
    ensures BigEndian(n / 0x100_0000, n / 0x1_0000 % 0x100, n / 0x100 % 0x100, n % 0x100) == n
  {
    assert n / 0x100_0000 == n / 0x100 / 0x100 / 0x100;
    assert n / 0x1_0000 == n / 0x100 / 0x100;
  }

  lemma StrReadsBack(value: Bytes, rest: Bytes)
    requires |value| < 0x1_0000_0000
    ensures TakeStr(Str(value) + rest) == Some((value, rest))
  {
    var s := Str(value) + rest;
    assert s == U32(|value|) + (value + rest);
    U32ReadsBack(|value|, value + rest);
    assert s[4..4 + |value|] == value && s[4 + |value|..] == rest;
  }

  lemma HeaderReadsBack(rest: Bytes)
    ensures ReadHeader(Str(NONE) + (Str(NONE) + (Str([]) + (U32(1) + rest)))) == Some(rest)
  {
    StrReadsBack(NONE, Str(NONE) + (Str([]) + (U32(1) + rest)));
    StrReadsBack(NONE, Str([]) + (U32(1) + rest));
    StrReadsBack([], U32(1) + rest);
    U32ReadsBack(1, rest);
  }

  lemma PublicBlobReadsBack(public: Bytes)
    requires |public| == 32
    ensures ReadPublicBlob(PublicBlob(public)) == Some(public)
  {
    StrReadsBack(ED25519, Str(public));
    assert Str(public) + [] == Str(public);
    StrReadsBack(public, []);
  }

  lemma CheckedReadsBack(k: Key, pad: Bytes)
    requires ValidKey(k)
    ensures ReadChecked(k.check, k.check, Str(ED25519) +
              (Str(k.public) + (Str(k.seed + k.public) + (Str(k.comment) + pad))), k.public) ==
            if CanonicalPadding(pad) then Some(k) else None
  {
    var c := Str(k.comment) + pad;
    var p := Str(k.seed + k.public) + c;
    var q := Str(k.public) + p;
    StrReadsBack(ED25519, q);
    StrReadsBack(k.public, p);
    StrReadsBack(k.seed + k.public, c);
    StrReadsBack(k.comment, pad);
    assert (k.seed + k.public)[32..] == k.public && (k.seed + k.public)[..32] == k.seed;
  }

  /** Whatever follows the body, the fields are found, and the rest is judged as padding. */
  lemma PrivateBodyReadsBack(k: Key, pad: Bytes)
    requires ValidKey(k)
    ensures ReadPrivateBlock(PrivateBody(k) + pad, k.public) == if CanonicalPadding(pad) then Some(k) else None
  {
    var t := Str(ED25519) + (Str(k.public) + (Str(k.seed + k.public) + (Str(k.comment) + pad)));
    Flattened(U32(k.check), U32(k.check), Str(ED25519), Str(k.public), Str(k.seed + k.public), Str(k.comment), pad);
    U32ReadsBack(k.check, U32(k.check) + t);
    U32ReadsBack(k.check, t);
    CheckedReadsBack(k, pad);
  }

  lemma Flattened(a: Bytes, b: Bytes, c: Bytes, d: Bytes, e: Bytes, f: Bytes, g: Bytes)
    ensures a + (b + (c + (d + (e + f)))) + g == a + (b + (c + (d + (e + (f + g)))))
  {
    assert e + f + g == e + (f + g);
    assert d + (e + f) + g == d + (e + f + g);
    assert c + (d + (e + f)) + g == c + (d + (e + f) + g);
    assert b + (c + (d + (e + f))) + g == b + (c + (d + (e + f)) + g);
  }

  lemma EnvelopeOpens(public: Bytes, block: Bytes)
    requires |public| == 32 && |block| < 0x1_0000_0000
    ensures Validate(Envelope(public, block)) == if |block| % BLOCK == 0 then ReadPrivateBlock(block, public) else None
  {
    var blob := PublicBlob(public);
    var body := Str(blob) + Str(block);
    var rest := Str(NONE) + (Str(NONE) + (Str([]) + (U32(1) + body)));
    assert MAGIC <= MAGIC + rest && (MAGIC + rest)[|MAGIC|..] == rest;
    HeaderReadsBack(body);
    StrReadsBack(blob, Str(block));
    assert Str(block) + [] == Str(block);
    StrReadsBack(block, []);
    PublicBlobReadsBack(public);
  }

  /** What the padding after a key's body must be. */
  predicate PaddingFits(k: Key, pad: Bytes)
    requires ValidKey(k)
  {
    CanonicalPadding(pad) && (|PrivateBody(k)| + |pad|) % BLOCK == 0
  }

  /** An envelope around a key's body is accepted exactly when the padding is the one asked for. */
  lemma EnvelopeReadsBack(k: Key, pad: Bytes)
    requires ValidKey(k) && |PrivateBody(k)| + |pad| < 0x1_0000_0000
    ensures Validate(Envelope(k.public, PrivateBody(k) + pad)) == if PaddingFits(k, pad) then Some(k) else None
  {
    var block := PrivateBody(k) + pad;
    assert |block| == |PrivateBody(k)| + |pad|;
    EnvelopeOpens(k.public, block);
    PrivateBodyReadsBack(k, pad);
    Combined(k, pad, |block| % BLOCK == 0, ReadPrivateBlock(block, k.public), Validate(Envelope(k.public, block)));
  }

  lemma Combined(k: Key, pad: Bytes, aligned: bool, read: Option<Key>, verdict: Option<Key>)
    requires ValidKey(k) && (aligned <==> (|PrivateBody(k)| + |pad|) % BLOCK == 0)
    requires read == if CanonicalPadding(pad) then Some(k) else None
    requires verdict == if aligned then read else None
    ensures verdict == if PaddingFits(k, pad) then Some(k) else None
  {
  }

  lemma PaddingIsCanonical(n: nat)
    requires 1 <= n <= 8
    ensures CanonicalPadding(Padding(n))
  {
  }

  lemma SerializedIsAccepted(k: Key)
    requires ValidKey(k)
    ensures Validate(Serialize(k)) == Some(k)
  {
    PaddingIsCanonical(PadLength(k));
    EnvelopeReadsBack(k, Padding(PadLength(k)));
  }

  /** Two keys never have the same file. */
  lemma SerializationIsInjective(k: Key, l: Key)
    requires ValidKey(k) && ValidKey(l) && Serialize(k) == Serialize(l)
    ensures k == l
  {
    SerializedIsAccepted(k);
    SerializedIsAccepted(l);
  }

  /** The least padding that ends the block on a boundary, none if it already does. */
  function LeastPadding(k: Key): (pad: Bytes)
    requires ValidKey(k)
    ensures |pad| == (BLOCK - |PrivateBody(k)| % BLOCK) % BLOCK && (|PrivateBody(k)| + |pad|) % BLOCK == 0
  {
    Padding((BLOCK - |PrivateBody(k)| % BLOCK) % BLOCK)
  }

  lemma LeastFits(k: Key)
    requires ValidKey(k)
    ensures PaddingFits(k, LeastPadding(k)) <==> |k.comment| % BLOCK != 5
  {
    assert |PrivateBody(k)| % BLOCK == (3 + |k.comment| % BLOCK) % BLOCK;
    if |k.comment| % BLOCK != 5 {
      PaddingIsCanonical(|LeastPadding(k)|);
    }
  }

  /**
   A key padded only as far as it must be is accepted exactly when it must be: a body that is
   already aligned, as it is for a comment of 5, 13 or 21 bytes, is refused without padding.
   */
  lemma LeastPaddingIsAcceptedExactly(k: Key, pad: Bytes)
    requires ValidKey(k) && pad == LeastPadding(k)
    ensures
      Validate(Envelope(k.public, PrivateBody(k) + pad)) == if |k.comment| % BLOCK != 5 then Some(k) else None
  {
    LeastFits(k);
    EnvelopeReadsBack(k, pad);
  }

  /** A key that is refused. */
  lemma AlignedWithoutPaddingIsRefused() returns (k: Key)
    ensures ValidKey(k) && k.comment == [0x61, 0x64, 0x6D, 0x69, 0x6E] && |PrivateBody(k)| % BLOCK == 0
    ensures Validate(Envelope(k.public, PrivateBody(k))) == None
  {
    var zeros: Bytes := seq(32, _ => 0);
    k := Key(0, zeros, zeros, [0x61, 0x64, 0x6D, 0x69, 0x6E]);
    Aligned(k);
  }

  lemma Aligned(k: Key)
    requires ValidKey(k) && |k.comment| == 5
    ensures |PrivateBody(k)| % BLOCK == 0 && Validate(Envelope(k.public, PrivateBody(k))) == None
  {
    var body, pad := PrivateBody(k), LeastPadding(k);
    assert |body| % BLOCK == 0 && pad == [];
    NothingAdded(body, pad, k.public);
    LeastPaddingIsAcceptedExactly(k, pad);
  }

  lemma NothingAdded(body: Bytes, pad: Bytes, public: Bytes)
    requires pad == [] && |public| == 32 && |body| < 0x1_0000_0000
    ensures Envelope(public, body + pad) == Envelope(public, body)
  {
    assert body + pad == body;
  }

  // ----- what is accepted is a serialised key -----

  lemma Undigits(a: int, b: int, c: int, d: int)
    requires 0 <= a < 0x100 && 0 <= b < 0x100 && 0 <= c < 0x100 && 0 <= d < 0x100
    ensures var n := BigEndian(a, b, c, d);
            n / 0x100_0000 == a && n / 0x1_0000 % 0x100 == b && n / 0x100 % 0x100 == c && n % 0x100 == d
  {
    var n := BigEndian(a, b, c, d);
    assert n / 0x100_0000 == a && n / 0x1_0000 == 0x100 * a + b && n / 0x100 == 0x1_0000 * a + 0x100 * b + c;
  }

  lemma TakenU32(s: Bytes)
    requires TakeU32(s).Some?
    ensures TakeU32(s).value.0 < 0x1_0000_0000 && U32(TakeU32(s).value.0) == s[..4]
    ensures s == U32(TakeU32(s).value.0) + TakeU32(s).value.1
  {
    Undigits(s[0], s[1], s[2], s[3]);
    var n := TakeU32(s).value.0;
    assert U32(n) == s[..4];
  }

  lemma Parts(s: Bytes, n: nat)
    requires 4 + n <= |s|
    ensures s == s[..4] + s[4..4 + n] + s[4 + n..] && |s[4..4 + n]| == n
  {
  }

  lemma TakenStr(s: Bytes)
    requires TakeStr(s).Some?
    ensures |TakeStr(s).value.0| < 0x1_0000_0000 && s == Str(TakeStr(s).value.0) + TakeStr(s).value.1
  {
    TakenU32(s);
    Parts(s, ReadU32(s).value);
  }

  lemma HeaderRead(s: Bytes)
    requires ReadHeader(s).Some?
    ensures s == Str(NONE) + (Str(NONE) + (Str([]) + (U32(1) + ReadHeader(s).value)))
  {
    TakenStr(s);
    var s1 := TakeStr(s).value.1;
    TakenStr(s1);
    var s2 := TakeStr(s1).value.1;
    TakenStr(s2);
    TakenU32(TakeStr(s2).value.1);
  }

  lemma PublicBlobRead(s: Bytes)
    requires ReadPublicBlob(s).Some?
    ensures |ReadPublicBlob(s).value| == 32 && s == PublicBlob(ReadPublicBlob(s).value)
  {
    TakenStr(s);
    TakenStr(TakeStr(s).value.1);
    assert Str(ReadPublicBlob(s).value) + [] == Str(ReadPublicBlob(s).value);
  }

  lemma PrivateBlockRead(s: Bytes, outer: Bytes)
    requires ReadPrivateBlock(s, outer).Some?
    ensures var k := ReadPrivateBlock(s, outer).value;
            ValidKey(k) && k.public == outer && exists pad :: CanonicalPadding(pad) && s == PrivateBody(k) + pad
  {
    var k := ReadPrivateBlock(s, outer).value;
    TakenU32(s);
    var s1 := TakeU32(s).value.1;
    TakenU32(s1);
    var s2 := TakeU32(s1).value.1;
    TakenStr(s2);
    var s3 := TakeStr(s2).value.1;
    TakenStr(s3);
    var s4 := TakeStr(s3).value.1;
    TakenStr(s4);
    var private := TakeStr(s4).value.0;
    var s5 := TakeStr(s4).value.1;
    TakenStr(s5);
    var pad := TakeStr(s5).value.1;
    assert private == k.seed + k.public;
    Flattened(U32(k.check), U32(k.check), Str(ED25519), Str(k.public), Str(k.seed + k.public), Str(k.comment), pad);
  }

  lemma OnePadLength(n: nat, m: nat)
    requires 1 <= m <= 8 && (n + m) % 8 == 0
    ensures m == 8 - n % 8
  {
    assert (n % 8 + m) % 8 == 0;
  }

  lemma PaddingIsUnique(k: Key, pad: Bytes)
    requires ValidKey(k) && CanonicalPadding(pad) && (|PrivateBody(k)| + |pad|) % BLOCK == 0
    ensures pad == Padding(PadLength(k))
  {
    OnePadLength(|PrivateBody(k)|, |pad|);
    assert forall i :: 0 <= i < |pad| ==> pad[i] == Padding(|pad|)[i];
  }

  lemma EnvelopeRead(s: Bytes) returns (outer: Bytes, block: Bytes)
    requires Validate(s).Some?
    ensures |outer| == 32 && |block| < 0x1_0000_0000 && |block| % BLOCK == 0
    ensures s == Envelope(outer, block)
    ensures Validate(s) == ReadPrivateBlock(block, outer)
  {
    var s0 := s[|MAGIC|..];
    assert s == MAGIC + s0;
    HeaderRead(s0);
    var s1 := ReadHeader(s0).value;
    TakenStr(s1);
    var (blob, s2) := TakeStr(s1).value;
    TakenStr(s2);
    block := TakeStr(s2).value.0;
    assert Str(block) + [] == Str(block);
    PublicBlobRead(blob);
    outer := ReadPublicBlob(blob).value;
  }

  lemma AcceptedIsSerialized(s: Bytes)
    requires Validate(s).Some?
    ensures ValidKey(Validate(s).value) && Serialize(Validate(s).value) == s
  {
    var outer, block := EnvelopeRead(s);
    PrivateBlockRead(block, outer);
    var k := ReadPrivateBlock(block, outer).value;
    Assembled(k, outer, block);
  }

  lemma Assembled(k: Key, outer: Bytes, block: Bytes)
    requires ValidKey(k) && k.public == outer && |block| % BLOCK == 0
    requires exists pad :: CanonicalPadding(pad) && block == PrivateBody(k) + pad
    ensures Serialize(k) == Envelope(outer, block)
  {
    var pad :| CanonicalPadding(pad) && block == PrivateBody(k) + pad;
    PaddingIsUnique(k, pad);
  }
}
