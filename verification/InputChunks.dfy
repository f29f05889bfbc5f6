/** Splitting input for the wire (frontend/src/terminal-io.ts, `chunkUtf8Input`, `chunkBinaryInput`). */
module InputChunks {
  import opened Collections
  import opened Unicode

  const MAX_BINARY_BYTES := 65_536

  /** Each chunk is the encoding of its own piece of the text, so no character is split. */
  predicate Encodes(chunks: seq<seq<Byte>>, pieces: seq<string>) {
    |chunks| == |pieces| && forall i :: 0 <= i < |chunks| ==> chunks[i] == ToUtf8(pieces[i])
  }

  predicate Sized(chunk: seq<Byte>) {
    1 <= |chunk| <= MAX_BINARY_BYTES
  }

  /** Too full for one more character of four bytes. */
  predicate Full(chunk: seq<Byte>) {
    MAX_BINARY_BYTES - 3 <= |chunk|
  }

  /** The part of the text that is done, as text and as bytes: closed chunks, and the one being filled. */
  ghost predicate Sofar(chunks: seq<seq<Byte>>, pending: seq<Byte>, pieces: seq<string>, open: string, done: string,
                        bytes: seq<Byte>)
  {
    && Flatten(pieces) + open == done && Encodes(chunks, pieces)
    && Flatten(chunks) + pending == bytes && |pending| <= MAX_BINARY_BYTES
  }

  lemma Closed(chunks: seq<seq<Byte>>, pending: seq<Byte>, pieces: seq<string>, open: string, done: string,
               bytes: seq<Byte>)
    requires Sofar(chunks, pending, pieces, open, done, bytes) && pending == ToUtf8(open)
    ensures Sofar(chunks + [pending], [], pieces + [open], [], done, bytes)
  {
    FlattenAppend(chunks, pending);
    FlattenAppend(pieces, open);
  }

  lemma Extended(chunks: seq<seq<Byte>>, pending: seq<Byte>, pieces: seq<string>, open: string, done: string,
                 bytes: seq<Byte>, c: char, encoded: seq<Byte>)
    requires Sofar(chunks, pending, pieces, open, done, bytes) && |pending| + |encoded| <= MAX_BINARY_BYTES
    ensures Sofar(chunks, pending + encoded, pieces, open + [c], done + [c], bytes + encoded)
  {
    assert Flatten(chunks) + pending + encoded == Flatten(chunks) + (pending + encoded);
    assert Flatten(pieces) + open + [c] == Flatten(pieces) + (open + [c]);
  }

  /** What the encoder returns is what the character adds to any text. */
  ghost predicate Adds(c: char, encoded: seq<Byte>) {
    1 <= |encoded| <= 4 && forall s: string :: Grows(s, c, encoded)
  }

  predicate Grows(s: string, c: char, encoded: seq<Byte>) {
    ToUtf8(s + [c]) == ToUtf8(s) + encoded
  }

  method EncodeCharacter(c: char) returns (encoded: seq<Byte>)
    ensures Adds(c, encoded)
  {
    encoded := Utf8(c);
    forall s: string ensures Grows(s, c, encoded) {
      OneMore(s, c);
    }
  }

  /** The loop of `ChunkUtf8Input` when this much of the text is done. */
  ghost predicate Filling(done: string, chunks: seq<seq<Byte>>, pending: seq<Byte>, pieces: seq<string>, open: string) {
    && Sofar(chunks, pending, pieces, open, done, ToUtf8(done)) && pending == ToUtf8(open)
    && forall j :: 0 <= j < |chunks| ==> Sized(chunks[j])
  }

  lemma Advanced(done: string, chunks: seq<seq<Byte>>, pending: seq<Byte>, pieces: seq<string>, open: string,
                 c: char, encoded: seq<Byte>)
    requires Adds(c, encoded)
    requires Filling(done, chunks, pending, pieces, open) && |pending| + |encoded| <= MAX_BINARY_BYTES
    ensures Filling(done + [c], chunks, pending + encoded, pieces, open + [c])
  {
    assert Grows(done, c, encoded) && Grows(open, c, encoded);
    Extended(chunks, pending, pieces, open, done, ToUtf8(done), c, encoded);
  }

  lemma Flushed(done: string, chunks: seq<seq<Byte>>, pending: seq<Byte>, pieces: seq<string>, open: string)
    requires Filling(done, chunks, pending, pieces, open) && pending != []
    ensures Filling(done, chunks + [pending], [], pieces + [open], [])
  {
    Closed(chunks, pending, pieces, open, done, ToUtf8(done));
  }

  lemma Finished(done: string, chunks: seq<seq<Byte>>, pieces: seq<string>, open: string)
    requires Filling(done, chunks, [], pieces, open)
    ensures Flatten(chunks) == ToUtf8(done) && Flatten(pieces) == done && Encodes(chunks, pieces)
  {
    assert |ToUtf8(open)| >= |open|;
  }

  /** One turn of the iteration over a text: a character, and where the next one starts. */
  method NextCharacter(units: seq<Unit>, i: nat) returns (c: char, next: nat)
    requires i < |units|
    ensures i < next <= |units| && Scalars(units[i..]) == [c] + Scalars(units[next..])
  {
    c := FirstScalar(units[i..]);
    next := if Paired(units[i..]) then i + 2 else i + 1;
    assert units[i..][next - i..] == units[next..];
  }

  /**
   Text, given by its UTF-16 units, iterates by character and is encoded one character at a time.
   The pieces of text behind the chunks are named too.
   */
  method ChunkUtf8Input(units: seq<Unit>) returns (chunks: seq<seq<Byte>>, ghost pieces: seq<string>)
    ensures Flatten(chunks) == ToUtf8(Scalars(units))
    ensures Flatten(pieces) == Scalars(units) && Encodes(chunks, pieces)
    ensures forall i :: 0 <= i < |chunks| ==> Sized(chunks[i])
    ensures forall i :: 0 <= i < |chunks| - 1 ==> Full(chunks[i])
  {
    chunks, pieces := [], [];
    if |units| == 0 {
      return;
    }
    var pending: seq<Byte> := [];
    ghost var open: string, done: string := [], [];
    var i := 0;
    while i < |units|
      invariant i <= |units| && Scalars(units) == done + Scalars(units[i..])
      invariant Filling(done, chunks, pending, pieces, open)
      invariant i > 0 ==> pending != []
      invariant forall j :: 0 <= j < |chunks| ==> Full(chunks[j])
    {
      var c, next := NextCharacter(units, i);
      var encoded := EncodeCharacter(c);
      if |pending| + |encoded| > MAX_BINARY_BYTES {
        Flushed(done, chunks, pending, pieces, open);
        chunks, pieces := chunks + [pending], pieces + [open];
        pending, open := [], [];
      }
      Advanced(done, chunks, pending, pieces, open, c, encoded);
      Regrouped(done, c, Scalars(units[next..]));
      pending, open, done, i := pending + encoded, open + [c], done + [c], next;
    }
    assert Scalars(units[i..]) == [];
    if |pending| > 0 {
      Flushed(done, chunks, pending, pieces, open);
      chunks, pieces := chunks + [pending], pieces + [open];
      open := [];
    }
    Finished(done, chunks, pieces, open);
  }

  lemma Regrouped(done: string, c: char, rest: string)
    ensures done + ([c] + rest) == done + [c] + rest
  {
  }

  lemma OneMore(s: string, c: char)
    ensures ToUtf8(s + [c]) == ToUtf8(s) + Utf8(c)
  {
    ToUtf8Append(s, [c]);
    assert ToUtf8([c]) == Utf8(c) + ToUtf8([]);
  }

  method ChunkBinaryInput(data: seq<Byte>) returns (chunks: seq<seq<Byte>>)
    ensures Flatten(chunks) == data
    ensures forall i :: 0 <= i < |chunks| ==> Sized(chunks[i])
    ensures forall i :: 0 <= i < |chunks| - 1 ==> |chunks[i]| == MAX_BINARY_BYTES
  {
    chunks := [];
    var offset := 0;
    while offset < |data|
      invariant 0 <= offset && (offset <= |data| || offset - |data| < MAX_BINARY_BYTES)
      invariant Flatten(chunks) == if offset <= |data| then data[..offset] else data
      invariant offset == |chunks| * MAX_BINARY_BYTES
      invariant forall i :: 0 <= i < |chunks| ==> Sized(chunks[i])
      invariant forall i :: 0 <= i < |chunks| ==> (i + 1) * MAX_BINARY_BYTES <= |data| ==>
                |chunks[i]| == MAX_BINARY_BYTES
    {
      var end := if offset + MAX_BINARY_BYTES < |data| then offset + MAX_BINARY_BYTES else |data|;
      FlattenAppend(chunks, data[offset..end]);
      assert data[..offset] + data[offset..end] == data[..end];
      chunks := chunks + [data[offset..end]];
      offset := offset + MAX_BINARY_BYTES;
      if offset > |data| {
        assert data[..end] == data;
      }
    }
    assert data[..|data|] == data;
  }
}
