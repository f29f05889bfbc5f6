/** Newline-terminated lines of a byte stream; a byte is a character below U+0100. */
module Lines {
  type Bytes = seq<char>

  /** The bytes after the last newline: the line still open. */
  function Tail(s: Bytes): (tail: Bytes)
    ensures '\n' !in tail
  {
    if s == [] || s[|s| - 1] == '\n' then [] else Tail(s[..|s| - 1]) + [s[|s| - 1]]
  }

  /** The completed lines, without their newlines. */
  function Terminated(s: Bytes): (lines: seq<Bytes>)
    ensures forall i :: 0 <= i < |lines| ==> '\n' !in lines[i]
  {
    if s == [] then []
    else if s[|s| - 1] == '\n' then Terminated(s[..|s| - 1]) + [Tail(s[..|s| - 1])]
    else Terminated(s[..|s| - 1])
  }

  lemma AppendByte(s: Bytes, b: char)
    ensures Tail(s + [b]) == if b == '\n' then [] else Tail(s) + [b]
    ensures Terminated(s + [b]) == if b == '\n' then Terminated(s) + [Tail(s)] else Terminated(s)
  {
    assert (s + [b])[..|s|] == s;
  }

  lemma {:induction false} AppendBytes(s: Bytes, more: Bytes)
    requires '\n' !in more
    ensures Tail(s + more) == Tail(s) + more && Terminated(s + more) == Terminated(s)
  {
    if more == [] {
      assert s + more == s;
    } else {
      var init := more[..|more| - 1];
      AppendBytes(s, init);
      AppendLast(s, init, more[|more| - 1], more, Tail(s), Terminated(s));
    }
  }

  lemma AppendLast(s: Bytes, init: Bytes, last: char, more: Bytes, tail: Bytes, lines: seq<Bytes>)
    requires more == init + [last] && last != '\n'
    requires Tail(s + init) == tail + init && Terminated(s + init) == lines
    ensures Tail(s + more) == tail + more && Terminated(s + more) == lines
  {
    AppendByte(s + init, last);
    LastMoved(s, init, last, more);
    LastMoved(tail, init, last, more);
  }

  lemma LastMoved(s: Bytes, init: Bytes, last: char, more: Bytes)
    requires more == init + [last]
    ensures s + init + [last] == s + more
  {
  }

  /** Completed lines are never withdrawn: the lines of a prefix are a prefix of the lines. */
  lemma {:induction false} TerminatedIsMonotone(s: Bytes, more: Bytes)
    ensures Terminated(s) <= Terminated(s + more)
  {
    if more == [] {
      assert s + more == s;
    } else {
      var init := more[..|more| - 1];
      TerminatedIsMonotone(s, init);
      assert s + more == s + init + [more[|more| - 1]];
      AppendByte(s + init, more[|more| - 1]);
    }
  }
}
