/**
 The SSH diagnostic classifier (crates/ttygated/src/ssh.rs): a stream is pushed in arbitrary
 pieces, checked against three bounds, and searched line by line for known messages.  A byte
 is a character below U+0100, so that messages can be written as literals.
 */
module Diagnostics {
  import opened Collections
  import opened Wrappers
  import opened Lines

  const MAX_BYTES := 32_768
  const MAX_LINES := 128
  const MAX_LINE_BYTES := 1_024

  datatype Class =
    | Authenticated
    | UnknownHostKey
    | HostKeyMismatch
    | ConnectionFailed
    | AuthenticationFailed
    | GenericFailure

  // ----- the bounds -----

  /** Completed lines, and the open one if anything is on it. */
  function LineCount(s: Bytes): nat {
    |Terminated(s)| + if Tail(s) == [] then 0 else 1
  }

  predicate WithinBounds(s: Bytes) {
    && |s| <= MAX_BYTES
    && LineCount(s) <= MAX_LINES
    && |Tail(s)| <= MAX_LINE_BYTES
    && forall i :: 0 <= i < |Terminated(s)| ==> |Terminated(s)[i]| <= MAX_LINE_BYTES
  }

  lemma OneByteLess(s: Bytes, b: char)
    requires WithinBounds(s + [b])
    ensures WithinBounds(s)
  {
    AppendByte(s, b);
    if b == '\n' {
      var all := Terminated(s + [b]);
      assert all[|Terminated(s)|] == Tail(s);
      assert forall i :: 0 <= i < |Terminated(s)| ==> Terminated(s)[i] == all[i];
    }
  }

  /** Only the line being written needs checking. */
  lemma OneByteMore(s: Bytes, b: char)
    requires WithinBounds(s) && |s| < MAX_BYTES
    ensures WithinBounds(s + [b]) <==> LineCount(s + [b]) <= MAX_LINES && |Tail(s + [b])| <= MAX_LINE_BYTES
  {
    AppendByte(s, b);
  }

  /** A stream that has broken a bound has broken it for good. */
  lemma {:induction false} BoundsArePrefixClosed(s: Bytes, more: Bytes)
    requires WithinBounds(s + more)
    ensures WithinBounds(s)
  {
    if more == [] {
      assert s + more == s;
    } else {
      var init := more[..|more| - 1];
      assert s + more == s + init + [more[|more| - 1]];
      OneByteLess(s + init, more[|more| - 1]);
      BoundsArePrefixClosed(s, init);
    }
  }

  // ----- UTF-8 (RFC 3629 section 3) -----

  datatype Utf8Status = Complete | Truncated | Malformed

  predicate Continuation(b: char) {
    0x80 <= b as int <= 0xBF
  }

  /** How many bytes a sequence with this first byte has; 0 for a byte that begins none. */
  function SequenceLength(b: char): nat {
    if b as int < 0x80 then 1
    else if 0xC2 <= b as int <= 0xDF then 2
    else if 0xE0 <= b as int <= 0xEF then 3
    else if 0xF0 <= b as int <= 0xF4 then 4
    else 0
  }

  predicate SecondFits(first: char, second: char) {
    var f, s := first as int, second as int;
    if f == 0xE0 then 0xA0 <= s <= 0xBF
    else if f == 0xED then 0x80 <= s <= 0x9F
    else if f == 0xF0 then 0x90 <= s <= 0xBF
    else if f == 0xF4 then 0x80 <= s <= 0x8F
    else Continuation(second)
  }

  /** The bytes present of one sequence are those of a well-formed one. */
  predicate SequenceFits(s: Bytes, length: nat) {
    && (length >= 2 && |s| >= 2 ==> SecondFits(s[0], s[1]))
    && (length >= 3 && |s| >= 3 ==> Continuation(s[2]))
    && (length >= 4 && |s| >= 4 ==> Continuation(s[3]))
  }

  function Utf8(s: Bytes): Utf8Status {
    if s == [] then Complete
    else
      var length := SequenceLength(s[0]);
      if length == 0 || !SequenceFits(s, length) then Malformed
      else if |s| < length then Truncated
      else Utf8(s[length..])
  }

  lemma {:induction false} MalformedStays(s: Bytes, more: Bytes)
    requires Utf8(s) == Malformed
    ensures Utf8(s + more) == Malformed
    decreases |s|
  {
    var length := SequenceLength(s[0]);
    if length != 0 && SequenceFits(s, length) {
      assert (s + more)[length..] == s[length..] + more;
      MalformedStays(s[length..], more);
    }
  }

  // ----- the messages -----

  function StripPrefix(s: Bytes, prefix: Bytes): Option<Bytes> {
    if prefix <= s then Some(s[|prefix|..]) else None
  }

  predicate EndsWith(s: Bytes, suffix: Bytes) {
    |suffix| <= |s| && s[|s| - |suffix|..] == suffix
  }

  function StripSuffix(s: Bytes, suffix: Bytes): Option<Bytes> {
    if EndsWith(s, suffix) then Some(s[..|s| - |suffix|]) else None
  }

  /** Split around the last occurrence. */
  function RsplitOnce(s: Bytes, separator: Bytes): Option<(Bytes, Bytes)> {
    if |s| < |separator| then None
    else if EndsWith(s, separator) then Some((s[..|s| - |separator|], []))
    else if s == [] then None
    else
      match RsplitOnce(s[..|s| - 1], separator)
      case None => None
      case Some((before, after)) => Some((before, after + [s[|s| - 1]]))
  }

  function StripCarriageReturn(line: Bytes): Bytes {
    if EndsWith(line, "\r") then line[..|line| - 1] else line
  }

  predicate MismatchLine(line: Bytes) {
    line == "WARNING: REMOTE HOST IDENTIFICATION HAS CHANGED!" ||
    line == "@    WARNING: REMOTE HOST IDENTIFICATION HAS CHANGED!     @"
  }

  predicate UnknownKeyFor(line: Bytes, keyType: Bytes, host: Bytes) {
    var rest := StripPrefix(line, "No " + keyType + " host key is known for ");
    rest.Some? && StripSuffix(rest.value, " and you have requested strict checking.") == Some(host)
  }

  predicate UnknownKeyLine(line: Bytes, host: Bytes) {
    UnknownKeyFor(line, "ED25519", host) || UnknownKeyFor(line, "ECDSA", host) || UnknownKeyFor(line, "RSA", host) ||
    line == "Host key verification failed."
  }

  /** The host between two frames, alone or with an address in brackets after it. */
  predicate AuthorityFits(line: Bytes, prefix: Bytes, host: Bytes, suffix: Bytes) {
    var rest := StripPrefix(line, prefix);
    rest.Some? &&
    var authority := StripSuffix(rest.value, suffix);
    authority.Some? &&
    (authority.value == host ||
     var shown := StripPrefix(authority.value, host);
     shown.Some? && " ([" <= shown.value && EndsWith(shown.value, ")"))
  }

  predicate AuthenticatedLine(line: Bytes, host: Bytes) {
    AuthorityFits(line, "Authenticated to ", host, " using \"publickey\".")
  }

  predicate UserByte(b: char) {
    'a' <= b <= 'z' || 'A' <= b <= 'Z' || '0' <= b <= '9' || b == '.' || b == '_' || b == '-'
  }

  predicate UserName(user: Bytes) {
    user != [] && forall i :: 0 <= i < |user| ==> UserByte(user[i])
  }

  predicate DeniedFits(line: Bytes, host: Bytes, suffix: Bytes) {
    var authority := StripSuffix(line, suffix);
    authority.Some? &&
    var parts := RsplitOnce(authority.value, "@");
    parts.Some? && UserName(parts.value.0) && parts.value.1 == host
  }

  predicate DeniedLine(line: Bytes, host: Bytes) {
    line == "No more authentication methods to try." ||
    DeniedFits(line, host, ": Permission denied (publickey).")
  }

  predicate ConnectLine(line: Bytes, host: Bytes) {
    var rest := StripPrefix(line, "ssh: connect to host ");
    rest.Some? &&
    var after := StripPrefix(rest.value, host);
    after.Some? && " port " <= after.value &&
    (EndsWith(after.value, "Connection refused") || EndsWith(after.value, "Connection timed out") ||
     EndsWith(after.value, "No route to host") || EndsWith(after.value, "Operation timed out"))
  }

  predicate ResolutionLine(line: Bytes, host: Bytes) {
    var rest := StripPrefix(line, "ssh: Could not resolve hostname ");
    rest.Some? &&
    var after := StripPrefix(rest.value, host);
    after.Some? &&
    var reason := StripPrefix(after.value, ": ");
    reason.Some? &&
    (reason.value == "Name or service not known" || reason.value == "nodename nor servname provided, or not known" ||
     reason.value == "Temporary failure in name resolution")
  }

  predicate DigitBytes(s: Bytes) {
    forall i :: 0 <= i < |s| ==> '0' <= s[i] <= '9'
  }

  function NumberOf(s: Bytes): nat
    requires DigitBytes(s)
  {
    if s == [] then 0 else 10 * NumberOf(s[..|s| - 1]) + (s[|s| - 1] as int - '0' as int)
  }

  /** `parse::<u16>()`, which takes a leading plus, and not zero. */
  predicate PortNumber(s: Bytes) {
    var digits := if "+" <= s then s[1..] else s;
    digits != [] && DigitBytes(digits) && 0 < NumberOf(digits) < 0x1_0000
  }

  /** `address` is whether a string parses as an IP address. */
  predicate PeerLine(line: Bytes, prefix: Bytes, host: Bytes, address: Bytes -> bool) {
    var rest := StripPrefix(line, prefix);
    rest.Some? &&
    var parts := RsplitOnce(rest.value, " port ");
    parts.Some? && (parts.value.0 == host || address(parts.value.0)) && PortNumber(parts.value.1)
  }

  predicate FailureLine(line: Bytes, host: Bytes, address: Bytes -> bool) {
    ConnectLine(line, host) || ResolutionLine(line, host) ||
    PeerLine(line, "Connection closed by ", host, address) || PeerLine(line, "Connection reset by ", host, address) ||
    line == "kex_exchange_identification: Connection closed by remote host"
  }

  datatype Expectation = Expectation(host: Bytes, address: Bytes -> bool)

  /** The line is evidence for the class. */
  predicate Shows(line: Bytes, class_: Class, e: Expectation) {
    match class_
    case HostKeyMismatch => MismatchLine(line)
    case UnknownHostKey => UnknownKeyLine(line, e.host)
    case Authenticated => AuthenticatedLine(line, e.host)
    case AuthenticationFailed => DeniedLine(line, e.host)
    case ConnectionFailed => FailureLine(line, e.host, e.address)
    case GenericFailure => false
  }

  predicate AnyShows(lines: seq<Bytes>, class_: Class, e: Expectation) {
    exists i :: 0 <= i < |lines| && Shows(StripCarriageReturn(lines[i]), class_, e)
  }

  function ByPrecedence(shown: Class -> bool): (class_: Option<Class>)
    ensures class_ != Some(GenericFailure)
  {
    if shown(HostKeyMismatch) then Some(HostKeyMismatch)
    else if shown(UnknownHostKey) then Some(UnknownHostKey)
    else if shown(Authenticated) then Some(Authenticated)
    else if shown(AuthenticationFailed) then Some(AuthenticationFailed)
    else if shown(ConnectionFailed) then Some(ConnectionFailed)
    else None
  }

  /** Only completed lines count. */
  function Classify(s: Bytes, e: Expectation): (class_: Option<Class>)
    ensures class_ != Some(GenericFailure)
  {
    ByPrecedence(c => AnyShows(Terminated(s), c, e))
  }

  /** What a stream amounts to, however it was cut up. */
  function Verdict(s: Bytes, e: Expectation): Option<Class> {
    VerdictOf(WithinBounds(s), Utf8(s), Classify(s, e))
  }

  function VerdictOf(within: bool, status: Utf8Status, class_: Option<Class>): Option<Class> {
    if !within then Some(GenericFailure)
    else
      match status
      case Complete => class_
      case Truncated => None
      case Malformed => Some(GenericFailure)
  }

  // ----- the object -----

  class Classifier {
    const expected: Expectation
    var bytes: Bytes
    var lineCount: nat
    var currentLineBytes: nat
    var lineOpen: bool
    var invalid: bool
    /** Everything pushed so far. */
    ghost var stream: Bytes

    ghost predicate Counts(s: Bytes)
      reads this
    {
      lineCount == LineCount(s) && currentLineBytes == |Tail(s)| && (lineOpen <==> Tail(s) != [])
    }

    ghost predicate Valid()
      reads this
    {
      && (invalid <==> !WithinBounds(stream))
      && (if invalid then bytes == [] else bytes == stream && Counts(stream))
    }

    constructor (expected: Expectation)
      ensures Valid() && stream == [] && this.expected == expected
    {
      this.expected := expected;
      bytes, lineCount, currentLineBytes, lineOpen, invalid, stream := [], 0, 0, false, false, [];
    }

    /** One byte; `false` when it breaks a line bound. */
    method CountByte(byte: char, ghost s: Bytes) returns (ok: bool)
      requires Counts(s) && WithinBounds(s) && |s| < MAX_BYTES
      modifies this`lineCount, this`currentLineBytes, this`lineOpen
      ensures ok ==> Counts(s + [byte])
      ensures ok <==> WithinBounds(s + [byte])
    {
      AppendByte(s, byte);
      OneByteMore(s, byte);
      if byte == '\n' {
        if !lineOpen {
          lineCount := lineCount + 1;
        }
        currentLineBytes := 0;
        lineOpen := false;
        ok := lineCount <= MAX_LINES;
      } else {
        if !lineOpen {
          lineCount := lineCount + 1;
          lineOpen := true;
        }
        currentLineBytes := currentLineBytes + 1;
        ok := lineCount <= MAX_LINES && currentLineBytes <= MAX_LINE_BYTES;
      }
    }

    /** The bytes of a chunk, up to the first that breaks a line bound. */
    method CountChunk(chunk: Bytes, ghost s: Bytes) returns (ok: bool)
      requires Counts(s) && WithinBounds(s) && |s| + |chunk| <= MAX_BYTES
      modifies this`lineCount, this`currentLineBytes, this`lineOpen
      ensures ok ==> Counts(s + chunk)
      ensures ok <==> WithinBounds(s + chunk)
    {
      assert s + chunk[..0] == s;
      for i := 0 to |chunk|
        invariant WithinBounds(s + chunk[..i]) && Counts(s + chunk[..i])
      {
        assert s + chunk[..i + 1] == s + chunk[..i] + [chunk[i]];
        ok := CountByte(chunk[i], s + chunk[..i]);
        if !ok {
          Broken(s, chunk, i + 1);
          return false;
        }
      }
      assert chunk[..|chunk|] == chunk;
      return true;
    }

    method Push(chunk: Bytes)
      requires Valid()
      modifies this
      ensures Valid() && stream == old(stream) + chunk
    {
      ghost var before := stream;
      stream := before + chunk;
      if invalid || |bytes| + |chunk| > MAX_BYTES {
        Broken(before, chunk, 0);
        invalid := true;
        bytes := [];
        return;
      }
      var ok := CountChunk(chunk, before);
      if !ok {
        invalid := true;
        bytes := [];
        return;
      }
      bytes := bytes + chunk;
    }

    method Classification() returns (class_: Option<Class>)
      requires Valid()
      ensures class_ == Verdict(stream, expected)
    {
      if invalid {
        return Some(GenericFailure);
      }
      match Utf8(bytes) {
        case Complete => class_ := Classify(bytes, expected);
        case Truncated => class_ := None;
        case Malformed => class_ := Some(GenericFailure);
      }
    }

    method Finish() returns (class_: Class)
      requires Valid()
      ensures class_ == Verdict(stream, expected).UnwrapOr(GenericFailure)
    {
      var found := Classification();
      class_ := found.UnwrapOr(GenericFailure);
    }
  }

  lemma Broken(before: Bytes, chunk: Bytes, n: nat)
    requires n <= |chunk|
    requires !WithinBounds(before + chunk[..n]) || |before| + |chunk| > MAX_BYTES || !WithinBounds(before)
    ensures !WithinBounds(before + chunk)
  {
    if WithinBounds(before + chunk) {
      assert before + chunk == before + chunk[..n] + chunk[n..];
      BoundsArePrefixClosed(before + chunk[..n], chunk[n..]);
      BoundsArePrefixClosed(before, chunk);
    }
  }

  /** Feeding a stream in any pieces gives the verdict of the whole stream. */
  method ClassifyChunks(expected: Expectation, chunks: seq<Bytes>) returns (class_: Option<Class>)
    ensures class_ == Verdict(Flatten(chunks), expected)
  {
    var classifier := new Classifier(expected);
    for i := 0 to |chunks|
      invariant classifier.Valid() && classifier.stream == Flatten(chunks[..i])
    {
      assert chunks[..i + 1][..i] == chunks[..i];
      classifier.Push(chunks[i]);
    }
    assert chunks[..|chunks|] == chunks;
    class_ := classifier.Classification();
  }

  /**
   Draining the client's log through these reads, until it ends or the task is cancelled.  At
   most one class is reported: the first that some prefix of the reads decides.  When none
   decides, the end of the log reports a failure and a cancellation reports nothing.
   */
  method DrainClientLog(expected: Expectation, chunks: seq<Bytes>, cancelled: bool) returns (report: Option<Class>)
    ensures
      || (report.Some? && exists k :: 1 <= k <= |chunks| && Decides(chunks, k, expected, report.value))
      || (Undecided(chunks, |chunks|, expected) && report == if cancelled then None else Some(GenericFailure))
  {
    var classifier := new Classifier(expected);
    report := None;
    for i := 0 to |chunks|
      invariant classifier.Valid() && classifier.expected == expected
      invariant report.None? ==> classifier.stream == Flatten(chunks[..i]) && Undecided(chunks, i, expected)
      invariant report.Some? ==> exists k :: 1 <= k <= |chunks| && Decides(chunks, k, expected, report.value)
    {
      assert chunks[..i + 1][..i] == chunks[..i];
      if report.None? {
        classifier.Push(chunks[i]);
        var class_ := classifier.Classification();
        if class_.Some? {
          report := class_;
          assert Decides(chunks, i + 1, expected, class_.value);
        }
      }
    }
    assert chunks[..|chunks|] == chunks;
    if report.None? && !cancelled {
      NothingYet(expected);
      assert |chunks| > 0 ==> Verdict(Flatten(chunks[..|chunks|]), expected).None?;
      var class_ := classifier.Finish();
      report := Some(class_);
    }
  }

  lemma NothingYet(e: Expectation)
    ensures Verdict([], e) == None
  {
    assert Terminated([]) == [] && Tail([]) == [];
  }

  /** No prefix of up to `n` chunks decides. */
  predicate Undecided(chunks: seq<Bytes>, n: nat, e: Expectation)
    requires n <= |chunks|
  {
    forall j :: 1 <= j <= n ==> Verdict(Flatten(chunks[..j]), e).None?
  }

  predicate Decides(chunks: seq<Bytes>, k: nat, e: Expectation, class_: Class)
    requires 1 <= k <= |chunks|
  {
    Undecided(chunks, k - 1, e) && Verdict(Flatten(chunks[..k]), e) == Some(class_)
  }

  // ----- precedence -----

  function Rank(class_: Option<Class>): nat {
    match class_
    case None => 0
    case Some(ConnectionFailed) => 1
    case Some(AuthenticationFailed) => 2
    case Some(Authenticated) => 3
    case Some(UnknownHostKey) => 4
    case Some(HostKeyMismatch) => 5
    case Some(GenericFailure) => 6
  }

  lemma EvidenceIsKept(s: Bytes, more: Bytes, class_: Class, e: Expectation)
    requires AnyShows(Terminated(s), class_, e)
    ensures AnyShows(Terminated(s + more), class_, e)
  {
    TerminatedIsMonotone(s, more);
    var i :| 0 <= i < |Terminated(s)| && Shows(StripCarriageReturn(Terminated(s)[i]), class_, e);
    assert Terminated(s + more)[i] == Terminated(s)[i];
  }

  lemma PrecedenceIsMonotone(before: Class -> bool, after: Class -> bool)
    requires forall c :: before(c) ==> after(c)
    ensures Rank(ByPrecedence(before)) <= Rank(ByPrecedence(after))
  {
  }

  lemma PrecedenceIsHighest(shown: Class -> bool)
    ensures ByPrecedence(shown).Some? ==> shown(ByPrecedence(shown).value)
    ensures forall c: Class :: c != GenericFailure && Rank(Some(c)) > Rank(ByPrecedence(shown)) ==> !shown(c)
  {
  }

  lemma ClassifyNeverFalls(s: Bytes, more: Bytes, e: Expectation)
    ensures Rank(Classify(s, e)) <= Rank(Classify(s + more, e))
  {
    var before := c => AnyShows(Terminated(s), c, e);
    var after := c => AnyShows(Terminated(s + more), c, e);
    forall c | before(c) ensures after(c) {
      EvidenceIsKept(s, more, c, e);
    }
    PrecedenceIsMonotone(before, after);
  }

  /**
   As bytes arrive the verdict's precedence falls in one case only: an earlier verdict is
   withdrawn while the stream, still within bounds, ends inside a character.
   */
  lemma VerdictFallsOnlyInsideACharacter(s: Bytes, more: Bytes, e: Expectation)
    ensures Rank(Verdict(s + more, e)) < Rank(Verdict(s, e)) <==>
            Verdict(s, e).Some? && WithinBounds(s + more) && Utf8(s + more) == Truncated
  {
    if WithinBounds(s + more) {
      BoundsArePrefixClosed(s, more);
    }
    if Utf8(s) == Malformed {
      MalformedStays(s, more);
    }
    ClassifyNeverFalls(s, more, e);
    Falls(WithinBounds(s), Utf8(s), Classify(s, e), WithinBounds(s + more), Utf8(s + more), Classify(s + more, e));
  }

  lemma Falls(within: bool, status: Utf8Status, class_: Option<Class>, within': bool, status': Utf8Status,
              class': Option<Class>)
    requires within' ==> within
    requires status == Malformed ==> status' == Malformed
    requires Rank(class_) <= Rank(class') && class' != Some(GenericFailure) && class_ != Some(GenericFailure)
    ensures Rank(VerdictOf(within', status', class')) < Rank(VerdictOf(within, status, class_)) <==>
            VerdictOf(within, status, class_).Some? && within' && status' == Truncated
  {
  }

  /** A verdict other than failure rests on a completed line, and no line shows a graver one. */
  lemma VerdictHasEvidence(s: Bytes, e: Expectation, graver: Class)
    requires Verdict(s, e).Some? && Verdict(s, e).value != GenericFailure
    requires graver != GenericFailure && Rank(Some(graver)) > Rank(Verdict(s, e))
    ensures AnyShows(Terminated(s), Verdict(s, e).value, e)
    ensures !AnyShows(Terminated(s), graver, e)
  {
    PrecedenceIsHighest(c => AnyShows(Terminated(s), c, e));
  }
}
