/**
 What the line matchers of the SSH diagnostic classifier accept, spelt out as the messages
 themselves, and what its UTF-8 check accepts, as the encodings of strings.
 */
module DiagnosticMessages {
  import opened Wrappers
  import opened Lines
  import opened Diagnostics
  import Unicode

  // ----- cutting and joining -----

  lemma PrefixCut(s: Bytes, prefix: Bytes, rest: Bytes)
    ensures StripPrefix(s, prefix) == Some(rest) <==> s == prefix + rest
  {
    if prefix <= s {
      assert s == prefix + s[|prefix|..];
    }
  }

  lemma SuffixCut(s: Bytes, suffix: Bytes, rest: Bytes)
    ensures StripSuffix(s, suffix) == Some(rest) <==> s == rest + suffix
  {
    if EndsWith(s, suffix) {
      assert s == s[..|s| - |suffix|] + suffix;
    }
    if s == rest + suffix {
      assert s[|s| - |suffix|..] == suffix && s[..|s| - |suffix|] == rest;
    }
  }

  predicate OccursAt(s: Bytes, separator: Bytes, i: nat) {
    i + |separator| <= |s| && s[i..i + |separator|] == separator
  }

  /** The split is at the last occurrence, and there is none only if there is no occurrence. */
  lemma {:induction false} SplitIsLast(s: Bytes, separator: Bytes)
    requires separator != []
    ensures match RsplitOnce(s, separator)
            case None => forall i: nat :: !OccursAt(s, separator, i)
            case Some((before, after)) =>
              s == before + separator + after && forall i: nat :: i > |before| ==> !OccursAt(s, separator, i)
  {
    if |s| >= |separator| {
      if EndsWith(s, separator) {
        assert s == s[..|s| - |separator|] + separator + [];
      } else {
        var init := s[..|s| - 1];
        SplitIsLast(init, separator);
        forall i: nat ensures OccursAt(s, separator, i) ==> OccursAt(init, separator, i) {
          if OccursAt(s, separator, i) && i + |separator| < |s| {
            assert init[i..i + |separator|] == s[i..i + |separator|];
          }
        }
        assert s == init + [s[|s| - 1]];
      }
    }
  }

  /** A text joined around the last occurrence splits where it was joined. */
  lemma SplitRejoined(before: Bytes, separator: Bytes, after: Bytes)
    requires separator != []
    requires forall i: nat :: i > |before| ==> !OccursAt(before + separator + after, separator, i)
    ensures RsplitOnce(before + separator + after, separator) == Some((before, after))
  {
    var s := before + separator + after;
    SplitIsLast(s, separator);
    assert OccursAt(s, separator, |before|);
    var (b, a) := RsplitOnce(s, separator).value;
    assert OccursAt(s, separator, |b|);
    assert s[..|before|] == before && s[|before| + |separator|..] == after;
    assert s[..|b|] == b && s[|b| + |separator|..] == a;
  }

  // ----- the messages -----

  lemma UnknownKeyMessage(line: Bytes, keyType: Bytes, host: Bytes)
    ensures UnknownKeyFor(line, keyType, host) <==>
            line == "No " + keyType + " host key is known for " + (host + " and you have requested strict checking.")
  {
    Framed(line, "No " + keyType + " host key is known for ", host, " and you have requested strict checking.");
  }

  /** Stripping both ends finds what stands between them. */
  lemma Framed(line: Bytes, prefix: Bytes, middle: Bytes, suffix: Bytes)
    ensures StripPrefix(line, prefix).Some? && StripSuffix(StripPrefix(line, prefix).value, suffix) == Some(middle) <==>
            line == prefix + (middle + suffix)
  {
    if StripPrefix(line, prefix).Some? {
      PrefixCut(line, prefix, StripPrefix(line, prefix).value);
      SuffixCut(StripPrefix(line, prefix).value, suffix, middle);
    }
    PrefixCut(line, prefix, middle + suffix);
    SuffixCut(middle + suffix, suffix, middle);
  }

  /** The two forms OpenSSH reports: the bare host, or the host followed by its address in brackets. */
  lemma AuthenticatedMessage(line: Bytes, host: Bytes)
    ensures AuthenticatedLine(line, host) <==>
            exists shown :: line == "Authenticated to " + (host + shown + " using \"publickey\".") &&
                            (shown == [] || (" ([" <= shown && EndsWith(shown, ")")))
  {
    Authority(line, "Authenticated to ", host, " using \"publickey\".");
  }

  lemma Authority(line: Bytes, prefix: Bytes, host: Bytes, suffix: Bytes)
    ensures AuthorityFits(line, prefix, host, suffix) <==>
            exists shown :: line == prefix + (host + shown + suffix) &&
                            (shown == [] || (" ([" <= shown && EndsWith(shown, ")")))
  {
    if AuthorityFits(line, prefix, host, suffix) {
      var authority := StripSuffix(StripPrefix(line, prefix).value, suffix).value;
      Framed(line, prefix, authority, suffix);
      if authority == host {
        assert host + [] + suffix == authority + suffix;
      } else {
        PrefixCut(authority, host, StripPrefix(authority, host).value);
      }
    }
    if shown :| line == prefix + (host + shown + suffix) && (shown == [] || (" ([" <= shown && EndsWith(shown, ")"))) {
      Framed(line, prefix, host + shown, suffix);
      PrefixCut(host + shown, host, shown);
      assert shown == [] ==> host + shown == host;
    }
  }

  /** For a host without an at sign the user is everything before the last one. */
  lemma DeniedMessage(line: Bytes, host: Bytes)
    requires '@' !in host
    ensures DeniedLine(line, host) <==>
            line == "No more authentication methods to try." ||
            exists user :: UserName(user) && line == user + "@" + host + ": Permission denied (publickey)."
  {
    Denied(line, host, ": Permission denied (publickey).");
  }

  lemma Denied(line: Bytes, host: Bytes, suffix: Bytes)
    requires '@' !in host
    ensures DeniedFits(line, host, suffix) <==> exists user :: UserName(user) && line == user + "@" + host + suffix
  {
    if DeniedFits(line, host, suffix) {
      var authority := StripSuffix(line, suffix).value;
      SuffixCut(line, suffix, authority);
      SplitIsLast(authority, "@");
      assert UserName(RsplitOnce(authority, "@").value.0);
    }
    if user :| UserName(user) && line == user + "@" + host + suffix {
      var authority := user + "@" + host;
      SuffixCut(line, suffix, authority);
      forall i: nat | i > |user| ensures !OccursAt(authority, "@", i) {
        if i < |authority| {
          assert authority[i] == host[i - |user| - 1];
          assert authority[i..i + 1] == [authority[i]];
        }
      }
      SplitRejoined(user, "@", host);
    }
  }

  predicate ConnectFailure(rest: Bytes) {
    " port " <= rest &&
    (EndsWith(rest, "Connection refused") || EndsWith(rest, "Connection timed out") ||
     EndsWith(rest, "No route to host") || EndsWith(rest, "Operation timed out"))
  }

  lemma ConnectMessage(line: Bytes, host: Bytes)
    ensures ConnectLine(line, host) <==>
            exists rest :: line == "ssh: connect to host " + (host + rest) && ConnectFailure(rest)
  {
    AfterHost(line, "ssh: connect to host ", host);
  }

  /** Stripping a prefix and then the host finds what follows both. */
  lemma AfterHost(line: Bytes, prefix: Bytes, host: Bytes)
    ensures forall rest ::
              line == prefix + (host + rest) <==>
              StripPrefix(line, prefix).Some? && StripPrefix(StripPrefix(line, prefix).value, host) == Some(rest)
  {
    forall rest ensures line == prefix + (host + rest) <==>
              StripPrefix(line, prefix).Some? && StripPrefix(StripPrefix(line, prefix).value, host) == Some(rest) {
      PrefixCut(line, prefix, host + rest);
      if StripPrefix(line, prefix).Some? {
        PrefixCut(StripPrefix(line, prefix).value, host, rest);
        PrefixCut(line, prefix, StripPrefix(line, prefix).value);
      }
      PrefixCut(host + rest, host, rest);
    }
  }

  predicate ResolutionFailure(reason: Bytes) {
    reason == "Name or service not known" || reason == "nodename nor servname provided, or not known" ||
    reason == "Temporary failure in name resolution"
  }

  lemma ResolutionMessage(line: Bytes, host: Bytes)
    ensures ResolutionLine(line, host) <==>
            exists reason ::
              line == "ssh: Could not resolve hostname " + (host + (": " + reason)) && ResolutionFailure(reason)
  {
    AfterHost(line, "ssh: Could not resolve hostname ", host);
    Reasoned(line, "ssh: Could not resolve hostname ", host, ": ");
  }

  lemma Reasoned(line: Bytes, prefix: Bytes, host: Bytes, colon: Bytes)
    ensures (exists reason :: line == prefix + (host + (colon + reason)) && ResolutionFailure(reason)) <==>
            StripPrefix(line, prefix).Some? && StripPrefix(StripPrefix(line, prefix).value, host).Some? &&
            StripPrefix(StripPrefix(StripPrefix(line, prefix).value, host).value, colon).Some? &&
            ResolutionFailure(StripPrefix(StripPrefix(StripPrefix(line, prefix).value, host).value, colon).value)
  {
    AfterHost(line, prefix, host);
    if StripPrefix(line, prefix).Some? && StripPrefix(StripPrefix(line, prefix).value, host).Some? {
      var after := StripPrefix(StripPrefix(line, prefix).value, host).value;
      assert line == prefix + (host + after);
      if StripPrefix(after, colon).Some? {
        PrefixCut(after, colon, StripPrefix(after, colon).value);
      }
    }
    if reason :| line == prefix + (host + (colon + reason)) && ResolutionFailure(reason) {
      PrefixCut(colon + reason, colon, reason);
    }
  }

  /** A line about this authority and this port. */
  predicate PeerFits(line: Bytes, prefix: Bytes, authority: Bytes, port: Bytes) {
    line == prefix + (authority + " port " + port)
  }

  lemma PeerSplits(line: Bytes, prefix: Bytes, host: Bytes, address: Bytes -> bool)
    returns (authority: Bytes, port: Bytes)
    requires PeerLine(line, prefix, host, address)
    ensures PeerFits(line, prefix, authority, port) && (authority == host || address(authority)) && PortNumber(port)
  {
    var rest := StripPrefix(line, prefix).value;
    PrefixCut(line, prefix, rest);
    SplitIsLast(rest, " port ");
    authority, port := RsplitOnce(rest, " port ").value.0, RsplitOnce(rest, " port ").value.1;
  }

  lemma PeerJoins(line: Bytes, prefix: Bytes, authority: Bytes, port: Bytes)
    requires PeerFits(line, prefix, authority, port) && ' ' !in port
    ensures StripPrefix(line, prefix).Some?
    ensures RsplitOnce(StripPrefix(line, prefix).value, " port ") == Some((authority, port))
  {
    PrefixCut(line, prefix, authority + " port " + port);
    NoLaterSeparator(authority, " port ", port);
    SplitRejoined(authority, " port ", port);
  }

  lemma PortHasNoSpace(port: Bytes)
    requires PortNumber(port)
    ensures ' ' !in port
  {
    if "+" <= port {
      assert port == "+" + port[1..];
    }
  }

  /** The port is after the last separator, since a port number has no space. */
  lemma PeerMessage(line: Bytes, prefix: Bytes, host: Bytes, address: Bytes -> bool)
    ensures PeerLine(line, prefix, host, address) <==>
            exists authority, port ::
              PeerFits(line, prefix, authority, port) && (authority == host || address(authority)) && PortNumber(port)
  {
    if PeerLine(line, prefix, host, address) {
      var authority, port := PeerSplits(line, prefix, host, address);
    }
    forall authority, port |
      PeerFits(line, prefix, authority, port) && (authority == host || address(authority)) && PortNumber(port)
      ensures PeerLine(line, prefix, host, address)
    {
      PortHasNoSpace(port);
      PeerJoins(line, prefix, authority, port);
    }
  }

  lemma NoLaterSeparator(before: Bytes, separator: Bytes, after: Bytes)
    requires |separator| == 6 && separator[0] == ' ' && (forall i :: 1 <= i < 5 ==> separator[i] != ' ') &&
             separator[5] == ' '
    requires ' ' !in after
    ensures forall i: nat :: i > |before| ==> !OccursAt(before + separator + after, separator, i)
  {
    var s := before + separator + after;
    forall i: nat | i > |before| ensures !OccursAt(s, separator, i) {
      if i + 6 <= |s| {
        assert s[i + 5] == after[i - |before| - 1];
        assert s[i..i + 6][5] == s[i + 5];
      }
    }
  }

  // ----- UTF-8 -----

  /** Bytes as numbers. */
  function Numbers(s: Bytes): seq<int> {
    seq(|s|, i requires 0 <= i < |s| => s[i] as int)
  }

  function Encoding(text: string): seq<int> {
    Unicode.ToUtf8(text)
  }

  predicate IsCharacter(s: Bytes, length: nat) {
    && 1 <= length <= |s| && SequenceLength(s[0]) == length && SequenceFits(s, length)
  }

  lemma TwoBytes(a: int, b: int)
    requires 0xC2 <= a <= 0xDF && 0x80 <= b <= 0xBF
    ensures var p := 0x40 * (a - 0xC0) + (b - 0x80);
            0x80 <= p < 0x800 && 0xC0 + p / 0x40 == a && 0x80 + p % 0x40 == b
  {
  }

  lemma ThreeBytes(a: int, b: int, c: int)
    requires 0xE0 <= a <= 0xEF && 0x80 <= b <= 0xBF && 0x80 <= c <= 0xBF
    requires (a == 0xE0 ==> b >= 0xA0) && (a == 0xED ==> b <= 0x9F)
    ensures var p := 0x1000 * (a - 0xE0) + 0x40 * (b - 0x80) + (c - 0x80);
            && (0x800 <= p < 0xD800 || 0xE000 <= p < 0x1_0000)
            && 0xE0 + p / 0x1000 == a && 0x80 + p / 0x40 % 0x40 == b && 0x80 + p % 0x40 == c
  {
    var p := 0x1000 * (a - 0xE0) + 0x40 * (b - 0x80) + (c - 0x80);
    assert p / 0x40 == 0x40 * (a - 0xE0) + (b - 0x80);
  }

  lemma FourBytes(a: int, b: int, c: int, d: int)
    requires 0xF0 <= a <= 0xF4 && 0x80 <= b <= 0xBF && 0x80 <= c <= 0xBF && 0x80 <= d <= 0xBF
    requires (a == 0xF0 ==> b >= 0x90) && (a == 0xF4 ==> b <= 0x8F)
    ensures var p := 0x4_0000 * (a - 0xF0) + 0x1000 * (b - 0x80) + 0x40 * (c - 0x80) + (d - 0x80);
            && 0x1_0000 <= p < 0x11_0000
            && 0xF0 + p / 0x4_0000 == a && 0x80 + p / 0x1000 % 0x40 == b && 0x80 + p / 0x40 % 0x40 == c &&
               0x80 + p % 0x40 == d
  {
    var p := 0x4_0000 * (a - 0xF0) + 0x1000 * (b - 0x80) + 0x40 * (c - 0x80) + (d - 0x80);
    assert p / 0x40 == 0x1000 * (a - 0xF0) + 0x40 * (b - 0x80) + (c - 0x80);
    assert p / 0x1000 == 0x40 * (a - 0xF0) + (b - 0x80);
  }

  /** The character a well-formed sequence stands for. */
  lemma SequenceIsACharacter(s: Bytes, length: nat) returns (c: char)
    requires IsCharacter(s, length)
    ensures Unicode.Utf8(c) == Numbers(s[..length])
  {
    var a := s[0] as int;
    if length == 1 {
      c := s[0];
    } else if length == 2 {
      TwoBytes(a, s[1] as int);
      c := (0x40 * (a - 0xC0) + (s[1] as int - 0x80)) as char;
    } else if length == 3 {
      ThreeBytes(a, s[1] as int, s[2] as int);
      c := (0x1000 * (a - 0xE0) + 0x40 * (s[1] as int - 0x80) + (s[2] as int - 0x80)) as char;
    } else {
      FourBytes(a, s[1] as int, s[2] as int, s[3] as int);
      c := (0x4_0000 * (a - 0xF0) + 0x1000 * (s[1] as int - 0x80) + 0x40 * (s[2] as int - 0x80) +
             (s[3] as int - 0x80)) as char;
    }
  }

  /** What the encoding of a character looks like. */
  predicate Shape(e: seq<int>) {
    && 1 <= |e| <= 4
    && (|e| == 1 ==> 0 <= e[0] < 0x80)
    && (|e| == 2 ==> 0xC2 <= e[0] <= 0xDF)
    && (|e| == 3 ==> 0xE0 <= e[0] <= 0xEF && (e[0] == 0xE0 ==> e[1] >= 0xA0) && (e[0] == 0xED ==> e[1] <= 0x9F))
    && (|e| == 4 ==> 0xF0 <= e[0] <= 0xF4 && (e[0] == 0xF0 ==> e[1] >= 0x90) && (e[0] == 0xF4 ==> e[1] <= 0x8F))
    && forall i :: 1 <= i < |e| ==> 0x80 <= e[i] <= 0xBF
  }

  lemma ThreeHaveShape(p: int)
    requires 0x800 <= p < 0xD800 || 0xE000 <= p < 0x1_0000
    ensures Shape([0xE0 + p / 0x1000, 0x80 + p / 0x40 % 0x40, 0x80 + p % 0x40])
  {
    var upper := p / 0x40;
    assert p / 0x1000 == upper / 0x40 && (0x20 <= upper < 0x360 || 0x380 <= upper < 0x400);
  }

  lemma FourHaveShape(p: int)
    requires 0x1_0000 <= p < 0x11_0000
    ensures Shape([0xF0 + p / 0x4_0000, 0x80 + p / 0x1000 % 0x40, 0x80 + p / 0x40 % 0x40, 0x80 + p % 0x40])
  {
    var upper := p / 0x1000;
    assert p / 0x4_0000 == upper / 0x40 && 0x10 <= upper < 0x110;
  }

  lemma EncodedHasShape(c: char)
    ensures Shape(Unicode.Utf8(c))
  {
    var p := c as int;
    if p >= 0x1_0000 {
      FourHaveShape(p);
    } else if p >= 0x800 {
      ThreeHaveShape(p);
    }
  }

  lemma ShapeIsASequence(s: Bytes, e: seq<int>)
    requires Shape(e) && |e| <= |s| && forall i :: 0 <= i < |e| ==> s[i] as int == e[i]
    ensures IsCharacter(s, |e|)
  {
  }

  /** And the other way round: an encoded character is a well-formed sequence. */
  lemma CharacterIsASequence(s: Bytes, c: char)
    requires |Unicode.Utf8(c)| <= |s| && Numbers(s[..|Unicode.Utf8(c)|]) == Unicode.Utf8(c)
    ensures IsCharacter(s, |Unicode.Utf8(c)|)
  {
    var e := Unicode.Utf8(c);
    forall i | 0 <= i < |e| ensures s[i] as int == e[i] {
      assert Numbers(s[..|e|])[i] == s[i] as int;
    }
    EncodedHasShape(c);
    ShapeIsASequence(s, e);
  }

  /** Complete means: the encoding of some string. */
  lemma {:induction false} CompleteIsEncoded(s: Bytes) returns (text: string)
    requires Utf8(s) == Complete
    ensures Encoding(text) == Numbers(s)
    decreases |s|
  {
    text := "";
    if s != [] {
      var length := SequenceLength(s[0]);
      var c := SequenceIsACharacter(s, length);
      var rest := CompleteIsEncoded(s[length..]);
      text := [c] + rest;
      assert text[1..] == rest;
      NumbersSplit(s, length);
    }
  }

  lemma NumbersSplit(s: Bytes, n: nat)
    requires n <= |s|
    ensures Numbers(s) == Numbers(s[..n]) + Numbers(s[n..])
  {
  }

  lemma {:induction false} EncodedIsComplete(s: Bytes, text: string)
    requires Encoding(text) == Numbers(s)
    ensures Utf8(s) == Complete
    decreases |s|
  {
    if s != [] {
      assert text != "";
      var n := |Unicode.Utf8(text[0])|;
      assert |Numbers(s)| == |s|;
      NumbersSplit(s, n);
      assert Numbers(s)[..n] == Unicode.Utf8(text[0]);
      CharacterIsASequence(s, text[0]);
      assert Numbers(s)[n..] == Encoding(text[1..]);
      EncodedIsComplete(s[n..], text[1..]);
    }
  }

  lemma Utf8CompleteExactly(s: Bytes)
    ensures Utf8(s) == Complete <==> exists text :: Encoding(text) == Numbers(s)
  {
    if Utf8(s) == Complete {
      var text := CompleteIsEncoded(s);
    }
    forall text | Encoding(text) == Numbers(s) ensures Utf8(s) == Complete {
      EncodedIsComplete(s, text);
    }
  }

  /** The smallest second byte that may follow the first, and plain continuations after it. */
  lemma FillSequence(s: Bytes, length: nat) returns (more: Bytes)
    requires s != [] && SequenceLength(s[0]) == length && SequenceFits(s, length) && |s| < length
    ensures |s| + |more| == length && SequenceFits(s + more, length)
  {
    var plain := [0x80 as char, 0x80 as char];
    assert Continuation(plain[0]) && Continuation(plain[1]);
    if |s| == 1 {
      var second := if s[0] as int == 0xE0 then 0xA0 as char else if s[0] as int == 0xF0 then 0x90 as char
                    else 0x80 as char;
      assert SecondFits(s[0], second);
      more := [second] + plain[..length - 2];
      assert (s + more)[1] == second;
    } else {
      more := plain[..length - |s|];
      assert (s + more)[1] == s[1];
    }
    assert forall k :: 2 <= k < |s| ==> (s + more)[k] == s[k];
    assert forall k :: 2 <= k < length && |s| <= k ==> (s + more)[k] == 0x80 as char;
  }

  /** A truncated stream can be completed. */
  lemma {:induction false} TruncatedCompletes(s: Bytes) returns (more: Bytes)
    requires Utf8(s) == Truncated
    ensures Utf8(s + more) == Complete
    decreases |s|
  {
    var length := SequenceLength(s[0]);
    if |s| < length {
      more := FillSequence(s, length);
      assert (s + more)[length..] == [];
    } else {
      more := TruncatedCompletes(s[length..]);
      assert (s + more)[length..] == s[length..] + more;
    }
  }

  /** A stream is malformed exactly when nothing that could follow makes it well formed. */
  lemma MalformedExactly(s: Bytes)
    ensures Utf8(s) == Malformed <==> forall more :: Utf8(s + more) != Complete
  {
    if Utf8(s) == Malformed {
      forall more ensures Utf8(s + more) != Complete {
        MalformedStays(s, more);
      }
    } else if Utf8(s) == Truncated {
      var more := TruncatedCompletes(s);
      assert Utf8(s + more) == Complete;
    } else {
      assert s + [] == s;
    }
  }

  predicate Ascii(s: Bytes) {
    forall i :: 0 <= i < |s| ==> s[i] as int < 0x80
  }

  lemma {:induction false} AsciiIsPassedOver(s: Bytes, rest: Bytes)
    requires Ascii(s)
    ensures Utf8(s + rest) == Utf8(rest)
  {
    if s == [] {
      assert s + rest == rest;
    } else {
      assert (s + rest)[1..] == s[1..] + rest;
      AsciiIsPassedOver(s[1..], rest);
    }
  }

  const UNKNOWN_HOST: Bytes := "Host key verification failed."

  /** A stream of one line has that line. */
  lemma OneLine(line: Bytes, more: Bytes)
    requires '\n' !in line && '\n' !in more
    ensures Terminated(line + "\n" + more) == [line] && Tail(line + "\n" + more) == more
  {
    assert [] + line == line && Terminated([]) == [] && Tail([]) == [];
    AppendBytes([], line);
    AppendByte(line, '\n');
    AppendBytes(line + "\n", more);
    assert [] + more == more;
  }

  /** A line that is evidence for an unknown host key and for nothing graver. */
  predicate Unknown(line: Bytes, host: Bytes) {
    && UnknownKeyLine(line, host) && !MismatchLine(line)
    && Ascii(line) && '\n' !in line && '\r' !in line && |line| <= MAX_LINE_BYTES
  }

  lemma OnlyLineShows(s: Bytes, line: Bytes, class_: Class, e: Expectation)
    requires Terminated(s) == [line]
    ensures AnyShows(Terminated(s), class_, e) <==> Shows(StripCarriageReturn(line), class_, e)
  {
    assert Terminated(s)[0] == line;
  }

  lemma NoReturnIsStripped(line: Bytes)
    requires '\r' !in line
    ensures StripCarriageReturn(line) == line
  {
    assert line == [] || line[|line| - 1] in line;
  }

  lemma UnknownIsClassified(s: Bytes, line: Bytes, e: Expectation)
    requires Unknown(line, e.host) && Terminated(s) == [line]
    ensures Classify(s, e) == Some(UnknownHostKey)
  {
    NoReturnIsStripped(line);
    OnlyLineShows(s, line, HostKeyMismatch, e);
    OnlyLineShows(s, line, UnknownHostKey, e);
    var shown := c => AnyShows(Terminated(s), c, e);
    assert !shown(HostKeyMismatch) && shown(UnknownHostKey);
    assert Classify(s, e) == ByPrecedence(shown);
  }

  lemma OneLineWithinBounds(line: Bytes, more: Bytes)
    requires '\n' !in line && '\n' !in more && |line| <= MAX_LINE_BYTES && |more| <= 1
    ensures WithinBounds(line + "\n" + more)
  {
    OneLine(line, more);
  }

  lemma OneLineIsClassified(s: Bytes, line: Bytes, more: Bytes, e: Expectation)
    requires Unknown(line, e.host) && '\n' !in more && |more| <= 1 && s == line + "\n" + more
    ensures Verdict(s, e) == VerdictOf(true, Utf8(more), Some(UnknownHostKey))
  {
    OneLine(line, more);
    OneLineWithinBounds(line, more);
    UnknownIsClassified(s, line, e);
    AsciiIsPassedOver(line + "\n", more);
  }

  lemma HalfACharacter(half: Bytes)
    requires half == [0xC3 as char]
    ensures Utf8(half) == Truncated && '\n' !in half && |half| == 1
  {
  }

  /** Half a character after such a line withdraws the verdict. */
  lemma HalfACharacterWithdraws(s: Bytes, line: Bytes, half: Bytes, e: Expectation)
    requires Unknown(line, e.host) && s == line + "\n" && half == [0xC3 as char]
    ensures Verdict(s, e) == Some(UnknownHostKey) && Verdict(s + half, e) == None
  {
    HalfACharacter(half);
    assert s == s + [];
    OneLineIsClassified(s, line, [], e);
    OneLineIsClassified(s + half, line, half, e);
  }

  lemma UnknownHostIsUnknown(host: Bytes)
    ensures Unknown(UNKNOWN_HOST, host)
  {
    UnknownHostIsPlain();
  }

  lemma UnknownHostIsPlain()
    ensures Ascii(UNKNOWN_HOST) && '\n' !in UNKNOWN_HOST && '\r' !in UNKNOWN_HOST
    ensures |UNKNOWN_HOST| == 29 && UNKNOWN_HOST[0] == 'H'
  {
  }

  /** A stream that shows it. */
  lemma VerdictCanBeWithdrawn(e: Expectation) returns (s: Bytes)
    ensures s == UNKNOWN_HOST + "\n"
    ensures Verdict(s, e) == Some(UnknownHostKey) && Verdict(s + [0xC3 as char], e) == None
  {
    UnknownHostIsUnknown(e.host);
    s := UNKNOWN_HOST + "\n";
    HalfACharacterWithdraws(s, UNKNOWN_HOST, [0xC3 as char], e);
  }
}
