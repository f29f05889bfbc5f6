/** What a verdict of the SSH classifier says of the stream, and the other way round. */
module DiagnosticVerdicts {
  import opened Wrappers
  import opened Lines
  import opened Diagnostics
  import opened DiagnosticMessages

  // ----- carriage returns -----

  lemma ReturnIsStripped(line: Bytes)
    ensures StripCarriageReturn(line + "\r") == line
    ensures (line == [] || line[|line| - 1] != '\r') ==> StripCarriageReturn(line) == line
  {
    var ended := line + "\r";
    assert ended[|ended| - 1..] == "\r" && ended[..|ended| - 1] == line;
    if EndsWith(line, "\r") {
      assert line[|line| - 1..][0] == '\r';
    }
  }

  lemma OneMoreLine(s: Bytes, line: Bytes)
    requires Tail(s) == [] && '\n' !in line
    ensures Terminated(s + line + "\n") == Terminated(s) + [line]
  {
    AppendBytes(s, line);
    AppendByte(s + line, '\n');
    assert [] + line == line;
  }

  predicate Among(lines: seq<Bytes>, p: Bytes -> bool) {
    exists i :: 0 <= i < |lines| && p(lines[i])
  }

  lemma LastCounts(before: seq<Bytes>, line: Bytes, p: Bytes -> bool)
    ensures Among(before + [line], p) <==> Among(before, p) || p(line)
  {
    var all := before + [line];
    assert all[|before|] == line && forall i :: 0 <= i < |before| ==> all[i] == before[i];
  }

  lemma LastLineShows(before: seq<Bytes>, line: Bytes, class_: Class, e: Expectation)
    ensures AnyShows(before + [line], class_, e) <==>
            AnyShows(before, class_, e) || Shows(StripCarriageReturn(line), class_, e)
  {
    var p := l => Shows(StripCarriageReturn(l), class_, e);
    LastCounts(before, line, p);
    ShowsByLine(before, class_, e, p);
    ShowsByLine(before + [line], class_, e, p);
  }

  lemma ShowsByLine(lines: seq<Bytes>, class_: Class, e: Expectation, p: Bytes -> bool)
    requires forall l :: p(l) <==> Shows(StripCarriageReturn(l), class_, e)
    ensures AnyShows(lines, class_, e) <==> Among(lines, p)
  {
  }

  lemma SameShown(shown: Class -> bool, other: Class -> bool)
    requires forall c :: shown(c) <==> other(c)
    ensures ByPrecedence(shown) == ByPrecedence(other)
  {
  }

  /** A line counts the same whether or not a carriage return comes before its end. */
  lemma CarriageReturnIsIgnored(s: Bytes, line: Bytes, e: Expectation)
    requires Tail(s) == [] && '\n' !in line && (line == [] || line[|line| - 1] != '\r')
    ensures Classify(s + (line + "\r") + "\n", e) == Classify(s + line + "\n", e)
  {
    var ended := line + "\r";
    ReturnIsStripped(line);
    OneMoreLine(s, line);
    OneMoreLine(s, ended);
    var shown := c => AnyShows(Terminated(s) + [ended], c, e);
    var other := c => AnyShows(Terminated(s) + [line], c, e);
    forall c ensures shown(c) <==> other(c) {
      LastLineShows(Terminated(s), ended, c, e);
      LastLineShows(Terminated(s), line, c, e);
    }
    SameShown(shown, other);
  }

  // ----- verdicts -----

  /** The classes that rest on evidence, the gravest first. */
  const PRECEDENCE := [HostKeyMismatch, UnknownHostKey, Authenticated, AuthenticationFailed, ConnectionFailed]

  predicate Gravest(lines: seq<Bytes>, i: nat, e: Expectation) {
    && i < |PRECEDENCE| && AnyShows(lines, PRECEDENCE[i], e)
    && forall j :: 0 <= j < i ==> !AnyShows(lines, PRECEDENCE[j], e)
  }

  predicate NothingToShow(lines: seq<Bytes>, e: Expectation) {
    forall j :: 0 <= j < |PRECEDENCE| ==> !AnyShows(lines, PRECEDENCE[j], e)
  }

  lemma FirstShown(shown: Class -> bool, i: nat)
    requires i < |PRECEDENCE| && shown(PRECEDENCE[i]) && forall j :: 0 <= j < i ==> !shown(PRECEDENCE[j])
    ensures ByPrecedence(shown) == Some(PRECEDENCE[i])
  {
    assert forall j :: 0 <= j < i ==> !shown(PRECEDENCE[j]);
    if i > 0 { assert !shown(PRECEDENCE[0]); }
    if i > 1 { assert !shown(PRECEDENCE[1]); }
    if i > 2 { assert !shown(PRECEDENCE[2]); }
    if i > 3 { assert !shown(PRECEDENCE[3]); }
  }

  lemma NothingShown(shown: Class -> bool)
    requires forall j :: 0 <= j < |PRECEDENCE| ==> !shown(PRECEDENCE[j])
    ensures ByPrecedence(shown) == None
  {
    assert !shown(PRECEDENCE[0]) && !shown(PRECEDENCE[1]) && !shown(PRECEDENCE[2]);
    assert !shown(PRECEDENCE[3]) && !shown(PRECEDENCE[4]);
  }

  /**
   The verdict on every stream: a failure when it breaks a bound or cannot be text; none yet while it
   ends inside a character; otherwise the gravest class that a completed line shows, if any does.
   */
  lemma VerdictIsExactly(s: Bytes, e: Expectation, i: nat)
    ensures !WithinBounds(s) || Utf8(s) == Malformed ==> Verdict(s, e) == Some(GenericFailure)
    ensures WithinBounds(s) && Utf8(s) == Truncated ==> Verdict(s, e) == None
    ensures WithinBounds(s) && Utf8(s) == Complete && Gravest(Terminated(s), i, e) ==>
              Verdict(s, e) == Some(PRECEDENCE[i])
    ensures WithinBounds(s) && Utf8(s) == Complete && NothingToShow(Terminated(s), e) ==> Verdict(s, e) == None
  {
    var shown := c => AnyShows(Terminated(s), c, e);
    assert Classify(s, e) == ByPrecedence(shown);
    if Gravest(Terminated(s), i, e) {
      FirstShown(shown, i);
    }
    if NothingToShow(Terminated(s), e) {
      NothingShown(shown);
    }
  }

  const CHANGED: Bytes := "WARNING: REMOTE HOST IDENTIFICATION HAS CHANGED!"
  const BOXED: Bytes := "@    WARNING: REMOTE HOST IDENTIFICATION HAS CHANGED!     @"
  const KEX_CLOSED: Bytes := "kex_exchange_identification: Connection closed by remote host"

  /** A changed host key is reported by the bare message or the one in its box, and by nothing else. */
  lemma MismatchMessage(line: Bytes, e: Expectation)
    ensures Shows(line, HostKeyMismatch, e) <==> line == CHANGED || line == BOXED
  {
  }

  /** An unknown key is reported for one of three key types and the expected host, or without naming one. */
  lemma UnknownKeyIsShown(line: Bytes, e: Expectation)
    ensures Shows(line, UnknownHostKey, e) <==>
            || NamesKey(line, "ED25519", e.host) || NamesKey(line, "ECDSA", e.host) || NamesKey(line, "RSA", e.host)
            || line == "Host key verification failed."
  {
    UnknownKeyMessage(line, "ED25519", e.host);
    UnknownKeyMessage(line, "ECDSA", e.host);
    UnknownKeyMessage(line, "RSA", e.host);
  }

  predicate NamesKey(line: Bytes, keyType: Bytes, host: Bytes) {
    line == "No " + keyType + " host key is known for " + (host + " and you have requested strict checking.")
  }

  /** Success is reported for the host alone or with an address in brackets. */
  lemma AuthenticatedIsShown(line: Bytes, e: Expectation)
    ensures Shows(line, Authenticated, e) <==>
            exists shown :: line == "Authenticated to " + (e.host + shown + " using \"publickey\".") &&
                            (shown == [] || (" ([" <= shown && EndsWith(shown, ")")))
  {
    AuthenticatedMessage(line, e.host);
  }

  lemma DeniedIsShown(line: Bytes, e: Expectation)
    requires '@' !in e.host
    ensures Shows(line, AuthenticationFailed, e) <==>
            line == "No more authentication methods to try." ||
            exists user :: UserName(user) && line == user + "@" + e.host + ": Permission denied (publickey)."
  {
    DeniedMessage(line, e.host);
  }

  /** A failed connection is reported by a line of one of five kinds, each spelt out in full. */
  lemma FailureIsShown(line: Bytes, e: Expectation)
    ensures Shows(line, ConnectionFailed, e) <==>
            || (exists rest :: line == "ssh: connect to host " + (e.host + rest) && ConnectFailure(rest))
            || (exists reason ::
                  line == "ssh: Could not resolve hostname " + (e.host + (": " + reason)) && ResolutionFailure(reason))
            || (exists authority, port ::
                  && PeerFits(line, "Connection closed by ", authority, port)
                  && (authority == e.host || e.address(authority)) && PortNumber(port))
            || (exists authority, port ::
                  && PeerFits(line, "Connection reset by ", authority, port)
                  && (authority == e.host || e.address(authority)) && PortNumber(port))
            || line == KEX_CLOSED
  {
    ConnectMessage(line, e.host);
    ResolutionMessage(line, e.host);
    PeerMessage(line, "Connection closed by ", e.host, e.address);
    PeerMessage(line, "Connection reset by ", e.host, e.address);
  }

  /** A failure of the stream itself is no line's doing. */
  lemma NoLineShowsFailure(line: Bytes, e: Expectation)
    ensures !Shows(line, GenericFailure, e)
  {
  }

  /** The decimal digits of a number. */
  function Spelt(n: nat): (s: Bytes)
    ensures s != [] && DigitBytes(s) && NumberOf(s) == n
  {
    var last := [('0' as int + n % 10) as char];
    if n < 10 then last
    else
      var s := Spelt(n / 10) + last;
      assert s[..|s| - 1] == Spelt(n / 10);
      s
  }

  function Zeros(n: nat): (s: Bytes)
    ensures |s| == n && DigitBytes(s)
  {
    seq(n, _ => '0')
  }

  lemma Regroup(a: Bytes, b: Bytes, c: Bytes)
    ensures a + (b + c) == a + b + c
  {
  }

  lemma OneMoreZero(zeros: nat)
    ensures Zeros(zeros) + ['0'] == Zeros(zeros + 1)
  {
  }

  lemma OneMoreDigit(n: nat, digit: char)
    requires '0' <= digit <= '9'
    ensures Spelt(10 * n + (digit as int - '0' as int)) == if n == 0 then [digit] else Spelt(n) + [digit]
  {
    var m := 10 * n + (digit as int - '0' as int);
    assert m / 10 == n && m % 10 == digit as int - '0' as int;
  }

  predicate IsSpelt(s: Bytes, zeros: nat, n: nat) {
    s == Zeros(zeros) + Spelt(n)
  }

  lemma SpeltExtends(s: Bytes, zeros: nat, n: nat, digit: char)
    requires IsSpelt(s, zeros, n) && '0' <= digit <= '9'
    ensures IsSpelt(s + [digit], if n == 0 then zeros + 1 else zeros, 10 * n + (digit as int - '0' as int))
  {
    OneMoreDigit(n, digit);
    if n == 0 {
      OneMoreZero(zeros);
    } else {
      Regroup(Zeros(zeros), Spelt(n), [digit]);
    }
  }

  lemma OneDigitIsSpelt(digit: char)
    requires '0' <= digit <= '9'
    ensures IsSpelt([digit], 0, digit as int - '0' as int)
  {
    OneMoreDigit(0, digit);
    assert Zeros(0) + [digit] == [digit];
  }

  lemma LastDigit(s: Bytes)
    requires DigitBytes(s) && s != []
    ensures
      var init, last := s[..|s| - 1], s[|s| - 1];
      && s == init + [last] && DigitBytes(init) && '0' <= last <= '9'
      && NumberOf(s) == 10 * NumberOf(init) + (last as int - '0' as int)
  {
  }

  lemma {:induction false} DigitsAreSpelt(s: Bytes) returns (zeros: nat)
    requires DigitBytes(s) && s != []
    ensures IsSpelt(s, zeros, NumberOf(s))
  {
    LastDigit(s);
    var init, last := s[..|s| - 1], s[|s| - 1];
    if init == [] {
      zeros := 0;
      OneDigitIsSpelt(last);
    } else {
      var before := DigitsAreSpelt(init);
      zeros := if NumberOf(init) == 0 then before + 1 else before;
      SpeltExtends(init, before, NumberOf(init), last);
    }
  }

  lemma {:induction false} LeadingZeros(zeros: nat, s: Bytes)
    requires DigitBytes(s)
    ensures DigitBytes(Zeros(zeros) + s) && NumberOf(Zeros(zeros) + s) == NumberOf(s)
    decreases |s|, zeros
  {
    var all := Zeros(zeros) + s;
    if s != [] {
      LeadingZeros(zeros, s[..|s| - 1]);
      assert all[..|all| - 1] == Zeros(zeros) + s[..|s| - 1];
    } else if zeros > 0 {
      LeadingZeros(zeros - 1, []);
      assert all[..zeros - 1] == Zeros(zeros - 1) + [];
    }
  }

  predicate PortText(s: Bytes, plus: bool, zeros: nat, n: nat) {
    s == (if plus then "+" else "") + (Zeros(zeros) + Spelt(n))
  }

  lemma SignedDigits(digits: Bytes, plus: bool)
    requires DigitBytes(digits) && digits != []
    ensures PortNumber((if plus then "+" else "") + digits) <==> 1 <= NumberOf(digits) <= 65_535
  {
    var s := (if plus then "+" else "") + digits;
    if plus {
      assert s[0] == '+' && s[1..] == digits;
    } else {
      assert s == digits && '0' <= digits[0] <= '9';
    }
  }

  lemma PortJoins(s: Bytes, plus: bool, zeros: nat, n: nat)
    requires PortText(s, plus, zeros, n)
    ensures PortNumber(s) <==> 1 <= n <= 65_535
  {
    LeadingZeros(zeros, Spelt(n));
    SignedDigits(Zeros(zeros) + Spelt(n), plus);
  }

  lemma PortSplits(s: Bytes) returns (plus: bool, zeros: nat, n: nat)
    requires PortNumber(s)
    ensures PortText(s, plus, zeros, n) && 1 <= n <= 65_535
  {
    plus := "+" <= s;
    var digits := if plus then s[1..] else s;
    n := NumberOf(digits);
    zeros := DigitsAreSpelt(digits);
    assert s == (if plus then "+" else "") + digits;
  }

  /** A port is a decimal number from 1 to 65535, with any leading zeros and perhaps a plus sign. */
  lemma PortsAreSpelt(s: Bytes)
    ensures PortNumber(s) <==> exists plus, zeros, n :: PortText(s, plus, zeros, n) && 1 <= n <= 65_535
  {
    if PortNumber(s) {
      var plus, zeros, n := PortSplits(s);
    } else if exists plus, zeros, n :: PortText(s, plus, zeros, n) && 1 <= n <= 65_535 {
      var plus, zeros, n :| PortText(s, plus, zeros, n) && 1 <= n <= 65_535;
      PortJoins(s, plus, zeros, n);
    }
  }
}
