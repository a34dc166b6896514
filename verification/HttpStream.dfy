// tm4c_uart_esp32_bridge/esp_at_http.c: the decimal length parser and the
// length-framed binary body, received in arbitrary fragments.

module HttpStream {
  import opened Bytes

  /** size_t is 32 bits wide on the target. */
  const SIZE_MAX: int := 0xFFFF_FFFF
  const FRAME_SIZE: int := 32
  const COMMA: u8 := 0x2C
  const ZERO: u8 := 0x30

  // ---- Decimal lengths ----

  predicate IsDigit(b: u8) { ZERO <= b <= ZERO + 9 }

  /** A C string reads as zero at its end. */
  function CharAt(text: seq<u8>, i: nat): u8 { if i < |text| then text[i] else 0 }

  function LeadingDigits(text: seq<u8>): (n: nat)
    ensures n <= |text| && !IsDigit(CharAt(text, n))
    ensures forall i :: 0 <= i < n ==> IsDigit(text[i])
  {
    if text == [] || !IsDigit(text[0]) then 0
    else
      var m := LeadingDigits(text[1..]);
      assert CharAt(text, m + 1) == CharAt(text[1..], m);
      m + 1
  }

  predicate AllDigits(text: seq<u8>) { forall i :: 0 <= i < |text| ==> IsDigit(text[i]) }

  function Decimal(digits: seq<u8>): nat
    requires AllDigits(digits)
  {
    if digits == [] then 0
    else Decimal(digits[..|digits| - 1]) * 10 + (digits[|digits| - 1] - ZERO)
  }

  /** The value that stands at the start of a text, if a terminator follows its
      digits and it is positive and not larger than SIZE_MAX. */
  function PositiveSize(text: seq<u8>, terminator: u8): Option<nat> {
    var n := LeadingDigits(text);
    if n > 0 && CharAt(text, n) == terminator && 0 < Decimal(text[..n]) <= SIZE_MAX
    then Some(Decimal(text[..n]))
    else None
  }

  lemma {:induction false} DecimalGrows(digits: seq<u8>, n: nat)
    requires AllDigits(digits) && n <= |digits|
    ensures Decimal(digits[..n]) <= Decimal(digits)
    decreases |digits|
  {
    if n == |digits| {
      assert digits[..n] == digits;
    } else {
      var init := digits[..|digits| - 1];
      DecimalGrows(init, n);
      assert init[..n] == digits[..n];
    }
  }

  /** parse_positive_size. The overflow test comes before the sum is formed. */
  method ParsePositiveSize(text: seq<u8>, terminator: u8) returns (size: Option<nat>)
    ensures size == PositiveSize(text, terminator)
  {
    ghost var n := LeadingDigits(text);
    var parsed := 0;
    var at := 0;
    if !IsDigit(CharAt(text, 0)) {
      return None;
    }
    while IsDigit(CharAt(text, at))
      invariant 0 <= at <= n
      invariant parsed == Decimal(text[..at]) <= SIZE_MAX
      decreases n - at
    {
      assert at < n;
      var digit := text[at] - ZERO;
      assert text[..at + 1][..at] == text[..at];
      if parsed > (SIZE_MAX - digit) / 10 {
        assert text[..n][..at + 1] == text[..at + 1];
        DecimalGrows(text[..n], at + 1);
        return None;
      }
      parsed := parsed * 10 + digit;
      at := at + 1;
    }
    if CharAt(text, at) != terminator || parsed == 0 {
      return None;
    }
    size := Some(parsed);
  }

  /** The usual decimal notation. */
  function Notation(v: nat): (digits: seq<u8>)
    ensures digits != [] && AllDigits(digits)
  {
    if v < 10 then [ZERO + v] else Notation(v / 10) + [ZERO + v % 10]
  }

  lemma {:induction false} NotationValue(v: nat)
    ensures Decimal(Notation(v)) == v
  {
    if v >= 10 {
      NotationValue(v / 10);
      assert Notation(v)[..|Notation(v)| - 1] == Notation(v / 10);
    } else {
      assert Notation(v)[..0] == [];
    }
  }

  lemma {:induction false} NotationLength(v: nat, n: nat)
    requires v < Power10(n) && n > 0
    ensures |Notation(v)| <= n
  {
    if v >= 10 {
      NotationLength(v / 10, n - 1);
    }
  }

  function Power10(n: nat): nat { if n == 0 then 1 else 10 * Power10(n - 1) }

  /** Exactly the digits are read, whatever follows the terminator. */
  lemma {:induction false} DigitsThen(digits: seq<u8>, rest: seq<u8>)
    requires AllDigits(digits) && (rest != [] ==> !IsDigit(rest[0]))
    ensures LeadingDigits(digits + rest) == |digits|
  {
    if digits == [] {
      assert digits + rest == rest;
    } else {
      assert (digits + rest)[1..] == digits[1..] + rest;
      DigitsThen(digits[1..], rest);
    }
  }

  /** Reading back the notation of a number gives the number exactly when it is
      positive and at most SIZE_MAX. */
  lemma SizeRoundTrip(v: nat, terminator: u8, rest: seq<u8>)
    requires !IsDigit(terminator)
    ensures PositiveSize(Notation(v) + [terminator] + rest, terminator)
      == if 0 < v <= SIZE_MAX then Some(v) else None
  {
    var digits := Notation(v);
    var text := digits + ([terminator] + rest);
    assert text == digits + [terminator] + rest;
    DigitsThen(digits, [terminator] + rest);
    assert text[..|digits|] == digits && text[|digits|] == terminator;
    NotationValue(v);
  }

  /** The same at the end of a text, for the reply to a size request. */
  lemma SizeLineRoundTrip(v: nat)
    ensures PositiveSize(Notation(v), 0) == if 0 < v <= SIZE_MAX then Some(v) else None
  {
    var digits := Notation(v);
    DigitsThen(digits, []);
    assert digits + [] == digits && digits[..|digits|] == digits;
    NotationValue(v);
  }

  function SizePrefix(): seq<u8> { Ascii("+HTTPGETSIZE:") }

  function BodyPrefix(): (p: seq<u8>)
    ensures |p| == 10
  {
    Ascii("+HTTPCGET:")
  }

  /** esp_at_http_parse_size. */
  function ParseSize(line: seq<u8>): Option<nat> {
    var n := |SizePrefix()|;
    if n <= |line| && line[..n] == SizePrefix() then PositiveSize(line[n..], 0) else None
  }

  // ---- The body stream ----

  datatype Stream = Stream(expected: nat, frame: seq<u8>, bodyMode: bool, remaining: nat)

  datatype Outcome = More | Done | Invalid | TooLarge | SinkError

  /** esp_at_http_stream_init. */
  function Fresh(expected: nat): Stream { Stream(expected, [], false, 0) }

  /** accept_frame: the declared length has to be the expected one. */
  predicate FrameAccepted(s: Stream) {
    && 10 <= |s.frame| && s.frame[..10] == BodyPrefix()
    && PositiveSize(s.frame[10..], COMMA) == Some(s.expected)
  }

  datatype Scanned = Scanned(stream: Stream, rest: seq<u8>, outcome: Outcome)

  /** Frame bytes are collected up to the first comma. */
  function Scan(s: Stream, data: seq<u8>): Scanned
    decreases |data|
  {
    if s.bodyMode || data == [] then Scanned(s, data, More)
    else if |s.frame| + 1 >= FRAME_SIZE then Scanned(s, data, TooLarge)
    else
      var s1 := s.(frame := s.frame + [data[0]]);
      if data[0] != COMMA then Scan(s1, data[1..])
      else if FrameAccepted(s1) then Scanned(s1.(bodyMode := true, remaining := s1.expected), data[1..], More)
      else Scanned(s1, data[1..], Invalid)
  }

  /** A call: the stream afterwards, the bytes handed to the sink, the result
      if the sink takes them. */
  datatype Fed = Fed(stream: Stream, piece: seq<u8>, outcome: Outcome)

  function Min(a: nat, b: nat): nat { if a < b then a else b }

  /** What is left of the data goes to the sink, as far as it is expected. */
  function BodyPiece(c: Scanned): seq<u8> {
    if c.stream.bodyMode then c.rest[..Min(|c.rest|, c.stream.remaining)] else []
  }

  function Received(c: Scanned): Fed {
    var s, piece := c.stream, BodyPiece(c);
    if c.outcome != More then Fed(s, [], c.outcome)
    else
      var left := if s.bodyMode then s.remaining - |piece| else s.remaining;
      Fed(s.(remaining := left), piece, if s.bodyMode && left == 0 then Done else More)
  }

  /** esp_at_http_stream_feed with a sink that accepts. */
  function FeedData(s: Stream, data: seq<u8>): Fed {
    if s.expected == 0 then Fed(s, [], Invalid) else Received(Scan(s, data))
  }

  // ---- The loop ----

  /** The consumer behind the stream; it accepts data unless it is failing. */
  class Sink {
    var received: seq<u8>
    var failing: bool

    constructor ()
      ensures received == [] && !failing
    {
      received, failing := [], false;
    }

    method Write(data: seq<u8>) returns (ok: bool)
      modifies this
      ensures ok == !old(failing) && failing == old(failing)
      ensures received == if ok then old(received) + data else old(received)
    {
      ok := !failing;
      if ok {
        received := received + data;
      }
    }
  }

  class BodyStream {
    var expected: nat
    var remaining: nat
    const frame: array<u8>
    var frameLength: nat
    var bodyMode: bool

    ghost predicate Valid()
      reads this
    {
      frame.Length == FRAME_SIZE && frameLength < FRAME_SIZE
    }

    ghost function View(): Stream
      reads this, frame
      requires Valid()
    {
      Stream(expected, frame[..frameLength], bodyMode, remaining)
    }

    constructor (expected: nat)
      ensures Valid() && View() == Fresh(expected) && fresh(frame)
    {
      this.expected, remaining, frameLength, bodyMode := expected, 0, 0, false;
      frame := new u8[32](_ => 0);
    }

    method AcceptFrame() returns (accepted: bool)
      requires Valid()
      modifies this
      ensures Valid() && accepted == FrameAccepted(old(View()))
      ensures View() == if accepted then old(View()).(bodyMode := true, remaining := expected) else old(View())
    {
      accepted := false;
      if frameLength < 10 || frame[..10] != BodyPrefix() {
        assert frameLength >= 10 ==> frame[..frameLength][..10] == frame[..10];
        return;
      }
      assert frame[..frameLength][..10] == frame[..10] && frame[..frameLength][10..] == frame[10..frameLength];
      var declared := ParsePositiveSize(frame[10..frameLength], COMMA);
      if declared != Some(expected) {
        return;
      }
      remaining := declared.value;
      bodyMode := true;
      accepted := true;
    }

    /** With a working sink the call is FeedData; a failing sink that would have
        been given a piece leaves the stream before the body bytes. */
    method Feed(data: seq<u8>, sink: Sink) returns (outcome: Outcome)
      requires Valid()
      modifies this, frame, sink
      ensures Valid() && sink.failing == old(sink.failing)
      ensures var f := FeedData(old(View()), data);
        if old(sink.failing) && f.piece != [] then
          outcome == SinkError && sink.received == old(sink.received) && View() == Scan(old(View()), data).stream
        else
          outcome == f.outcome && View() == f.stream && sink.received == old(sink.received) + f.piece
    {
      hide FrameAccepted;
      if expected == 0 {
        return Invalid;
      }
      ghost var s := View();
      var offset := 0;
      while offset < |data| && !bodyMode
        invariant Valid() && 0 <= offset <= |data| && expected == s.expected
        invariant sink.received == old(sink.received) && sink.failing == old(sink.failing)
        invariant Scan(s, data) == Scan(View(), data[offset..])
        decreases |data| - offset
      {
        if frameLength + 1 >= FRAME_SIZE {
          return TooLarge;
        }
        ghost var before := View();
        frame[frameLength] := data[offset];
        frameLength := frameLength + 1;
        assert View() == before.(frame := before.frame + [data[offset]]);
        assert data[offset..][1..] == data[offset + 1..];
        offset := offset + 1;
        if frame[frameLength - 1] == COMMA {
          var accepted := AcceptFrame();
          if !accepted {
            return Invalid;
          }
        }
      }
      assert Scan(s, data) == Scanned(View(), data[offset..], More);
      if bodyMode && offset < |data| {
        var available := |data| - offset;
        var accepted := if available < remaining then available else remaining;
        if accepted != 0 {
          var taken := sink.Write(data[offset..offset + accepted]);
          if !taken {
            return SinkError;
          }
        }
        remaining := remaining - accepted;
      }
      outcome := if bodyMode && remaining == 0 then Done else More;
    }
  }

  // ---- Fragments ----

  lemma {:induction false} ScanSplit(s: Stream, a: seq<u8>, b: seq<u8>)
    ensures var c := Scan(s, a);
      Scan(s, a + b) ==
        if c.outcome == More && !c.stream.bodyMode then Scan(c.stream, b) else c.(rest := c.rest + b)
    ensures var c := Scan(s, a);
      c.outcome == More && !c.stream.bodyMode ==> c.rest == []
    ensures Scan(s, a).stream.expected == s.expected && Scan(s, a).outcome in {More, Invalid, TooLarge}
    decreases |a|
  {
    hide FrameAccepted;
    if s.bodyMode {
    } else if a == [] {
      assert a + b == b;
    } else {
      assert (a + b)[1..] == a[1..] + b;
      ScanSplit(s.(frame := s.frame + [a[0]]), a[1..], b);
    }
  }

  predicate Failed(o: Outcome) { o != More && o != Done }

  /** Two fragments do what their concatenation does. */
  lemma FeedSplit(s: Stream, a: seq<u8>, b: seq<u8>)
    ensures var f, f1 := FeedData(s, a + b), FeedData(s, a);
      var f2 := FeedData(f1.stream, b);
      if Failed(f1.outcome) then f == f1
      else f.stream == f2.stream && f.piece == f1.piece + f2.piece && f.outcome == f2.outcome
  {
    hide FrameAccepted;
    ScanSplit(s, a, b);
    var c, c' := Scan(s, a), Scan(s, a + b);
    if c.outcome == More && c.stream.bodyMode {
      var r := c.stream.remaining;
      assert c'.rest == c.rest + b;
      if |c.rest| <= r {
        assert (c.rest + b)[..Min(|c.rest + b|, r)] == c.rest + b[..Min(|b|, r - |c.rest|)];
      } else {
        assert (c.rest + b)[..r] == c.rest[..r] + b[..0];
      }
    }
  }

  datatype Fragments = End | Fragment(data: seq<u8>, rest: Fragments)

  function Joined(fs: Fragments): seq<u8> {
    match fs
    case End => []
    case Fragment(data, rest) => data + Joined(rest)
  }

  /** One call after the other, up to the first failure. */
  function FeedAll(s: Stream, fs: Fragments): Fed
    decreases fs
  {
    match fs
    case End => FeedData(s, [])
    case Fragment(data, rest) =>
      var f1 := FeedData(s, data);
      if Failed(f1.outcome) then f1
      else
        var f2 := FeedAll(f1.stream, rest);
        f2.(piece := f1.piece + f2.piece)
  }

  /** For every fragmentation the sink receives the same bytes, and the last
      call answers the same. */
  lemma {:induction false} FragmentsAgree(s: Stream, fs: Fragments)
    ensures FeedAll(s, fs) == FeedData(s, Joined(fs))
    decreases fs
  {
    hide FeedData;
    match fs
    case End =>
    case Fragment(data, rest) =>
      var f1 := FeedData(s, data);
      FeedSplit(s, data, Joined(rest));
      if !Failed(f1.outcome) {
        FragmentsAgree(f1.stream, rest);
      }
  }

  // ---- A correct frame ----

  function FrameHeader(n: nat): seq<u8> { BodyPrefix() + Notation(n) + [COMMA] }

  /** Bytes without a comma are only collected. */
  lemma {:induction false} ScanPlain(s: Stream, data: seq<u8>)
    requires !s.bodyMode && |s.frame| + |data| < FRAME_SIZE && COMMA !in data
    ensures Scan(s, data) == Scanned(s.(frame := s.frame + data), [], More)
    decreases |data|
  {
    if data != [] {
      ScanPlain(s.(frame := s.frame + [data[0]]), data[1..]);
      assert s.frame + data == s.frame + [data[0]] + data[1..];
    } else {
      assert s.frame + data == s.frame;
    }
  }

  lemma HeaderText(n: nat)
    requires 0 < n <= SIZE_MAX
    ensures var h := BodyPrefix() + Notation(n);
      |h| + 1 < FRAME_SIZE && COMMA !in h
    ensures FrameAccepted(Fresh(n).(frame := FrameHeader(n)))
  {
    hide Notation, PositiveSize, BodyPrefix;
    ShortNotation(n);
    var h := FrameHeader(n);
    assert h[..10] == BodyPrefix() && h[10..] == Notation(n) + [COMMA] + [];
    SizeRoundTrip(n, COMMA, []);
    PlainPrefix();
  }

  lemma ShortNotation(n: nat)
    requires n <= SIZE_MAX
    ensures |Notation(n)| <= 10
  {
    assert Power10(10) == 100 * Power10(8) == 10000 * Power10(6) == 1000000 * Power10(4) == 100000000 * Power10(2);
    NotationLength(n, 10);
    hide Power10;
  }

  lemma PlainPrefix()
    ensures COMMA !in BodyPrefix()
  {
    forall i | 0 <= i < 10
      ensures BodyPrefix()[i] != COMMA
    {
    }
  }

  lemma HeaderScans(n: nat)
    requires 0 < n <= SIZE_MAX
    ensures Scan(Fresh(n), FrameHeader(n))
      == Scanned(Stream(n, FrameHeader(n), true, n), [], More)
  {
    hide FrameAccepted, BodyPrefix, Notation;
    HeaderText(n);
    var h := BodyPrefix() + Notation(n);
    ScanPlain(Fresh(n), h);
    assert Fresh(n).frame + h == h;
    ScanSplit(Fresh(n), h, [COMMA]);
    assert [COMMA][1..] == [];
  }

  /** The header may come in two parts: nothing is delivered, nothing fails. */
  lemma PartialHeader(n: nat, k: nat)
    requires 0 < n <= SIZE_MAX && k < |FrameHeader(n)|
    ensures FeedData(Fresh(n), FrameHeader(n)[..k])
      == Fed(Stream(n, FrameHeader(n)[..k], false, 0), [], More)
  {
    hide FrameAccepted, BodyPrefix, Notation, Scan;
    HeaderText(n);
    var h := BodyPrefix() + Notation(n);
    assert FrameHeader(n)[..k] == h[..k];
    ScanPlain(Fresh(n), h[..k]);
    assert Fresh(n).frame + h[..k] == h[..k];
  }

  /** A correct frame with a body of n bytes and anything behind it, received
      up to any byte k in any fragmentation: the sink has received exactly the
      body bytes among them, in order, and DONE is reported exactly when all n
      have been delivered. */
  lemma FrameDelivered(body: seq<u8>, tail: seq<u8>, k: nat, fs: Fragments)
    requires 0 < |body| <= SIZE_MAX
    requires var all := FrameHeader(|body|) + body + tail;
      k <= |all| && Joined(fs) == all[..k]
    ensures var f, h, n := FeedAll(Fresh(|body|), fs), |FrameHeader(|body|)|, |body|;
      && f.piece == (if k <= h then [] else if k <= h + n then body[..k - h] else body)
      && f.outcome == (if k >= h + n then Done else More)
  {
    hide FrameHeader, Notation, FrameAccepted, FeedAll, Joined, FeedData;
    var n := |body|;
    var header := FrameHeader(n);
    var h := |header|;
    var all := header + body + tail;
    FragmentsAgree(Fresh(n), fs);
    if k < h {
      assert all[..k] == header[..k];
      PartialHeader(n, k);
    } else {
      var rest := (body + tail)[..k - h];
      assert all[..k] == header + rest;
      BodyArrives(n, header, rest);
      if k <= h + n {
        assert rest[..Min(|rest|, n)] == body[..k - h];
      } else {
        assert rest[..n] == body;
      }
    }
  }

  /** Behind a complete header the next n bytes are the body. */
  lemma BodyArrives(n: nat, header: seq<u8>, rest: seq<u8>)
    requires 0 < n <= SIZE_MAX && header == FrameHeader(n)
    ensures var f := FeedData(Fresh(n), header + rest);
      f.piece == rest[..Min(|rest|, n)] && f.outcome == (if |rest| >= n then Done else More)
  {
    hide FrameHeader, FrameAccepted, Scan;
    HeaderScans(n);
    ScanSplit(Fresh(n), header, rest);
    assert [] + rest == rest;
  }

  // ---- Limits ----

  /** The size line, for every size: accepted exactly from 1 to 2^32 - 1. */
  lemma SizeLineExact(v: nat)
    ensures ParseSize(Ascii("+HTTPGETSIZE:") + Notation(v)) == if 0 < v <= 4294967295 then Some(v) else None
  {
    hide PositiveSize, Notation;
    SizeLineRoundTrip(v);
    var line := Ascii("+HTTPGETSIZE:") + Notation(v);
    assert |SizePrefix()| == 13 && line[..13] == SizePrefix() && line[13..] == Notation(v);
  }

  /** Without a comma among them, up to 31 bytes are collected as the beginning of
      a frame, and one more is too many. */
  lemma {:induction false} FrameLimit(s: Stream, data: seq<u8>)
    requires !s.bodyMode && |s.frame| <= 31 && 0x2C !in data
    ensures |s.frame| + |data| <= 31 ==> Scan(s, data) == Scanned(s.(frame := s.frame + data), [], More)
    ensures |s.frame| + |data| > 31 ==> Scan(s, data).outcome == TooLarge && !Scan(s, data).stream.bodyMode
    decreases |data|
  {
    if data == [] {
      assert s.frame + data == s.frame;
    } else if |s.frame| < 31 {
      FrameLimit(s.(frame := s.frame + [data[0]]), data[1..]);
      assert s.frame + data == s.frame + [data[0]] + data[1..];
    }
  }

  /** A frame is accepted exactly if it declares the length that is expected. */
  lemma FrameExact(n: nat, expected: nat, rest: seq<u8>)
    requires 0 < n <= 4294967295 && 0 < expected
    ensures var f := FeedData(Fresh(expected), Ascii("+HTTPCGET:") + Notation(n) + [0x2C] + rest);
      && (n != expected ==> f.outcome == Invalid && f.piece == [] && !f.stream.bodyMode)
      && (n == expected ==> f.piece == rest[..Min(|rest|, n)] && f.outcome == if |rest| >= n then Done else More)
  {
    hide FrameHeader, Notation, FrameAccepted, PositiveSize;
    var header := Ascii("+HTTPCGET:") + Notation(n) + [0x2C];
    if n == expected {
      HeaderIs(n);
      BodyArrives(n, header, rest);
    } else {
      OtherLength(n, expected);
      var h := Ascii("+HTTPCGET:") + Notation(n);
      HeaderText(n);
      ScanPlain(Fresh(expected), h);
      assert Fresh(expected).frame + h == h;
      ScanSplit(Fresh(expected), h, [0x2C] + rest);
      assert h + ([0x2C] + rest) == header + rest;
    }
  }

  lemma HeaderIs(n: nat)
    ensures FrameHeader(n) == Ascii("+HTTPCGET:") + Notation(n) + [0x2C]
  {
    hide Notation;
  }

  lemma OtherLength(n: nat, expected: nat)
    requires 0 < n <= 4294967295 && n != expected
    ensures !FrameAccepted(Fresh(expected).(frame := Ascii("+HTTPCGET:") + Notation(n) + [0x2C]))
  {
    hide Notation, PositiveSize;
    var h := Ascii("+HTTPCGET:") + Notation(n) + [0x2C];
    assert h[10..] == Notation(n) + [0x2C] + [];
    SizeRoundTrip(n, 0x2C, []);
  }

  /** A stream for nothing refuses everything. */
  lemma NothingExpected(s: Stream, data: seq<u8>)
    requires s.expected == 0
    ensures FeedData(s, data) == Fed(s, [], Invalid)
  {
  }

  /** A text in front of a terminator is read exactly if it consists of digits. */
  lemma OnlyDigitsRead(text: seq<u8>, terminator: u8, all: seq<u8>)
    requires !IsDigit(terminator) && terminator !in text
    requires all == text + [terminator] || (all == text && terminator == 0)
    ensures PositiveSize(all, terminator).Some? <==>
      text != [] && AllDigits(text) && 0 < Decimal(text) <= 4294967295
    ensures PositiveSize(all, terminator).Some? ==> PositiveSize(all, terminator).value == Decimal(text)
  {
    hide Decimal, LeadingDigits;
    var n := LeadingDigits(all);
    if AllDigits(text) {
      DigitsThen(text, all[|text|..]);
      assert text + all[|text|..] == all && all[..n] == text;
    } else {
      assert n < |text|;
    }
  }

  /** A size line is read exactly if it is the prefix and digits of a value from 1
      to 2^32 - 1. */
  lemma SizeLineOnly(line: seq<u8>)
    requires 0 !in line
    ensures ParseSize(line).Some? <==>
      && |line| > 13 && line[..13] == Ascii("+HTTPGETSIZE:") && AllDigits(line[13..])
      && 0 < Decimal(line[13..]) <= 4294967295
    ensures ParseSize(line).Some? ==> ParseSize(line).value == Decimal(line[13..])
  {
    assert |SizePrefix()| == 13;
    hide PositiveSize, Decimal, AllDigits, Ascii;
    if |line| >= 13 { OnlyDigitsRead(line[13..], 0, line[13..]); }
  }

  /** A text of up to 30 bytes in front of a comma opens the body exactly if it is
      the prefix and digits of the expected length. */
  lemma FrameOnly(expected: nat, text: seq<u8>, rest: seq<u8>)
    requires 0 < expected && |text| <= 30 && 0x2C !in text
    ensures FeedData(Fresh(expected), text + [0x2C] + rest).outcome != Invalid <==>
      && |text| > 10 && text[..10] == Ascii("+HTTPCGET:") && AllDigits(text[10..])
      && Decimal(text[10..]) == expected <= 4294967295
  {
    hide PositiveSize, Decimal, AllDigits, Ascii;
    var frame := text + [0x2C];
    ScanPlain(Fresh(expected), text);
    assert Fresh(expected).frame + text == text;
    ScanSplit(Fresh(expected), text, [0x2C] + rest);
    assert text + ([0x2C] + rest) == frame + rest && ([0x2C] + rest)[1..] == rest;
    if |text| >= 10 {
      assert frame[..10] == text[..10] && frame[10..] == text[10..] + [0x2C];
      OnlyDigitsRead(text[10..], 0x2C, frame[10..]);
    } else if |text| == 9 {
      assert frame[9] == 0x2C && 0x2C !in BodyPrefix() by { PlainPrefix(); }
    }
  }
}
