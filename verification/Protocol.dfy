// tm4c123gxl/common/src/ota_protocol.c: the frame encoder and the parser that
// takes one byte at a time.

module Protocol {
  import opened Bytes
  import opened Crc32
  import opened Update

  const SOF0: u8 := 0x55
  const SOF1: u8 := 0xAA
  const VERSION: u8 := 1
  const FIXED_HEADER: int := 6
  const MAX_PAYLOAD: int := 256
  const GAP_MS: u32 := 1000

  // ---- The frame of a packet ----

  /** The bytes under the checksum. */
  function Body(version: u8, q: Request): (b: seq<u8>)
    ensures |b| == FIXED_HEADER + |q.payload|
  {
    [version, q.command] + PutU16(q.sequence) + PutU16(|q.payload|) + q.payload
  }

  /** A frame with any version and any four check bytes. */
  function RawFrame(version: u8, q: Request, check: seq<u8>): (f: seq<u8>)
    requires |check| == 4
    ensures |f| == 12 + |q.payload|
  {
    [SOF0, SOF1] + Body(version, q) + check
  }

  function Frame(q: Request): (f: seq<u8>)
    ensures |f| == 12 + |q.payload|
  {
    RawFrame(VERSION, q, PutU32(Crc(Body(VERSION, q))))
  }

  datatype EncodeResult = Encoded | BadLength | NoSpace

  /** ota_packet_encode. */
  method EncodePacket(command: u8, sequence: u16, payload: seq<u8>, output: array<u8>)
    returns (result: EncodeResult, written: nat)
    requires |payload| <= 0xFFFF
    modifies output
    ensures result == (if |payload| > 256 then BadLength
                       else if output.Length < 12 + |payload| then NoSpace else Encoded)
    ensures result == Encoded ==>
      && written == 12 + |payload|
      && output[..written] == Frame(Request(command, sequence, payload))
      && output[written..] == old(output[written..])
    ensures result != Encoded ==> output[..] == old(output[..])
  {
    hide Crc, PutU32;
    written := 0;
    if |payload| > MAX_PAYLOAD {
      return BadLength, 0;
    }
    var size := 12 + |payload|;
    if output.Length < size {
      return NoSpace, 0;
    }
    ghost var q := Request(command, sequence, payload);
    var at := 8 + |payload|;
    ghost var rest := output[8..];
    assert rest[|payload| + 4..] == output[size..];
    PutFixed(command, sequence, |payload|, output);
    assert output[at..] == rest[|payload|..];
    CopyPayload(payload, output);
    assert output[size..] == output[at..][4..] == rest[|payload| + 4..];
    assert output[2..at] == Body(VERSION, q) by {
      assert output[..8][2..] == output[2..8];
      assert output[2..at] == output[2..8] + output[8..at];
    }
    var crc := Crc(output[2..at]);
    ghost var framed := output[..at];
    PutCheck(crc, at, output);
    assert framed == [SOF0, SOF1] + Body(VERSION, q) by {
      assert framed[2..] == Body(VERSION, q);
      assert framed == framed[..2] + framed[2..];
      assert framed[..8][..2] == framed[..2];
    }
    assert output[..size] == framed + output[at..size];
    return Encoded, size;
  }

  method PutFixed(command: u8, sequence: u16, length: u16, output: array<u8>)
    requires output.Length >= 8
    modifies output
    ensures output[..8] == [SOF0, SOF1, VERSION, command] + PutU16(sequence) + PutU16(length)
    ensures output[8..] == old(output[8..])
  {
    output[0], output[1], output[2], output[3] := SOF0, SOF1, VERSION, command;
    output[4], output[5] := sequence % 0x100, sequence / 0x100;
    output[6], output[7] := length % 0x100, length / 0x100;
  }

  method CopyPayload(payload: seq<u8>, output: array<u8>)
    requires output.Length >= 8 + |payload|
    modifies output
    ensures output[..8] == old(output[..8]) && output[8..8 + |payload|] == payload
    ensures output[8 + |payload|..] == old(output[8 + |payload|..])
  {
    var n := 0;
    while n < |payload|
      invariant 0 <= n <= |payload|
      invariant output[..8] == old(output[..8]) && output[8..8 + n] == payload[..n]
      invariant output[8 + n..] == old(output[8 + n..])
    {
      output[8 + n] := payload[n];
      n := n + 1;
    }
  }

  method PutCheck(crc: u32, at: nat, output: array<u8>)
    requires at + 4 <= output.Length
    modifies output
    ensures output[..at] == old(output[..at]) && output[at..at + 4] == PutU32(crc)
    ensures output[at + 4..] == old(output[at + 4..])
  {
    output[at], output[at + 1] := crc % 0x100, crc / 0x100 % 0x100;
    output[at + 2], output[at + 3] := crc / 0x1_0000 % 0x100, crc / 0x100_0000;
  }

  // ---- The parser ----

  /** How far into a frame the parser is, with the bytes it has collected. */
  datatype Phase =
    | AwaitSof0
    | AwaitSof1
    | InHeader(header: seq<u8>)
    | InPayload(header: seq<u8>, payload: seq<u8>)
    | InCheck(header: seq<u8>, payload: seq<u8>, check: seq<u8>)

  datatype Parser = Parser(phase: Phase, last: u32)

  datatype Result = More | Delivered(packet: Request) | BadCrc | BadFrameLength | GapTooLong

  function Length(header: seq<u8>): u16
    requires |header| == FIXED_HEADER
  {
    GetU16(header, 4)
  }

  predicate PhaseOk(p: Phase) {
    match p
    case AwaitSof0 => true
    case AwaitSof1 => true
    case InHeader(h) => |h| < FIXED_HEADER
    case InPayload(h, d) => |h| == FIXED_HEADER && |d| < Length(h) <= MAX_PAYLOAD
    case InCheck(h, d, c) => |h| == FIXED_HEADER && |d| == Length(h) <= MAX_PAYLOAD && |c| < 4
  }

  type LiveParser = p: Parser | PhaseOk(p.phase) witness Parser(AwaitSof0, 0)

  /** parser_restart: the byte at hand may already open the next frame. */
  function Restart(byte: u8): Phase { if byte == SOF0 then AwaitSof1 else AwaitSof0 }

  function HeaderDone(header: seq<u8>, byte: u8): (Phase, Result)
    requires |header| == FIXED_HEADER
  {
    if Length(header) > MAX_PAYLOAD then (Restart(byte), BadFrameLength)
    else if Length(header) == 0 then (InCheck(header, [], []), More)
    else (InPayload(header, []), More)
  }

  function CheckDone(header: seq<u8>, payload: seq<u8>, check: seq<u8>): Result
    requires |header| == FIXED_HEADER && |check| == 4 && |payload| <= MAX_PAYLOAD
  {
    if header[0] != VERSION || Crc(header + payload) != GetU32(check, 0) then BadCrc
    else Delivered(Request(header[1], GetU16(header, 2), payload))
  }

  function Advance(p: Phase, byte: u8): (Phase, Result)
    requires PhaseOk(p)
  {
    match p
    case AwaitSof0 => (if byte == SOF0 then AwaitSof1 else AwaitSof0, More)
    case AwaitSof1 => (if byte == SOF1 then InHeader([]) else Restart(byte), More)
    case InHeader(h) =>
      if |h| + 1 == FIXED_HEADER then HeaderDone(h + [byte], byte) else (InHeader(h + [byte]), More)
    case InPayload(h, d) =>
      (if |d| + 1 == Length(h) then InCheck(h, d + [byte], []) else InPayload(h, d + [byte]), More)
    case InCheck(h, d, c) =>
      if |c| + 1 == 4 then (Restart(byte), CheckDone(h, d, c + [byte])) else (InCheck(h, d, c + [byte]), More)
  }

  /** A gap of more than a second in the middle of a frame. */
  predicate Stale(p: Parser, now: u32) { p.phase != AwaitSof0 && Sub32(now, p.last) > GAP_MS }

  /** ota_parser_consume. */
  function Consume(p: LiveParser, byte: u8, now: u32): (LiveParser, Result) {
    if Stale(p, now) then (Parser(Restart(byte), now), GapTooLong)
    else
      var (phase, result) := Advance(p.phase, byte);
      (Parser(phase, now), result)
  }

  /** The parser with its fixed buffers and its running checksum. */
  class FrameParser {
    var state: nat
    var index: nat
    const header: array<u8>
    const payload: array<u8>
    const check: array<u8>
    var length: nat
    var crc: bv32
    var last: u32

    ghost predicate Valid()
      reads this, header, payload, check
    {
      && header.Length == FIXED_HEADER && payload.Length == MAX_PAYLOAD && check.Length == 4
      && header != payload && header != check && payload != check
      && state <= 4 && index <= MAX_PAYLOAD
      && (state == 2 ==> index < FIXED_HEADER) && (state == 4 ==> index < 4)
      && PhaseOk(View().phase)
      && (state == 3 ==> length == Length(header[..]) && crc == Crc32.Update(INITIAL, header[..] + payload[..index]))
      && (state == 4 ==> length == Length(header[..]) && crc == Crc32.Update(INITIAL, header[..] + payload[..length]))
    }

    ghost function View(): Parser
      reads this, header, payload, check
      requires header.Length == FIXED_HEADER && payload.Length == MAX_PAYLOAD && check.Length == 4
    {
      Parser(
        if state == 0 then AwaitSof0
        else if state == 1 then AwaitSof1
        else if state == 2 then InHeader(if index <= FIXED_HEADER then header[..index] else [])
        else if state == 3 then InPayload(header[..], if index <= MAX_PAYLOAD then payload[..index] else [])
        else InCheck(header[..], if length <= MAX_PAYLOAD then payload[..length] else [],
                     if index <= 4 then check[..index] else []),
        last)
    }

    constructor ()
      ensures Valid() && View() == Parser(AwaitSof0, 0)
      ensures fresh(header) && fresh(payload) && fresh(check)
    {
      state, index, length, crc, last := 0, 0, 0, INITIAL, 0;
      header := new u8[6](_ => 0);
      payload := new u8[256](_ => 0);
      check := new u8[4](_ => 0);
    }

    method RestartWith(byte: u8)
      modifies this`state, this`index
      ensures state == (if byte == SOF0 then 1 else 0) && index == 0
    {
      state := if byte == SOF0 then 1 else 0;
      index := 0;
    }

    method ConsumeByte(byte: u8, now: u32) returns (result: Result)
      requires Valid()
      modifies this, header, payload, check
      ensures Valid() && (View(), result) == Consume(old(View()), byte, now)
    {
      if state != 0 && Sub32(now, last) > GAP_MS {
        RestartWith(byte);
        last := now;
        return GapTooLong;
      }
      last := now;
      result := More;
      if state == 0 {
        if byte == SOF0 { state := 1; }
      } else if state == 1 {
        if byte == SOF1 {
          state, index := 2, 0;
        } else {
          RestartWith(byte);
        }
      } else if state == 2 {
        result := HeaderByte(byte);
      } else if state == 3 {
        PayloadByte(byte);
      } else {
        result := CheckByte(byte);
      }
    }

    method HeaderByte(byte: u8) returns (result: Result)
      requires Valid() && state == 2
      modifies this, header
      ensures Valid() && (View().phase, result) == Advance(old(View()).phase, byte) && last == old(last)
    {
      hide Crc32.Update, HeaderDone, GetU16;
      result := More;
      ghost var before := header[..index];
      header[index] := byte;
      index := index + 1;
      assert header[..index] == before + [byte];
      if index == FIXED_HEADER {
        assert header[..] == before + [byte];
        result := HeaderFull(byte);
      }
    }

    /** The last header byte has been stored. */
    method HeaderFull(byte: u8) returns (result: Result)
      requires header.Length == FIXED_HEADER && payload.Length == MAX_PAYLOAD && check.Length == 4
      requires header != payload && header != check && payload != check
      modifies this
      ensures Valid() && (View().phase, result) == HeaderDone(header[..], byte) && last == old(last)
    {
      hide Crc32.Update;
      result := More;
      length := (header[4] as int) + 0x100 * (header[5] as int);
      if length > MAX_PAYLOAD {
        RestartWith(byte);
        return BadFrameLength;
      }
      crc := UpdateLoop(INITIAL, header[..]);
      index := 0;
      assert header[..] + payload[..0] == header[..];
      state := if length == 0 then 4 else 3;
    }

    method PayloadByte(byte: u8)
      requires Valid() && state == 3
      modifies this, payload
      ensures Valid() && (View().phase, More) == Advance(old(View()).phase, byte) && last == old(last)
    {
      hide Crc32.Update;
      ghost var before := payload[..index];
      payload[index] := byte;
      index := index + 1;
      assert payload[..index] == before + [byte];
      UpdateConcat(INITIAL, header[..] + before, [byte]);
      assert header[..] + payload[..index] == (header[..] + before) + [byte];
      crc := UpdateLoop(crc, [byte]);
      if index == length {
        index := 0;
        state := 4;
      }
    }

    method CheckByte(byte: u8) returns (result: Result)
      requires Valid() && state == 4
      modifies this, check
      ensures Valid() && (View().phase, result) == Advance(old(View()).phase, byte) && last == old(last)
    {
      hide Crc32.Update, Finish;
      result := More;
      ghost var before := check[..index];
      check[index] := byte;
      index := index + 1;
      assert check[..index] == before + [byte];
      if index == 4 {
        assert check[..] == before + [byte];
        var expected := Finish(crc);
        var received := GetU32(check[..], 0);
        var completed := Request(header[1], GetU16(header[..], 2), payload[..length]);
        RestartWith(byte);
        result := if header[0] != VERSION || expected != received then BadCrc else Delivered(completed);
      }
    }
  }

  // ---- Streams ----

  /** A received byte and the time of its arrival. */
  datatype Timed = Timed(byte: u8, at: u32)

  function Feed(p: LiveParser, input: seq<Timed>): LiveParser {
    if input == [] then p
    else
      var n := |input| - 1;
      Consume(Feed(p, input[..n]), input[n].byte, input[n].at).0
  }

  function Results(p: LiveParser, input: seq<Timed>): (rs: seq<Result>)
    ensures |rs| == |input|
  {
    if input == [] then []
    else
      var n := |input| - 1;
      Results(p, input[..n]) + [Consume(Feed(p, input[..n]), input[n].byte, input[n].at).1]
  }

  function Packets(rs: seq<Result>): seq<Request> {
    if rs == [] then []
    else
      var n := |rs| - 1;
      Packets(rs[..n]) + if rs[n].Delivered? then [rs[n].packet] else []
  }

  lemma {:induction false} FeedConcat(p: LiveParser, a: seq<Timed>, b: seq<Timed>)
    ensures Feed(p, a + b) == Feed(Feed(p, a), b)
    ensures Results(p, a + b) == Results(p, a) + Results(Feed(p, a), b)
  {
    hide Consume;
    if b == [] {
      assert a + b == a;
    } else {
      var n := |b| - 1;
      FeedConcat(p, a, b[..n]);
      assert (a + b)[..|a + b| - 1] == a + b[..n];
    }
  }

  lemma {:induction false} PacketsConcat(a: seq<Result>, b: seq<Result>)
    ensures Packets(a + b) == Packets(a) + Packets(b)
  {
    if b == [] {
      assert a + b == a;
    } else {
      var n := |b| - 1;
      PacketsConcat(a, b[..n]);
      assert (a + b)[..|a + b| - 1] == a + b[..n];
    }
  }

  lemma {:induction false} PacketsNone(rs: seq<Result>)
    requires forall k :: 0 <= k < |rs| ==> !rs[k].Delivered?
    ensures Packets(rs) == []
  {
    if rs != [] { PacketsNone(rs[..|rs| - 1]); }
  }

  // ---- One frame ----

  /** The verdict on a frame depends on its version and checksum only. */
  function FrameResult(version: u8, q: Request, check: seq<u8>): Result
    requires |check| == 4
  {
    if version != VERSION || Crc(Body(version, q)) != GetU32(check, 0) then BadCrc else Delivered(q)
  }

  /** The phase after the first k bytes of a frame. */
  function PhaseAt(version: u8, q: Request, check: seq<u8>, k: nat): Phase
    requires |check| == 4 && 1 <= k < 12 + |q.payload|
  {
    var h, n := Body(version, q)[..6], |q.payload|;
    if k == 1 then AwaitSof1
    else if k < 8 then InHeader(h[..k - 2])
    else if k < 8 + n then InPayload(h, q.payload[..k - 8])
    else InCheck(h, q.payload, check[..k - 8 - n])
  }

  lemma HeaderFields(version: u8, q: Request)
    ensures var h := Body(version, q)[..6];
      && h[0] == version && h[1] == q.command && GetU16(h, 2) == q.sequence && Length(h) == |q.payload|
      && h + q.payload == Body(version, q)
  {
  }

  /** Every byte of a frame but the first and the last moves one phase on. */
  lemma PhaseStep(version: u8, q: Request, check: seq<u8>, k: nat)
    requires |check| == 4 && 1 <= k && k + 1 < 12 + |q.payload|
    ensures PhaseOk(PhaseAt(version, q, check, k))
    ensures Advance(PhaseAt(version, q, check, k), RawFrame(version, q, check)[k])
      == (PhaseAt(version, q, check, k + 1), More)
  {
    hide GetU16, PutU16, Body, CheckDone;
    HeaderFields(version, q);
    var h, n := Body(version, q)[..6], |q.payload|;
    var f := RawFrame(version, q, check);
    if 2 <= k < 8 {
      assert f[k] == Body(version, q)[k - 2] == h[k - 2];
      assert h[..k - 1] == h[..k - 2] + [f[k]];
      assert h[..6] == h;
      if k == 7 {
        assert q.payload[..0] == [] && check[..0] == [];
      }
    } else if 8 <= k < 8 + n {
      assert f[k] == Body(version, q)[k - 2] == (h + q.payload)[k - 2] == q.payload[k - 8];
      assert q.payload[..k - 7] == q.payload[..k - 8] + [f[k]];
      if k + 1 == 8 + n { assert q.payload[..n] == q.payload && check[..0] == []; }
    } else if 8 + n <= k {
      assert f[k] == check[k - 8 - n];
      assert check[..k - 7 - n] == check[..k - 8 - n] + [f[k]];
    }
  }

  lemma LastStep(version: u8, q: Request, check: seq<u8>)
    requires |check| == 4
    ensures var k := 11 + |q.payload|;
      PhaseOk(PhaseAt(version, q, check, k))
      && Advance(PhaseAt(version, q, check, k), RawFrame(version, q, check)[k])
         == (Restart(check[3]), FrameResult(version, q, check))
  {
    HeaderFields(version, q);
    hide GetU16, PutU16, Body, GetU32, Crc;
    assert check[..3] + [check[3]] == check;
  }

  function BytesOf(input: seq<Timed>): (b: seq<u8>)
    ensures |b| == |input|
    ensures forall k :: 0 <= k < |input| ==> b[k] == input[k].byte
  {
    seq(|input|, k requires 0 <= k < |input| => input[k].byte)
  }

  /** No two neighbouring bytes are more than a second apart. */
  predicate Timely(input: seq<Timed>) {
    forall k :: 0 < k < |input| ==> Sub32(input[k].at, input[k - 1].at) <= 1000
  }

  /** A frame may start: the parser awaits one, or the pause was long enough. */
  predicate Ready(p: Parser, now: u32) { p.phase == AwaitSof0 || p.phase == AwaitSof1 || Stale(p, now) }

  function Opening(p: Parser, now: u32): Result { if Stale(p, now) then GapTooLong else More }

  lemma {:induction false} FramePrefix(p: LiveParser, version: u8, q: Request, check: seq<u8>, input: seq<Timed>,
                                       k: nat)
    requires |check| == 4 && BytesOf(input) == RawFrame(version, q, check)
    requires Timely(input) && Ready(p, input[0].at) && 1 <= k < |input|
    ensures Feed(p, input[..k]) == Parser(PhaseAt(version, q, check, k), input[k - 1].at)
    ensures Results(p, input[..k]) == [Opening(p, input[0].at)] + seq(k - 1, i => More)
  {
    hide Body, HeaderDone, CheckDone;
    if k == 1 {
      assert input[..1][..0] == [];
      assert input[0].byte == SOF0;
    } else {
      FramePrefix(p, version, q, check, input, k - 1);
      PhaseStep(version, q, check, k - 1);
      hide Advance, RawFrame, PhaseAt;
      assert input[..k][..k - 1] == input[..k - 1];
      assert input[k - 1].byte == RawFrame(version, q, check)[k - 1];
    }
  }

  /** A frame, good or bad, fed without long pauses from any ready parser:
      nothing is delivered before its last byte, whose result is the verdict
      on the whole frame; and the parser is ready for the next one. */
  lemma FrameVerdict(p: LiveParser, version: u8, q: Request, check: seq<u8>, input: seq<Timed>)
    requires |check| == 4 && BytesOf(input) == RawFrame(version, q, check)
    requires Timely(input) && Ready(p, input[0].at)
    ensures Results(p, input) ==
      [Opening(p, input[0].at)] + seq(|input| - 2, i => More) + [FrameResult(version, q, check)]
    ensures Packets(Results(p, input)) ==
      (if FrameResult(version, q, check).Delivered? then [q] else [])
    ensures Feed(p, input).phase == Restart(check[3])
  {
    var k := |input| - 1;
    var result := FrameResult(version, q, check);
    FramePrefix(p, version, q, check, input, k);
    LastStep(version, q, check);
    LastByte(p, input);
    assert input[k].byte == BytesOf(input)[k];
    hide *;
    var before := [Opening(p, input[0].at)] + seq(k - 1, i => More);
    assert Results(p, input) == before + [result];
    NothingBefore(p, input[0].at, k - 1, result);
  }

  /** The last byte of a frame that arrives in time. */
  lemma LastByte(p: LiveParser, input: seq<Timed>)
    requires |input| > 1 && Timely(input)
    requires Feed(p, input[..|input| - 1]).last == input[|input| - 2].at
    ensures var k := |input| - 1;
      var p1 := Feed(p, input[..k]);
      && Results(p, input) == Results(p, input[..k]) + [Advance(p1.phase, input[k].byte).1]
      && Feed(p, input).phase == Advance(p1.phase, input[k].byte).0
  {
    hide Advance;
  }

  lemma NothingBefore(p: Parser, now: u32, n: nat, result: Result)
    ensures Packets([Opening(p, now)] + seq(n, i => More) + [result])
      == if result.Delivered? then [result.packet] else []
  {
    var before := [Opening(p, now)] + seq(n, i => More);
    PacketsNone(before);
    PacketsConcat(before, [result]);
    assert [result][..0] == [];
  }

  lemma GoodFrame(q: Request)
    ensures FrameResult(VERSION, q, PutU32(Crc(Body(VERSION, q)))) == Delivered(q)
  {
    U32RoundTrip(Crc(Body(VERSION, q)));
    hide Crc, Body, PutU32, GetU32;
  }

  // ---- Streams of frames ----

  /** A frame on the line: the packet that was sent, and the bytes as they
      arrive. */
  datatype Sent = Sent(packet: Request, arrivals: seq<Timed>)

  /** An undamaged frame, without long pauses inside it. */
  predicate Intact(s: Sent) {
    BytesOf(s.arrivals) == Frame(s.packet) && Timely(s.arrivals)
  }

  predicate AllIntact(line: seq<Sent>) { forall i :: 0 <= i < |line| ==> Intact(line[i]) }

  function Stream(line: seq<Sent>): seq<Timed> {
    if line == [] then [] else Stream(line[..|line| - 1]) + line[|line| - 1].arrivals
  }

  function PacketsSent(line: seq<Sent>): seq<Request> {
    if line == [] then [] else PacketsSent(line[..|line| - 1]) + [line[|line| - 1].packet]
  }

  predicate BetweenFrames(p: Parser) { p.phase == AwaitSof0 || p.phase == AwaitSof1 }

  /** The first frame, if any, may start. */
  predicate FirstReady(p: Parser, line: seq<Sent>) {
    line != [] && line[0].arrivals != [] ==> Ready(p, line[0].arrivals[0].at)
  }

  /** Each packet is delivered on the last byte of its frame. */
  predicate EachAtItsEnd(rs: seq<Result>, line: seq<Sent>) {
    line == [] ||
    (&& 0 < |Stream(line)| <= |rs|
     && rs[|Stream(line)| - 1] == Delivered(line[|line| - 1].packet)
     && EachAtItsEnd(rs, line[..|line| - 1]))
  }

  /** Any list of packets, sent as frames with pauses of at most a second
      inside each frame and any pauses between them, is received exactly, each
      packet on the last byte of its frame. The first frame may find the parser
      in the middle of another one, if a pause of more than a second precedes
      it; a checksum that ends in 0x55 does no harm. */
  lemma {:induction false} StreamRoundTrip(p: LiveParser, line: seq<Sent>)
    requires AllIntact(line) && FirstReady(p, line)
    ensures Packets(Results(p, Stream(line))) == PacketsSent(line)
    ensures EachAtItsEnd(Results(p, Stream(line)), line)
    ensures line != [] ==> BetweenFrames(Feed(p, Stream(line)))
    decreases |line|
  {
    hide Packets, Results, Feed, Intact, EachAtItsEnd;
    if line == [] {
      EmptyStream(p);
    } else {
      var n := |line| - 1;
      var before, last := line[..n], line[n];
      ReadyPrefix(p, line);
      StreamRoundTrip(p, before);
      var p1 := Feed(p, Stream(before));
      if n == 0 { EmptyStream(p); }
      NextFrame(p1, last);
      FeedConcat(p, Stream(before), last.arrivals);
      var rs, rs' := Results(p, Stream(before)), Results(p1, last.arrivals);
      PacketsConcat(rs, rs');
      EndsStay(rs, rs', before);
      LastEnd(rs, rs', line);
    }
  }

  lemma EmptyStream(p: LiveParser)
    ensures Feed(p, Stream([])) == p && Packets(Results(p, Stream([]))) == []
    ensures EachAtItsEnd(Results(p, Stream([])), [])
  {
  }

  lemma ReadyPrefix(p: Parser, line: seq<Sent>)
    requires FirstReady(p, line) && line != []
    ensures FirstReady(p, line[..|line| - 1])
  {
  }

  lemma {:induction false} EndsStay(rs: seq<Result>, rs': seq<Result>, line: seq<Sent>)
    requires EachAtItsEnd(rs, line)
    ensures EachAtItsEnd(rs + rs', line)
    decreases |line|
  {
    hide Stream;
    if line != [] { EndsStay(rs, rs', line[..|line| - 1]); }
  }

  lemma LastEnd(rs: seq<Result>, rs': seq<Result>, line: seq<Sent>)
    requires line != [] && EachAtItsEnd(rs + rs', line[..|line| - 1])
    requires |rs| == |Stream(line[..|line| - 1])| && |rs'| == |line[|line| - 1].arrivals|
    requires rs' != [] && rs'[|rs'| - 1] == Delivered(line[|line| - 1].packet)
    ensures EachAtItsEnd(rs + rs', line)
  {
  }

  lemma NextFrame(p: LiveParser, s: Sent)
    requires Intact(s) && (BetweenFrames(p) || FirstReady(p, [s]))
    ensures var rs := Results(p, s.arrivals);
      && rs != [] && rs[|rs| - 1] == Delivered(s.packet) && Packets(rs) == [s.packet]
      && BetweenFrames(Feed(p, s.arrivals))
  {
    hide Crc, Body, PutU32, FrameResult, Feed, Results, Packets, RawFrame;
    var check := PutU32(Crc(Body(VERSION, s.packet)));
    assert |BytesOf(s.arrivals)| == |Frame(s.packet)|;
    assert BytesOf(s.arrivals) == RawFrame(VERSION, s.packet, check);
    GoodFrame(s.packet);
    FrameVerdict(p, VERSION, s.packet, check, s.arrivals);
  }

  // ---- Damaged frames ----

  /** f' is f damaged inside the four bytes from lo on. */
  predicate Damaged(f: seq<u8>, f': seq<u8>, lo: nat) {
    && |f| == |f'| && f != f'
    && forall i :: 0 <= i < |f| && !(lo <= i < lo + 4) ==> f'[i] == f[i]
  }

  /** A frame whose damage leaves the start marker and the length field alone is
      again some frame. */
  lemma Reframed(q: Request, f': seq<u8>) returns (version: u8, q': Request, check: seq<u8>)
    requires |f'| == 12 + |q.payload|
    requires forall i :: i in {0, 1, 6, 7} ==> f'[i] == Frame(q)[i]
    ensures |check| == 4 && |q'.payload| == |q.payload| && f' == RawFrame(version, q', check)
    ensures Body(version, q') == f'[2..8 + |q.payload|] && check == f'[8 + |q.payload|..]
  {
    hide Crc, PutU32;
    var n := |q.payload|;
    version, check := f'[2], f'[8 + n..];
    U16Bytes(f'[4..6]);
    q' := Request(f'[3], GetU16(f'[4..6], 0), f'[8..8 + n]);
    assert f'[6..8] == PutU16(n) by { assert f'[6] == Frame(q)[6] && f'[7] == Frame(q)[7]; }
    assert f'[2..8 + n] == [f'[2], f'[3]] + f'[4..6] + f'[6..8] + f'[8..8 + n];
    assert f' == [f'[0], f'[1]] + f'[2..8 + n] + check;
  }

  lemma ThreeParts(a: seq<u8>, lo: nat, hi: nat)
    requires lo <= hi <= |a|
    ensures a == a[..lo] + a[lo..hi] + a[hi..]
  {
  }

  lemma SameOutside(a: seq<u8>, b: seq<u8>, lo: nat) returns (hi: nat)
    requires Damaged(a, b, lo)
    ensures lo < hi <= |a| && hi <= lo + 4
    ensures a[..lo] == b[..lo] && a[hi..] == b[hi..]
  {
    var i :| 0 <= i < |a| && a[i] != b[i];
    assert lo <= i;
    hi := if lo + 4 <= |a| then lo + 4 else |a|;
  }

  lemma WindowDetected(a: seq<u8>, b: seq<u8>, lo: nat)
    requires Damaged(a, b, lo)
    ensures Crc(a) != Crc(b)
  {
    hide Crc;
    var hi := SameOutside(a, b, lo);
    ThreeParts(a, lo, hi);
    ThreeParts(b, lo, hi);
    hide Damaged;
    BurstDetected(a[..lo], a[lo..hi], b[lo..hi], a[hi..]);
  }

  lemma BehindMarker(f: seq<u8>, f': seq<u8>, lo: nat)
    requires Damaged(f, f', lo) && 2 <= |f| && f'[0] == f[0] && f'[1] == f[1]
    ensures Damaged(f[2..], f'[2..], if lo < 2 then 0 else lo - 2)
  {
    assert f == [f[0], f[1]] + f[2..] && f' == [f'[0], f'[1]] + f'[2..];
    forall i | 0 <= i < |f| - 2 && !((if lo < 2 then 0 else lo - 2) <= i < (if lo < 2 then 0 else lo - 2) + 4)
      ensures f'[2..][i] == f[2..][i]
    {
      assert f'[i + 2] == f[i + 2];
    }
  }

  lemma DamagedCodeword(f: seq<u8>, f': seq<u8>, lo: nat)
    requires Damaged(f, f', lo) && 2 <= |f| && f'[0] == f[0] && f'[1] == f[1] && Codeword(f[2..])
    ensures !Codeword(f'[2..])
  {
    hide Codeword, Crc;
    BehindMarker(f, f', lo);
    hide Damaged;
    WindowDetected(f[2..], f'[2..], if lo < 2 then 0 else lo - 2);
    if Codeword(f'[2..]) { CodewordsAgree(f[2..], f'[2..]); }
  }

  lemma FrameIsCodeword(q: Request)
    ensures Codeword(Frame(q)[2..])
  {
    hide Codeword, Crc, Body, PutU32;
    CodewordExact(Body(VERSION, q), PutU32(Crc(Body(VERSION, q))));
    BehindRaw(VERSION, q, PutU32(Crc(Body(VERSION, q))));
  }

  lemma BehindRaw(version: u8, q: Request, check: seq<u8>)
    requires |check| == 4
    ensures RawFrame(version, q, check)[2..] == Body(version, q) + check
  {
    hide Body;
  }

  /** A frame damaged within four consecutive bytes, wherever they are, is never
      delivered, as long as its start marker and its length field are intact. */
  lemma BurstNeverDelivered(p: LiveParser, q: Request, input: seq<Timed>, lo: nat)
    requires Damaged(Frame(q), BytesOf(input), lo)
    requires forall i :: i in {0, 1, 6, 7} ==> BytesOf(input)[i] == Frame(q)[i]
    requires Timely(input) && Ready(p, input[0].at)
    ensures Packets(Results(p, input)) == [] && Results(p, input)[|input| - 1] == BadCrc
  {
    hide Crc, Codeword, Body, PutU32, GetU32, Results, Packets, Ready, Timely, FrameResult, RawFrame;
    var f' := BytesOf(input);
    var version, q', check := Reframed(q, f');
    FrameVerdict(p, version, q', check, input);
    FrameIsCodeword(q);
    DamagedCodeword(Frame(q), f', lo);
    BehindRaw(version, q', check);
    Accepts(version, q', check);
    Rejected(version, q', check);
  }

  /** The parser accepts the check bytes exactly if body and check bytes together
      leave the constant in the register. */
  lemma Accepts(version: u8, q: Request, check: seq<u8>)
    requires |check| == 4
    ensures Crc(Body(version, q)) == GetU32(check, 0) <==> Codeword(Body(version, q) + check)
  {
    hide Crc, Body, PutU32, GetU32, Codeword;
    CodewordExact(Body(version, q), check);
    U32RoundTrip(Crc(Body(version, q)));
    U32Bytes(check);
  }

  lemma Rejected(version: u8, q: Request, check: seq<u8>)
    requires |check| == 4
    ensures Crc(Body(version, q)) != GetU32(check, 0) ==> FrameResult(version, q, check) == BadCrc
  {
    hide Crc, Body, GetU32;
  }

  // ---- The frame and the parser in numbers ----

  /** A frame: 55 AA, version 1, the command, sequence and length with the low byte
      first, the payload, and the checksum of everything behind the marker. */
  lemma FrameExact(q: Request)
    ensures var n := |q.payload|;
      var body := [1, q.command, q.sequence % 256, q.sequence / 256, n % 256, n / 256] + q.payload;
      Frame(q) == [0x55, 0xAA] + body + PutU32(Crc(body))
  {
    hide Crc, PutU32;
    assert Body(1, q)
        == [1, q.command, q.sequence % 256, q.sequence / 256, |q.payload| % 256, |q.payload| / 256] + q.payload;
  }

  /** In the middle of a frame a byte that comes more than a second after the one
      before, on a clock that wraps around, ends the frame; and it may open the
      next one. Between frames there is no such limit. */
  lemma GapExact(p: LiveParser, byte: u8, now: u32)
    ensures var (p1, r) := Consume(p, byte, now);
      && p1.last == now
      && (r == GapTooLong <==> p.phase != AwaitSof0 && (now - p.last) % 0x1_0000_0000 > 1000)
      && (r == GapTooLong ==> p1.phase == if byte == 0x55 then AwaitSof1 else AwaitSof0)
      && (r != GapTooLong ==> (p1.phase, r) == Advance(p.phase, byte))
  {
    NoGap(p.phase, byte);
    hide Advance;
  }

  lemma NoGap(p: Phase, byte: u8)
    requires PhaseOk(p)
    ensures Advance(p, byte).1 != GapTooLong
  {
    hide Crc;
  }

  /** Looking for a frame: 55 AA opens one, and 55 55 may still do. */
  lemma MarkerExact(byte: u8)
    ensures Advance(AwaitSof0, byte) == (if byte == 0x55 then AwaitSof1 else AwaitSof0, More)
    ensures Advance(AwaitSof1, byte)
         == (if byte == 0xAA then InHeader([]) else if byte == 0x55 then AwaitSof1 else AwaitSof0, More)
  {
  }

  /** After the sixth header byte a length over 256 is refused; otherwise that many
      bytes of payload follow, and four of the checksum. */
  lemma LengthExact(h: seq<u8>, byte: u8)
    requires |h| == 5
    ensures var n := Le16(h[4], byte);
      Advance(InHeader(h), byte) ==
        if n > 256 then (if byte == 0x55 then AwaitSof1 else AwaitSof0, BadFrameLength)
        else if n == 0 then (InCheck(h + [byte], [], []), More)
        else (InPayload(h + [byte], []), More)
  {
  }

  /** After the last checksum byte the packet is delivered exactly if the version
      is 1 and the checksum agrees. */
  lemma CheckExact(h: seq<u8>, d: seq<u8>, c: seq<u8>, byte: u8)
    requires |h| == 6 && |d| == Le16(h[4], h[5]) <= 256 && |c| == 3
    ensures var good := h[0] == 1 && Le32(c[0], c[1], c[2], byte) == Crc(h + d);
      Advance(InCheck(h, d, c), byte)
      == (if byte == 0x55 then AwaitSof1 else AwaitSof0,
          if good then Delivered(Request(h[1], Le16(h[2], h[3]), d)) else BadCrc)
  {
    hide Crc;
  }
}
