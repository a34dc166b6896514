// The cloud update from end to end: a modem that answers every command of the
// controller and serves the byte ranges of a package.

module Modem {
  import opened Bytes
  import opened Flash
  import opened Image
  import opened Update
  import opened CloudOta
  import opened HttpStream
  import opened Pipeline
  import opened Controller
  import opened Download

  const CR: u8 := 0x0D
  const LF: u8 := 0x0A
  const PROMPT: u8 := 0x3E

  // ---- What the controller hears ----

  /** A tick before the timeout, or a poll that the main loop leaves out. */
  predicate Waits(s: System, i: Input) {
    || (i.Tick? && (s.k.state == Online
                    || (s.k.state != Retry && s.k.commandSent
                        && Sub32(i.now, s.k.started) <= Timeout(s.k.state))))
    || (i.PollEngine? && OtaActive(s.k.state))
  }

  /** A byte arrives; commands fit their buffers, and a request that is read
      asks for version v. */
  predicate Speaks(s: System, i: Input, b: u8, v: Version) {
    && i.ReceiveByte? && i.byte == b && i.env.fits && i.env.responds
    && (s.k.state == Online ==> i.env.rpc == StartOta(v, true))
  }

  /** The inputs are these bytes, at any times, with waiting in between. */
  ghost predicate Hears(s: System, inputs: seq<Input>, bytes: seq<u8>, v: Version)
    decreases |inputs|
  {
    if inputs == [] then bytes == []
    else if Waits(s, inputs[0]) then Hears(s, inputs[1..], bytes, v)
    else
      && bytes != [] && Speaks(s, inputs[0], bytes[0], v)
      && Hears(React(s, inputs[0]), inputs[1..], bytes[1..], v)
  }

  lemma WaitingIsNothing(s: System, i: Input)
    requires Waits(s, i)
    ensures React(s, i) == s
  {
    hide Timeout;
  }

  lemma {:induction false} NothingHeard(s: System, inputs: seq<Input>, v: Version)
    requires Hears(s, inputs, [], v)
    ensures Run(s, inputs) == s
    decreases |inputs|
  {
    hide React, Waits, Speaks;
    if inputs != [] {
      WaitingIsNothing(s, inputs[0]);
      NothingHeard(s, inputs[1..], v);
    }
  }

  /** What is heard can be taken apart. */
  lemma {:induction false} Split(s: System, inputs: seq<Input>, a: seq<u8>, b: seq<u8>, v: Version) returns (n: nat)
    requires Hears(s, inputs, a + b, v)
    ensures n <= |inputs| && Hears(s, inputs[..n], a, v) && Hears(Run(s, inputs[..n]), inputs[n..], b, v)
    ensures Run(s, inputs) == Run(Run(s, inputs[..n]), inputs[n..])
    decreases |inputs|
  {
    hide React, Waits, Speaks;
    if a == [] {
      n := 0;
      assert a + b == b && inputs[..0] == [] && inputs[0..] == inputs;
    } else {
      if Waits(s, inputs[0]) {
        WaitingIsNothing(s, inputs[0]);
        n := Split(s, inputs[1..], a, b, v);
      } else {
        assert (a + b)[1..] == a[1..] + b;
        n := Split(React(s, inputs[0]), inputs[1..], a[1..], b, v);
      }
      n := n + 1;
      assert inputs[..n][0] == inputs[0] && inputs[..n][1..] == inputs[1..][..n - 1];
      assert inputs[n..] == inputs[1..][n - 1..];
    }
  }

  lemma {:induction false} OneByte(s: System, inputs: seq<Input>, b: u8, v: Version) returns (now: u32, env: Env)
    requires Hears(s, inputs, [b], v)
    ensures Run(s, inputs) == Receive(s, b, now, env)
    ensures env.fits && env.responds && (s.k.state == Online ==> env.rpc == StartOta(v, true))
    decreases |inputs|
  {
    hide Receive, Waits, TickAt;
    if Waits(s, inputs[0]) {
      WaitingIsNothing(s, inputs[0]);
      now, env := OneByte(s, inputs[1..], b, v);
    } else {
      now, env := inputs[0].now, inputs[0].env;
      assert [b][1..] == [];
      NothingHeard(React(s, inputs[0]), inputs[1..], v);
    }
  }

  // ---- Lines ----

  function Line(text: seq<u8>): seq<u8> { text + [CR, LF] }

  predicate Plain(text: seq<u8>) {
    forall i :: 0 <= i < |text| ==> text[i] != 0 && text[i] != CR && text[i] != LF && text[i] != PROMPT
  }

  /** The line buffer takes these bytes. */
  predicate Collects(s: System, text: seq<u8>) {
    && !s.k.httpBinary && |s.k.line| + |text| + 1 < LINE_SIZE
    && (s.k.state == OtaDownload ==> |s.k.line| + |text| < 10)
  }

  lemma {:induction false} TextHeard(s: System, inputs: seq<Input>, text: seq<u8>, v: Version)
    requires Hears(s, inputs, text, v) && Plain(text) && Collects(s, text)
    ensures Run(s, inputs) == s.(k := s.k.(line := s.k.line + text))
    decreases |text|
  {
    hide Hears, Run, BodyPrefix, FeedStream, EnterRetry, ProcessLine, PromptByte, BinaryByte;
    if text == [] {
      NothingHeard(s, inputs, v);
      assert s.k.line + text == s.k.line;
    } else {
      assert text == [text[0]] + text[1..];
      var n := Split(s, inputs, [text[0]], text[1..], v);
      var now, env := OneByte(s, inputs[..n], text[0], v);
      var s1 := s.(k := s.k.(line := s.k.line + [text[0]]));
      assert Receive(s, text[0], now, env) == s1;
      TextHeard(s1, inputs[n..], text[1..], v);
      assert s.k.line + text == s1.k.line + text[1..];
    }
  }

  /** What the end of a line does. */
  function LineEnd(s: System, text: seq<u8>, now: u32, env: Env): System {
    var s1 := ProcessLine(s.(k := s.k.(line := text)), text, now, env);
    s1.(k := s1.k.(line := []))
  }

  lemma {:induction false} PlainIsCString(text: seq<u8>)
    requires Plain(text)
    ensures CString(text) == text
  {
    if text != [] { PlainIsCString(text[1..]); }
  }

  lemma LineHeard(s: System, inputs: seq<Input>, text: seq<u8>, v: Version) returns (now: u32, env: Env)
    requires Hears(s, inputs, Line(text), v) && Plain(text) && text != []
    requires Collects(s, text) && s.k.line == []
    ensures Run(s, inputs) == LineEnd(s, text, now, env)
    ensures env.fits && env.responds && (s.k.state == Online ==> env.rpc == StartOta(v, true))
  {
    hide Hears, Run, ProcessLine, PromptByte, BinaryByte, LineByte, Collects, Plain, CString;
    var n := Split(s, inputs, text, [CR, LF], v);
    TextHeard(s, inputs[..n], text, v);
    assert [] + text == text;
    var s1 := s.(k := s.k.(line := text));
    assert [CR, LF] == [CR] + [LF];
    var m := Split(s1, inputs[n..], [CR], [LF], v);
    var now1, env1 := OneByte(s1, inputs[n..][..m], CR, v);
    CollectsText(s, text);
    assert Receive(s1, CR, now1, env1) == s1;
    now, env := OneByte(s1, inputs[n..][m..], LF, v);
    PlainIsCString(text);
  }

  lemma CollectsText(s: System, text: seq<u8>)
    requires Collects(s, text)
    ensures !s.k.httpBinary
  {
  }

  lemma OkPlain()
    ensures Plain(OkText()) && |OkText()| == 2
  {
  }

  /** An OK line while a command is outstanding. */
  lemma OkDispatch(s: System, now: u32, env: Env)
    requires s.k.commandSent && s.k.state != Online
    ensures ProcessLine(s, OkText(), now, env) == OkLine(s, now, env)
  {
    hide OkLine, Ascii;
    assert |OkText()| == 2 && |ErrCodeText()| == 9 && |SizePrefix()| == 13;
    assert |RequestText()| == 13 && |ErrorText()| == 5;
  }

  lemma OkHeard(s: System, inputs: seq<Input>, v: Version) returns (now: u32, env: Env)
    requires Hears(s, inputs, Line(OkText()), v)
    requires !s.k.httpBinary && s.k.line == [] && s.k.commandSent && s.k.state != Online
    ensures var s1 := OkLine(s.(k := s.k.(line := OkText())), now, env);
      Run(s, inputs) == s1.(k := s1.k.(line := []))
    ensures env.fits
  {
    hide Hears, Run, OkLine, OkText, Plain, ProcessLine, Line;
    OkPlain();
    now, env := LineHeard(s, inputs, OkText(), v);
    OkDispatch(s.(k := s.k.(line := OkText())), now, env);
  }

  // ---- The modem ----

  /** The range asked for last. */
  function LastRange(sent: seq<Command>): Range {
    if sent == [] then Range(0, 0)
    else if sent[|sent| - 1].AskRange? then sent[|sent| - 1].range
    else LastRange(sent[..|sent| - 1])
  }

  /** A frame with the bytes of a range. */
  function Served(package: seq<u8>, r: Range): seq<u8> {
    if r.first <= r.last < |package| then
      FrameHeader(r.last + 1 - r.first) + package[r.first..r.last + 1] + [CR, LF]
    else []
  }

  /** What the modem says to the command it has received last. */
  function Answer(sent: seq<Command>, package: seq<u8>): seq<u8> {
    if sent == [] then []
    else
      match sent[|sent| - 1]
      case GetSize => Line(SizePrefix() + Notation(|package|)) + Line(OkText())
      case AskRange(_) => Line(OkText()) + [PROMPT]
      case GetBody => Served(package, LastRange(sent)) + Line(OkText())
      case _ => Line(OkText())
  }

  datatype Turns = Silence | Turn(inputs: seq<Input>, rest: Turns)

  function Count(turns: Turns): nat {
    match turns
    case Silence => 0
    case Turn(_, rest) => 1 + Count(rest)
  }

  /** Turn after turn the modem answers the last command. */
  ghost predicate Serves(s: System, turns: Turns, package: seq<u8>, v: Version)
    decreases turns
  {
    match turns
    case Silence => true
    case Turn(inputs, rest) =>
      Hears(s, inputs, Answer(s.k.sent, package), v) && Serves(Run(s, inputs), rest, package, v)
  }

  function After(s: System, turns: Turns): System
    decreases turns
  {
    match turns
    case Silence => s
    case Turn(inputs, rest) => After(Run(s, inputs), rest)
  }

  // ---- Up to the first range ----

  /** A download is being set up, and the modem has yet to answer `command`. */
  ghost predicate Preparing(s: System, command: Command, t: u8, v: Version) {
    && !s.k.httpBinary && s.k.line == [] && s.k.commandSent && s.k.requested && !s.k.bodyPending && s.k.version == v
    && Accepting(s.cloud.board, t)
    && s.k.sent != [] && s.k.sent[|s.k.sent| - 1] == command
    && s.k.state == (if command == ClearHeader then OtaClearHeader else OtaSize)
    && s.k.telemetryPending == (command == Response)
    && s.k.sizePending == (command == Response || command == Telemetry)
  }

  lemma OtaText(request: seq<u8>)
    requires StartsWith(request, RequestText())
    ensures request != [] && !StartsWith(request, ErrCodeText())
  {
    assert request[0] == RequestText()[0];
  }

  /** The request, heard while online. */
  lemma RequestTurn(s: System, inputs: seq<Input>, request: seq<u8>, t: u8, v: Version)
    requires s.k.state == Online && !s.k.httpBinary && s.k.line == [] && !s.k.bodyPending
    requires Accepting(s.cloud.board, t) && !ActiveVersion(s, v)
    requires StartsWith(request, RequestText()) && Plain(request) && |request| + 1 < LINE_SIZE
    requires Hears(s, inputs, Line(request), v)
    ensures Preparing(Run(s, inputs), Response, t, v)
  {
    hide Hears, Run, Plain, StartsWith, RequestText, ErrCodeText, SizePrefix, Accepting, Line;
    OtaText(request);
    var now, env := LineHeard(s, inputs, request, v);
    hide ActiveVersion;
    assert ActiveVersion(s.(k := s.k.(line := request)), v) == ActiveVersion(s, v) by { SameActive(s, request, v); }
  }

  lemma SameActive(s: System, line: seq<u8>, v: Version)
    ensures ActiveVersion(s.(k := s.k.(line := line)), v) == ActiveVersion(s, v)
  {
  }

  /** The answers to the response, to the telemetry, and to the cleared header. */
  lemma SetupTurn(s: System, inputs: seq<Input>, package: seq<u8>, command: Command, t: u8, v: Version)
    requires Preparing(s, command, t, v) && Hears(s, inputs, Answer(s.k.sent, package), v)
    requires command == Response || command == Telemetry || command == ClearHeader
    ensures Preparing(Run(s, inputs),
      if command == Response then Telemetry else if command == Telemetry then ClearHeader else GetSize, t, v)
  {
    hide Hears, Run, Accepting, Line, OkText;
    var now, env := OkHeard(s, inputs, v);
  }

  // ---- A range ----

  /** The range at offset k has been asked for, and everything before it is in
      the splitter. */
  ghost predicate Loading(s: System, size: nat, k: nat, t: u8, v: Version, payload: seq<u8>, erased: set<nat>) {
    && !s.k.httpBinary && s.k.line == [] && s.k.commandSent && !s.k.bodyPending && !s.k.chunkComplete
    && size == PAGE + |payload| && SizeOk(size) && s.k.remoteSize == size && s.k.offset == k < size && Boundary(k)
    && s.k.chunkSize == Planned(k, size)
    && s.k.sent != [] && LastRange(s.k.sent) == Range(k, k + s.k.chunkSize - 1)
    && AtByte(s.cloud, k, t, v, payload, erased)
  }

  predicate Asking(k: Control) {
    k.state == OtaRangeHeader && k.stage == 0 && k.sent != [] && k.sent[|k.sent| - 1].AskRange?
  }

  predicate Heading(k: Control) {
    k.state == OtaRangeHeader && k.stage == 2 && k.sent != [] && k.sent[|k.sent| - 1].RangeHeader?
  }

  predicate Awaiting(k: Control) {
    k.state == OtaDownload && k.stream == Fresh(k.chunkSize) && k.sent != [] && k.sent[|k.sent| - 1].GetBody?
  }

  lemma LastAsked(sent: seq<Command>, c: Command)
    ensures (sent + [c])[|sent + [c]| - 1] == c && (sent + [c])[..|sent + [c]| - 1] == sent
    ensures LastRange(sent + [c]) == if c.AskRange? then c.range else LastRange(sent)
  {
    assert (sent + [c])[..|sent|] == sent;
  }

  /** A range request leaves the controller asking. */
  lemma RangeAsked(s: System, now: u32, size: nat, k: nat, t: u8, v: Version, payload: seq<u8>, erased: set<nat>)
    requires !s.k.httpBinary && !s.k.bodyPending
    requires size == PAGE + |payload| && SizeOk(size) && s.k.remoteSize == size && s.k.offset == k < size && Boundary(k)
    requires AtByte(s.cloud, k, t, v, payload, erased)
    ensures var s1 := StartRange(s, now);
      Asking(s1.k) && Loading(s1.(k := s1.k.(line := [])), size, k, t, v, payload, erased)
  {
    hide AtByte, Planned, Boundary, SizeOk, StartRange, LastRange, RangeText;
    StartRangeIs(s, now);
    LastAsked(s.k.sent, AskRange(Range(k, k + Planned(k, size) - 1)));
  }

  lemma SizeText(n: nat)
    requires n <= SIZE_MAX
    ensures var text := SizePrefix() + Notation(n);
      && Plain(text) && text != [] && |text| <= 23 && StartsWith(text, SizePrefix()) && !StartsWith(text, ErrCodeText())
      && (n > 0 ==> ParseSize(text) == Some(n))
  {
    hide Notation, PositiveSize;
    ShortNotation(n);
    SizeLineRoundTrip(n);
    var text := SizePrefix() + Notation(n);
    assert |SizePrefix()| == 13 && text[..13] == SizePrefix() && text[13..] == Notation(n);
    assert text[0] == SizePrefix()[0] && ErrCodeText()[0] == 0x45 && SizePrefix()[0] == 0x2B;
    forall i | 0 <= i < |text|
      ensures text[i] != 0 && text[i] != CR && text[i] != LF && text[i] != PROMPT
    {
      if i < 13 { assert text[i] == SizePrefix()[i]; } else { assert IsDigit(text[i]); }
    }
  }

  lemma SizeDispatch(s: System, n: nat, now: u32, env: Env)
    requires s.k.state == OtaSize && 0 < n <= SIZE_MAX
    ensures var text := SizePrefix() + Notation(n);
      var (cloud, r) := Begin(s.cloud.board, n, s.k.version);
      r == Fine ==>
        ProcessLine(s, text, now, env) == System(s.k.(remoteSize := n, offset := 0, bodyPending := true), cloud)
  {
    hide StartsWith, ParseSize, SizePrefix, Notation, ErrCodeText, Begin, EnterRetry, Contains, OkLine, HandleRpc,
      AdvanceState, Plain;
    SizeText(n);
  }

  /** The size line begins the package. */
  lemma SizeHeard(s: System, inputs: seq<Input>, n: nat, t: u8, v: Version, payload: seq<u8>)
    requires Preparing(s, GetSize, t, v) && n == PAGE + |payload| && 0 < |payload| <= PAYLOAD_MAX
    requires Hears(s, inputs, Line(SizePrefix() + Notation(n)), v)
    ensures var s1 := Run(s, inputs);
      && AtByte(s1.cloud, 0, t, v, payload, {})
      && s1.k == s.k.(remoteSize := n, offset := 0, bodyPending := true)
  {
    hide Hears, Run, Line, Plain, StartsWith, ParseSize, SizePrefix, Notation, ErrCodeText, Begin, AtByte, ProcessLine,
      Accepting;
    SizeText(n);
    var text := SizePrefix() + Notation(n);
    var now, env := LineHeard(s, inputs, text, v);
    var c := Open(s.cloud.board, t, v, payload);
    SizeDispatch(s.(k := s.k.(line := text)), n, now, env);
  }

  lemma Open(board: Board, t: u8, v: Version, payload: seq<u8>) returns (c: LiveCloud)
    requires Accepting(board, t) && 0 < |payload| <= PAYLOAD_MAX
    ensures Begin(board, PAGE + |payload|, v) == (c, Fine)
    ensures AtByte(c, 0, t, v, payload, {}) && c.attached
  {
    hide AtByte, Begin;
    c := Opened(board, t, v, payload);
  }

  /** The answer to the size query. */
  lemma SizeTurn(s: System, inputs: seq<Input>, package: seq<u8>, t: u8, v: Version, payload: seq<u8>)
    requires Preparing(s, GetSize, t, v) && |package| == PAGE + |payload| && 0 < |payload| <= PAYLOAD_MAX
    requires Hears(s, inputs, Answer(s.k.sent, package), v)
    ensures var s1 := Run(s, inputs);
      Asking(s1.k) && Loading(s1, |package|, 0, t, v, payload, {})
  {
    hide Hears, Run, Line, SizePrefix, Notation, OkText, AtByte, LastRange, StartRange, Loading, Asking, Accepting;
    var n := Split(s, inputs, Line(SizePrefix() + Notation(|package|)), Line(OkText()), v);
    SizeHeard(s, inputs[..n], |package|, t, v, payload);
    var s1 := Run(s, inputs[..n]);
    var now, env := OkHeard(s1, inputs[n..], v);
    var s2 := s1.(k := s1.k.(line := OkText(), bodyPending := false));
    assert Boundary(0) && SizeOk(|package|);
    RangeAsked(s2, now, |package|, 0, t, v, payload, {});
    assert OkLine(s1.(k := s1.k.(line := OkText())), now, env) == StartRange(s2, now);
    NoLine(StartRange(s2, now).k);
  }

  lemma NoLine(k: Control)
    ensures Asking(k) ==> Asking(k.(line := []))
  {
  }

  /** The answer to a range request: OK, and the prompt for its text. */
  lemma AskTurn(s: System, inputs: seq<Input>, package: seq<u8>, k: nat, t: u8, v: Version, payload: seq<u8>,
                erased: set<nat>)
    requires Asking(s.k) && Loading(s, |package|, k, t, v, payload, erased)
    requires Hears(s, inputs, Answer(s.k.sent, package), v)
    ensures var s1 := Run(s, inputs);
      Heading(s1.k) && Loading(s1, |package|, k, t, v, payload, erased)
  {
    hide Hears, Run, Line, OkText, AtByte, LastRange, Planned, Boundary, SizeOk, Receive, OkLine;
    var n := Split(s, inputs, Line(OkText()), [PROMPT], v);
    var now, env := OkHeard(s, inputs[..n], v);
    FirstOk(s, now, env);
    var s1 := s.(k := s.k.(stage := 1));
    var now1, env1 := OneByte(s1, inputs[n..], PROMPT, v);
    RangeIsPlanned(k, |package|);
    Prompted(s1, |package|, now1, env1);
    LastAsked(s.k.sent, RangeHeader(Range(k, k + s.k.chunkSize - 1)));
  }

  lemma FirstOk(s: System, now: u32, env: Env)
    requires s.k.state == OtaRangeHeader && s.k.stage == 0
    ensures OkLine(s.(k := s.k.(line := OkText())), now, env) == s.(k := s.k.(line := OkText(), stage := 1))
  {
    hide OkText, EnterRetry;
  }

  /** The prompt: the text of the range is sent. */
  lemma Prompted(s: System, size: nat, now: u32, env: Env)
    requires s.k.state == OtaRangeHeader && s.k.stage == 1 && SizeOk(size) && s.k.offset < size
    requires s.k.chunkSize == Planned(s.k.offset, size) > 0
    ensures Receive(s, PROMPT, now, env) ==
      s.(k := Sent(s.k, RangeHeader(Range(s.k.offset, s.k.offset + s.k.chunkSize - 1))).(stage := 2, started := now))
  {
    hide RangeText, EnterRetry, Planned;
    PlannedIsShort(s.k.offset, size);
  }

  lemma RangeIsPlanned(k: nat, size: nat)
    requires SizeOk(size) && k < size && Boundary(k)
    ensures 0 < Planned(k, size) <= CHUNK_MAX && k + Planned(k, size) <= size
    ensures k + Planned(k, size) < size ==> Boundary(k + Planned(k, size))
  {
    hide Planned, Boundary, SizeOk;
    PlanStep(k, size);
  }

  /** The answer to the text of a range. */
  lemma HeadTurn(s: System, inputs: seq<Input>, package: seq<u8>, k: nat, t: u8, v: Version, payload: seq<u8>,
                 erased: set<nat>)
    requires Heading(s.k) && Loading(s, |package|, k, t, v, payload, erased)
    requires Hears(s, inputs, Answer(s.k.sent, package), v)
    ensures var s1 := Run(s, inputs);
      Awaiting(s1.k) && Loading(s1, |package|, k, t, v, payload, erased)
  {
    hide Hears, Run, Line, OkText, AtByte, LastRange, Planned, Boundary, SizeOk, EnterRetry;
    var now, env := OkHeard(s, inputs, v);
    LastAsked(s.k.sent, GetBody);
  }

  // ---- The body of a range ----

  lemma PrefixPlain()
    ensures Plain(BodyPrefix()) && Plain(BodyPrefix()[..9])
  {
  }

  /** The tenth byte of the body prefix turns the stream on. */
  lemma LastPrefixByte(s: System, now: u32, env: Env)
    requires s.k.state == OtaDownload && !s.k.httpBinary && s.k.line == BodyPrefix()[..9]
    requires s.k.stream == Fresh(s.k.chunkSize) && s.k.chunkSize > 0
    ensures Receive(s, BodyPrefix()[9], now, env) ==
      s.(k := s.k.(line := [], httpBinary := true, stream := Stream(s.k.chunkSize, BodyPrefix(), false, 0)))
  {
    hide BodyPrefix, FeedStream, EnterRetry, ProcessLine, BinaryByte, PromptByte, Plain;
    PrefixPlain();
    assert BodyPrefix()[..9] + [BodyPrefix()[9]] == BodyPrefix();
    NinthPlain();
    PrefixFed(s.(k := s.k.(line := BodyPrefix())));
  }

  lemma NinthPlain()
    ensures BodyPrefix()[9] != CR && BodyPrefix()[9] != LF && BodyPrefix()[9] != PROMPT
  {
  }

  lemma PrefixHeard(s: System, inputs: seq<Input>, v: Version)
    requires s.k.state == OtaDownload && !s.k.httpBinary && s.k.line == []
    requires s.k.stream == Fresh(s.k.chunkSize) && s.k.chunkSize > 0
    requires Hears(s, inputs, BodyPrefix(), v)
    ensures Run(s, inputs) ==
      s.(k := s.k.(httpBinary := true, stream := Stream(s.k.chunkSize, BodyPrefix(), false, 0)))
  {
    hide Hears, Run, BodyPrefix, Receive, Plain;
    PrefixPlain();
    var p := BodyPrefix();
    assert p == p[..9] + [p[9]];
    var n := Split(s, inputs, p[..9], [p[9]], v);
    TextHeard(s, inputs[..n], p[..9], v);
    assert [] + p[..9] == p[..9];
    var s1 := s.(k := s.k.(line := p[..9]));
    var now, env := OneByte(s1, inputs[n..], p[9], v);
    LastPrefixByte(s1, now, env);
  }

  lemma InBody(s: System, b: u8, now: u32, env: Env)
    requires s.k.httpBinary && s.k.state == OtaDownload
    ensures Receive(s, b, now, env) == BinaryByte(s, b, now)
  {
    hide BinaryByte, ProcessLine, LineByte, PromptByte;
  }

  /** One byte of the frame's header. */
  lemma HeaderByte(st: Stream, n: nat, j: nat)
    requires 0 < n <= SIZE_MAX && 10 <= j < |FrameHeader(n)|
    requires st == Stream(n, FrameHeader(n)[..j], false, 0)
    ensures FeedData(st, [FrameHeader(n)[j]]) ==
      Fed(if j + 1 == |FrameHeader(n)| then Stream(n, FrameHeader(n), true, n)
          else Stream(n, FrameHeader(n)[..j + 1], false, 0), [], More)
  {
    hide FrameAccepted, BodyPrefix, Notation;
    HeaderText(n);
    var h, f := BodyPrefix() + Notation(n), FrameHeader(n);
    assert f[..j] + [f[j]] == f[..j + 1] && f[..|f|] == f;
    var s1 := st.(frame := f[..j + 1]);
    assert [f[j]][1..] == [];
    assert Scan(s1, []) == Scanned(s1, [], More);
    if j + 1 < |f| {
      assert f[j] == h[j];
    }
  }

  lemma {:induction false} HeaderHeard(s: System, inputs: seq<Input>, n: nat, j: nat, v: Version)
    requires s.k.state == OtaDownload && s.k.httpBinary && 0 < n <= SIZE_MAX && 10 <= j < |FrameHeader(n)|
    requires s.k.stream == Stream(n, FrameHeader(n)[..j], false, 0)
    requires Hears(s, inputs, FrameHeader(n)[j..], v)
    ensures Run(s, inputs) == s.(k := s.k.(stream := Stream(n, FrameHeader(n), true, n)))
    decreases |FrameHeader(n)| - j
  {
    hide Hears, Run, FrameHeader, FeedData, Receive;
    var f := FrameHeader(n);
    assert f[j..] == [f[j]] + f[j + 1..];
    var m := Split(s, inputs, [f[j]], f[j + 1..], v);
    var now, env := OneByte(s, inputs[..m], f[j], v);
    InBody(s, f[j], now, env);
    HeaderByte(s.k.stream, n, j);
    if j + 1 < |f| {
      HeaderHeard(s.(k := s.k.(stream := Stream(n, f[..j + 1], false, 0))), inputs[m..], n, j + 1, v);
    } else {
      assert f[j + 1..] == [];
      NothingHeard(s.(k := s.k.(stream := Stream(n, f, true, n))), inputs[m..], v);
    }
  }

  /** What a byte of the body does: it reaches the splitter, and the last one of
      the range completes it. */
  lemma BodyByte(s: System, b: u8, now: u32, k: nat, t: u8, v: Version, payload: seq<u8>, erased: set<nat>)
    returns (erased': set<nat>)
    requires s.k.httpBinary && s.k.stream.bodyMode && 0 < s.k.stream.remaining <= s.k.stream.expected
    requires AtByte(s.cloud, k, t, v, payload, erased) && k < PAGE + |payload|
    requires k < HEADER_SIZE ==> b == PackagedHeader(t, v, payload)[k]
    requires k >= PAGE ==> b == payload[k - PAGE]
    ensures var s1, left := BinaryByte(s, b, now), s.k.stream.remaining - 1;
      && AtByte(s1.cloud, k + 1, t, v, payload, erased')
      && s1.k == if left == 0 then
           s.k.(stream := s.k.stream.(remaining := 0), httpBinary := false, chunkComplete := true, started := now)
         else s.k.(stream := s.k.stream.(remaining := left))
  {
    hide FeedData, PutByte, PutAll, PackagedHeader, EnterRetry, Scan;
    PlaceOf(s.cloud, k, t, v, payload, erased);
    hide AtByte;
    StreamByte(s.k.stream, b);
    PutOne(s.cloud, b);
    erased' := ByteStep(s.cloud, b, k, t, v, payload, erased);
  }

  lemma PlaceOf(c: LiveCloud, k: nat, t: u8, v: Version, payload: seq<u8>, erased: set<nat>)
    requires AtByte(c, k, t, v, payload, erased) && k < PAGE + |payload|
    ensures c.attached && Room(c, 1) && Expecting(c)
  {
    hide PackagedHeader, Storing, Accepting;
  }

  /** The last j bytes of a range. */
  lemma {:induction false} BodyHeard(s: System, inputs: seq<Input>, package: seq<u8>, k: nat, j: nat, t: u8, v: Version,
                                     payload: seq<u8>, erased: set<nat>)
    returns (now: u32, erased': set<nat>)
    requires s.k.state == OtaDownload && s.k.httpBinary
    requires s.k.stream.bodyMode && s.k.stream.remaining == j <= s.k.stream.expected && 0 < j
    requires IsSlot(t) && Package(t, v, payload).Some? && package == Package(t, v, payload).value
    requires AtByte(s.cloud, k, t, v, payload, erased) && k + j <= |package|
    requires Hears(s, inputs, package[k..k + j], v)
    ensures var s1 := Run(s, inputs);
      && AtByte(s1.cloud, k + j, t, v, payload, erased')
      && s1.k == s.k.(stream := s.k.stream.(remaining := 0), httpBinary := false, chunkComplete := true, started := now)
    decreases j
  {
    hide Hears, Run, AtByte, Receive, Package, PackagedHeader, BinaryByte;
    assert package[k..k + j] == [package[k]] + package[k + 1..k + j];
    var m := Split(s, inputs, [package[k]], package[k + 1..k + j], v);
    var env: Env;
    now, env := OneByte(s, inputs[..m], package[k], v);
    InBody(s, package[k], now, env);
    PackageBytes(t, v, payload, k);
    erased' := BodyByte(s, package[k], now, k, t, v, payload, erased);
    var s1 := BinaryByte(s, package[k], now);
    if j == 1 {
      assert package[k + 1..k + j] == [];
      NothingHeard(s1, inputs[m..], v);
    } else {
      now, erased' := BodyHeard(s1, inputs[m..], package, k + 1, j - 1, t, v, payload, erased');
    }
  }

  /** An empty line. */
  lemma EmptyLineHeard(s: System, inputs: seq<Input>, v: Version)
    requires !s.k.httpBinary && s.k.line == [] && Hears(s, inputs, [CR, LF], v)
    ensures Run(s, inputs) == s
  {
    hide Hears, Run, ProcessLine, PromptByte, BinaryByte, LineByte;
    assert [CR, LF] == [CR] + [LF];
    var m := Split(s, inputs, [CR], [LF], v);
    var now, env := OneByte(s, inputs[..m], CR, v);
    assert Receive(s, CR, now, env) == s;
    now, env := OneByte(s, inputs[m..], LF, v);
    assert Receive(s, LF, now, env) == s;
  }

  lemma ServedParts(package: seq<u8>, r: Range)
    requires r.first <= r.last < |package|
    ensures var n := r.last + 1 - r.first;
      && Served(package, r) == BodyPrefix() + (FrameHeader(n)[10..] + (package[r.first..r.last + 1] + [CR, LF]))
      && 10 < |FrameHeader(n)| && FrameHeader(n)[..10] == BodyPrefix()
  {
    hide BodyPrefix, Notation;
    var f := FrameHeader(r.last + 1 - r.first);
    assert f == f[..10] + f[10..];
  }

  /** The frame of the range has been heard. */
  lemma RangeHeard(s: System, inputs: seq<Input>, package: seq<u8>, k: nat, t: u8, v: Version, payload: seq<u8>,
                   erased: set<nat>)
    returns (now: u32, stream: Stream, erased': set<nat>)
    requires IsSlot(t) && Package(t, v, payload).Some? && package == Package(t, v, payload).value
    requires Awaiting(s.k) && !s.k.httpBinary && s.k.line == [] && AtByte(s.cloud, k, t, v, payload, erased)
    requires 0 < s.k.chunkSize <= CHUNK_MAX && k + s.k.chunkSize <= |package|
    requires Hears(s, inputs, Served(package, Range(k, k + s.k.chunkSize - 1)), v)
    ensures var s1 := Run(s, inputs);
      && AtByte(s1.cloud, k + s.k.chunkSize, t, v, payload, erased')
      && s1.k == s.k.(stream := stream, chunkComplete := true, started := now)
  {
    hide Hears, Run, AtByte, Package, BodyPrefix, FrameHeader, Served;
    var c := s.k.chunkSize;
    var f, body := FrameHeader(c), package[k..k + c];
    ServedParts(package, Range(k, k + c - 1));
    var n := Split(s, inputs, BodyPrefix(), f[10..] + (body + [CR, LF]), v);
    PrefixHeard(s, inputs[..n], v);
    var s1, in1 := Run(s, inputs[..n]), inputs[n..];
    var n1 := Split(s1, in1, f[10..], body + [CR, LF], v);
    HeaderHeard(s1, in1[..n1], c, 10, v);
    var s2, in2 := Run(s1, in1[..n1]), in1[n1..];
    var n2 := Split(s2, in2, body, [CR, LF], v);
    now, erased' := BodyHeard(s2, in2[..n2], package, k, c, t, v, payload, erased);
    stream := Stream(c, f, true, 0);
    EmptyLineHeard(Run(s2, in2[..n2]), in2[n2..], v);
  }

  /** The update is in the device: the engine is ready to boot it, and the
      controller is online again. */
  ghost predicate Updated(s: System, t: u8, v: Version, payload: seq<u8>) {
    && s.k.state == Online && s.cloud.board.engine.state == ReadyToBoot
    && Delivered(s.cloud.board.mem, s.cloud.board.engine.metadata.active, t, v, payload)
  }

  /** The OK behind the last range. */
  lemma LastOk(s: System, now: u32, t: u8, v: Version, payload: seq<u8>, erased: set<nat>)
    requires IsSlot(t) && Package(t, v, payload).Some? && AtByte(s.cloud, PAGE + |payload|, t, v, payload, erased)
    ensures var s1 := FinishAll(s, now);
      Updated(s1.(k := s1.k.(line := [])), t, v, payload)
  {
    hide AtByte, Package, FinishPackage, EnterRetry, Delivered;
    FinishGoes(s.cloud, t, v, payload, erased);
  }

  /** The answer to the request for a body: its range, and OK. */
  lemma BodyTurn(s: System, inputs: seq<Input>, package: seq<u8>, k: nat, t: u8, v: Version, payload: seq<u8>,
                 erased: set<nat>)
    returns (erased': set<nat>)
    requires IsSlot(t) && Package(t, v, payload).Some? && package == Package(t, v, payload).value
    requires Awaiting(s.k) && Loading(s, |package|, k, t, v, payload, erased)
    requires Hears(s, inputs, Answer(s.k.sent, package), v)
    ensures var s1, end := Run(s, inputs), k + Planned(k, |package|);
      if end < |package| then Asking(s1.k) && Loading(s1, |package|, end, t, v, payload, erased')
      else Updated(s1, t, v, payload)
  {
    hide *;
    LoadingParts(s, |package|, k, t, v, payload, erased);
    AwaitingState(s.k);
    BodyAnswer(s.k.sent, package);
    RangeIsPlanned(k, |package|);
    var c := s.k.chunkSize;
    var n := Split(s, inputs, Served(package, Range(k, k + c - 1)), Line(OkText()), v);
    var now, stream;
    now, stream, erased' := RangeHeard(s, inputs[..n], package, k, t, v, payload, erased);
    var s1 := Run(s, inputs[..n]);
    var now1, env := OkHeard(s1, inputs[n..], v);
    RangeOver(s1, now1, env, |package|, k, t, v, payload, erased');
  }

  lemma AwaitingState(k: Control)
    requires Awaiting(k)
    ensures k.state == OtaDownload && k.state != Online && k.sent != [] && k.sent[|k.sent| - 1].GetBody?
  {
  }

  lemma BodyAnswer(sent: seq<Command>, package: seq<u8>)
    requires sent != [] && sent[|sent| - 1].GetBody?
    ensures Answer(sent, package) == Served(package, LastRange(sent)) + Line(OkText())
  {
    hide LastRange, Served, Line, OkText;
  }

  lemma LoadingParts(s: System, size: nat, k: nat, t: u8, v: Version, payload: seq<u8>, erased: set<nat>)
    requires Loading(s, size, k, t, v, payload, erased)
    ensures !s.k.httpBinary && s.k.line == [] && s.k.commandSent && !s.k.bodyPending
    ensures size == PAGE + |payload| && SizeOk(size) && s.k.remoteSize == size && s.k.offset == k < size && Boundary(k)
    ensures s.k.chunkSize == Planned(k, size) && LastRange(s.k.sent) == Range(k, k + s.k.chunkSize - 1)
    ensures AtByte(s.cloud, k, t, v, payload, erased)
  {
    hide AtByte, Planned, Boundary, SizeOk, LastRange;
  }

  /** A range is complete: the next one is asked for, or the package is. */
  lemma RangeOver(s: System, now: u32, env: Env, size: nat, k: nat, t: u8, v: Version, payload: seq<u8>,
                  erased: set<nat>)
    requires IsSlot(t) && Package(t, v, payload).Some? && size == PAGE + |payload| && SizeOk(size)
    requires s.k.state == OtaDownload && s.k.chunkComplete && !s.k.httpBinary && !s.k.bodyPending
    requires s.k.remoteSize == size && s.k.offset == k < size && Boundary(k) && s.k.chunkSize == Planned(k, size)
    requires AtByte(s.cloud, k + s.k.chunkSize, t, v, payload, erased)
    ensures var end := k + Planned(k, size);
      var s1 := OkLine(s.(k := s.k.(line := OkText())), now, env);
      var s2 := s1.(k := s1.k.(line := []));
      if end < size then Asking(s2.k) && Loading(s2, size, end, t, v, payload, erased)
      else Updated(s2, t, v, payload)
  {
    hide OkText, AtByte, Planned, Boundary, SizeOk, Package, Asking, Updated, StartRange, FinishAll, Loading;
    RangeIsPlanned(k, size);
    var s1 := s.(k := s.k.(line := OkText(), offset := k + s.k.chunkSize));
    if s1.k.offset < size {
      RangeAsked(s1, now, size, s1.k.offset, t, v, payload, erased);
      NoLine(StartRange(s1, now).k);
    } else {
      LastOk(s1, now, t, v, payload, erased);
    }
  }

  // ---- The whole update ----

  /** How many ranges the planner makes of the package from an offset on. */
  function RangesFrom(offset: nat, size: nat): nat
    requires offset < size
    decreases size - offset
  {
    var next := offset + Planned(offset, size);
    1 + if next < size then RangesFrom(next, size) else 0
  }

  lemma TurnOf(s: System, turns: Turns, package: seq<u8>, v: Version)
    requires Serves(s, turns, package, v) && Count(turns) > 0
    ensures turns.Turn? && Hears(s, turns.inputs, Answer(s.k.sent, package), v)
    ensures Serves(Run(s, turns.inputs), turns.rest, package, v) && Count(turns.rest) == Count(turns) - 1
    ensures After(s, turns) == After(Run(s, turns.inputs), turns.rest)
  {
    hide Hears, Answer, Run;
  }

  /** Three answers: one range. */
  lemma RangeTurns(s: System, turns: Turns, package: seq<u8>, k: nat, t: u8, v: Version, payload: seq<u8>,
                   erased: set<nat>)
    returns (s': System, rest: Turns, erased': set<nat>)
    requires IsSlot(t) && Package(t, v, payload).Some? && package == Package(t, v, payload).value
    requires Asking(s.k) && Loading(s, |package|, k, t, v, payload, erased) && k < |package|
    requires Serves(s, turns, package, v) && Count(turns) >= 3
    ensures After(s, turns) == After(s', rest) && Serves(s', rest, package, v) && Count(rest) == Count(turns) - 3
    ensures var end := k + Planned(k, |package|);
      if end < |package| then Asking(s'.k) && Loading(s', |package|, end, t, v, payload, erased')
      else Updated(s', t, v, payload)
  {
    hide *;
    TurnOf(s, turns, package, v);
    AskTurn(s, turns.inputs, package, k, t, v, payload, erased);
    s', rest := Run(s, turns.inputs), turns.rest;
    TurnOf(s', rest, package, v);
    HeadTurn(s', rest.inputs, package, k, t, v, payload, erased);
    s', rest := Run(s', rest.inputs), rest.rest;
    TurnOf(s', rest, package, v);
    erased' := BodyTurn(s', rest.inputs, package, k, t, v, payload, erased);
    s', rest := Run(s', rest.inputs), rest.rest;
  }

  /** Range after range, from the offset on. */
  lemma {:induction false} RangesServed(s: System, turns: Turns, package: seq<u8>, k: nat, t: u8, v: Version,
                                        payload: seq<u8>, erased: set<nat>)
    requires IsSlot(t) && Package(t, v, payload).Some? && package == Package(t, v, payload).value
    requires Asking(s.k) && k < |package| && Loading(s, |package|, k, t, v, payload, erased)
    requires Serves(s, turns, package, v) && Count(turns) == 3 * RangesFrom(k, |package|)
    ensures Updated(After(s, turns), t, v, payload)
    decreases |package| - k
  {
    hide *;
    RangesUnfold(k, |package|);
    var s', rest, erased' := RangeTurns(s, turns, package, k, t, v, payload, erased);
    var end := k + Planned(k, |package|);
    if end < |package| {
      RangesServed(s', rest, package, end, t, v, payload, erased');
    } else {
      NoTurn(s', rest);
    }
  }

  lemma RangesUnfold(k: nat, size: nat)
    requires k < size
    ensures var end := k + Planned(k, size);
      k < end && RangesFrom(k, size) == 1 + if end < size then RangesFrom(end, size) else 0
  {
  }

  lemma NoTurn(s: System, turns: Turns)
    requires Count(turns) == 0
    ensures After(s, turns) == s
  {
  }

  /** The bytes without any waiting, and a modem that answers in this way. */
  function Spoken(bytes: seq<u8>, v: Version): seq<Input> {
    seq(|bytes|, i requires 0 <= i < |bytes| => ReceiveByte(bytes[i], 0, Env(true, StartOta(v, true), true)))
  }

  function Answers(s: System, n: nat, package: seq<u8>, v: Version): Turns
    decreases n
  {
    if n == 0 then Silence
    else
      var inputs := Spoken(Answer(s.k.sent, package), v);
      Turn(inputs, Answers(Run(s, inputs), n - 1, package, v))
  }

  lemma {:induction false} SpokenIsHeard(s: System, bytes: seq<u8>, v: Version)
    ensures Hears(s, Spoken(bytes, v), bytes, v)
    decreases |bytes|
  {
    hide React;
    if bytes != [] {
      assert Spoken(bytes, v)[1..] == Spoken(bytes[1..], v);
      SpokenIsHeard(React(s, Spoken(bytes, v)[0]), bytes[1..], v);
    }
  }

  /** Whatever the controller does, there is a modem that answers it n times. */
  lemma {:induction false} AnswersServe(s: System, n: nat, package: seq<u8>, v: Version)
    ensures Serves(s, Answers(s, n, package, v), package, v) && Count(Answers(s, n, package, v)) == n
    decreases n
  {
    hide Answer, Run, Hears, Spoken;
    if n > 0 {
      var inputs := Spoken(Answer(s.k.sent, package), v);
      SpokenIsHeard(s, Answer(s.k.sent, package), v);
      AnswersServe(Run(s, inputs), n - 1, package, v);
    }
  }

  /** From the request line to the package in the flash: an online controller
      hears a request for version v, and then a modem that answers every command
      and serves the ranges of the package of that version for the inactive slot,
      at any times short of a timeout. After four answers and three for each
      planned range the package is in its slot, byte for byte, and validates;
      the next start-up finds it pending; and the controller is online. */
  lemma UpdateServed(s: System, inputs: seq<Input>, request: seq<u8>, turns: Turns, t: u8, v: Version, payload: seq<u8>)
    requires Inv(s) && s.k.state == Online && s.k.line == [] && Accepting(s.cloud.board, t) && !ActiveVersion(s, v)
    requires IsSlot(t) && Package(t, v, payload).Some?
    requires StartsWith(request, RequestText()) && Plain(request) && |request| + 1 < LINE_SIZE
    requires Hears(s, inputs, Line(request), v)
    requires var package := Package(t, v, payload).value;
      && Serves(Run(s, inputs), turns, package, v)
      && package != [] && Count(turns) == 4 + 3 * RangesFrom(0, |package|)
    ensures Updated(After(Run(s, inputs), turns), t, v, payload)
  {
    hide *;
    OnlineFacts(s);
    var package := Package(t, v, payload).value;
    PackageBytes(t, v, payload, 0);
    RequestTurn(s, inputs, request, t, v);
    var s0 := Run(s, inputs);
    TurnOf(s0, turns, package, v);
    SetupTurn(s0, turns.inputs, package, Response, t, v);
    var s1, turns1 := Run(s0, turns.inputs), turns.rest;
    TurnOf(s1, turns1, package, v);
    SetupTurn(s1, turns1.inputs, package, Telemetry, t, v);
    var s2, turns2 := Run(s1, turns1.inputs), turns1.rest;
    TurnOf(s2, turns2, package, v);
    SetupTurn(s2, turns2.inputs, package, ClearHeader, t, v);
    var s3, turns3 := Run(s2, turns2.inputs), turns2.rest;
    TurnOf(s3, turns3, package, v);
    SizeTurn(s3, turns3.inputs, package, t, v, payload);
    RangesServed(Run(s3, turns3.inputs), turns3.rest, package, 0, t, v, payload, {});
  }

  lemma OnlineFacts(s: System)
    requires Inv(s) && s.k.state == Online
    ensures !s.k.httpBinary && !s.k.bodyPending
  {
    hide Incoming, JustBegun, RangeOk, DownloadOk;
  }
}
