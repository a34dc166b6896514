// tm4c_uart_esp32_bridge/esp_at_controller.c: the modem controller. It brings the
// link up, asks for the package in byte ranges, and feeds the ranges to the
// splitter. Texts of commands are abstracted to what they ask for.

module Controller {
  import opened Bytes
  import opened Flash
  import opened Image
  import opened Update
  import opened CloudOta
  import opened HttpStream

  const LINE_SIZE: int := 384
  const MAX_RETRIES: int := 3
  const RETRY_DELAY_MS: u32 := 2000
  const COMMAND_TIMEOUT_MS: u32 := 5000
  const LONG_TIMEOUT_MS: u32 := 30000

  // ---- The range planner ----

  /** The length of the next range of start_range_request. */
  function Planned(offset: nat, size: nat): nat
    requires offset < size
  {
    var wanted := if offset == 0 then HEADER_SIZE else CHUNK_MAX;
    var chunk := if wanted > size - offset then size - offset else wanted;
    if offset < PAGE && chunk > PAGE - offset then PAGE - offset else chunk
  }

  predicate SizeOk(size: nat) { PAGE < size <= PACKAGE_MAX }

  /** Where ranges may begin. */
  predicate Boundary(n: nat) {
    n == 0 || n == 32 || n == 288 || n == 544 || n == 800 || (n >= PAGE && (n - PAGE) % CHUNK_MAX == 0)
  }

  /** Receiving byte n - 1 of the package may make the splitter touch the flash. */
  predicate Trigger(n: nat) { n == HEADER_SIZE || (n > PAGE && (n - PAGE) % CHUNK_MAX == 0) }

  /** A planned range stays inside the package, takes at most 256 bytes, does not
      cross the end of the header page, ends where the next one may begin, and
      no byte but its last can trigger a flash operation. */
  lemma PlanStep(offset: nat, size: nat)
    requires SizeOk(size) && offset < size && Boundary(offset)
    ensures var end := offset + Planned(offset, size);
      && offset < end <= size && end <= offset + CHUNK_MAX
      && (offset < PAGE ==> end <= PAGE)
      && (end < size ==> Boundary(end))
      && forall n :: offset < n < end ==> !Trigger(n)
  {
    var end := offset + Planned(offset, size);
    if offset >= PAGE {
      forall n | offset < n < end
        ensures !Trigger(n)
      {
        InsideChunk(offset, n);
      }
      NextChunkBoundary(offset);
    }
  }

  lemma InsideChunk(offset: nat, n: nat)
    requires offset >= PAGE && (offset - PAGE) % CHUNK_MAX == 0 && offset < n < offset + CHUNK_MAX
    ensures (n - PAGE) % CHUNK_MAX != 0
  {
    var a := offset - PAGE;
    assert a == CHUNK_MAX * (a / CHUNK_MAX);
    assert (n - PAGE) % CHUNK_MAX == n - offset;
  }

  lemma NextChunkBoundary(offset: nat)
    requires offset >= PAGE && (offset - PAGE) % CHUNK_MAX == 0
    ensures (offset + CHUNK_MAX - PAGE) % CHUNK_MAX == 0
  {
  }

  datatype Range = Range(first: nat, last: nat)

  /** The ranges, in order, cover [0, end) exactly, keeping to the planner's
      limits. */
  predicate Tiles(rs: seq<Range>, end: nat) {
    if rs == [] then end == 0
    else
      var n := |rs| - 1;
      && rs[n].first <= rs[n].last && rs[n].last + 1 == end
      && rs[n].last + 1 - rs[n].first <= CHUNK_MAX
      && (rs[n].first < PAGE ==> rs[n].last < PAGE)
      && Tiles(rs[..n], rs[n].first)
  }

  /** The text sent to the modem for a range, and the buffer it has to fit. */
  function RangeText(first: nat, last: nat): seq<u8> {
    Ascii("Range: bytes=") + Notation(first) + Ascii("-") + Notation(last)
  }

  lemma RangeTextFits(first: nat, last: nat)
    requires first <= SIZE_MAX && last <= SIZE_MAX
    ensures |RangeText(first, last)| < 48
  {
    hide Notation;
    ShortNotation(first);
    ShortNotation(last);
  }

  // ---- The controller ----

  datatype State =
    | Sync | EchoOff | SysLog | WifiMode | WifiJoin | MqttClean | MqttConfig | MqttConnect | MqttSubscribe
    | MqttAnnounce | Online | OtaClearHeader | OtaSize | OtaRangeHeader | OtaDownload | Retry

  /** What the controller transmits. */
  datatype Command =
    | Setup(state: State)
    | ClearHeader
    | GetSize
    | AskRange(range: Range)
    | RangeHeader(range: Range)
    | GetBody
    | Telemetry
    | Response

  /** esp_at_controller_t without the splitter. */
  datatype Control = Control(
    state: State, started: u32, line: seq<u8>, commandSent: bool, httpBinary: bool, sizePending: bool,
    bodyPending: bool, stage: nat, chunkComplete: bool, telemetryPending: bool, requested: bool,
    errorPending: bool, retries: nat, stream: Stream, remoteSize: nat, offset: nat, chunkSize: nat,
    version: Version, sent: seq<Command>)

  datatype System = System(k: Control, cloud: LiveCloud)

  /** What the texts outside the model decide: whether the command formatted in
      this step fits its buffer, what a request line asks for, and whether a
      response to it can be built. */
  datatype Rpc = NoRequest | GetInfo | StartOta(version: Version, urlFits: bool)

  datatype Env = Env(fits: bool, rpc: Rpc, responds: bool)

  /** esp_at_controller_init, with an engine attached. */
  function Initial(board: Board, now: u32): System {
    System(Control(Sync, now, [], false, false, false, false, 0, false, false, false, false, 0,
                   Stream(0, [], false, 0), 0, 0, 0, Version(0, 0, 0), []),
           ZeroCloud(board))
  }

  function Sent(k: Control, c: Command): Control { k.(sent := k.sent + [c]) }

  /** enter_retry: it does not touch httpBinary. */
  function EnterRetry(s: System, now: u32): System {
    System(s.k.(errorPending := s.k.errorPending || s.k.requested, state := Retry, started := now,
                commandSent := false, line := [],
                retries := if s.k.retries < MAX_RETRIES then s.k.retries + 1 else s.k.retries),
           Abort(s.cloud))
  }

  predicate AlwaysFits(state: State) {
    state.Sync? || state.EchoOff? || state.SysLog? || state.WifiMode? || state.MqttClean? || state.MqttSubscribe?
  }

  predicate HasCommand(state: State) {
    AlwaysFits(state) || state.WifiJoin? || state.MqttConfig? || state.MqttConnect? || state.MqttAnnounce?
  }

  /** send_state_command succeeds. */
  predicate CommandGoes(state: State, env: Env) { AlwaysFits(state) || (HasCommand(state) && env.fits) }

  function Timeout(state: State): u32 {
    if state == WifiJoin || state == OtaDownload then LONG_TIMEOUT_MS else COMMAND_TIMEOUT_MS
  }

  /** The second half of esp_at_controller_tick: time out, or send. */
  function Drive(s: System, now: u32, env: Env): System {
    if s.k.state != Online && s.k.commandSent && Sub32(now, s.k.started) > Timeout(s.k.state) then EnterRetry(s, now)
    else if s.k.state != Online && !s.k.commandSent then
      if CommandGoes(s.k.state, env)
      then s.(k := Sent(s.k, Setup(s.k.state)).(commandSent := true, started := now))
      else EnterRetry(s, now)
    else s
  }

  /** esp_at_controller_tick. */
  function TickAt(s: System, now: u32, env: Env): System {
    if s.k.state == Retry then
      if s.k.retries >= MAX_RETRIES || Sub32(now, s.k.started) < RETRY_DELAY_MS then s
      else Drive(s.(k := s.k.(state := Sync, commandSent := false, started := now)), now, env)
    else Drive(s, now, env)
  }

  function Successor(state: State): State {
    match state
    case Sync => EchoOff
    case EchoOff => SysLog
    case SysLog => WifiMode
    case WifiMode => WifiJoin
    case WifiJoin => MqttClean
    case MqttClean => MqttConfig
    case MqttConfig => MqttConnect
    case MqttConnect => MqttSubscribe
    case MqttSubscribe => MqttAnnounce
    case _ => state
  }

  /** advance_state. */
  function AdvanceState(s: System, now: u32, env: Env): System {
    if Successor(s.k.state) != s.k.state then
      TickAt(s.(k := s.k.(state := Successor(s.k.state), commandSent := false, started := now)), now, env)
    else if s.k.state == MqttAnnounce then
      if s.k.requested then
        s.(k := Sent(s.k, ClearHeader).(state := OtaClearHeader, commandSent := true, started := now,
                                        sizePending := false, bodyPending := false, errorPending := false))
      else s.(k := s.k.(state := Online, commandSent := false, started := now, retries := 0))
    else s
  }

  /** start_range_request. */
  function StartRange(s: System, now: u32): System
    requires s.k.offset < s.k.remoteSize
  {
    var size := Planned(s.k.offset, s.k.remoteSize);
    var range := Range(s.k.offset, s.k.offset + size - 1);
    if |RangeText(range.first, range.last)| >= 48 then EnterRetry(s, now)
    else
      s.(k := Sent(s.k, AskRange(range)).(chunkSize := size, stage := 0, chunkComplete := false,
                                          state := OtaRangeHeader, started := now, commandSent := true))
  }

  predicate ActiveVersion(s: System, v: Version) {
    var r := s.cloud.board.engine.metadata;
    (if r.active == SLOT_A then r.slotA else r.slotB).version == v
  }

  /** handle_rpc; the state changes before the response is built. */
  function HandleRpc(s: System, now: u32, env: Env): System {
    match env.rpc
    case NoRequest => s
    case GetInfo => if env.responds then s.(k := Sent(s.k, Response)) else s
    case StartOta(version, urlFits) =>
      if ActiveVersion(s, version) || !urlFits then s
      else if !env.fits then s.(k := s.k.(version := version))
      else
        var k := s.k.(version := version, state := OtaSize, started := now, commandSent := true,
                      sizePending := true, telemetryPending := true, requested := true);
        s.(k := if env.responds then Sent(k, Response) else k)
  }

  /** A size line: begin a package, and remember to ask for its body. */
  function SizeLine(s: System, text: seq<u8>, now: u32): System {
    var size := ParseSize(text);
    if size.None? then EnterRetry(s, now)
    else
      var (cloud, r) := Begin(s.cloud.board, size.value, s.k.version);
      if r != Fine then EnterRetry(s.(cloud := cloud), now)
      else System(s.k.(remoteSize := size.value, offset := 0, bodyPending := true), cloud)
  }

  /** The range is complete: ask for the next one, or finish. */
  function RangeDone(s: System, now: u32): System {
    var s1 := s.(k := s.k.(offset := s.k.offset + s.k.chunkSize));
    if s1.k.offset < s1.k.remoteSize then StartRange(s1, now) else FinishAll(s1, now)
  }

  function FinishAll(s: System, now: u32): System {
    var (cloud, r) := FinishPackage(s.cloud);
    if r == ReadyToReboot then
      System(Sent(s.k, Telemetry).(requested := false, state := Online, commandSent := false), cloud)
    else EnterRetry(s.(cloud := cloud), now)
  }

  /** OK lines before the first range of a package. */
  function OkSetup(s: System, now: u32, env: Env): System {
    var k := s.k;
    if k.state == OtaSize && k.telemetryPending then s.(k := Sent(k, Telemetry).(telemetryPending := false))
    else if k.state == OtaSize && k.sizePending then
      s.(k := Sent(k, ClearHeader).(sizePending := false, state := OtaClearHeader, started := now))
    else if k.state == OtaClearHeader then
      if env.fits then s.(k := Sent(k, GetSize).(state := OtaSize, started := now)) else EnterRetry(s, now)
    else if k.bodyPending && k.offset < k.remoteSize then // a package that has been begun is never empty
      StartRange(s.(k := k.(bodyPending := false)), now)
    else s
  }

  /** OK lines between a range request and its body. */
  function OkRange(s: System, now: u32, env: Env): System {
    var k := s.k;
    if k.stage == 0 then s.(k := k.(stage := 1))
    else if k.stage != 2 || !env.fits then EnterRetry(s, now)
    else s.(k := Sent(k, GetBody).(stream := Fresh(k.chunkSize), state := OtaDownload, started := now))
  }

  /** An OK line while a command is outstanding. */
  function OkLine(s: System, now: u32, env: Env): System {
    if s.k.state == OtaSize || s.k.state == OtaClearHeader then OkSetup(s, now, env)
    else if s.k.state == OtaRangeHeader then OkRange(s, now, env)
    else if s.k.state == OtaDownload then
      if s.k.chunkComplete then RangeDone(s, now) else s
    else AdvanceState(s, now, env)
  }

  predicate StartsWith(text: seq<u8>, prefix: seq<u8>) { |prefix| <= |text| && text[..|prefix|] == prefix }

  predicate Contains(text: seq<u8>, word: seq<u8>) {
    exists i :: 0 <= i <= |text| - |word| && text[i..][..|word|] == word
  }

  function ErrCodeText(): seq<u8> { Ascii("ERR CODE:") }

  function RequestText(): seq<u8> { Ascii("+MQTTSUBRECV:") }

  function ErrorText(): seq<u8> { Ascii("ERROR") }

  function DisconnectedText(): seq<u8> { Ascii("DISCONNECTED") }

  function OkText(): seq<u8> { Ascii("OK") }

  /** process_line. */
  function ProcessLine(s: System, text: seq<u8>, now: u32, env: Env): System {
    if StartsWith(text, ErrCodeText()) then s
    else if s.k.state == OtaSize && StartsWith(text, SizePrefix()) then SizeLine(s, text, now)
    else if StartsWith(text, RequestText()) then
      if s.k.state == Online then HandleRpc(s, now, env) else s
    else if text == ErrorText() then
      if s.k.state == MqttClean && s.k.commandSent then AdvanceState(s, now, env) else EnterRetry(s, now)
    else if s.k.state == Online && Contains(text, DisconnectedText()) then EnterRetry(s, now)
    else if text == OkText() && s.k.commandSent then OkLine(s, now, env)
    else s
  }

  /** The stream hands its piece to the splitter. */
  function FeedStream(s: System, data: seq<u8>): (System, Outcome) {
    var f := FeedData(s.k.stream, data);
    if f.piece == [] then (s.(k := s.k.(stream := f.stream)), f.outcome)
    else
      var (cloud, r) := Write(s.cloud, f.piece);
      if r == Fine then (System(s.k.(stream := f.stream), cloud), f.outcome)
      else (System(s.k.(stream := Scan(s.k.stream, data).stream), cloud), SinkError)
  }

  /** A byte of the body. */
  function BinaryByte(s: System, b: u8, now: u32): System {
    var (s1, outcome) := FeedStream(s, [b]);
    if outcome == Done then s1.(k := s1.k.(httpBinary := false, chunkComplete := true, started := now))
    else if outcome != More then EnterRetry(s1.(k := s1.k.(httpBinary := false)), now)
    else s1
  }

  /** A byte of a line. */
  function LineByte(s: System, b: u8, now: u32): System {
    if |s.k.line| + 1 >= LINE_SIZE then EnterRetry(s, now)
    else
      var s1 := s.(k := s.k.(line := s.k.line + [b]));
      if s.k.state == OtaDownload && s1.k.line == BodyPrefix() then
        var (s2, outcome) := FeedStream(s1, s1.k.line);
        var s3 := s2.(k := s2.k.(line := []));
        if outcome == More then s3.(k := s3.k.(httpBinary := true)) else EnterRetry(s3, now)
      else s1
  }

  /** The line as a C string. */
  function CString(line: seq<u8>): seq<u8> {
    if line == [] || line[0] == 0 then [] else [line[0]] + CString(line[1..])
  }

  /** The modem prompts for the text of a range. */
  function PromptByte(s: System, now: u32): System {
    if s.k.chunkSize == 0 then s // a planned range is never empty
    else
      var range := Range(s.k.offset, s.k.offset + s.k.chunkSize - 1);
      if |RangeText(range.first, range.last)| >= 48 then EnterRetry(s, now)
      else s.(k := Sent(s.k, RangeHeader(range)).(stage := 2, started := now))
  }

  /** esp_at_controller_receive. */
  function Receive(s: System, b: u8, now: u32, env: Env): System {
    if s.k.state == OtaRangeHeader && b == 0x3E && s.k.stage == 1 then PromptByte(s, now)
    else if s.k.httpBinary then BinaryByte(s, b, now)
    else if b == 0x0D then s
    else if b == 0x0A then
      if s.k.line == [] then s
      else
        var s1 := ProcessLine(s, CString(s.k.line), now, env);
        s1.(k := s1.k.(line := []))
    else LineByte(s, b, now)
  }

  predicate OtaActive(state: State) {
    state.OtaClearHeader? || state.OtaSize? || state.OtaRangeHeader? || state.OtaDownload?
  }

  /** Everything that may happen to the controller: a received byte, a tick, the
      engine's own poll (which the main loop leaves out while a download is
      active), and the request handed over by the application. */
  datatype Input =
    | ReceiveByte(byte: u8, now: u32, env: Env)
    | Tick(now: u32, env: Env)
    | PollEngine(now: u32)
    | RequestOta(version: Version, urlFits: bool)

  function React(s: System, i: Input): System {
    match i
    case ReceiveByte(b, now, env) => Receive(s, b, now, env)
    case Tick(now, env) => TickAt(s, now, env)
    case PollEngine(now) =>
      if OtaActive(s.k.state) then s
      else s.(cloud := s.cloud.(board := s.cloud.board.(engine := Poll(s.cloud.board.engine, now))))
    case RequestOta(version, urlFits) =>
      if version == Version(0, 0, 0) || ActiveVersion(s, version) || !urlFits then s
      else s.(k := s.k.(version := version, requested := true))
  }

  // ---- The code ----

  /** The controller over the splitter it owns: its fields change one after the
      other, and every call has the effect described above. */
  class EspController {
    const cloud: Splitter
    var k: Control

    constructor (cloud: Splitter, now: u32)
      ensures this.cloud == cloud
      ensures k == Initial(cloud.BoardView(), now).k
    {
      this.cloud := cloud;
      k := Control(Sync, now, [], false, false, false, false, 0, false, false, false, false, 0,
                   Stream(0, [], false, 0), 0, 0, 0, Version(0, 0, 0), []);
    }

    ghost predicate Valid()
      reads this, cloud, cloud.update, cloud.update.flash
    {
      Wellformed(cloud.View())
    }

    ghost function View(): System
      reads this, cloud, cloud.update, cloud.update.flash
      requires Valid()
    {
      System(k, cloud.View())
    }

    method Transmit(c: Command)
      modifies this
      ensures k == Sent(old(k), c)
    {
      k := k.(sent := k.sent + [c]);
    }

    method Fail(now: u32)
      requires Valid()
      modifies this, cloud, cloud.update, cloud.update.flash
      ensures Valid() && View() == EnterRetry(old(View()), now)
    {
      hide Abort;
      if k.requested {
        k := k.(errorPending := true);
      }
      AbortShape(cloud.View());
      cloud.AbortPackage();
      k := k.(state := Retry, started := now, commandSent := false, line := []);
      if k.retries < MAX_RETRIES {
        k := k.(retries := k.retries + 1);
      }
    }

    /** send_state_command. */
    method SendState(env: Env) returns (ok: bool)
      modifies this
      ensures ok == CommandGoes(old(k).state, env)
      ensures k == if ok then Sent(old(k), Setup(old(k).state)) else old(k)
    {
      if AlwaysFits(k.state) {
        Transmit(Setup(k.state));
        return true;
      }
      if !HasCommand(k.state) || !env.fits {
        return false;
      }
      Transmit(Setup(k.state));
      ok := true;
    }

    method TickNow(now: u32, env: Env)
      requires Valid()
      modifies this, cloud, cloud.update, cloud.update.flash
      ensures Valid() && View() == TickAt(old(View()), now, env)
    {
      hide Drive, Wellformed;
      if k.state == Retry {
        if k.retries >= MAX_RETRIES {
          return;
        }
        if Sub32(now, k.started) < RETRY_DELAY_MS {
          return;
        }
        k := k.(state := Sync, commandSent := false, started := now);
      }
      DriveNow(now, env);
    }

    method DriveNow(now: u32, env: Env)
      requires Valid()
      modifies this, cloud, cloud.update, cloud.update.flash
      ensures Valid() && View() == Drive(old(View()), now, env)
    {
      hide EnterRetry, CommandGoes, Timeout, Wellformed;
      if k.state != Online && k.commandSent && Sub32(now, k.started) > Timeout(k.state) {
        Fail(now);
        return;
      }
      if k.state != Online && !k.commandSent {
        var ok := SendState(env);
        if ok {
          k := k.(commandSent := true, started := now);
        } else {
          Fail(now);
        }
      }
    }

    method Advance(now: u32, env: Env)
      requires Valid()
      modifies this, cloud, cloud.update, cloud.update.flash
      ensures Valid() && View() == AdvanceState(old(View()), now, env)
    {
      hide TickAt, Wellformed;
      if Successor(k.state) != k.state {
        k := k.(state := Successor(k.state), commandSent := false, started := now);
        TickNow(now, env);
      } else if k.state == MqttAnnounce {
        if k.requested {
          k := k.(state := OtaClearHeader, commandSent := true, started := now);
          k := k.(sizePending := false, bodyPending := false, errorPending := false);
          Transmit(ClearHeader);
          return;
        }
        k := k.(state := Online, commandSent := false, started := now, retries := 0);
      }
    }

    /** start_range_request, and the retry its callers enter if it fails. */
    method AskForRange(now: u32)
      requires Valid() && k.offset < k.remoteSize
      modifies this, cloud, cloud.update, cloud.update.flash
      ensures Valid() && View() == StartRange(old(View()), now)
    {
      hide EnterRetry, Wellformed, RangeText, Planned;
      var chunk := PlanRange(k.offset, k.remoteSize);
      var range := Range(k.offset, k.offset + chunk - 1);
      if |RangeText(range.first, range.last)| >= 48 {
        Fail(now);
        return;
      }
      k := k.(chunkSize := chunk, stage := 0, chunkComplete := false);
      k := k.(state := OtaRangeHeader, started := now, commandSent := true);
      Transmit(AskRange(range));
    }

    method PlanRange(offset: nat, size: nat) returns (chunk: nat)
      requires offset < size
      ensures chunk == Planned(offset, size) && chunk > 0
    {
      var remaining := size - offset;
      chunk := if offset == 0 then HEADER_SIZE else CHUNK_MAX;
      if chunk > remaining {
        chunk := remaining;
      }
      if offset < PAGE && chunk > PAGE - offset {
        chunk := PAGE - offset;
      }
    }

    method RequestLine(now: u32, env: Env)
      requires Valid()
      modifies this
      ensures Valid() && View() == HandleRpc(old(View()), now, env)
    {
      hide Wellformed;
      match env.rpc {
        case NoRequest =>
          return;
        case GetInfo =>
        case StartOta(version, urlFits) =>
          var r := cloud.update.update.metadata;
          if (if r.active == SLOT_A then r.slotA else r.slotB).version == version {
            return;
          }
          if !urlFits {
            return;
          }
          k := k.(version := version);
          if !env.fits {
            return;
          }
          k := k.(state := OtaSize, started := now, commandSent := true);
          k := k.(sizePending := true, telemetryPending := true, requested := true);
      }
      if env.responds {
        Transmit(Response);
      }
    }

    method SizeReceived(text: seq<u8>, now: u32)
      requires Valid()
      modifies this, cloud, cloud.update, cloud.update.flash
      ensures Valid() && View() == SizeLine(old(View()), text, now)
    {
      hide EnterRetry, ParseSize;
      var size := ParseSize(text);
      if size.None? {
        Fail(now);
        return;
      }
      var result := cloud.BeginPackage(size.value, k.version);
      if result != Fine {
        Fail(now);
        return;
      }
      k := k.(remoteSize := size.value);
      k := k.(offset := 0);
      k := k.(bodyPending := true);
    }

    method RangeReceived(now: u32)
      requires Valid()
      modifies this, cloud, cloud.update, cloud.update.flash
      ensures Valid() && View() == RangeDone(old(View()), now)
    {
      hide StartRange, FinishAll, Wellformed;
      k := k.(offset := k.offset + k.chunkSize);
      if k.offset < k.remoteSize {
        AskForRange(now);
        return;
      }
      FinishNow(now);
    }

    method FinishNow(now: u32)
      requires Valid()
      modifies this, cloud, cloud.update, cloud.update.flash
      ensures Valid() && View() == FinishAll(old(View()), now)
    {
      hide EnterRetry, FinishPackage, Wellformed;
      FinishShape(cloud.View());
      var result := cloud.FinishTransfer();
      if result == ReadyToReboot {
        k := k.(requested := false, state := Online, commandSent := false);
        Transmit(Telemetry);
      } else {
        Fail(now);
      }
    }

    method OkBeforeRange(now: u32, env: Env)
      requires Valid() && (k.state == OtaSize || k.state == OtaClearHeader)
      modifies this, cloud, cloud.update, cloud.update.flash
      ensures Valid() && View() == OkSetup(old(View()), now, env)
    {
      hide EnterRetry, StartRange, Wellformed;
      if k.state == OtaSize && k.telemetryPending {
        k := Sent(k, Telemetry).(telemetryPending := false);
      } else if k.state == OtaSize && k.sizePending {
        k := Sent(k, ClearHeader).(sizePending := false, state := OtaClearHeader, started := now);
      } else if k.state == OtaClearHeader {
        if !env.fits {
          Fail(now);
          return;
        }
        k := Sent(k, GetSize).(state := OtaSize, started := now);
      } else if k.bodyPending && k.offset < k.remoteSize {
        k := k.(bodyPending := false);
        AskForRange(now);
      }
    }

    method OkInRange(now: u32, env: Env)
      requires Valid()
      modifies this, cloud, cloud.update, cloud.update.flash
      ensures Valid() && View() == OkRange(old(View()), now, env)
    {
      hide EnterRetry, Wellformed;
      if k.stage == 0 {
        k := k.(stage := 1);
        return;
      }
      if k.stage != 2 || !env.fits {
        Fail(now);
        return;
      }
      k := k.(stream := Fresh(k.chunkSize));
      k := k.(state := OtaDownload, started := now);
      Transmit(GetBody);
    }

    method OkReceived(now: u32, env: Env)
      requires Valid()
      modifies this, cloud, cloud.update, cloud.update.flash
      ensures Valid() && View() == OkLine(old(View()), now, env)
    {
      hide OkSetup, OkRange, RangeDone, AdvanceState, Wellformed;
      if k.state == OtaSize || k.state == OtaClearHeader {
        OkBeforeRange(now, env);
      } else if k.state == OtaRangeHeader {
        OkInRange(now, env);
      } else if k.state == OtaDownload {
        if k.chunkComplete {
          RangeReceived(now);
        }
      } else {
        Advance(now, env);
      }
    }

    method LineReceived(text: seq<u8>, now: u32, env: Env)
      requires Valid()
      modifies this, cloud, cloud.update, cloud.update.flash
      ensures Valid() && View() == ProcessLine(old(View()), text, now, env)
    {
      hide EnterRetry, SizeLine, HandleRpc, AdvanceState, OkLine, Contains, StartsWith, Wellformed, ErrCodeText,
        RequestText, ErrorText, DisconnectedText, OkText, SizePrefix;
      if StartsWith(text, ErrCodeText()) {
        return;
      }
      if k.state == OtaSize && StartsWith(text, SizePrefix()) {
        SizeReceived(text, now);
        return;
      }
      if StartsWith(text, RequestText()) {
        if k.state == Online {
          RequestLine(now, env);
        }
        return;
      }
      if text == ErrorText() {
        if k.state == MqttClean && k.commandSent {
          Advance(now, env);
          return;
        }
        Fail(now);
        return;
      }
      if k.state == Online && Contains(text, DisconnectedText()) {
        Fail(now);
        return;
      }
      if text == OkText() && k.commandSent {
        OkReceived(now, env);
      }
    }

    /** The body stream with cloud_data as its sink. */
    method Feed(data: seq<u8>) returns (outcome: Outcome)
      requires Valid()
      modifies this, cloud, cloud.update, cloud.update.flash
      ensures Valid() && (View(), outcome) == FeedStream(old(View()), data)
    {
      hide FeedData, Scan, Write, Wellformed;
      var f := FeedData(k.stream, data);
      if f.piece != [] {
        var result := cloud.WriteData(f.piece);
        if result != Fine {
          k := k.(stream := Scan(k.stream, data).stream);
          return SinkError;
        }
      }
      k := k.(stream := f.stream);
      outcome := f.outcome;
    }

    method BodyByte(b: u8, now: u32)
      requires Valid()
      modifies this, cloud, cloud.update, cloud.update.flash
      ensures Valid() && View() == BinaryByte(old(View()), b, now)
    {
      hide FeedStream, EnterRetry, Wellformed;
      var outcome := Feed([b]);
      if outcome == Done {
        k := k.(httpBinary := false);
        k := k.(chunkComplete := true);
        k := k.(started := now);
      } else if outcome != More {
        k := k.(httpBinary := false);
        Fail(now);
      }
    }

    method TextByte(b: u8, now: u32)
      requires Valid()
      modifies this, cloud, cloud.update, cloud.update.flash
      ensures Valid() && View() == LineByte(old(View()), b, now)
    {
      hide FeedStream, EnterRetry, Wellformed, BodyPrefix;
      if |k.line| + 1 >= LINE_SIZE {
        Fail(now);
        return;
      }
      k := k.(line := k.line + [b]);
      if k.state == OtaDownload && k.line == BodyPrefix() {
        var outcome := Feed(k.line);
        k := k.(line := []);
        if outcome == More {
          k := k.(httpBinary := true);
        } else {
          Fail(now);
        }
      }
    }

    method Prompted(now: u32)
      requires Valid()
      modifies this, cloud, cloud.update, cloud.update.flash
      ensures Valid() && View() == PromptByte(old(View()), now)
    {
      hide EnterRetry, RangeText, Wellformed;
      if k.chunkSize == 0 {
        return;
      }
      var range := Range(k.offset, k.offset + k.chunkSize - 1);
      if |RangeText(range.first, range.last)| >= 48 {
        Fail(now);
        return;
      }
      k := k.(stage := 2, started := now);
      Transmit(RangeHeader(range));
    }

    method ReceiveNow(b: u8, now: u32, env: Env)
      requires Valid()
      modifies this, cloud, cloud.update, cloud.update.flash
      ensures Valid() && View() == Receive(old(View()), b, now, env)
    {
      hide BinaryByte, LineByte, ProcessLine, PromptByte, CString, Wellformed;
      if k.state == OtaRangeHeader && b == 0x3E && k.stage == 1 {
        Prompted(now);
        return;
      }
      if k.httpBinary {
        BodyByte(b, now);
        return;
      }
      if b == 0x0D {
        return;
      }
      if b == 0x0A {
        if k.line != [] {
          LineReceived(CString(k.line), now, env);
          k := k.(line := []);
        }
        return;
      }
      TextByte(b, now);
    }
  }

  lemma AbortShape(c: LiveCloud)
    ensures Wellformed(Abort(c))
  {
  }

  lemma FinishShape(c: LiveCloud)
    ensures Wellformed(FinishPackage(c).0)
  {
  }

  // ---- The controller in numbers ----

  /** The version of the slot that is running. */
  function Running(s: System): Version {
    var r := s.cloud.board.engine.metadata;
    if r.active == 0 then r.slotA.version else r.slotB.version
  }

  /** A request line is answered in the end with a download of version v exactly
      if it is not the version of the active slot and the texts fit; an update to
      the running version changes nothing. */
  lemma RequestExact(s: System, now: u32, env: Env, v: Version, urlFits: bool)
    requires env.rpc == StartOta(v, urlFits)
    ensures var s1 := HandleRpc(s, now, env);
      && (v == Running(s) || !urlFits ==> s1 == s)
      && (v != Running(s) && urlFits && !env.fits ==> s1 == s.(k := s.k.(version := v)))
      && (v != Running(s) && urlFits && env.fits ==>
            s1 == s.(k := s.k.(version := v, state := OtaSize, started := now, commandSent := true, sizePending := true,
                               telemetryPending := true, requested := true,
                               sent := s.k.sent + if env.responds then [Response] else [])))
  {
    assert s.k.sent + [] == s.k.sent;
  }

  /** A request for information is answered if there is an answer; what is no
      request is not. */
  lemma InfoExact(s: System, now: u32, env: Env)
    ensures env.rpc == NoRequest || (env.rpc == GetInfo && !env.responds) ==> HandleRpc(s, now, env) == s
    ensures env.rpc == GetInfo && env.responds ==>
      HandleRpc(s, now, env) == s.(k := s.k.(sent := s.k.sent + [Response]))
  {
  }

  /** An update handed over by the application is taken up exactly if it names a
      version, other than the running one, whose address fits. */
  lemma HandoverExact(s: System, v: Version, urlFits: bool)
    ensures var s1 := React(s, RequestOta(v, urlFits));
      if v != Version(0, 0, 0) && v != Running(s) && urlFits
      then s1 == s.(k := s.k.(version := v, requested := true)) else s1 == s
  {
  }

  /** A tick while a command is outstanding: the controller gives up exactly after
      more than 30 s when it waits for the Wi-Fi or for a body, and after more
      than 5 s otherwise, on a clock that wraps around. */
  lemma TimeoutExact(s: System, now: u32, env: Env)
    requires s.k.commandSent && s.k.state != Online && s.k.state != Retry
    ensures var elapsed := (now - s.k.started) % 0x1_0000_0000;
      var limit := if s.k.state == WifiJoin || s.k.state == OtaDownload then 30000 else 5000;
      TickAt(s, now, env) == if elapsed > limit then EnterRetry(s, now) else s
  {
    hide EnterRetry;
  }

  /** A tick with no command outstanding: an online controller stays as it is; one
      that has failed three times stays so, and one that has failed waits for
      2 s; one in a state without a command, or with a command that does not fit
      its buffer, fails. */
  lemma UnsentExact(s: System, now: u32, env: Env)
    ensures s.k.state == Online ==> TickAt(s, now, env) == s
    ensures s.k.state == Retry && (s.k.retries >= 3 || (now - s.k.started) % 0x1_0000_0000 < 2000) ==>
      TickAt(s, now, env) == s
    ensures s.k.state != Online && s.k.state != Retry && !s.k.commandSent && !CommandGoes(s.k.state, env) ==>
      TickAt(s, now, env) == EnterRetry(s, now)
  {
    hide EnterRetry, CommandGoes;
  }

  /** Four of the ten set-up commands are made up of configured texts, and may not
      fit; the other states have no command of their own. */
  lemma CommandsExact(state: State, env: Env)
    ensures CommandGoes(state, env) <==>
      || state.Sync? || state.EchoOff? || state.SysLog? || state.WifiMode? || state.MqttClean? || state.MqttSubscribe?
      || (env.fits && (state.WifiJoin? || state.MqttConfig? || state.MqttConnect? || state.MqttAnnounce?))
  {
  }

  /** A failure is counted up to three; what was asked for is remembered, the
      line is dropped and the package is given up, and nothing else changes. */
  lemma FailureExact(s: System, now: u32)
    ensures EnterRetry(s, now) == System(
      s.k.(state := Retry, started := now, commandSent := false, line := [],
           errorPending := s.k.errorPending || s.k.requested,
           retries := if s.k.retries < 3 then s.k.retries + 1 else s.k.retries), Abort(s.cloud))
  {
    hide Abort;
  }

  /** A line holds up to 383 bytes; one more fails. In a download the line that
      reads "+HTTPCGET:" goes to the stream, and the bytes behind it are binary
      unless the stream refuses. */
  lemma LineByteExact(s: System, b: u8, now: u32)
    ensures |s.k.line| >= 383 ==> LineByte(s, b, now) == EnterRetry(s, now)
    ensures |s.k.line| < 383 && (s.k.state != OtaDownload || s.k.line + [b] != Ascii("+HTTPCGET:")) ==>
      LineByte(s, b, now) == s.(k := s.k.(line := s.k.line + [b]))
    ensures |s.k.line| < 383 && s.k.state == OtaDownload && s.k.line + [b] == Ascii("+HTTPCGET:") ==>
      LineByte(s, b, now) == Handed(s.(k := s.k.(line := s.k.line + [b])), now)
  {
    assert BodyPrefix() == Ascii("+HTTPCGET:");
    hide EnterRetry, FeedStream, BodyPrefix, Ascii;
  }

  /** The stream has been handed the line. */
  function Handed(s: System, now: u32): System {
    var (s1, outcome) := FeedStream(s, s.k.line);
    var s2 := s1.(k := s1.k.(line := []));
    if outcome == More then s2.(k := s2.k.(httpBinary := true)) else EnterRetry(s2, now)
  }

  /** A body byte: the last one ends the binary mode and completes the range; a
      refusal, by the stream or behind it, ends it too, and fails. */
  lemma BodyByteExact(s: System, b: u8, now: u32)
    ensures var (s1, outcome) := FeedStream(s, [b]);
      var ended := s1.(k := s1.k.(httpBinary := false));
      && (outcome == More ==> BinaryByte(s, b, now) == s1)
      && (outcome == Done ==> BinaryByte(s, b, now) == ended.(k := ended.k.(chunkComplete := true, started := now)))
      && (outcome == Invalid || outcome == TooLarge || outcome == SinkError ==>
            BinaryByte(s, b, now) == EnterRetry(ended, now))
  {
    hide EnterRetry, FeedStream;
  }

  /** The stream's piece goes to the splitter, whose refusal the stream reports. */
  lemma FeedExact(s: System, data: seq<u8>)
    ensures var f := FeedData(s.k.stream, data);
      var (s1, outcome), (cloud, r) := FeedStream(s, data), Write(s.cloud, f.piece);
      && (f.piece == [] ==> outcome == f.outcome && s1 == s.(k := s.k.(stream := f.stream)))
      && (f.piece != [] && r == Fine ==> outcome == f.outcome && s1 == System(s.k.(stream := f.stream), cloud))
      && (f.piece != [] && r != Fine ==>
            outcome == SinkError && s1.cloud == cloud && s1.k == s.k.(stream := s1.k.stream))
  {
    hide FeedData, Write, Scan;
  }

  predicate Begins(text: seq<u8>, word: seq<u8>) { |word| <= |text| && text[..|word|] == word }

  /** What a line means. Lines that begin with "ERR CODE:" are passed over;
      "ERROR" fails, except as the answer to the clearing of the MQTT state; an
      online controller hears requests, and fails when it is disconnected; a size
      line counts while the size is asked for, and OK while a command is
      outstanding; everything else is passed over. */
  lemma LineExact(s: System, text: seq<u8>, now: u32, env: Env)
    ensures Begins(text, Ascii("ERR CODE:")) ==> ProcessLine(s, text, now, env) == s
    ensures text == Ascii("ERROR") ==>
      ProcessLine(s, text, now, env)
      == if s.k.state == MqttClean && s.k.commandSent then AdvanceState(s, now, env) else EnterRetry(s, now)
    ensures Begins(text, Ascii("+MQTTSUBRECV:")) ==>
      ProcessLine(s, text, now, env) == if s.k.state == Online then HandleRpc(s, now, env) else s
    ensures Begins(text, Ascii("+HTTPGETSIZE:")) && s.k.state == OtaSize ==>
      ProcessLine(s, text, now, env) == SizeLine(s, text, now)
    ensures text == Ascii("OK") && s.k.state != Online ==>
      ProcessLine(s, text, now, env) == if s.k.commandSent then OkLine(s, now, env) else s
  {
    hide SizeLine, HandleRpc, AdvanceState, EnterRetry, OkLine, Contains;
    assert |ErrCodeText()| == 9 && |SizePrefix()| == 13 && |RequestText()| == 13;
    assert text != [] ==> Begins(text, [text[0]]);
    assert Ascii("ERR CODE:")[0] == 0x45 && Ascii("ERR CODE:")[3] == 0x20 && Ascii("ERROR")[3] == 0x4F;
    assert Ascii("+MQTTSUBRECV:")[1] == 0x4D && Ascii("+HTTPGETSIZE:")[1] == 0x48;
    if Begins(text, Ascii("+MQTTSUBRECV:")) { assert text[0] == Ascii("+MQTTSUBRECV:")[0] && text[1] == 0x4D; }
    if Begins(text, Ascii("+HTTPGETSIZE:")) { assert text[0] == Ascii("+HTTPGETSIZE:")[0] && text[1] == 0x48; }
  }

  /** The online controller fails when it reads of a disconnection. */
  lemma DisconnectedExact(s: System, text: seq<u8>, now: u32, env: Env)
    requires s.k.state == Online && !Begins(text, Ascii("ERR CODE:")) && !Begins(text, Ascii("+MQTTSUBRECV:"))
    requires text != Ascii("ERROR") && text != Ascii("OK")
    ensures var named := exists i :: 0 <= i <= |text| && Begins(text[i..], Ascii("DISCONNECTED"));
      ProcessLine(s, text, now, env) == if named then EnterRetry(s, now) else s
  {
    hide SizeLine, HandleRpc, AdvanceState, EnterRetry, OkLine, Ascii;
    var word := DisconnectedText();
    if i :| 0 <= i <= |text| && Begins(text[i..], word) {
      assert text[i..][..|word|] == word;
      assert Contains(text, word);
    }
  }

  /** The lines that do not count. */
  lemma OtherLineExact(s: System, text: seq<u8>, now: u32, env: Env)
    requires s.k.state != Online && !Begins(text, Ascii("+HTTPGETSIZE:"))
    requires text != Ascii("ERROR") && text != Ascii("OK")
    ensures ProcessLine(s, text, now, env) == s
  {
    hide SizeLine, HandleRpc, AdvanceState, EnterRetry, OkLine, Ascii;
  }

  /** A line ends at its first zero byte. */
  lemma {:induction false} CStringExact(line: seq<u8>)
    ensures var t := CString(line);
      && |t| <= |line| && t == line[..|t|] && 0 !in t && (|t| < |line| ==> line[|t|] == 0)
  {
    if line != [] && line[0] != 0 { CStringExact(line[1..]); }
  }

  /** A size that cannot be read, or that no package has, fails; and any other one
      is remembered, to be asked for from byte 0. */
  lemma SizeExact(s: System, v: nat, now: u32)
    requires 0 < v <= 4294967295
    ensures var s1 := SizeLine(s, Ascii("+HTTPGETSIZE:") + Notation(v), now);
      var (cloud, _) := Begin(s.cloud.board, v, s.k.version);
      if 1024 < v <= 113664 then s1 == System(s.k.(remoteSize := v, offset := 0, bodyPending := true), cloud)
      else s1 == EnterRetry(s.(cloud := cloud), now)
  {
    hide ParseSize, Notation, EnterRetry;
    SizeLineExact(v);
    BeginExact(s.cloud.board, v, s.k.version);
  }

  lemma NoSizeExact(s: System, text: seq<u8>, now: u32)
    requires ParseSize(text) == None
    ensures SizeLine(s, text, now) == EnterRetry(s, now)
  {
    hide EnterRetry, ParseSize;
  }

  /** OK in a download. Between a range request and its body two are expected,
      with the prompt in between, and any other one fails; behind a complete range
      the next one is asked for, or else the package is finished, and only a
      finished one brings the controller back online. */
  lemma OkExact(s: System, now: u32, env: Env)
    requires s.k.commandSent
    ensures s.k.state == OtaRangeHeader && s.k.stage == 0 ==> OkLine(s, now, env) == s.(k := s.k.(stage := 1))
    ensures s.k.state == OtaRangeHeader && s.k.stage == 2 && env.fits ==>
      OkLine(s, now, env) == s.(k := s.k.(stream := Stream(s.k.chunkSize, [], false, 0), state := OtaDownload,
                                          started := now, sent := s.k.sent + [GetBody]))
    ensures s.k.state == OtaRangeHeader && s.k.stage != 0 && (s.k.stage != 2 || !env.fits) ==>
      OkLine(s, now, env) == EnterRetry(s, now)
    ensures s.k.state == OtaDownload && !s.k.chunkComplete ==> OkLine(s, now, env) == s
    ensures s.k.state == OtaDownload && s.k.chunkComplete ==>
      var s1 := s.(k := s.k.(offset := s.k.offset + s.k.chunkSize));
      OkLine(s, now, env) == if s1.k.offset < s1.k.remoteSize then StartRange(s1, now) else FinishAll(s1, now)
    ensures s.k.state == OtaClearHeader && !env.fits ==> OkLine(s, now, env) == EnterRetry(s, now)
  {
    hide EnterRetry, StartRange, FinishAll, AdvanceState, RangeText, Planned;
  }

  lemma FinishedExact(s: System, now: u32)
    ensures var (cloud, r), s1 := FinishPackage(s.cloud), FinishAll(s, now);
      && (r == ReadyToReboot ==>
            s1 == System(s.k.(requested := false, state := Online, commandSent := false,
                              sent := s.k.sent + [Telemetry]), cloud))
      && (r != ReadyToReboot ==> s1 == EnterRetry(s.(cloud := cloud), now))
  {
    hide FinishPackage, EnterRetry;
  }

  /** The number at the start of a text, and how long it is. */
  function Leading(text: seq<u8>): (nat, nat) {
    var n := LeadingDigits(text);
    (Decimal(text[..n]), n)
  }

  /** The text of a range reads "Range: bytes=", its first byte, "-", its last. */
  lemma RangeTextExact(first: nat, last: nat)
    ensures var text := RangeText(first, last);
      && |text| >= 13 && text[..13] == Ascii("Range: bytes=")
      && var (a, n) := Leading(text[13..]);
         && a == first && 13 + n < |text| && text[13 + n] == 0x2D
         && var (b, m) := Leading(text[14 + n..]);
            b == last && 14 + n + m == |text|
  {
    hide Notation, Decimal, LeadingDigits;
    var text, x, y := RangeText(first, last), Notation(first), Notation(last);
    assert |Ascii("Range: bytes=")| == 13 && Ascii("-") == [0x2D];
    assert text == Ascii("Range: bytes=") + x + [0x2D] + y;
    assert text[13..] == x + ([0x2D] + y) && text[14 + |x|..] == y + [];
    DigitsThen(x, [0x2D] + y);
    DigitsThen(y, []);
    NotationValue(first);
    NotationValue(last);
    assert text[13..][..|x|] == x && y[..|y|] == y;
  }

  /** The ranges of a package: its 32 header bytes, the rest of its first KiB from
      bytes 32, 288, 544 and 800 on, and then 256 bytes at a time as far as there
      are any. */
  lemma RangesExact(size: nat, k: nat)
    requires 1024 < size && 1024 + 256 * k < size
    ensures Planned(0, size) == 32
    ensures Planned(32, size) == 256 && Planned(288, size) == 256 && Planned(544, size) == 256
    ensures Planned(800, size) == 224
    ensures Planned(1024 + 256 * k, size) == if size - 1024 - 256 * k < 256 then size - 1024 - 256 * k else 256
  {
  }

  /** Asking for a range: exactly the planned bytes from the offset on. */
  lemma AskExact(s: System, now: u32)
    requires s.k.offset < s.k.remoteSize <= 4294967295
    ensures var n := Planned(s.k.offset, s.k.remoteSize);
      && n > 0
      && StartRange(s, now)
         == s.(k := s.k.(chunkSize := n, stage := 0, chunkComplete := false, state := OtaRangeHeader, started := now,
                         commandSent := true, sent := s.k.sent + [AskRange(Range(s.k.offset, s.k.offset + n - 1))]))
  {
    var n := Planned(s.k.offset, s.k.remoteSize);
    assert 0 < n <= s.k.remoteSize - s.k.offset;
    hide EnterRetry, RangeText, Planned;
    RangeTextFits(s.k.offset, s.k.offset + n - 1);
  }

  /** The prompt, 0x3E behind the first OK, is answered with the same range. */
  lemma PromptExact(s: System, now: u32, env: Env)
    requires 0 < s.k.chunkSize && s.k.offset + s.k.chunkSize <= 4294967295
    requires s.k.state == OtaRangeHeader && s.k.stage == 1
    ensures Receive(s, 0x3E, now, env)
         == s.(k := s.k.(stage := 2, started := now,
                         sent := s.k.sent + [RangeHeader(Range(s.k.offset, s.k.offset + s.k.chunkSize - 1))]))
  {
    hide EnterRetry, RangeText, BinaryByte, LineByte, ProcessLine;
    RangeTextFits(s.k.offset, s.k.offset + s.k.chunkSize - 1);
  }

  /** Any other byte belongs to the body in binary mode, and to the line otherwise:
      CR is dropped, and LF ends a line that is not empty. */
  lemma ByteExact(s: System, b: u8, now: u32, env: Env)
    requires s.k.state != OtaRangeHeader || s.k.stage != 1 || b != 0x3E
    ensures s.k.httpBinary ==> Receive(s, b, now, env) == BinaryByte(s, b, now)
    ensures !s.k.httpBinary && (b == 13 || (b == 10 && s.k.line == [])) ==> Receive(s, b, now, env) == s
    ensures !s.k.httpBinary && b == 10 && s.k.line != [] ==>
      var s1 := ProcessLine(s, CString(s.k.line), now, env);
      Receive(s, b, now, env) == s1.(k := s1.k.(line := []))
    ensures !s.k.httpBinary && b != 13 && b != 10 ==> Receive(s, b, now, env) == LineByte(s, b, now)
  {
    hide BinaryByte, LineByte, ProcessLine, CString, PromptByte;
  }

  /** OK before the first range of a download: the response is followed by the
      telemetry, that by the cleared header, that by the question for the size, and
      that, once the package has begun, by its first range. */
  lemma OkBeforeExact(s: System, now: u32, env: Env)
    requires s.k.state == OtaSize || s.k.state == OtaClearHeader
    ensures s.k.state == OtaSize && s.k.telemetryPending ==>
      OkSetup(s, now, env) == s.(k := s.k.(telemetryPending := false, sent := s.k.sent + [Telemetry]))
    ensures s.k.state == OtaSize && !s.k.telemetryPending && s.k.sizePending ==>
      OkSetup(s, now, env)
      == s.(k := s.k.(sizePending := false, state := OtaClearHeader, started := now, sent := s.k.sent + [ClearHeader]))
    ensures s.k.state == OtaClearHeader && env.fits ==>
      OkSetup(s, now, env) == s.(k := s.k.(state := OtaSize, started := now, sent := s.k.sent + [GetSize]))
    ensures s.k.state == OtaSize && !s.k.telemetryPending && !s.k.sizePending
            && s.k.bodyPending && s.k.offset < s.k.remoteSize ==>
      OkSetup(s, now, env) == StartRange(s.(k := s.k.(bodyPending := false)), now)
    ensures s.k.state == OtaSize && !s.k.telemetryPending && !s.k.sizePending && !s.k.bodyPending ==>
      OkSetup(s, now, env) == s
  {
    hide EnterRetry, StartRange;
  }

  /** The last step of the bring-up. */
  lemma AnnouncedExact(s: System, now: u32, env: Env)
    requires s.k.state == MqttAnnounce
    ensures AdvanceState(s, now, env) ==
      if s.k.requested then
        s.(k := s.k.(state := OtaClearHeader, commandSent := true, started := now, sizePending := false,
                     bodyPending := false, errorPending := false, sent := s.k.sent + [ClearHeader]))
      else s.(k := s.k.(state := Online, commandSent := false, started := now, retries := 0))
  {
  }

  /** A poll of the engine is left out exactly during a download. */
  lemma PollLeftOut(s: System, now: u32)
    ensures s.k.state in {OtaClearHeader, OtaSize, OtaRangeHeader, OtaDownload} ==> React(s, PollEngine(now)) == s
    ensures s.k.state !in {OtaClearHeader, OtaSize, OtaRangeHeader, OtaDownload} ==>
      React(s, PollEngine(now)).cloud.board.engine == Poll(s.cloud.board.engine, now)
      && React(s, PollEngine(now)).k == s.k
  {
    hide Poll;
  }
}
