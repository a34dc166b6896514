// What every interleaving of received bytes, ticks, timeouts and retries keeps
// of a download: the ranges, the phases of a body, the quiet of the flash, and
// the end of retrying.

module Download {
  import opened Bytes
  import opened Flash
  import opened Image
  import opened Update
  import opened CloudOta
  import opened HttpStream
  import opened Pipeline
  import opened Controller

  // ---- The invariant ----

  predicate MayBeBinary(state: Controller.State) { state.OtaDownload? || state.Retry? || state.Sync? }

  /** The splitter has begun a package of the size asked for, and the range in
      hand is the planned one. */
  predicate Planning(s: System) {
    && SizeOk(s.k.remoteSize) && s.cloud.attached && s.cloud.remoteSize == s.k.remoteSize
    && s.k.offset < s.k.remoteSize && Boundary(s.k.offset)
    && s.k.chunkSize == Planned(s.k.offset, s.k.remoteSize)
  }

  /** Body bytes of the range in hand that have reached the splitter. */
  function Arrived(k: Control): int { if k.stream.bodyMode then k.chunkSize - k.stream.remaining else 0 }

  predicate StartedOk(c: Cloud) { c.started ==> |c.header| == HEADER_SIZE }

  /** After an abort the fill levels may be off, but then no DATA is stored. */
  predicate Sane(c: Cloud) {
    && StartedOk(c)
    && (Levels(c) || (|c.header| == HEADER_SIZE && c.board.engine.state != Receiving))
  }

  /** A body is on its way. */
  predicate Incoming(s: System) {
    && Planning(s) && Sane(s.cloud)
    && s.k.stream.expected == s.k.chunkSize && s.k.stream.remaining <= s.k.chunkSize
    && (s.k.stream.bodyMode ==> s.k.stream.remaining > 0)
    && s.cloud.packageReceived == s.k.offset + Arrived(s.k)
  }

  /** A package has just been begun. */
  predicate JustBegun(s: System) {
    && SizeOk(s.k.remoteSize) && s.k.offset == 0
    && s.cloud.attached && s.cloud.remoteSize == s.k.remoteSize && s.cloud.packageReceived == 0
    && s.cloud.header == [] && s.cloud.chunk == [] && !s.cloud.started
  }

  /** The ranges asked for since the last one that began at byte 0. */
  function Ranges(sent: seq<Command>): seq<Range> {
    if sent == [] then []
    else
      var n := |sent| - 1;
      if !sent[n].AskRange? then Ranges(sent[..n])
      else if sent[n].range.first == 0 then [sent[n].range]
      else Ranges(sent[..n]) + [sent[n].range]
  }

  predicate RangeOk(s: System) {
    Planning(s) && Levels(s.cloud) && StartedOk(s.cloud) && Tiles(Ranges(s.k.sent), s.k.offset + s.k.chunkSize)
  }

  predicate DownloadOk(s: System) {
    && RangeOk(s)
    && (s.k.chunkComplete ==>
          && !s.k.httpBinary && s.cloud.packageReceived == s.k.offset + s.k.chunkSize
          && s.k.stream.bodyMode && s.k.stream.remaining == 0 && s.k.stream.expected == s.k.chunkSize)
    && (!s.k.chunkComplete && !s.k.httpBinary ==>
          s.k.stream == Fresh(s.k.chunkSize) && s.cloud.packageReceived == s.k.offset)
  }

  /** The controller's run invariant. */
  predicate Inv(s: System) {
    && (s.k.commandSent ==> s.k.state != Retry && s.k.state != Online)
    && (OtaActive(s.k.state) ==> s.k.requested && s.k.commandSent)
    && (s.k.bodyPending ==> s.k.requested && s.k.state != Online)
    && (s.k.httpBinary ==> MayBeBinary(s.k.state) && !s.k.bodyPending && Incoming(s))
    && (s.k.bodyPending && (s.k.state == OtaSize || s.k.state == OtaClearHeader) ==> JustBegun(s))
    && (s.k.state == OtaRangeHeader ==>
          !s.k.bodyPending && !s.k.chunkComplete && RangeOk(s) && s.cloud.packageReceived == s.k.offset)
    && (s.k.state == OtaDownload ==> !s.k.bodyPending && DownloadOk(s))
  }

  // ---- Retries and ticks ----

  /** No flash operation between s and s'. */
  predicate Quiet(s: System, s': System) {
    s'.cloud.board.trace == s.cloud.board.trace && s'.cloud.board.mem == s.cloud.board.mem
  }

  lemma AbortMoves(c: LiveCloud)
    ensures var c' := Abort(c);
      && c'.board.mem == c.board.mem && c'.board.trace == c.board.trace
      && c'.attached == c.attached && c'.remoteSize == c.remoteSize && c'.packageReceived == c.packageReceived
      && c'.header == c.header
      && (Sane(c) ==> Sane(c'))
  {
    hide Replay, HandleStart, HandleData, HandleEnd;
    ReplayNone(c.board.mem);
    assert c.board.trace + [] == c.board.trace;
  }

  lemma RetryKeeps(s: System, now: u32)
    requires s.k.httpBinary ==> Inv(s)
    requires s.k.bodyPending ==> s.k.requested
    ensures Inv(EnterRetry(s, now))
    ensures var s' := EnterRetry(s, now);
      s'.cloud.board.trace == s.cloud.board.trace && s'.cloud.board.mem == s.cloud.board.mem && s'.k.sent == s.k.sent
  {
    hide Abort, Sane, Planned, Boundary, RangeOk, DownloadOk, JustBegun, SizeOk;
    AbortMoves(s.cloud);
  }

  lemma RetryFrom(s: System, now: u32)
    requires Inv(s)
    ensures var s' := EnterRetry(s, now);
      Inv(s') && s'.cloud.board.trace == s.cloud.board.trace && s'.cloud.board.mem == s.cloud.board.mem
      && Quiet(s, s') && s'.k.sent == s.k.sent
  {
    hide EnterRetry, Incoming, JustBegun, RangeOk, DownloadOk;
    RetryKeeps(s, now);
  }

  lemma DriveKeeps(s: System, now: u32, env: Env)
    requires Inv(s)
    ensures var s' := Drive(s, now, env);
      && Inv(s') && s'.cloud.board.trace == s.cloud.board.trace && s'.cloud.board.mem == s.cloud.board.mem
      && (s'.k.sent == s.k.sent || s'.k.sent == s.k.sent + [Setup(s.k.state)])
  {
    hide EnterRetry, Incoming, RangeOk, DownloadOk, JustBegun, Timeout;
    RetryFrom(s, now);
    SameIncoming(s, s.(k := Sent(s.k, Setup(s.k.state)).(commandSent := true, started := now)));
  }

  lemma TickKeeps(s: System, now: u32, env: Env)
    requires Inv(s)
    ensures var s' := TickAt(s, now, env);
      && Inv(s') && s'.cloud.board.trace == s.cloud.board.trace && s'.cloud.board.mem == s.cloud.board.mem
      && (s'.k.sent == s.k.sent || exists st :: s'.k.sent == s.k.sent + [Setup(st)])
  {
    hide Drive, Planning, Sane, RangeOk, DownloadOk, JustBegun, SizeOk, Incoming;
    if s.k.state == Retry {
      var s1 := s.(k := s.k.(state := Sync, commandSent := false, started := now));
      assert Incoming(s1) == Incoming(s) by { SameIncoming(s, s1); }
      DriveKeeps(s1, now, env);
    } else {
      DriveKeeps(s, now, env);
    }
  }

  lemma SameIncoming(s: System, s': System)
    requires s'.cloud == s.cloud
    requires s'.k.offset == s.k.offset && s'.k.remoteSize == s.k.remoteSize && s'.k.chunkSize == s.k.chunkSize
    requires s'.k.stream == s.k.stream
    ensures Incoming(s') == Incoming(s) && Planning(s') == Planning(s)
  {
    hide Sane, Boundary, SizeOk;
  }

  // ---- Lines ----

  lemma AdvanceKeeps(s: System, now: u32, env: Env)
    requires Inv(s) && !s.k.httpBinary && !OtaActive(s.k.state) && s.k.state != Retry
    ensures Inv(AdvanceState(s, now, env)) && Quiet(s, AdvanceState(s, now, env))
  {
    hide TickAt, Planning, Sane, RangeOk, DownloadOk, JustBegun, SizeOk, Incoming;
    if Successor(s.k.state) != s.k.state {
      TickKeeps(s.(k := s.k.(state := Successor(s.k.state), commandSent := false, started := now)), now, env);
    }
  }

  lemma RpcKeeps(s: System, now: u32, env: Env)
    requires Inv(s) && s.k.state == Online
    ensures Inv(HandleRpc(s, now, env)) && Quiet(s, HandleRpc(s, now, env))
  {
    hide ActiveVersion, Planning, Sane, RangeOk, DownloadOk, JustBegun, SizeOk, Incoming;
  }

  lemma SizeKeeps(s: System, text: seq<u8>, now: u32)
    requires Inv(s) && s.k.state == OtaSize
    ensures Inv(SizeLine(s, text, now)) && Quiet(s, SizeLine(s, text, now))
  {
    hide ParseSize, EnterRetry, Planning, Sane, RangeOk, DownloadOk, Incoming;
    RetryKeeps(s, now);
    if ParseSize(text).Some? {
      var (cloud, r) := Begin(s.cloud.board, ParseSize(text).value, s.k.version);
      RetryKeeps(s.(cloud := cloud), now);
    }
  }

  lemma PlannedIsShort(offset: nat, size: nat)
    requires SizeOk(size) && offset < size
    ensures |RangeText(offset, offset + Planned(offset, size) - 1)| < 48
  {
    hide RangeText;
    RangeTextFits(offset, offset + Planned(offset, size) - 1);
  }

  /** The request as it is made: its text always fits. */
  lemma StartRangeIs(s: System, now: u32)
    requires SizeOk(s.k.remoteSize) && s.k.offset < s.k.remoteSize
    ensures var size := Planned(s.k.offset, s.k.remoteSize);
      size > 0 &&
      StartRange(s, now) == s.(k := Sent(s.k, AskRange(Range(s.k.offset, s.k.offset + size - 1))).(
        chunkSize := size, stage := 0, chunkComplete := false, state := OtaRangeHeader, started := now,
        commandSent := true))
  {
    hide RangeText;
    PlannedIsShort(s.k.offset, s.k.remoteSize);
  }

  lemma RangeHeaderInv(s: System)
    requires s.k.state == OtaRangeHeader && s.k.requested && s.k.commandSent
    requires !s.k.httpBinary && !s.k.bodyPending && !s.k.chunkComplete
    requires RangeOk(s) && s.cloud.packageReceived == s.k.offset
    ensures Inv(s)
  {
    hide RangeOk, Incoming, JustBegun, DownloadOk;
  }

  /** A range request asks for exactly the next planned range, and the ranges
      since byte 0 still tile what has been asked for. */
  lemma StartRangeKeeps(s: System, now: u32)
    requires SizeOk(s.k.remoteSize) && s.k.offset < s.k.remoteSize && Boundary(s.k.offset)
    requires s.cloud.attached && s.cloud.remoteSize == s.k.remoteSize && s.cloud.packageReceived == s.k.offset
    requires Levels(s.cloud) && StartedOk(s.cloud) && s.k.requested && !s.k.bodyPending && !s.k.httpBinary
    requires s.k.offset == 0 || Tiles(Ranges(s.k.sent), s.k.offset)
    ensures var s' := StartRange(s, now);
      && Inv(s') && Quiet(s, s')
      && s'.k.sent == s.k.sent + [AskRange(Range(s.k.offset, s.k.offset + Planned(s.k.offset, s.k.remoteSize) - 1))]
      && s'.k.state == OtaRangeHeader && s'.k.offset == s.k.offset && s'.cloud == s.cloud
      && s'.k.retries == s.k.retries
  {
    hide RangeText, Planned, Boundary, Levels, StartedOk, Ranges, Tiles, StartRange, Inv, SizeOk;
    var size := Planned(s.k.offset, s.k.remoteSize);
    StartRangeIs(s, now);
    PlanStep(s.k.offset, s.k.remoteSize);
    MoreRanges(s.k.sent, Range(s.k.offset, s.k.offset + size - 1), s.k.offset);
    RangeHeaderInv(StartRange(s, now));
  }

  lemma MoreRanges(sent: seq<Command>, r: Range, offset: nat)
    requires r.first == offset <= r.last && r.last + 1 <= offset + CHUNK_MAX && (offset < PAGE ==> r.last < PAGE)
    requires offset == 0 || Tiles(Ranges(sent), offset)
    ensures Tiles(Ranges(sent + [AskRange(r)]), r.last + 1)
  {
    var more := sent + [AskRange(r)];
    assert more[..|more| - 1] == sent;
    if offset == 0 {
      assert Tiles([r][..0], 0);
    } else {
      assert (Ranges(sent) + [r])[..|Ranges(sent)|] == Ranges(sent);
    }
  }

  lemma SendKeeps(sent: seq<Command>, c: Command)
    requires !c.AskRange?
    ensures Ranges(sent + [c]) == Ranges(sent)
  {
    assert (sent + [c])[..|sent|] == sent;
  }

  /** Every range has been received: the next OK line finishes the package. */
  predicate Finishing(s: System) {
    s.k.state == OtaDownload && s.k.chunkComplete && s.k.offset + s.k.chunkSize >= s.k.remoteSize
  }

  lemma CompleteFacts(s: System)
    requires Inv(s) && s.k.state == OtaDownload && s.k.chunkComplete
    ensures Planning(s) && Levels(s.cloud) && StartedOk(s.cloud) && s.k.requested && !s.k.bodyPending && !s.k.httpBinary
    ensures s.cloud.packageReceived == s.k.offset + s.k.chunkSize && Tiles(Ranges(s.k.sent), s.k.offset + s.k.chunkSize)
    ensures var end := s.k.offset + s.k.chunkSize;
      SizeOk(s.k.remoteSize) && 0 < end <= s.k.remoteSize && (end < s.k.remoteSize ==> Boundary(end))
  {
    hide Boundary, Planned, Levels, Tiles, Ranges, SizeOk, Incoming, JustBegun, StartedOk;
    PlanStep(s.k.offset, s.k.remoteSize);
  }

  lemma RangeDoneKeeps(s: System, now: u32)
    requires Inv(s) && s.k.state == OtaDownload && s.k.chunkComplete
    ensures Inv(RangeDone(s, now))
    ensures var end := s.k.offset + s.k.chunkSize;
      end < s.k.remoteSize ==>
        && Quiet(s, RangeDone(s, now)) && RangeDone(s, now).k.retries == s.k.retries
        && RangeDone(s, now) == StartRange(s.(k := s.k.(offset := end)), now)
  {
    hide *;
    CompleteFacts(s);
    PlanningParts(s);
    var s1 := s.(k := s.k.(offset := s.k.offset + s.k.chunkSize));
    if s1.k.offset < s1.k.remoteSize {
      StartRangeKeeps(s1, now);
      RangeDoneStarts(s, now);
    } else {
      FinishKeeps(s1, now);
      RangeDoneFinishes(s, now);
    }
  }

  lemma PlanningParts(s: System)
    requires Planning(s)
    ensures s.cloud.attached && s.cloud.remoteSize == s.k.remoteSize
  {
    hide Boundary, Planned, SizeOk;
  }

  lemma RangeDoneStarts(s: System, now: u32)
    requires s.k.offset + s.k.chunkSize < s.k.remoteSize
    ensures var s1 := s.(k := s.k.(offset := s.k.offset + s.k.chunkSize));
      RangeDone(s, now) == StartRange(s1, now) && Quiet(s, s1)
      && (Quiet(s1, StartRange(s1, now)) ==> Quiet(s, RangeDone(s, now)))
  {
    hide StartRange;
  }

  lemma RangeDoneFinishes(s: System, now: u32)
    requires s.k.offset + s.k.chunkSize >= s.k.remoteSize
    ensures RangeDone(s, now) == FinishAll(s.(k := s.k.(offset := s.k.offset + s.k.chunkSize)), now)
  {
    hide FinishAll;
  }

  lemma FinishKeeps(s: System, now: u32)
    requires !s.k.httpBinary && !s.k.bodyPending
    ensures Inv(FinishAll(s, now))
  {
    hide FinishPackage, EnterRetry, Inv;
    var (cloud, r) := FinishPackage(s.cloud);
    RetryKeeps(s.(cloud := cloud), now);
    IdleInv(System(Sent(s.k, Telemetry).(requested := false, state := Online, commandSent := false), cloud));
  }

  /** Outside a download, without a body under way, little has to hold. */
  lemma IdleInv(s: System)
    requires !OtaActive(s.k.state) && !s.k.httpBinary && (s.k.commandSent ==> s.k.state != Retry && s.k.state != Online)
    requires s.k.bodyPending ==> s.k.requested && s.k.state != Online
    ensures Inv(s)
  {
  }

  /** OK lines before the first range. */
  lemma OkSetupKeeps(s: System, now: u32, env: Env)
    requires Inv(s) && !s.k.httpBinary && s.k.commandSent && (s.k.state == OtaSize || s.k.state == OtaClearHeader)
    ensures Inv(OkLine(s, now, env)) && Quiet(s, OkLine(s, now, env))
  {
    hide StartRange, EnterRetry, Planned, Boundary, Levels, Ranges, Tiles, Sane, SizeOk, Incoming, DownloadOk,
      RangeOk;
    RetryKeeps(s, now);
    if s.k.bodyPending {
      BegunLevels(s);
      StartRangeKeeps(s.(k := s.k.(bodyPending := false)), now);
    }
  }

  /** OK lines between a range request and its body. */
  lemma OkRangeKeeps(s: System, now: u32, env: Env)
    requires Inv(s) && s.k.commandSent && s.k.state == OtaRangeHeader
    ensures Inv(OkLine(s, now, env)) && Quiet(s, OkLine(s, now, env))
  {
    hide EnterRetry, Planned, Boundary, Levels, Ranges, Tiles, Sane, SizeOk, Incoming, JustBegun;
    RetryKeeps(s, now);
    SendKeeps(s.k.sent, GetBody);
  }

  lemma OkKeeps(s: System, now: u32, env: Env)
    requires Inv(s) && !s.k.httpBinary && s.k.commandSent
    ensures Inv(OkLine(s, now, env))
    ensures !Finishing(s) ==> Quiet(s, OkLine(s, now, env))
  {
    if s.k.state == OtaSize || s.k.state == OtaClearHeader {
      OkSetupKeeps(s, now, env);
    } else if s.k.state == OtaRangeHeader {
      OkRangeKeeps(s, now, env);
    } else if s.k.state == OtaDownload && s.k.chunkComplete {
      RangeDoneKeeps(s, now);
      hide RangeDone, Inv, StartRange;
    } else if s.k.state != OtaDownload {
      assert s.k.state != Retry;
      AdvanceKeeps(s, now, env);
      hide AdvanceState, Inv;
    }
  }

  lemma BegunLevels(s: System)
    requires Inv(s) && s.k.bodyPending && (s.k.state == OtaSize || s.k.state == OtaClearHeader)
    ensures JustBegun(s)
    ensures Levels(s.cloud) && Boundary(0) && s.k.offset < s.k.remoteSize
  {
  }

  lemma QuietSelf(s: System)
    ensures Quiet(s, s)
  {
  }

  lemma LineKeeps(s: System, text: seq<u8>, now: u32, env: Env)
    requires Inv(s) && !s.k.httpBinary
    ensures Inv(ProcessLine(s, text, now, env))
    ensures !Finishing(s) ==> Quiet(s, ProcessLine(s, text, now, env))
  {
    hide SizeLine, HandleRpc, AdvanceState, OkLine, EnterRetry, Contains, StartsWith, Inv, Quiet, Finishing,
      ErrCodeText, RequestText, ErrorText, DisconnectedText, OkText, SizePrefix;
    RetryFrom(s, now);
    if s.k.state == OtaSize { SizeKeeps(s, text, now); }
    if s.k.state == Online { RpcKeeps(s, now, env); }
    if s.k.state == MqttClean { AdvanceKeeps(s, now, env); }
    if s.k.commandSent { OkKeeps(s, now, env); }
    QuietSelf(s);
  }

  // ---- Body bytes ----

  /** One byte into a body stream: it is header text, or the next of the
      expected bytes; DONE comes with the last of them. */
  lemma StreamByte(st: Stream, b: u8)
    requires st.expected > 0 && (st.bodyMode ==> 0 < st.remaining <= st.expected)
    ensures var f := FeedData(st, [b]);
      && f.stream.expected == st.expected
      && (st.bodyMode ==>
            && f.piece == [b] && f.stream == st.(remaining := st.remaining - 1)
            && f.outcome == (if st.remaining == 1 then Done else More))
      && (!st.bodyMode ==>
            && f.piece == [] && f.outcome != Done
            && (f.outcome == More ==> f.stream.bodyMode ==> f.stream.remaining == st.expected)
            && (f.outcome == More ==> !f.stream.bodyMode ==> f.stream.remaining == st.remaining))
  {
    hide FrameAccepted;
    var s1 := st.(frame := st.frame + [b]);
    assert Scan(s1, []) == Scanned(s1, [], More);
    assert [b][1..] == [];
    if st.bodyMode {
      assert [b][..1] == [b];
    }
  }

  /** A splitter that is out of step stores nothing. */
  lemma AbortedByte(c: LiveCloud, b: u8)
    requires Expecting(c) && |c.header| == HEADER_SIZE && c.board.engine.state != Receiving
    ensures var (c1, r) := PutByte(c, b);
      && c1.board.trace == c.board.trace && c1.board.mem == c.board.mem
      && c1.board.engine.state != Receiving && c1.header == c.header && c1.started == c.started
      && c1.attached == c.attached && c1.remoteSize == c.remoteSize
      && (r == Fine ==> c1.packageReceived == c.packageReceived + 1)
  {
    hide StartFromHeader, FlushChunk;
    if |c.chunk| == CHUNK_MAX { AbortedFlush(c); }
    if |c.chunk| < CHUNK_MAX { AbortedFlush(c.(chunk := c.chunk + [b], packageReceived := c.packageReceived + 1)); }
  }

  lemma AbortedFlush(c: LiveCloud)
    requires c.board.engine.state != Receiving
    ensures var (c1, r) := FlushChunk(c);
      && c1.board.trace == c.board.trace && c1.board.mem == c.board.mem
      && c1 == c.(board := c1.board, sequence := c1.sequence) && c1.board.engine.state != Receiving
      && (r == Fine ==> c.chunk == [])
  {
    hide Replay, Duplicate, InSequence, WriteSucceeds;
    ReplayNone(c.board.mem);
    assert c.board.trace + [] == c.board.trace;
  }

  lemma StartedStays(c: LiveCloud, b: u8)
    requires Expecting(c) && StartedOk(c)
    ensures StartedOk(PutByte(c, b).0)
  {
    hide HeaderWanted, Submitted, Acknowledged;
  }

  /** A byte for the splitter keeps it sane, and touches the flash only as a
      trigger. */
  lemma SaneByte(c: LiveCloud, b: u8)
    requires Expecting(c) && Sane(c)
    ensures var (c1, r) := PutByte(c, b);
      && (r == Fine ==> Sane(c1) && c1.packageReceived == c.packageReceived + 1)
      && (r == Fine && Levels(c) ==> Levels(c1))
      && c1.attached == c.attached && c1.remoteSize == c.remoteSize
      && (c1.board.trace != c.board.trace || c1.board.mem != c.board.mem ==> Trigger(c.packageReceived + 1))
  {
    hide PutByte, Levels;
    StartedStays(c, b);
    PutByteMoves(c, b);
    if Levels(c) { QuietByte(c, b); } else { AbortedByte(c, b); }
  }

  predicate Broken(o: Outcome) { o != More && o != Done }

  lemma ScanBody(st: Stream, data: seq<u8>)
    requires st.bodyMode
    ensures Scan(st, data).stream == st
  {
  }

  /** What feeding one byte does while a body is coming in. */
  lemma FedByte(s: System, b: u8)
    requires Incoming(s)
    ensures var st := s.k.stream;
      var (s1, outcome) := FeedStream(s, [b]);
      if st.bodyMode then
        && Expecting(s.cloud)
        && var (cloud, r) := PutByte(s.cloud, b);
           if r == Fine then
             s1 == System(s.k.(stream := st.(remaining := st.remaining - 1)), cloud)
             && outcome == (if st.remaining == 1 then Done else More)
           else s1 == System(s.k, cloud) && outcome == SinkError
      else
        && s1 == s.(k := s.k.(stream := s1.k.stream)) && outcome != Done
        && s1.k.stream.expected == st.expected
        && (outcome == More ==>
              s1.k.stream.remaining == (if s1.k.stream.bodyMode then s.k.chunkSize else st.remaining))
  {
    hide FeedData, PutByte, PutAll, Sane, Planned, Boundary, Trigger, Scan;
    PlanStep(s.k.offset, s.k.remoteSize);
    StreamByte(s.k.stream, b);
    if s.k.stream.bodyMode {
      ScanBody(s.k.stream, [b]);
      PutOne(s.cloud, b);
    }
  }

  /** A body byte in whatever state it finds the controller. */
  lemma BinaryKeeps(s: System, b: u8, now: u32)
    requires Inv(s) && s.k.httpBinary
    ensures Inv(BinaryByte(s, b, now))
    ensures !Quiet(s, BinaryByte(s, b, now)) ==> s.k.stream.bodyMode && s.k.stream.remaining == 1
    ensures BinaryByte(s, b, now).k.sent == s.k.sent
  {
    FedByte(s, b);
    var (s1, outcome) := FeedStream(s, [b]);
    if outcome == SinkError || (outcome != More && outcome != Done) {
      FailedByte(s, b, now);
    } else {
      PassedByte(s, b, now);
    }
  }

  lemma FailedByte(s: System, b: u8, now: u32)
    requires Inv(s) && s.k.httpBinary && Broken(FeedStream(s, [b]).1)
    ensures Inv(BinaryByte(s, b, now)) && BinaryByte(s, b, now).k.sent == s.k.sent
    ensures !Quiet(s, BinaryByte(s, b, now)) ==> s.k.stream.bodyMode && s.k.stream.remaining == 1
  {
    hide FeedStream, EnterRetry, Incoming, Inv, Trigger, MayBeBinary, Sane;
    BodyPlace(s);
    PieceRefused(s, b);
    var s1 := FeedStream(s, [b]).0;
    var s2 := s1.(k := s1.k.(httpBinary := false));
    RetryKeeps(s2, now);
    assert BinaryByte(s, b, now) == EnterRetry(s2, now);
  }

  lemma PieceRefused(s: System, b: u8)
    requires Incoming(s) && Broken(FeedStream(s, [b]).1)
    ensures var s1 := FeedStream(s, [b]).0;
      && s1.k == s.k.(stream := s1.k.stream)
      && (!Quiet(s, s1) ==> s.k.stream.bodyMode && Trigger(s.cloud.packageReceived + 1))
  {
    hide *;
    FedCloud(s, b);
    if s.k.stream.bodyMode { SaneByte(s.cloud, b); }
    QuietTrigger(s, FeedStream(s, [b]).0);
  }

  lemma QuietTrigger(s: System, s1: System)
    ensures !Quiet(s, s1) ==> s1.cloud.board.trace != s.cloud.board.trace || s1.cloud.board.mem != s.cloud.board.mem
    ensures s1.cloud == s.cloud ==> Quiet(s, s1)
  {
  }

  lemma FedCloud(s: System, b: u8)
    requires Incoming(s)
    ensures FeedStream(s, [b]).0.k == s.k.(stream := FeedStream(s, [b]).0.k.stream)
    ensures Sane(s.cloud)
    ensures s.k.stream.bodyMode ==> Expecting(s.cloud) && FeedStream(s, [b]).0.cloud == PutByte(s.cloud, b).0
    ensures !s.k.stream.bodyMode ==> FeedStream(s, [b]).0.cloud == s.cloud
  {
    hide FeedStream, PutByte, Sane, Planning;
    FedByte(s, b);
  }

  /** Where an incoming body is: no byte but the last of the range triggers. */
  lemma BodyPlace(s: System)
    requires Inv(s) && s.k.httpBinary
    ensures Incoming(s) && Sane(s.cloud) && MayBeBinary(s.k.state) && !s.k.bodyPending
    ensures s.k.stream.bodyMode && Trigger(s.cloud.packageReceived + 1) ==> s.k.stream.remaining == 1
    ensures s.k.stream.bodyMode ==> s.k.stream.remaining > 0
  {
    hide Trigger, Sane, Boundary, Planned, RangeOk, DownloadOk, JustBegun;
    assert Incoming(s) && Planning(s);
    PlanStep(s.k.offset, s.k.remoteSize);
  }

  /** The same download, one byte further. */
  predicate Further(s: System, s1: System) {
    && s1.k == s.k.(stream := s1.k.stream)
    && s1.cloud.attached == s.cloud.attached && s1.cloud.remoteSize == s.cloud.remoteSize
    && Sane(s1.cloud) && StartedOk(s1.cloud) && (Levels(s.cloud) ==> Levels(s1.cloud))
  }

  lemma BodyInv(s: System, s1: System)
    requires Inv(s) && s.k.httpBinary && Further(s, s1) && Incoming(s1)
    ensures Inv(s1)
  {
    hide Sane, Levels, Planned, Boundary, Ranges, Tiles, JustBegun, SizeOk;
  }

  lemma DoneInv(s: System, s1: System, now: u32)
    requires Inv(s) && s.k.httpBinary && Further(s, s1)
    requires s1.cloud.packageReceived == s.k.offset + s.k.chunkSize
    requires s1.k.stream.bodyMode && s1.k.stream.remaining == 0 && s1.k.stream.expected == s.k.chunkSize
    ensures Inv(s1.(k := s1.k.(httpBinary := false, chunkComplete := true, started := now)))
  {
    hide Sane, Levels, Planned, Boundary, Ranges, Tiles, JustBegun, SizeOk, Incoming;
  }

  lemma StillIncoming(s: System, s1: System)
    requires Incoming(s) && Further(s, s1)
    requires s1.k.stream.expected == s.k.stream.expected && s1.k.stream.remaining <= s.k.chunkSize
    requires s1.k.stream.bodyMode ==> s1.k.stream.remaining > 0
    requires s1.cloud.packageReceived == s.k.offset + Arrived(s1.k)
    ensures Incoming(s1)
  {
    hide Sane, Levels, Planned, Boundary, SizeOk;
  }

  /** One more byte of the package. */
  lemma OneFurther(s: System, cloud: LiveCloud)
    requires Incoming(s) && s.k.stream.bodyMode
    requires cloud.attached == s.cloud.attached && cloud.remoteSize == s.cloud.remoteSize
    requires Sane(cloud) && (Levels(s.cloud) ==> Levels(cloud))
    requires cloud.packageReceived == s.cloud.packageReceived + 1
    ensures var s1 := System(s.k.(stream := s.k.stream.(remaining := s.k.stream.remaining - 1)), cloud);
      Further(s, s1) && s1.cloud.packageReceived == s.k.offset + Arrived(s1.k)
  {
    hide Levels, Planning;
  }

  lemma PieceTaken(s: System, b: u8)
    requires Incoming(s) && s.k.stream.bodyMode && !Broken(FeedStream(s, [b]).1)
    ensures var s1 := FeedStream(s, [b]).0;
      && Further(s, s1) && s1.k.stream == s.k.stream.(remaining := s.k.stream.remaining - 1)
      && s1.cloud.packageReceived == s.k.offset + Arrived(s1.k)
      && FeedStream(s, [b]).1 == (if s.k.stream.remaining == 1 then Done else More)
      && (!Quiet(s, s1) ==> Trigger(s.cloud.packageReceived + 1))
  {
    FedByte(s, b);
    assert Sane(s.cloud) && s.k.stream.remaining > 0;
    hide FeedStream, PutByte, Sane, Levels, Planning, Trigger, Incoming, Further, Arrived;
    SaneByte(s.cloud, b);
    var (cloud, r) := PutByte(s.cloud, b);
    assert r == Fine;
    OneFurther(s, cloud);
  }

  lemma PassedByte(s: System, b: u8, now: u32)
    requires Inv(s) && s.k.httpBinary && !Broken(FeedStream(s, [b]).1)
    ensures Inv(BinaryByte(s, b, now)) && BinaryByte(s, b, now).k.sent == s.k.sent
    ensures !Quiet(s, BinaryByte(s, b, now)) ==> s.k.stream.bodyMode && s.k.stream.remaining == 1
  {
    BodyPlace(s);
    var (s1, outcome) := FeedStream(s, [b]);
    if s.k.stream.bodyMode {
      PieceTaken(s, b);
      hide FeedStream, Further, Inv, Incoming, Trigger;
      if outcome == Done {
        DoneInv(s, s1, now);
      } else {
        StillIncoming(s, s1);
        BodyInv(s, s1);
      }
    } else {
      FedByte(s, b);
      hide FeedStream, Sane, Levels, Inv, Planning;
      assert s.cloud.packageReceived == s.k.offset && s.k.stream.remaining <= s.k.chunkSize;
      hide Incoming;
      StillIncoming(s, s1);
      BodyInv(s, s1);
    }
  }

  /** The ten bytes of the body prefix only open the frame. */
  lemma PrefixFed(s: System)
    requires s.k.stream == Fresh(s.k.chunkSize) && s.k.chunkSize > 0
    ensures FeedStream(s, BodyPrefix()) ==
      (s.(k := s.k.(stream := Stream(s.k.chunkSize, BodyPrefix(), false, 0))), More)
  {
    hide BodyPrefix, Scan;
    PlainPrefix();
    ScanPlain(s.k.stream, BodyPrefix());
    assert [] + BodyPrefix() == BodyPrefix();
  }

  /** A body prefix when the range is already complete is an error. */
  lemma LatePrefix(s: System)
    requires s.k.stream.bodyMode && s.k.stream.remaining == 0 && s.k.stream.expected > 0
    ensures FeedStream(s, BodyPrefix()) == (s, Done)
  {
    hide BodyPrefix;
    assert BodyPrefix()[..0] == [];
  }

  /** A byte outside a body. */
  lemma LineByteKeeps(s: System, b: u8, now: u32)
    requires Inv(s) && !s.k.httpBinary
    ensures Inv(LineByte(s, b, now)) && Quiet(s, LineByte(s, b, now))
    ensures LineByte(s, b, now).k.sent == s.k.sent
  {
    hide Inv, EnterRetry, BodyPrefix, FeedStream;
    var s1 := s.(k := s.k.(line := s.k.line + [b]));
    RetryFrom(s, now);
    SameBut(s, s1);
    if s.k.state == OtaDownload && s1.k.line == BodyPrefix() {
      PrefixKeeps(s1, now);
    }
  }

  lemma SameBut(s: System, s1: System)
    requires s1.cloud == s.cloud && s1.k == s.k.(line := s1.k.line)
    ensures Inv(s1) == Inv(s) && Quiet(s, s1)
  {
    hide Incoming, Planned, Boundary, Levels, Ranges, Tiles, SizeOk, StartedOk;
    SameIncoming(s, s1);
  }

  /** What a completed body prefix does in a download. */
  function PrefixByte(s: System, now: u32): System {
    var (s2, outcome) := FeedStream(s, s.k.line);
    var s3 := s2.(k := s2.k.(line := []));
    if outcome == More then s3.(k := s3.k.(httpBinary := true)) else EnterRetry(s3, now)
  }

  lemma PrefixKeeps(s: System, now: u32)
    requires Inv(s) && !s.k.httpBinary && s.k.state == OtaDownload && s.k.line == BodyPrefix()
    ensures Inv(PrefixByte(s, now)) && Quiet(s, PrefixByte(s, now)) && PrefixByte(s, now).k.sent == s.k.sent
  {
    DownloadFacts(s);
    if s.k.chunkComplete {
      LatePrefix(s);
      RetryKeeps(s.(k := s.k.(line := [])), now);
      hide FeedStream, EnterRetry, Inv, BodyPrefix, DownloadOk;
    } else {
      PrefixFed(s);
      OpenInv(s);
      hide FeedStream, EnterRetry, Inv, BodyPrefix, DownloadOk;
    }
  }

  lemma DownloadFacts(s: System)
    requires Inv(s) && s.k.state == OtaDownload
    ensures DownloadOk(s) && !s.k.bodyPending && s.k.requested && s.k.commandSent && s.k.chunkSize > 0
    ensures s.k.chunkComplete ==>
      s.k.stream.bodyMode && s.k.stream.remaining == 0 && s.k.stream.expected == s.k.chunkSize
    ensures !s.k.chunkComplete && !s.k.httpBinary ==> s.k.stream == Fresh(s.k.chunkSize)
  {
    hide Incoming, Levels, Boundary, Planned, Ranges, Tiles, SizeOk, StartedOk;
    PlanStep(s.k.offset, s.k.remoteSize);
  }

  /** The body of the range is on its way. */
  lemma OpenInv(s: System)
    requires Inv(s) && !s.k.httpBinary && s.k.state == OtaDownload && !s.k.chunkComplete
    ensures Inv(s.(k := s.k.(line := [], httpBinary := true, stream := Stream(s.k.chunkSize, BodyPrefix(), false, 0))))
  {
    hide BodyPrefix, Levels, Boundary, Planned, Ranges, Tiles, SizeOk, JustBegun;
    DownloadFacts(s);
  }

  // ---- Whole runs ----

  lemma ReceiveKeeps(s: System, b: u8, now: u32, env: Env)
    requires Inv(s)
    ensures var s' := Receive(s, b, now, env);
      Inv(s') && (!Quiet(s, s') ==> LastByte(s) || Finishing(s))
  {
    hide Inv, BinaryByte, LineByte, ProcessLine, CString, RangeText, Finishing;
    if s.k.state == OtaRangeHeader && b == 0x3E && s.k.stage == 1 {
      RangePromptKeeps(s, now, env);
    } else if s.k.httpBinary {
      BinaryKeeps(s, b, now);
    } else if b == 0x0A && s.k.line != [] {
      var s1 := ProcessLine(s, CString(s.k.line), now, env);
      LineKeeps(s, CString(s.k.line), now, env);
      SameBut(s1, s1.(k := s1.k.(line := [])));
    } else {
      LineByteKeeps(s, b, now);
    }
  }

  /** The byte about to arrive is the last outstanding one of its range. */
  predicate LastByte(s: System) { s.k.httpBinary && s.k.stream.bodyMode && s.k.stream.remaining == 1 }

  lemma RangePromptKeeps(s: System, now: u32, env: Env)
    requires Inv(s) && s.k.state == OtaRangeHeader && s.k.stage == 1
    ensures Inv(Receive(s, 0x3E, now, env)) && Quiet(s, Receive(s, 0x3E, now, env))
  {
    hide EnterRetry, Planned, Boundary, Levels, Ranges, Tiles, Sane, SizeOk, Incoming, JustBegun, RangeText, StartedOk,
      DownloadOk;
    RetryKeeps(s, now);
    var last := if s.k.chunkSize == 0 then 0 else s.k.offset + s.k.chunkSize - 1;
    SendKeeps(s.k.sent, RangeHeader(Range(s.k.offset, last)));
  }

  lemma PollKeeps(s: System, now: u32)
    requires Inv(s)
    ensures Inv(React(s, PollEngine(now))) && Quiet(s, React(s, PollEngine(now)))
  {
    hide Planned, Boundary, Ranges, Tiles, SizeOk, DownloadOk, RangeOk, JustBegun;
  }

  lemma RequestKeeps(s: System, version: Version, urlFits: bool)
    requires Inv(s)
    ensures Inv(React(s, RequestOta(version, urlFits))) && Quiet(s, React(s, RequestOta(version, urlFits)))
  {
    hide Incoming, Planned, Boundary, Levels, Ranges, Tiles, SizeOk, StartedOk, ActiveVersion;
    var s1 := s.(k := s.k.(version := version, requested := true));
    SameIncoming(s, s1);
  }

  /** Every step keeps the invariant. Flash-quiet: a step touches the flash only
      if it receives the last outstanding byte of a range, or finishes a package
      of which no byte is outstanding. */
  lemma StepKeeps(s: System, i: Input)
    requires Inv(s)
    ensures Inv(React(s, i))
    ensures !Quiet(s, React(s, i)) ==> i.ReceiveByte? && (LastByte(s) || Finishing(s))
  {
    match i
    case ReceiveByte(b, now, env) => ReceiveKeeps(s, b, now, env); hide Inv, Receive, LastByte, Finishing;
    case Tick(now, env) => TickKeeps(s, now, env); hide Inv, TickAt;
    case PollEngine(now) => PollKeeps(s, now); hide Inv, Poll;
    case RequestOta(version, urlFits) => RequestKeeps(s, version, urlFits); hide Inv, ActiveVersion;
  }

  function Run(s: System, inputs: seq<Input>): System
    decreases |inputs|
  {
    if inputs == [] then s else Run(React(s, inputs[0]), inputs[1..])
  }

  lemma {:induction false} RunKeeps(s: System, inputs: seq<Input>)
    requires Inv(s)
    ensures Inv(Run(s, inputs))
    decreases |inputs|
  {
    hide Inv, React;
    if inputs != [] {
      StepKeeps(s, inputs[0]);
      RunKeeps(React(s, inputs[0]), inputs[1..]);
    }
  }

  /** In every interleaving: binary mode is entered only in a download and
      survives only into the retry that interrupts it; while a range is being
      requested, the offset is what the splitter has received since the last
      begin, and the requests since byte 0 tile the package up to the range. */
  lemma RunInvariant(board: Board, now: u32, inputs: seq<Input>)
    ensures var s := Run(Initial(board, now), inputs);
      && (s.k.httpBinary ==> MayBeBinary(s.k.state))
      && (s.k.state == OtaRangeHeader ==>
            && s.k.offset == s.cloud.packageReceived
            && s.k.offset < s.k.remoteSize && Boundary(s.k.offset)
            && s.k.chunkSize == Planned(s.k.offset, s.k.remoteSize)
            && Tiles(Ranges(s.k.sent), s.k.offset + s.k.chunkSize))
      && (Finishing(s) ==>
            s.cloud.packageReceived == s.k.remoteSize && Tiles(Ranges(s.k.sent), s.k.remoteSize))
  {
    hide Run, Initial, Incoming, Levels, Tiles, Ranges, Planned, Boundary, JustBegun, DownloadOk;
    BootInv(board, now);
    RunKeeps(Initial(board, now), inputs);
    var s := Run(Initial(board, now), inputs);
    if Finishing(s) { CompleteFacts(s); }
  }

  lemma BootInv(board: Board, now: u32)
    ensures Inv(Initial(board, now))
  {
    IdleInv(Initial(board, now));
  }

  // ---- Transmissions and failures ----

  /** The transmissions grow by at most one command; a request for a range
      leaves the controller waiting to send exactly that range. */
  predicate Asks(k: Control, k': Control) {
    || k'.sent == k.sent
    || (k'.sent != [] && k'.sent == k.sent + [k'.sent[|k'.sent| - 1]]
        && (k'.sent[|k'.sent| - 1].AskRange? ==>
              && k'.state == OtaRangeHeader && k'.chunkSize > 0
              && k'.sent[|k'.sent| - 1].range == Range(k'.offset, k'.offset + k'.chunkSize - 1)))
  }

  /** How a step may change the retry counter: not at all, by a failure, or, once
      the link has been announced with no update requested, back to zero. */
  predicate Counted(k: Control, k': Control) {
    || (k'.retries == k.retries && (k'.state == Retry ==> k.state == Retry || k.retries >= MAX_RETRIES))
    || (k'.retries == k.retries + 1 && k'.state == Retry)
    || (k'.retries == 0 && k.state == MqttAnnounce && !k.requested && k'.state == Online)
  }

  /** A range is being requested or received. */
  predicate Fetching(state: Controller.State) { state == OtaRangeHeader || state == OtaDownload }

  /** A request for a range has just been transmitted. */
  predicate Asked(k: Control, k': Control) {
    |k'.sent| == |k.sent| + 1 && k'.sent[|k.sent|].AskRange?
  }

  /** The first range of a download is requested with the offset as the size
      line left it, and every other one behind a range that is complete. */
  predicate Enters(k: Control, k': Control) {
    && (!Fetching(k.state) && Fetching(k'.state) ==> Asked(k, k'))
    && (Asked(k, k') ==>
          if Fetching(k.state) then
            k.state == OtaDownload && k.chunkComplete && k'.offset == k.offset + k.chunkSize
          else
            k'.offset == k.offset && k.bodyPending && (k.state == OtaSize || k.state == OtaClearHeader))
  }

  predicate Moves(k: Control, k': Control) {
    && Asks(k, k') && Counted(k, k') && Enters(k, k')
    && (k.retries <= MAX_RETRIES ==> k'.retries <= MAX_RETRIES)
    && (k'.state == Retry && k.state != Retry ==> !k'.commandSent)
  }

  /** The same transmissions, counter and state. */
  predicate Alike(k: Control, k': Control) {
    k'.sent == k.sent && k'.retries == k.retries && k'.state == k.state && k'.requested == k.requested
  }

  lemma AlikeMoves(k: Control, k': Control)
    requires Alike(k, k')
    ensures Moves(k, k')
  {
  }

  /** A failure in any state like k. */
  lemma RetryMoves(k: Control, s: System, now: u32)
    requires s.k.sent == k.sent && s.k.retries == k.retries
    ensures Moves(k, EnterRetry(s, now).k) && EnterRetry(s, now).k.state == Retry
    ensures EnterRetry(s, now).k.sent == k.sent && !EnterRetry(s, now).k.commandSent
  {
    hide Abort;
  }

  /** One command more, without entering a download or failing. */
  lemma SendMoves(k: Control, k': Control, c: Command)
    requires k'.sent == k.sent + [c] && !c.AskRange? && k'.retries == k.retries && k'.state != Retry
    requires Fetching(k'.state) ==> Fetching(k.state)
    ensures Moves(k, k')
  {
  }

  lemma SameMoves(k: Control, k': Control)
    requires k'.sent == k.sent && k'.retries == k.retries && k'.state != Retry
    requires Fetching(k'.state) ==> Fetching(k.state)
    ensures Moves(k, k')
  {
  }

  lemma DriveMoves(k: Control, s: System, now: u32, env: Env)
    requires s.k.sent == k.sent && s.k.retries == k.retries && s.k.state != Retry
    requires Fetching(s.k.state) ==> Fetching(k.state)
    ensures Moves(k, Drive(s, now, env).k)
  {
    hide EnterRetry, Timeout, CommandGoes, Moves;
    SameMoves(k, s.k);
    RetryMoves(k, s, now);
    var k1 := Sent(s.k, Setup(s.k.state)).(commandSent := true, started := now);
    SendMoves(k, k1, Setup(s.k.state));
  }

  lemma TickMoves(s: System, now: u32, env: Env)
    ensures Moves(s.k, TickAt(s, now, env).k)
  {
    hide Drive, Moves;
    if s.k.state == Retry {
      AlikeMoves(s.k, s.k);
      DriveMoves(s.k, s.(k := s.k.(state := Sync, commandSent := false, started := now)), now, env);
    } else {
      DriveMoves(s.k, s, now, env);
    }
  }

  lemma AdvanceMoves(s: System, now: u32, env: Env)
    requires s.k.state != Retry
    ensures Moves(s.k, AdvanceState(s, now, env).k)
  {
    hide TickAt, Drive, Successor;
    if Successor(s.k.state) != s.k.state {
      SuccessorState(s.k.state);
      var s1 := s.(k := s.k.(state := Successor(s.k.state), commandSent := false, started := now));
      DriveMoves(s.k, s1, now, env);
      DriveTick(s1, now, env);
    }
  }

  lemma DriveTick(s: System, now: u32, env: Env)
    requires s.k.state != Retry
    ensures TickAt(s, now, env) == Drive(s, now, env)
  {
    hide Drive;
  }

  lemma SuccessorState(state: Controller.State)
    ensures Successor(state) != state ==>
      Successor(state) != Retry && Successor(state) != Online && !Fetching(Successor(state))
  {
  }

  lemma StartRangeMoves(k: Control, s: System, now: u32)
    requires s.k.offset < s.k.remoteSize && s.k.sent == k.sent && s.k.retries == k.retries
    requires
      if Fetching(k.state) then k.state == OtaDownload && k.chunkComplete && s.k.offset == k.offset + k.chunkSize
      else s.k.offset == k.offset && k.bodyPending && (k.state == OtaSize || k.state == OtaClearHeader)
    ensures Moves(k, StartRange(s, now).k)
  {
    hide EnterRetry, RangeText;
    RetryMoves(k, s, now);
  }

  lemma RangeDoneMoves(s: System, now: u32)
    requires s.k.state == OtaDownload && s.k.chunkComplete
    ensures Moves(s.k, RangeDone(s, now).k)
  {
    hide StartRange, FinishAll, Moves;
    var s1 := s.(k := s.k.(offset := s.k.offset + s.k.chunkSize));
    if s1.k.offset < s1.k.remoteSize {
      StartRangeMoves(s.k, s1, now);
    } else {
      FinishMoves(s.k, s1, now);
    }
  }

  lemma FinishMoves(k: Control, s: System, now: u32)
    requires s.k.sent == k.sent && s.k.retries == k.retries
    ensures Moves(k, FinishAll(s, now).k)
  {
    hide FinishPackage, EnterRetry, Moves;
    var (cloud, r) := FinishPackage(s.cloud);
    RetryMoves(k, s.(cloud := cloud), now);
    SendMoves(k, Sent(s.k, Telemetry).(requested := false, state := Online, commandSent := false), Telemetry);
  }

  lemma OkSizeMoves(s: System, now: u32, env: Env)
    requires s.k.state == OtaSize || s.k.state == OtaClearHeader
    ensures Moves(s.k, OkLine(s, now, env).k)
  {
    hide StartRange, EnterRetry, Moves;
    if s.k.state == OtaSize && s.k.telemetryPending {
      SendMoves(s.k, Sent(s.k, Telemetry).(telemetryPending := false), Telemetry);
    } else if s.k.state == OtaSize && s.k.sizePending {
      var k := Sent(s.k, ClearHeader).(sizePending := false, state := OtaClearHeader, started := now);
      SendMoves(s.k, k, ClearHeader);
    } else if s.k.state == OtaClearHeader {
      RetryMoves(s.k, s, now);
      SendMoves(s.k, Sent(s.k, GetSize).(state := OtaSize, started := now), GetSize);
    } else if s.k.bodyPending && s.k.offset < s.k.remoteSize {
      StartRangeMoves(s.k, s.(k := s.k.(bodyPending := false)), now);
    } else {
      AlikeMoves(s.k, s.k);
    }
  }

  lemma OkRangeMoves(s: System, now: u32, env: Env)
    requires s.k.state == OtaRangeHeader
    ensures Moves(s.k, OkLine(s, now, env).k)
  {
    hide EnterRetry, Moves;
    AlikeMoves(s.k, s.k.(stage := 1));
    RetryMoves(s.k, s, now);
    SendMoves(s.k, Sent(s.k, GetBody).(stream := Fresh(s.k.chunkSize), state := OtaDownload, started := now), GetBody);
  }

  lemma OkMoves(s: System, now: u32, env: Env)
    requires s.k.state != Retry
    ensures Moves(s.k, OkLine(s, now, env).k)
  {
    if s.k.state == OtaSize || s.k.state == OtaClearHeader {
      OkSizeMoves(s, now, env);
      hide OkLine;
    } else if s.k.state == OtaRangeHeader {
      OkRangeMoves(s, now, env);
      hide OkLine;
    } else if s.k.state == OtaDownload {
      AlikeMoves(s.k, s.k);
      if s.k.chunkComplete { RangeDoneMoves(s, now); }
      hide RangeDone, Moves;
    } else {
      AdvanceMoves(s, now, env);
      hide AdvanceState, Moves;
    }
  }

  lemma SizeMoves(s: System, text: seq<u8>, now: u32)
    ensures Moves(s.k, SizeLine(s, text, now).k)
  {
    hide ParseSize, EnterRetry, Begin, Moves;
    RetryMoves(s.k, s, now);
    if ParseSize(text).Some? {
      var (cloud, r) := Begin(s.cloud.board, ParseSize(text).value, s.k.version);
      RetryMoves(s.k, s.(cloud := cloud), now);
      AlikeMoves(s.k, s.k.(remoteSize := ParseSize(text).value, offset := 0, bodyPending := true));
    }
  }

  lemma RpcMoves(s: System, now: u32, env: Env)
    requires s.k.state == Online
    ensures Moves(s.k, HandleRpc(s, now, env).k)
  {
    hide ActiveVersion, Moves;
    AlikeMoves(s.k, s.k);
    SendMoves(s.k, Sent(s.k, Response), Response);
    if env.rpc.StartOta? {
      var k := s.k.(version := env.rpc.version, state := OtaSize, started := now, commandSent := true,
                    sizePending := true, telemetryPending := true, requested := true);
      AlikeMoves(s.k, s.k.(version := env.rpc.version));
      SameMoves(s.k, k);
      SendMoves(s.k, Sent(k, Response), Response);
    }
  }

  lemma LineMoves(s: System, text: seq<u8>, now: u32, env: Env)
    requires s.k.commandSent ==> s.k.state != Retry
    ensures Moves(s.k, ProcessLine(s, text, now, env).k)
  {
    hide AdvanceState, OkLine, EnterRetry, SizeLine, HandleRpc, Contains, StartsWith, Moves, ErrCodeText,
      RequestText, ErrorText, DisconnectedText, OkText, SizePrefix;
    AlikeMoves(s.k, s.k);
    RetryMoves(s.k, s, now);
    SizeMoves(s, text, now);
    if s.k.state == Online { RpcMoves(s, now, env); }
    if s.k.state != Retry { AdvanceMoves(s, now, env); }
    if s.k.commandSent { OkMoves(s, now, env); }
  }

  lemma FeedMoves(s: System, data: seq<u8>)
    ensures FeedStream(s, data).0.k == s.k.(stream := FeedStream(s, data).0.k.stream)
  {
    hide FeedData, Write, Scan, Wellformed, Begin, PutAll, Abort;
    var f := FeedData(s.k.stream, data);
    var k := FeedStream(s, data).0.k;
    if f.piece == [] {
      assert k == s.k.(stream := f.stream);
    } else if Write(s.cloud, f.piece).1 == Fine {
      assert k == s.k.(stream := f.stream);
    } else {
      assert k == s.k.(stream := Scan(s.k.stream, data).stream);
    }
  }

  lemma BinaryMoves(s: System, b: u8, now: u32)
    ensures Moves(s.k, BinaryByte(s, b, now).k)
  {
    hide FeedStream, EnterRetry, Moves;
    FeedMoves(s, [b]);
    var (s1, outcome) := FeedStream(s, [b]);
    AlikeMoves(s.k, s1.k);
    AlikeMoves(s.k, s1.k.(httpBinary := false, chunkComplete := true, started := now));
    RetryMoves(s.k, s1.(k := s1.k.(httpBinary := false)), now);
  }

  lemma LineByteMoves(s: System, b: u8, now: u32)
    ensures Moves(s.k, LineByte(s, b, now).k)
  {
    hide FeedStream, EnterRetry, Moves, BodyPrefix;
    RetryMoves(s.k, s, now);
    var s1 := s.(k := s.k.(line := s.k.line + [b]));
    FeedMoves(s1, s1.k.line);
    var s3 := FeedStream(s1, s1.k.line).0;
    AlikeMoves(s.k, s1.k);
    AlikeMoves(s.k, s3.k.(line := []).(httpBinary := true));
    RetryMoves(s.k, s3.(k := s3.k.(line := [])), now);
  }

  lemma ReceiveMoves(s: System, b: u8, now: u32, env: Env)
    requires s.k.commandSent ==> s.k.state != Retry
    ensures Moves(s.k, Receive(s, b, now, env).k)
  {
    hide BinaryByte, LineByte, ProcessLine, EnterRetry, CString, RangeText, Moves;
    AlikeMoves(s.k, s.k);
    if s.k.state == OtaRangeHeader && b == 0x3E && s.k.stage == 1 {
      PromptByteMoves(s, now, env);
    } else if s.k.httpBinary {
      BinaryMoves(s, b, now);
    } else if b == 0x0A {
      var s1 := ProcessLine(s, CString(s.k.line), now, env);
      LineMoves(s, CString(s.k.line), now, env);
      LineEnds(s.k, s1.k);
    } else {
      LineByteMoves(s, b, now);
    }
  }

  lemma PromptByteMoves(s: System, now: u32, env: Env)
    requires s.k.state == OtaRangeHeader && s.k.stage == 1
    ensures Moves(s.k, Receive(s, 0x3E, now, env).k)
  {
    hide BinaryByte, LineByte, ProcessLine, EnterRetry, CString, RangeText, Moves;
    AlikeMoves(s.k, s.k);
    RetryMoves(s.k, s, now);
    if s.k.chunkSize > 0 { PromptMoves(s.k, Range(s.k.offset, s.k.offset + s.k.chunkSize - 1), now); }
  }

  lemma LineEnds(k: Control, k': Control)
    requires Moves(k, k')
    ensures Moves(k, k'.(line := []))
  {
  }

  lemma PromptMoves(k: Control, range: Range, now: u32)
    ensures k.state == OtaRangeHeader ==> Moves(k, Sent(k, RangeHeader(range)).(stage := 2, started := now))
  {
    if k.state == OtaRangeHeader {
      SendMoves(k, Sent(k, RangeHeader(range)).(stage := 2, started := now), RangeHeader(range));
    }
  }

  lemma StepMoves(s: System, i: Input)
    requires s.k.commandSent ==> s.k.state != Retry
    ensures Moves(s.k, React(s, i).k)
  {
    AlikeMoves(s.k, s.k);
    match i
    case ReceiveByte(b, now, env) => ReceiveMoves(s, b, now, env); hide Receive, Moves;
    case Tick(now, env) => TickMoves(s, now, env); hide TickAt, Moves;
    case PollEngine(now) => hide Poll, Moves;
    case RequestOta(version, urlFits) => hide ActiveVersion;
  }

  /** Every range request, in every interleaving, asks for the planned range at
      the number of bytes received since the last begin. */
  lemma RangeRequests(s: System, i: Input)
    requires Inv(s)
    ensures Inv(React(s, i)) && Asks(s.k, React(s, i).k)
    ensures var s' := React(s, i);
      s'.k.state == OtaRangeHeader ==>
        && s'.k.offset == s'.cloud.packageReceived && s'.k.offset < s'.k.remoteSize
        && s'.k.chunkSize == Planned(s'.k.offset, s'.k.remoteSize)
  {
    StepKeeps(s, i);
    StepMoves(s, i);
    hide Inv, React;
    if React(s, i).k.state == OtaRangeHeader { RequestPlace(React(s, i)); }
  }

  lemma RequestPlace(s: System)
    requires Inv(s) && s.k.state == OtaRangeHeader
    ensures s.k.offset == s.cloud.packageReceived && s.k.offset < s.k.remoteSize
    ensures s.k.chunkSize == Planned(s.k.offset, s.k.remoteSize) && Boundary(s.k.offset)
    ensures Tiles(Ranges(s.k.sent), s.k.offset + s.k.chunkSize)
  {
    hide Incoming, Levels, Tiles, Ranges, Boundary, JustBegun, DownloadOk, Planned, SizeOk;
  }

  // ---- Restarts ----

  /** What is asked for first begins at byte 0. */
  predicate FromZero(sent: seq<Command>) {
    forall i :: 0 <= i < |sent| && sent[i].AskRange? && NoRange(sent[..i]) ==> sent[i].range.first == 0
  }

  predicate NoRange(sent: seq<Command>) { forall i :: 0 <= i < |sent| ==> !sent[i].AskRange? }

  /** A range request that does not continue a download asks from byte 0; one
      that does asks for the bytes behind the range just received. */
  lemma RequestOrigin(s: System, i: Input)
    requires Inv(s)
    ensures var s' := React(s, i);
      && (Fetching(s'.k.state) && !Fetching(s.k.state) ==> Asked(s.k, s'.k))
      && (Asked(s.k, s'.k) ==>
            var first := s'.k.sent[|s.k.sent|].range.first;
            if Fetching(s.k.state) then
              s.k.state == OtaDownload && s.k.chunkComplete && first == s.k.offset + s.k.chunkSize
            else first == 0)
      && (s'.k.sent == s.k.sent || (|s'.k.sent| == |s.k.sent| + 1 && s'.k.sent[..|s.k.sent|] == s.k.sent))
  {
    StepMoves(s, i);
    hide React;
    var s' := React(s, i);
    hide RangeOk, DownloadOk, Incoming, Counted;
  }

  /** Since the transmissions `before`, ranges have been asked for from byte 0
      on, and a download in progress has been asked for. */
  predicate Afresh(k: Control, before: nat) {
    && before <= |k.sent|
    && FromZero(k.sent[before..])
    && (Fetching(k.state) ==> !NoRange(k.sent[before..]))
  }

  lemma AfreshStep(k: Control, k': Control, before: nat)
    requires Afresh(k, before)
    requires Fetching(k'.state) && !Fetching(k.state) ==> Asked(k, k')
    requires Asked(k, k') && !Fetching(k.state) ==> k'.sent[|k.sent|].range.first == 0
    requires k'.sent == k.sent || (|k'.sent| == |k.sent| + 1 && k'.sent[..|k.sent|] == k.sent)
    ensures Afresh(k', before)
  {
    hide Fetching, FromZero, NoRange;
    if k'.sent != k.sent {
      var c := k'.sent[|k.sent|];
      assert k'.sent[before..] == k.sent[before..] + [c];
      FromZeroMore(k.sent[before..], c);
    }
  }

  lemma FromZeroMore(sent: seq<Command>, c: Command)
    requires FromZero(sent) && (c.AskRange? && NoRange(sent) ==> c.range.first == 0)
    ensures FromZero(sent + [c])
    ensures NoRange(sent + [c]) <==> NoRange(sent) && !c.AskRange?
  {
    var more := sent + [c];
    assert more[..|sent|] == sent && more[|sent|] == c;
    forall i | 0 <= i < |more| && more[i].AskRange? && NoRange(more[..i])
      ensures more[i].range.first == 0
    {
      if i < |sent| { assert more[..i] == sent[..i]; }
    }
  }

  lemma {:induction false} AfreshRun(s: System, inputs: seq<Input>, before: nat)
    requires Inv(s) && Afresh(s.k, before)
    ensures Afresh(Run(s, inputs).k, before)
    decreases |inputs|
  {
    hide Inv, React, Afresh;
    if inputs != [] {
      StepKeeps(s, inputs[0]);
      RequestOrigin(s, inputs[0]);
      AfreshStep(s.k, React(s, inputs[0]).k, before);
      AfreshRun(React(s, inputs[0]), inputs[1..], before);
    }
  }

  /** Over any run from a state in which no range is being requested or
      received, a retry for instance, the first range asked for begins at byte
      0, whatever had been received before. */
  lemma RestartsFromZero(s: System, inputs: seq<Input>)
    requires Inv(s) && !Fetching(s.k.state)
    ensures var s' := Run(s, inputs);
      && |s.k.sent| <= |s'.k.sent|
      && FromZero(s'.k.sent[|s.k.sent|..])
      && (Fetching(s'.k.state) ==> !NoRange(s'.k.sent[|s.k.sent|..]))
  {
    hide Inv, Run;
    AfreshRun(s, inputs, |s.k.sent|);
  }

  // ---- The end of retrying ----

  /** Retries are exhausted. */
  predicate Stuck(k: Control) { k.state == Retry && k.retries == MAX_RETRIES && !k.commandSent }

  /** Still stuck, and nothing transmitted. */
  predicate StillStuck(k: Control, k': Control) { Stuck(k') && k'.sent == k.sent }

  lemma StuckRetry(k: Control, s: System, now: u32)
    requires Stuck(k) && s.k.retries == k.retries && s.k.sent == k.sent
    ensures StillStuck(k, EnterRetry(s, now).k)
  {
    hide Abort;
  }

  lemma StuckBinary(s: System, b: u8, now: u32)
    requires Stuck(s.k)
    ensures StillStuck(s.k, BinaryByte(s, b, now).k)
  {
    hide FeedStream, EnterRetry;
    FeedMoves(s, [b]);
    var s1 := FeedStream(s, [b]).0;
    StuckRetry(s.k, s1.(k := s1.k.(httpBinary := false)), now);
  }

  lemma StuckLine(s: System, text: seq<u8>, now: u32, env: Env)
    requires Stuck(s.k)
    ensures StillStuck(s.k, ProcessLine(s, text, now, env).k)
  {
    hide AdvanceState, OkLine, EnterRetry, SizeLine, HandleRpc, Contains, StartsWith,
      ErrCodeText, RequestText, ErrorText, DisconnectedText, OkText, SizePrefix;
    StuckRetry(s.k, s, now);
  }

  lemma StuckLineByte(s: System, b: u8, now: u32)
    requires Stuck(s.k)
    ensures StillStuck(s.k, LineByte(s, b, now).k)
  {
    hide FeedStream, EnterRetry, BodyPrefix;
    StuckRetry(s.k, s, now);
  }

  /** No byte, tick, poll or request leaves the exhausted state or transmits
      anything. */
  lemma StuckStays(s: System, i: Input)
    requires Stuck(s.k)
    ensures StillStuck(s.k, React(s, i).k)
  {
    hide BinaryByte, LineByte, ProcessLine, CString, ActiveVersion, Poll, Drive, RangeText;
    match i
    case ReceiveByte(b, now, env) =>
      StuckBinary(s, b, now);
      StuckLineByte(s, b, now);
      StuckLine(s, CString(s.k.line), now, env);
    case Tick(now, env) =>
    case PollEngine(now) =>
    case RequestOta(version, urlFits) =>
  }

  lemma {:induction false} StuckForever(s: System, inputs: seq<Input>)
    requires Stuck(s.k)
    ensures StillStuck(s.k, Run(s, inputs).k)
    decreases |inputs|
  {
    hide React;
    if inputs != [] {
      StuckStays(s, inputs[0]);
      StuckForever(React(s, inputs[0]), inputs[1..]);
    }
  }

  /** Where the counter starts again: the link is announced, and no update is
      requested. */
  predicate Resets(s: System, i: Input) {
    s.k.state == MqttAnnounce && !s.k.requested && React(s, i).k.state == Online
  }

  /** The number of failures in a run. */
  function Failures(s: System, inputs: seq<Input>): nat
    decreases |inputs|
  {
    if inputs == [] then 0
    else
      (if React(s, inputs[0]).k.retries > s.k.retries then 1 else 0) + Failures(React(s, inputs[0]), inputs[1..])
  }

  predicate NoReset(s: System, inputs: seq<Input>)
    decreases |inputs|
  {
    inputs == [] || (!Resets(s, inputs[0]) && NoReset(React(s, inputs[0]), inputs[1..]))
  }

  /** The counter and the exhausted state belong together. */
  predicate CounterOk(k: Control) {
    k.retries <= MAX_RETRIES && (k.retries == MAX_RETRIES ==> Stuck(k))
  }

  lemma CounterStep(s: System, i: Input)
    requires Inv(s) && CounterOk(s.k)
    ensures Inv(React(s, i)) && CounterOk(React(s, i).k)
    ensures !Resets(s, i) ==> s.k.retries <= React(s, i).k.retries <= s.k.retries + 1
    ensures React(s, i).k.state == Retry && s.k.state != Retry ==> React(s, i).k.retries == s.k.retries + 1
    ensures s.k.requested ==> s.k.retries <= React(s, i).k.retries
  {
    hide React, Incoming, JustBegun, RangeOk, DownloadOk;
    StepKeeps(s, i);
    StepMoves(s, i);
    if Stuck(s.k) { StuckStays(s, i); }
  }

  /** Between two resets of the counter every failure counts, so there are at
      most three of them, and then the controller is stuck for good. While an
      update is requested there is no reset. */
  lemma {:induction false} FiniteRetries(s: System, inputs: seq<Input>)
    requires Inv(s) && CounterOk(s.k) && NoReset(s, inputs)
    ensures var k' := Run(s, inputs).k;
      && k'.retries == s.k.retries + Failures(s, inputs) && CounterOk(k')
      && (s.k.retries + Failures(s, inputs) == MAX_RETRIES ==> Stuck(k'))
    decreases |inputs|
  {
    hide Inv, React, Resets, Stuck;
    if inputs != [] {
      CounterStep(s, inputs[0]);
      FiniteRetries(React(s, inputs[0]), inputs[1..]);
    }
  }
}
