// tm4c_uart_esp32_bridge/cloud_ota.c: a package arriving in arbitrary pieces is
// split into a START header, 256-byte DATA chunks and END for the update engine.

module CloudOta {
  import opened Bytes
  import opened Flash
  import opened Image
  import opened Metadata
  import opened Update

  const PACKAGE_MAX: int := PAGE + PAYLOAD_MAX

  datatype Result = Fine | ReadyToReboot | SizeRefused | HeaderRefused | EngineRefused | Truncated

  /** The engine and the flash it drives, with the steps performed so far. */
  datatype Board = Board(engine: Engine, mem: Memory, trace: seq<Step>)

  /** cloud_ota_t: the received part of the header and the pending chunk stand
      for the buffers with their fill levels; attached says that the engine
      pointer is set. */
  datatype Cloud = Cloud(
    attached: bool, remoteSize: nat, packageReceived: nat, header: seq<u8>, chunk: seq<u8>,
    sequence: u16, started: bool, expected: Version, board: Board)

  predicate Wellformed(c: Cloud) {
    |c.header| <= HEADER_SIZE && |c.chunk| <= CHUNK_MAX && c.packageReceived <= c.remoteSize
  }

  /** memset(0), on a board that has done nothing. */
  function ZeroCloud(board: Board): (c: Cloud)
    ensures Wellformed(c)
  {
    Cloud(false, 0, 0, [], [], 0, false, Version(0, 0, 0), board)
  }

  function ZeroBoard(): Board {
    var slot := SlotRecord(EMPTY, ZERO3, Version(0, 0, 0), 0, 0, 0, 0);
    Board(Init(Record(0, 0, 0, 0, slot, slot, 0, 0, 0, 0, ZERO12), 0), seq(FLASH_END, i => 0xFF), [])
  }

  type LiveCloud = c: Cloud | Wellformed(c) witness ZeroCloud(ZeroBoard())

  function Submitted(b: Board, q: Request): Board {
    var f := Handle(b.engine, b.mem, q);
    Board(f.engine, Replay(b.mem, f.steps), b.trace + f.steps)
  }

  predicate Acknowledged(b: Board, q: Request) { Handle(b.engine, b.mem, q).reply.Ack? }

  /** submit: every request takes the next sequence number. */
  function Submit(c: Cloud, command: u8, payload: Payload): (Cloud, bool) {
    var q := Request(command, c.sequence, payload);
    (c.(sequence := Succ16(c.sequence), board := Submitted(c.board, q)), Acknowledged(c.board, q))
  }

  /** The checks of start_from_header; the sum is formed in 32 bits. */
  predicate HeaderWanted(c: Cloud)
    requires |c.header| == HEADER_SIZE
  {
    && VersionOf(c.header) == c.expected
    && Add32(PayloadSize(c.header), PAGE) == c.remoteSize
    && HeaderOk(c.header, Target(c.header))
  }

  function StartFromHeader(c: LiveCloud): (LiveCloud, Result)
    requires |c.header| == HEADER_SIZE
  {
    if !HeaderWanted(c) then (c, HeaderRefused)
    else
      var (c1, ok) := Submit(c, START_UPDATE, c.header);
      if ok then (c1.(started := true), Fine) else (c1, EngineRefused)
  }

  function FlushChunk(c: LiveCloud): (LiveCloud, Result) {
    if c.chunk == [] then (c, Fine)
    else
      var (c1, ok) := Submit(c, DATA, c.chunk);
      if ok then (c1.(chunk := []), Fine) else (c1, EngineRefused)
  }

  /** cloud_ota_begin. */
  function Begin(board: Board, size: nat, expected: Version): (LiveCloud, Result) {
    var cleared := ZeroCloud(board);
    if size <= PAGE || size > PACKAGE_MAX then (cleared, SizeRefused)
    else (cleared.(attached := true, remoteSize := size, expected := expected), Fine)
  }

  predicate Expecting(c: Cloud) { c.packageReceived < c.remoteSize }

  /** One byte more in the pending chunk, which is flushed once it is full. */
  function Collect(c: LiveCloud, b: u8): (LiveCloud, Result)
    requires Expecting(c) && |c.chunk| < CHUNK_MAX
  {
    var c1 := c.(chunk := c.chunk + [b], packageReceived := c.packageReceived + 1);
    if |c1.chunk| == CHUNK_MAX then FlushChunk(c1) else (c1, Fine)
  }

  /** What one byte of the package does: header, padding of the header page, or
      payload. A chunk still full after a refused flush is flushed first. */
  function PutByte(c: LiveCloud, b: u8): (LiveCloud, Result)
    requires Expecting(c)
  {
    if |c.header| < HEADER_SIZE then
      var c1 := c.(header := c.header + [b], packageReceived := c.packageReceived + 1);
      if |c1.header| == HEADER_SIZE then StartFromHeader(c1) else (c1, Fine)
    else if c.packageReceived < PAGE then (c.(packageReceived := c.packageReceived + 1), Fine)
    else if |c.chunk| == CHUNK_MAX then
      var (c1, r) := FlushChunk(c);
      if r == Fine then Collect(c1, b) else (c1, r)
    else Collect(c, b)
  }

  predicate Room(c: Cloud, n: nat) { c.packageReceived + n <= c.remoteSize }

  lemma PutByteMoves(c: LiveCloud, b: u8)
    requires Expecting(c)
    ensures var (c1, r) := PutByte(c, b);
      && c1.remoteSize == c.remoteSize && c1.attached == c.attached
      && (r == Fine ==> c1.packageReceived == c.packageReceived + 1)
  {
    hide HeaderWanted, Submitted, Acknowledged;
  }

  /** The bytes of a write one after the other, up to the first refusal. */
  function PutAll(c: LiveCloud, data: seq<u8>): (r: (LiveCloud, Result))
    requires Room(c, |data|)
    ensures r.0.remoteSize == c.remoteSize && r.0.attached == c.attached
    ensures r.1 == Fine ==> r.0.packageReceived == c.packageReceived + |data|
  {
    if data == [] then (c, Fine)
    else
      var n := |data| - 1;
      var (c1, r1) := PutAll(c, data[..n]);
      if r1 != Fine then (c1, r1)
      else
        PutByteMoves(c1, data[n]);
        PutByte(c1, data[n])
  }

  /** cloud_ota_write. */
  function Write(c: LiveCloud, data: seq<u8>): (LiveCloud, Result) {
    if !c.attached || !Room(c, |data|) then (c, SizeRefused) else PutAll(c, data)
  }

  /** cloud_ota_finish. */
  function FinishPackage(c: LiveCloud): (LiveCloud, Result) {
    if !c.attached || !c.started || c.packageReceived != c.remoteSize then (c, Truncated)
    else
      var (c1, r) := FlushChunk(c);
      if r != Fine then (c1, EngineRefused)
      else
        var (c2, ok) := Submit(c1, END_UPDATE, []);
        (c2, if ok then ReadyToReboot else EngineRefused)
  }

  /** cloud_ota_abort. */
  function Abort(c: LiveCloud): LiveCloud {
    if c.attached && c.started && c.board.engine.state == Receiving then
      Submit(c, ABORT, []).0.(started := false, chunk := [])
    else c
  }

  // ---- Pieces ----

  lemma {:induction false} PutConcat(c: LiveCloud, a: seq<u8>, b: seq<u8>)
    requires Room(c, |a| + |b|)
    ensures var r := PutAll(c, a);
      PutAll(c, a + b) == if r.1 == Fine then PutAll(r.0, b) else r
  {
    hide PutByte;
    if b == [] {
      assert a + b == a;
    } else {
      var n := |b| - 1;
      PutConcat(c, a, b[..n]);
      assert (a + b)[..|a + b| - 1] == a + b[..n];
    }
  }

  lemma PutNext(c: LiveCloud, data: seq<u8>, k: nat)
    requires k < |data| && Room(c, k + 1) && PutAll(c, data[..k]).1 == Fine
    ensures var c1 := PutAll(c, data[..k]).0;
      Expecting(c1) && PutAll(c, data[..k + 1]) == PutByte(c1, data[k])
  {
    hide PutByte;
    assert data[..k + 1][..k] == data[..k];
  }

  lemma FlushIs(c: LiveCloud, q: Request)
    requires c.chunk != [] && q == Request(DATA, c.sequence, c.chunk) && Acknowledged(c.board, q)
    ensures FlushChunk(c) == (c.(chunk := [], sequence := Succ16(c.sequence), board := Submitted(c.board, q)), Fine)
  {
    hide Submitted, Acknowledged;
  }

  lemma StartIs(c: LiveCloud, q: Request)
    requires |c.header| == HEADER_SIZE && HeaderWanted(c)
    requires q == Request(START_UPDATE, c.sequence, c.header) && Acknowledged(c.board, q)
    ensures StartFromHeader(c)
      == (c.(started := true, sequence := Succ16(c.sequence), board := Submitted(c.board, q)), Fine)
  {
    hide Submitted, Acknowledged, HeaderWanted;
  }

  lemma PutOne(c: LiveCloud, b: u8)
    requires Expecting(c)
    ensures Room(c, 1) && PutAll(c, [b]) == PutByte(c, b)
  {
    hide PutByte;
    assert [b][..0] == [];
  }

  lemma PutFirst(c: LiveCloud, data: seq<u8>)
    requires data != [] && Room(c, |data|)
    ensures Expecting(c)
    ensures var r := PutByte(c, data[0]);
      && (r.1 == Fine ==> Room(r.0, |data| - 1))
      && PutAll(c, data) == if r.1 == Fine then PutAll(r.0, data[1..]) else r
  {
    hide PutByte, PutAll;
    PutByteMoves(c, data[0]);
    PutOne(c, data[0]);
    PutConcat(c, [data[0]], data[1..]);
    assert [data[0]] + data[1..] == data;
  }

  /** The three kinds of block that the loop of cloud_ota_write copies. */
  lemma {:induction false} HeaderBlock(c: LiveCloud, d: seq<u8>)
    requires d != [] && Room(c, |d|) && |c.header| + |d| <= HEADER_SIZE
    ensures var c1 := c.(header := c.header + d, packageReceived := c.packageReceived + |d|);
      PutAll(c, d) == if |c1.header| == HEADER_SIZE then StartFromHeader(c1) else (c1, Fine)
  {
    hide StartFromHeader, HeaderWanted, Submit, Collect, FlushChunk;
    var n := |d| - 1;
    PutNothing(c);
    if n > 0 { HeaderBlock(c, d[..n]); } else { assert c.header + d[..n] == c.header; }
    assert c.header + d[..n] + [d[n]] == c.header + d;
  }

  lemma {:induction false} PaddingBlock(c: LiveCloud, d: seq<u8>)
    requires Room(c, |d|) && |c.header| == HEADER_SIZE && c.packageReceived + |d| <= PAGE
    ensures PutAll(c, d) == (c.(packageReceived := c.packageReceived + |d|), Fine)
  {
    hide StartFromHeader, HeaderWanted, Submit, Collect, FlushChunk;
    if d != [] { PaddingBlock(c, d[..|d| - 1]); }
  }

  lemma {:induction false} ChunkBlock(c: LiveCloud, d: seq<u8>)
    requires d != [] && Room(c, |d|) && |c.header| == HEADER_SIZE && c.packageReceived >= PAGE
    requires |c.chunk| + |d| <= CHUNK_MAX
    ensures var c1 := c.(chunk := c.chunk + d, packageReceived := c.packageReceived + |d|);
      PutAll(c, d) == if |c1.chunk| == CHUNK_MAX then FlushChunk(c1) else (c1, Fine)
  {
    hide StartFromHeader, HeaderWanted, Submit, FlushChunk;
    var n := |d| - 1;
    PutNothing(c);
    if n > 0 { ChunkBlock(c, d[..n]); } else { assert c.chunk + d[..n] == c.chunk; }
    assert c.chunk + d[..n] + [d[n]] == c.chunk + d;
  }

  /** The step that consumes nothing: a full chunk is flushed again. */
  lemma FullChunkBlock(c: LiveCloud, d: seq<u8>)
    requires d != [] && Room(c, |d|) && |c.header| == HEADER_SIZE && c.packageReceived >= PAGE
    requires |c.chunk| == CHUNK_MAX
    ensures var r := FlushChunk(c);
      && (r.1 == Fine ==> Room(r.0, |d|))
      && PutAll(c, d) == if r.1 == Fine then PutAll(r.0, d) else r
  {
    PutFirst(c, d);
    var (c1, r) := FlushChunk(c);
    if r == Fine {
      assert c1.chunk == [] && c1.header == c.header;
      assert c1.packageReceived == c.packageReceived && c1.remoteSize == c.remoteSize;
      PutFirst(c1, d);
    }
    hide StartFromHeader, HeaderWanted, Submit, FlushChunk, Collect, PutAll;
  }

  /** One block has been taken from the data: the rest of it, put into the
      state reached, does what the data would have done; or the block has been
      refused, and so would the data. */
  ghost predicate Taken(c: Cloud, left: seq<u8>, c': Cloud, rest: seq<u8>, result: Result) {
    && Wellformed(c) && Wellformed(c') && Room(c, |left|)
    && (result == Fine ==>
          && Room(c', |rest|) && PutAll(c, left) == PutAll(c', rest)
          && (|rest| < |left| || (|rest| == |left| && |c'.chunk| < |c.chunk|)))
    && (result != Fine ==> PutAll(c, left) == (c', result))
  }

  lemma TakenFacts(c: Cloud, left: seq<u8>, c': Cloud, rest: seq<u8>, result: Result)
    requires Taken(c, left, c', rest, result)
    ensures Wellformed(c) && Wellformed(c') && Room(c, |left|)
    ensures result == Fine ==>
      && Room(c', |rest|) && PutAll(c, left) == PutAll(c', rest)
      && (|rest| < |left| || (|rest| == |left| && |c'.chunk| < |c.chunk|))
    ensures result != Fine ==> PutAll(c, left) == (c', result)
  {
    hide PutAll;
  }

  // ---- The code ----

  class Splitter {
    const update: BlUpdate
    var attached: bool
    var remoteSize: nat
    var packageReceived: nat
    var header: seq<u8>
    var chunk: seq<u8>
    var sequence: u16
    var started: bool
    var expected: Version

    ghost function BoardView(): Board
      reads update, update.flash
    {
      Board(update.update, update.flash.mem, update.flash.trace)
    }

    ghost function View(): Cloud
      reads this, update, update.flash
    {
      Cloud(attached, remoteSize, packageReceived, header, chunk, sequence, started, expected, BoardView())
    }

    constructor (update: BlUpdate)
      ensures this.update == update && !attached && Wellformed(View())
    {
      this.update := update;
      attached, remoteSize, packageReceived, header, chunk := false, 0, 0, [], [];
      sequence, started, expected := 0, false, Version(0, 0, 0);
    }

    method SubmitRequest(command: u8, payload: Payload) returns (ok: bool)
      modifies this`sequence, update, update.flash
      ensures (View(), ok) == Submit(old(View()), command, payload)
    {
      hide Handle, Replay;
      var request := Request(command, sequence, payload);
      sequence := Succ16(sequence);
      var reply, _ := update.HandleRequest(request);
      ok := reply.Ack?;
    }

    method Start() returns (result: Result)
      requires Wellformed(View()) && |header| == HEADER_SIZE
      modifies this`sequence, this`started, update, update.flash
      ensures (View(), result) == StartFromHeader(old(View()))
    {
      hide HeaderOk, Submitted, Acknowledged, VersionOf, PayloadSize;
      if VersionOf(header) != expected || Add32(PayloadSize(header), PAGE) != remoteSize
         || !HeaderOk(header, Target(header)) {
        return HeaderRefused;
      }
      var ok := SubmitRequest(START_UPDATE, header);
      if !ok {
        return EngineRefused;
      }
      started := true;
      result := Fine;
    }

    method Flush() returns (result: Result)
      requires Wellformed(View())
      modifies this`sequence, this`chunk, update, update.flash
      ensures (View(), result) == FlushChunk(old(View()))
    {
      hide Submitted, Acknowledged;
      if |chunk| == 0 {
        return Fine;
      }
      var ok := SubmitRequest(DATA, chunk);
      if !ok {
        return EngineRefused;
      }
      chunk := [];
      result := Fine;
    }

    method BeginPackage(size: nat, version: Version) returns (result: Result)
      modifies this
      ensures (View(), result) == Begin(old(BoardView()), size, version)
    {
      attached, remoteSize, packageReceived, header, chunk := false, 0, 0, [], [];
      sequence, started, expected := 0, false, Version(0, 0, 0);
      if size <= PAGE || size > PACKAGE_MAX {
        return SizeRefused;
      }
      attached, remoteSize, expected := true, size, version;
      result := Fine;
    }

    /** The loop copies whole blocks; it ends although a step may consume
        nothing, and does exactly what the bytes one by one would do. */
    method WriteData(data: seq<u8>) returns (result: Result)
      requires Wellformed(View())
      modifies this, update, update.flash
      ensures Wellformed(View()) && (View(), result) == Write(old(View()), data)
    {
      hide PutAll, Taken;
      if !attached || |data| > remoteSize - packageReceived {
        return SizeRefused;
      }
      ghost var c := View();
      var left := data;
      while |left| != 0
        invariant Wellformed(View()) && Room(View(), |left|)
        invariant PutAll(c, data) == PutAll(View(), left)
        decreases |left|, |chunk|
      {
        ghost var now := View();
        var rest;
        if |header| < HEADER_SIZE {
          rest, result := HeaderPart(left);
        } else if packageReceived < PAGE {
          rest, result := PaddingPart(left);
        } else {
          rest, result := ChunkPart(left);
        }
        TakenFacts(now, left, View(), rest, result);
        if result != Fine {
          return;
        }
        left := rest;
      }
      PutNothing(View());
      result := Fine;
    }

    method HeaderPart(left: seq<u8>) returns (rest: seq<u8>, result: Result)
      requires Wellformed(View()) && Room(View(), |left|) && left != [] && |header| < HEADER_SIZE
      modifies this, update, update.flash
      ensures Taken(old(View()), left, View(), rest, result)
    {
      hide PutAll, StartFromHeader;
      ghost var now := View();
      var needed := HEADER_SIZE - |header|;
      var accepted := if |left| < needed then |left| else needed;
      SplitLeft(now, left, accepted);
      HeaderBlock(now, left[..accepted]);
      header := header + left[..accepted];
      packageReceived := packageReceived + accepted;
      rest := left[accepted..];
      result := Fine;
      if |header| == HEADER_SIZE {
        StartMoves(View());
        result := Start();
      }
    }

    method PaddingPart(left: seq<u8>) returns (rest: seq<u8>, result: Result)
      requires Wellformed(View()) && Room(View(), |left|) && left != []
      requires |header| == HEADER_SIZE && packageReceived < PAGE
      modifies this, update, update.flash
      ensures Taken(old(View()), left, View(), rest, result)
    {
      hide PutAll;
      ghost var now := View();
      var padding := PAGE - packageReceived;
      var accepted := if |left| < padding then |left| else padding;
      SplitLeft(now, left, accepted);
      PaddingBlock(now, left[..accepted]);
      packageReceived := packageReceived + accepted;
      rest := left[accepted..];
      result := Fine;
    }

    method ChunkPart(left: seq<u8>) returns (rest: seq<u8>, result: Result)
      requires Wellformed(View()) && Room(View(), |left|) && left != []
      requires |header| == HEADER_SIZE && packageReceived >= PAGE
      modifies this, update, update.flash
      ensures Taken(old(View()), left, View(), rest, result)
    {
      hide PutAll, FlushChunk;
      ghost var now := View();
      var space := CHUNK_MAX - |chunk|;
      var accepted := if |left| < space then |left| else space;
      SplitLeft(now, left, accepted);
      if accepted == 0 {
        FullChunkBlock(now, left);
        assert chunk + left[..accepted] == chunk && left[accepted..] == left;
      } else {
        ChunkBlock(now, left[..accepted]);
      }
      chunk := chunk + left[..accepted];
      packageReceived := packageReceived + accepted;
      rest := left[accepted..];
      result := Fine;
      if |chunk| == CHUNK_MAX {
        FlushMoves(View());
        var flushed := Flush();
        if flushed != Fine {
          result := EngineRefused;
        }
      }
    }

    method FinishTransfer() returns (result: Result)
      requires Wellformed(View())
      modifies this, update, update.flash
      ensures (View(), result) == FinishPackage(old(View()))
    {
      hide Submitted, Acknowledged;
      if !attached || !started || packageReceived != remoteSize {
        return Truncated;
      }
      var flushed := Flush();
      if flushed != Fine {
        return EngineRefused;
      }
      var ok := SubmitRequest(END_UPDATE, []);
      result := if ok then ReadyToReboot else EngineRefused;
    }

    method AbortPackage()
      requires Wellformed(View())
      modifies this, update, update.flash
      ensures View() == Abort(old(View()))
    {
      hide Submitted, Acknowledged;
      if attached && started && update.update.state == Receiving {
        var _ := SubmitRequest(ABORT, []);
        started := false;
        chunk := [];
      }
    }
  }

  lemma FlushMoves(c: LiveCloud)
    ensures var (c1, r) := FlushChunk(c);
      && (r == Fine || r == EngineRefused) && (r == Fine ==> c1.chunk == [])
      && c1.packageReceived == c.packageReceived && c1.remoteSize == c.remoteSize
  {
  }

  lemma StartMoves(c: LiveCloud)
    requires |c.header| == HEADER_SIZE
    ensures var (c1, r) := StartFromHeader(c);
      c1.packageReceived == c.packageReceived && c1.remoteSize == c.remoteSize && c1.chunk == c.chunk
  {
    hide HeaderWanted;
  }

  lemma PutNothing(c: LiveCloud)
    ensures PutAll(c, []) == (c, Fine)
  {
  }

  lemma SplitLeft(c: LiveCloud, left: seq<u8>, n: nat)
    requires Room(c, |left|) && n <= |left|
    ensures left[..n] + left[n..] == left
    ensures var r := PutAll(c, left[..n]);
      PutAll(c, left) == if r.1 == Fine then PutAll(r.0, left[n..]) else r
  {
    hide PutAll;
    assert left[..n] + left[n..] == left;
    PutConcat(c, left[..n], left[n..]);
  }

  // ---- The splitter in numbers ----

  /** A package is begun exactly with a size of more than 1 KiB and at most
      111 KiB, from a cleared state. */
  lemma BeginExact(board: Board, size: nat, v: Version)
    ensures Begin(board, size, v) ==
      (if 1024 < size <= 1024 + 110 * 1024
       then (Cloud(true, size, 0, [], [], 0, false, v, board), Fine)
       else (Cloud(false, 0, 0, [], [], 0, false, Version(0, 0, 0), board), SizeRefused))
  {
  }

  /** A request takes the next number, whether or not it is acknowledged. */
  predicate Sends(c: Cloud, c1: Cloud, q: Request) {
    && c1.sequence == (q.sequence + 1) % 65536 && q.sequence == c.sequence
    && c1.board == Submitted(c.board, q)
  }

  /** A complete header is refused, without touching the engine, unless it is of
      the expected version, for the announced size, and valid for the slot it
      names; then it is sent as command 2. */
  lemma HeaderExactly(c: LiveCloud)
    requires |c.header| == 32
    ensures var (c1, r), q := StartFromHeader(c), Request(2, c.sequence, c.header);
      var wanted := && VersionOf(c.header) == c.expected
                    && (PayloadSize(c.header) + 1024) % 0x1_0000_0000 == c.remoteSize
                    && HeaderOk(c.header, c.header[6]);
      && (!wanted ==> r == HeaderRefused && c1 == c)
      && (wanted ==> Sends(c, c1, q) && r == (if Acknowledged(c.board, q) then Fine else EngineRefused))
      && c1 == c.(sequence := c1.sequence, board := c1.board, started := c.started || r == Fine)
  {
    hide Submitted, Acknowledged, HeaderOk, VersionOf, PayloadSize;
  }

  /** A pending chunk is sent as command 3, and kept if it is refused. */
  lemma FlushExactly(c: LiveCloud)
    ensures var (c1, r), q := FlushChunk(c), Request(3, c.sequence, c.chunk);
      && (c.chunk == [] ==> r == Fine && c1 == c)
      && (c.chunk != [] ==> Sends(c, c1, q) && r == (if Acknowledged(c.board, q) then Fine else EngineRefused))
      && c1 == c.(sequence := c1.sequence, board := c1.board, chunk := if r == Fine then [] else c.chunk)
  {
    hide Submitted, Acknowledged;
  }

  /** The byte at position n of a package: one of 32 header bytes, of which the
      last one starts the transfer; ignored up to position 1024; and then one of a
      chunk of 256, of which the last one sends it. A full chunk that was refused
      is sent again first. */
  lemma ByteExactly(c: LiveCloud, b: u8)
    requires c.packageReceived < c.remoteSize
    ensures var n := c.packageReceived;
      var c1 := c.(packageReceived := n + 1);
      && (|c.header| < 31 ==> PutByte(c, b) == (c1.(header := c.header + [b]), Fine))
      && (|c.header| == 31 ==> PutByte(c, b) == StartFromHeader(c1.(header := c.header + [b])))
      && (|c.header| == 32 && n < 1024 ==> PutByte(c, b) == (c1, Fine))
      && (|c.header| == 32 && n >= 1024 && |c.chunk| < 255 ==> PutByte(c, b) == (c1.(chunk := c.chunk + [b]), Fine))
      && (|c.header| == 32 && n >= 1024 && |c.chunk| == 255 ==>
            PutByte(c, b) == FlushChunk(c1.(chunk := c.chunk + [b])))
      && (|c.header| == 32 && n >= 1024 && |c.chunk| == 256 && FlushChunk(c).1 == Fine ==>
            PutByte(c, b) == (FlushChunk(c).0.(packageReceived := n + 1, chunk := [b]), Fine))
      && (|c.header| == 32 && n >= 1024 && |c.chunk| == 256 && FlushChunk(c).1 != Fine ==>
            PutByte(c, b) == FlushChunk(c))
  {
    hide StartFromHeader, FlushChunk;
    if |c.header| == 32 && c.packageReceived >= 1024 && |c.chunk| == 256 {
      FullExactly(c, b);
      hide PutByte;
    }
  }

  lemma FullExactly(c: LiveCloud, b: u8)
    requires c.packageReceived < c.remoteSize
    requires |c.header| == 32 && c.packageReceived >= 1024 && |c.chunk| == 256
    ensures var (c1, r) := FlushChunk(c);
      && (r == Fine ==> PutByte(c, b) == (c1.(packageReceived := c.packageReceived + 1, chunk := [b]), Fine))
      && (r != Fine ==> PutByte(c, b) == (c1, r))
  {
    FlushKeepsPlace(c);
    hide StartFromHeader, FlushChunk, Collect;
    var (c1, r) := FlushChunk(c);
    if r == Fine { EmptyCollects(c1, b); }
  }

  lemma FlushKeepsPlace(c: LiveCloud)
    ensures var (c1, r) := FlushChunk(c);
      c1.packageReceived == c.packageReceived && c1.remoteSize == c.remoteSize && (r == Fine ==> c1.chunk == [])
  {
    FlushExactly(c);
    hide FlushChunk, Sends;
  }

  lemma EmptyCollects(c: LiveCloud, b: u8)
    requires Expecting(c) && c.chunk == []
    ensures Collect(c, b) == (c.(packageReceived := c.packageReceived + 1, chunk := [b]), Fine)
  {
    hide FlushChunk;
    assert [] + [b] == [b];
  }

  /** A write that does not fit, or comes without a package, is refused as a
      whole. */
  lemma WriteExactly(c: LiveCloud, data: seq<u8>)
    ensures !c.attached || c.packageReceived + |data| > c.remoteSize ==> Write(c, data) == (c, SizeRefused)
    ensures c.attached && c.packageReceived + |data| <= c.remoteSize ==> Write(c, data) == PutAll(c, data)
  {
    hide PutAll;
  }

  /** At the end a package that was not started, or of which bytes are missing,
      is Truncated and nothing happens; otherwise the rest is sent, and END as
      command 4; any refusal of the engine is reported as such, and after a
      refused chunk END is not sent. */
  lemma FinishExactly(c: LiveCloud)
    ensures var (c2, r), q, c1 := FinishPackage(c), Request(4, FlushChunk(c).0.sequence, []), FlushChunk(c).0;
      var whole := c.attached && c.started && c.packageReceived == c.remoteSize;
      && (!whole ==> r == Truncated && c2 == c)
      && (whole && FlushChunk(c).1 != Fine ==> r == EngineRefused && c2 == c1)
      && (whole && FlushChunk(c).1 == Fine ==>
            && Sends(c1, c2, q) && c2 == c1.(sequence := c2.sequence, board := c2.board)
            && r == (if Acknowledged(c1.board, q) then ReadyToReboot else EngineRefused))
  {
    hide Submitted, Acknowledged, FlushChunk;
  }

  /** Giving up sends command 5 exactly if the transfer was started and the engine
      is still receiving, and forgets the transfer and its chunk. */
  lemma AbortExactly(c: LiveCloud)
    ensures var c1, q := Abort(c), Request(5, c.sequence, []);
      if c.attached && c.started && c.board.engine.state == Receiving then
        Sends(c, c1, q) && c1 == c.(sequence := c1.sequence, board := c1.board, started := false, chunk := [])
      else c1 == c
  {
    hide Submitted, Acknowledged;
  }

  /** What is sent reaches the engine and its flash. */
  lemma SentExactly(b: Board, q: Request)
    ensures var b1, f := Submitted(b, q), Handle(b.engine, b.mem, q);
      && b1 == Board(f.engine, Replay(b.mem, f.steps), b.trace + f.steps)
      && (Acknowledged(b, q) <==> f.reply == Ack(q.command, q.sequence))
  {
    AnswersOwn(b.engine, b.mem, q);
    hide Handle, Replay;
  }

  lemma AnswersOwn(e: Engine, m: Memory, q: Request)
    ensures var r := Handle(e, m, q).reply; r.command == q.command && r.sequence == q.sequence
  {
    EndShape(e, m, q);
    hide HeaderOk, RangeAllowed, EraseSteps, Crc32.Crc, PayloadSize, WriteSucceeds, WriteSteps, DataSteps, HandleEnd,
      EndSteps, PendingRecord;
  }
}
