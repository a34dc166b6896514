// The cloud pipeline from end to end: every package for the inactive slot, in
// every fragmentation, ends stored, pending and valid; and the flash is only
// touched when a header or a chunk is complete.

module Pipeline {
  import opened Bytes
  import opened Flash
  import opened Image
  import opened Metadata
  import opened Update
  import opened Session
  import opened Bootloader
  import opened Runs
  import opened CloudOta
  import opened HttpStream

  // ---- Fragments ----

  /** cloud_ota_write, fragment after fragment, up to the first refusal. */
  function WriteAll(c: LiveCloud, fs: Fragments): (LiveCloud, CloudOta.Result)
    decreases fs
  {
    match fs
    case End => (c, Fine)
    case Fragment(data, rest) =>
      var (c1, r) := Write(c, data);
      if r == Fine then WriteAll(c1, rest) else (c1, r)
  }

  /** The state after the writes depends on the concatenated bytes only. */
  lemma {:induction false} WritesAgree(c: LiveCloud, fs: Fragments)
    requires c.attached && Room(c, |Joined(fs)|)
    ensures WriteAll(c, fs) == PutAll(c, Joined(fs))
    decreases fs
  {
    hide PutAll;
    match fs
    case End =>
      PutNothing(c);
    case Fragment(data, rest) =>
      PutConcat(c, data, Joined(rest));
      var (c1, r) := PutAll(c, data);
      if r == Fine { WritesAgree(c1, rest); }
  }

  // ---- Flash-quiet ----

  /** The fill levels belong to the number of bytes received. */
  predicate Levels(c: Cloud) {
    && |c.header| == (if c.packageReceived < HEADER_SIZE then c.packageReceived else HEADER_SIZE)
    && |c.chunk| == (if c.packageReceived < PAGE then 0 else (c.packageReceived - PAGE) % CHUNK_MAX)
  }

  /** A byte touches the flash only if it is the last of the header or of a
      chunk of the payload. */
  lemma QuietByte(c: LiveCloud, b: u8)
    requires Expecting(c) && Levels(c)
    ensures var (c1, r) := PutByte(c, b);
      var n := c.packageReceived + 1;
      && c1.packageReceived == n
      && (r == Fine ==> Levels(c1))
      && (c1.board != c.board ==> n == HEADER_SIZE || (n > PAGE && (n - PAGE) % CHUNK_MAX == 0))
  {
    hide HeaderWanted, Submitted, Acknowledged;
    NextLevel(c.packageReceived);
  }

  lemma NextLevel(n: nat)
    ensures n >= PAGE ==>
      ((n + 1 - PAGE) % CHUNK_MAX == if (n - PAGE) % CHUNK_MAX + 1 == CHUNK_MAX then 0 else (n - PAGE) % CHUNK_MAX + 1)
  {
  }

  // ---- End to end ----

  /** The engine in the middle of the transfer of a package: the first `done`
      payload bytes are stored, and `sequence` is the next number. */
  ghost predicate Storing(b: Board, sequence: u16, t: u8, v: Version, payload: seq<u8>, done: nat, erased: set<nat>) {
    && |payload| <= PAYLOAD_MAX && done <= |payload|
    && Startable(b.mem) && SessionOk(b.mem, b.engine)
    && IsSlot(t) && t == Other(b.engine.metadata.active)
    && b.engine.state == Receiving && b.engine.header == PackagedHeader(t, v, payload)
    && b.engine.received == done
    && b.engine.nextSequence == sequence
    && (b.engine.haveLast ==> Succ16(b.engine.lastSequence) == sequence)
    && ChunksOk(Transfer(b.engine, b.mem, payload[..done], erased))
  }

  /** What START needs of the device. */
  ghost predicate Accepting(b: Board, t: u8) {
    Startable(b.mem) && SessionOk(b.mem, b.engine) && IsSlot(t) && t == Other(b.engine.metadata.active)
  }

  lemma StartOpens(b: Board, sequence: u16, t: u8, v: Version, payload: seq<u8>) returns (erased: set<nat>)
    requires Accepting(b, t) && 0 < |payload| <= PAYLOAD_MAX
    ensures var q := Request(START_UPDATE, sequence, PackagedHeader(t, v, payload));
      && Acknowledged(b, q)
      && Storing(Submitted(b, q), Succ16(sequence), t, v, payload, 0, erased)
  {
    hide HeaderOk, PackagedHeader, Handle, Startable, SessionOk, ChunksOk, Replay, ErasedBy, ImageOk, EffectiveRecord;
    var e, m, h := b.engine, b.mem, PackagedHeader(t, v, payload);
    var q := Request(START_UPDATE, sequence, h);
    var f := Handle(e, m, q);
    erased := ErasedBy(f.steps);
    PackagedHeaderOk(t, v, payload);
    HeaderSize(h, t);
    SessionFacts(m, e);
    StartEffect(e, m, q, t);
    PacketKeepsSession(m, e, q);
    var m' := Replay(m, f.steps);
    SessionFacts(m', f.engine);
    LooseIsTransfer(f.engine, m');
    FreshTransfer(f.engine, m', erased);
    assert payload[..0] == [];
  }

  lemma StartEffect(e: Engine, m: Memory, q: Request, t: u8)
    requires q.command == START_UPDATE && |q.payload| == HEADER_SIZE && EngineOk(e)
    requires HeaderOk(q.payload, t) && Target(q.payload) == t && IsSlot(t) && t == Other(e.metadata.active)
    ensures var f := Handle(e, m, q);
      && f.reply == Ack(START_UPDATE, q.sequence)
      && f.engine == e.(header := q.payload, state := Receiving, received := 0,
                        nextSequence := Succ16(q.sequence), haveLast := false, lastError := NoError)
  {
    hide HeaderOk, RangeAllowed, EraseSteps, Sound;
    TargetOpens(t, e.metadata.active);
  }

  lemma FreshTransfer(e: Engine, m: Memory, erased: set<nat>)
    requires EngineOk(e) && TransferOk(e, m) && e.state == Receiving && e.received == 0
    ensures ChunksOk(Transfer(e, m, [], erased))
  {
    hide HeaderOk, PayloadSize, Sound;
    GoodTargetFacts(e);
    assert m[PayloadStart(Target(e.header))..PayloadStart(Target(e.header)) + 0] == [];
  }

  lemma StoringFacts(b: Board, sequence: u16, t: u8, v: Version, payload: seq<u8>, done: nat, erased: set<nat>)
    requires Storing(b, sequence, t, v, payload, done, erased) && 0 < |payload|
    ensures var e := b.engine;
      && HeaderOk(e.header, t) && Target(e.header) == t && PayloadSize(e.header) == |payload|
      && PayloadCrc(e.header) == Crc32.Crc(payload) && VersionOf(e.header) == v
      && SessionOk(b.mem, e) && Startable(b.mem) && EngineOk(e) && TransferOk(e, b.mem)
  {
    PackagedHeaderOk(t, v, payload);
    SessionFacts(b.mem, b.engine);
    LooseIsTransfer(b.engine, b.mem);
    hide *;
    HeaderSize(b.engine.header, t);
  }

  /** q carries the n payload bytes behind the first `done` ones. */
  predicate NextChunk(q: Request, sequence: u16, payload: seq<u8>, done: nat) {
    && q.command == DATA && q.sequence == sequence
    && 0 < |q.payload| && done + |q.payload| <= |payload|
    && q.payload == payload[done..done + |q.payload|]
    && (|q.payload| == CHUNK_MAX || done + |q.payload| == |payload|)
  }

  /** The next chunk of the payload is stored. */
  lemma ChunkGoes(b: Board, q: Request, t: u8, v: Version, payload: seq<u8>, done: nat, erased: set<nat>)
    returns (erased': set<nat>)
    requires NextChunk(q, q.sequence, payload, done)
    requires Storing(b, q.sequence, t, v, payload, done, erased)
    ensures Acknowledged(b, q)
    ensures Storing(Submitted(b, q), Succ16(q.sequence), t, v, payload, done + |q.payload|, erased')
  {
    hide *;
    var tr := StoringTransfer(b, q.sequence, t, v, payload, done, erased);
    ChunkShape(q, payload, done);
    StoringFacts(b, q.sequence, t, v, payload, done, erased);
    ChunkFits(b, q, payload, done);
    ChunkAccepted(tr, q);
    DataEffect(b.engine, b.mem, q);
    KeepsCourse(b.engine, b.mem, q, t);
    AdvanceIs(tr, q);
    PacketKeepsSession(b.mem, b.engine, q);
    SubmittedIs(b, q);
    StillStartable(b.mem, Submitted(b, q).mem);
    erased' := Advance(tr, q).erased;
    ChunkLeaves(Submitted(b, q), q, Advance(tr, q), t, v, payload, done);
  }

  lemma ChunkShape(q: Request, payload: seq<u8>, done: nat)
    requires NextChunk(q, q.sequence, payload, done)
    ensures q.command == DATA && 0 < |q.payload| && done + |q.payload| <= |payload|
    ensures payload[..done] + q.payload == payload[..done + |q.payload|]
  {
  }

  lemma SubmittedIs(b: Board, q: Request)
    ensures var f, b' := Handle(b.engine, b.mem, q), Submitted(b, q);
      b'.engine == f.engine && b'.mem == Replay(b.mem, f.steps) && Acknowledged(b, q) == f.reply.Ack?
  {
    hide Handle, Replay;
  }

  lemma StillStartable(m: Memory, m': Memory)
    requires Durable(m, m')
    ensures Startable(m')
  {
  }

  lemma StoringTransfer(b: Board, sequence: u16, t: u8, v: Version, payload: seq<u8>, done: nat, erased: set<nat>)
    returns (tr: Transfer)
    requires Storing(b, sequence, t, v, payload, done, erased)
    ensures done <= |payload| <= PAYLOAD_MAX && tr == Transfer(b.engine, b.mem, payload[..done], erased)
    ensures ChunksOk(tr) && b.engine.state == Receiving && IsSlot(t) && t == Other(b.engine.metadata.active)
    ensures b.engine.header == PackagedHeader(t, v, payload) && b.engine.received == done
    ensures b.engine.nextSequence == sequence && (b.engine.haveLast ==> Succ16(b.engine.lastSequence) == sequence)
  {
    hide ChunksOk, SessionOk, Startable, PackagedHeader;
    tr := Transfer(b.engine, b.mem, payload[..done], erased);
  }

  /** The chunk is the one the engine is waiting for. */
  lemma ChunkFits(b: Board, q: Request, payload: seq<u8>, done: nat)
    requires NextChunk(q, q.sequence, payload, done) && |payload| <= PAYLOAD_MAX
    requires b.engine.received == done && PayloadSize(b.engine.header) == |payload|
    requires b.engine.nextSequence == q.sequence
    requires b.engine.haveLast ==> Succ16(b.engine.lastSequence) == q.sequence
    ensures InSequence(b.engine, q) && !Duplicate(b.engine, q) && FullChunk(b.engine, q)
  {
    hide PayloadSize, Crc32.Crc;
  }

  lemma ChunkLeaves(b: Board, q: Request, tr: Transfer, t: u8, v: Version, payload: seq<u8>, done: nat)
    requires done + |q.payload| <= |payload| <= PAYLOAD_MAX
    requires IsSlot(t) && t == Other(b.engine.metadata.active) && b.engine.header == PackagedHeader(t, v, payload)
    requires b.engine.nextSequence == Succ16(q.sequence) && b.engine.lastSequence == q.sequence
    requires b.engine.state == Receiving && b.engine.received == done + |q.payload|
    requires Startable(b.mem) && SessionOk(b.mem, b.engine)
    requires tr.engine == b.engine && tr.mem == b.mem && tr.accepted == payload[..done + |q.payload|] && ChunksOk(tr)
    ensures Storing(b, Succ16(q.sequence), t, v, payload, done + |q.payload|, tr.erased)
  {
    hide PackagedHeader, SessionOk, Startable, ChunksOk;
  }

  lemma KeepsCourse(e: Engine, m: Memory, q: Request, t: u8)
    requires EngineOk(e) && HeaderOk(e.header, t) && Target(e.header) == t && t == Other(e.metadata.active)
    ensures GoodTarget(e) && !Strays(e, m, q)
  {
    hide HeaderOk, Sound, InSequence, Duplicate, WriteAddress, EndError;
  }

  lemma AdvanceIs(t: Transfer, q: Request)
    ensures var f := Handle(t.engine, t.mem, q);
      Advance(t, q).engine == f.engine && Advance(t, q).mem == Replay(t.mem, f.steps)
  {
    hide Handle, Replay, ErasedBy;
  }

  lemma DataEffect(e: Engine, m: Memory, q: Request)
    requires q.command == DATA && !Duplicate(e, q) && Handle(e, m, q).reply.Ack?
    ensures var f := Handle(e, m, q);
      && f.engine.nextSequence == Succ16(e.nextSequence) && f.engine.lastSequence == q.sequence == e.nextSequence
      && f.engine.metadata == e.metadata
  {
    hide Duplicate, WriteSucceeds, DataSteps, WriteSteps, Crc32.Crc, PayloadSize;
  }

  /** The package is in its slot and validates, and the record that the next
      start-up finds marks it pending beside the old active slot. */
  ghost predicate Delivered(m: Memory, active: u8, t: u8, v: Version, payload: seq<u8>) {
    var r := EffectiveRecord(m);
    && IsSlot(t) && Package(t, v, payload).Some?
    && Stored(m, t, Package(t, v, payload).value) && ImageOk(m, t)
    && r.pending == t && r.Slot(t).state == PENDING && r.Slot(t).version == v
    && r.active == active && IsSlot(active) && ImageOk(m, active)
  }

  /** With everything stored, the checks of END pass. */
  lemma EndWillPass(b: Board, sequence: u16, t: u8, v: Version, payload: seq<u8>, erased: set<nat>)
    requires IsSlot(t) && Package(t, v, payload).Some?
    requires Storing(b, sequence, t, v, payload, |payload|, erased)
    ensures EndError(b.engine, b.mem) == NoError && Published(EndError(b.engine, b.mem)) && GoodTarget(b.engine)
  {
    hide *;
    var tr := StoringTransfer(b, sequence, t, v, payload, |payload|, erased);
    PackageParts(t, v, payload);
    StoringFacts(b, sequence, t, v, payload, |payload|, erased);
    assert payload[..|payload|] == payload;
    PrefixPart(tr);
    StoredPayload(tr, t, v, payload);
    PrefixParts(tr);
  }

  /** With everything stored, END publishes the image. */
  lemma EndGoes(b: Board, q: Request, t: u8, v: Version, payload: seq<u8>, erased: set<nat>)
    requires q == Request(END_UPDATE, q.sequence, []) && IsSlot(t) && Package(t, v, payload).Some?
    requires Storing(b, q.sequence, t, v, payload, |payload|, erased)
    ensures Acknowledged(b, q) && Submitted(b, q).engine.state == ReadyToBoot
    ensures Delivered(Submitted(b, q).mem, b.engine.metadata.active, t, v, payload)
  {
    hide *;
    var tr := StoringTransfer(b, q.sequence, t, v, payload, |payload|, erased);
    PackageParts(t, v, payload);
    StoringFacts(b, q.sequence, t, v, payload, |payload|, erased);
    assert payload[..|payload|] == payload;
    PrefixPart(tr);
    EndWillPass(b, q.sequence, t, v, payload, erased);
    EndRequest(b, q);
    PayloadPlace(tr, t, payload);
    EndPublishes(b.mem, b.engine, t, v, payload);
  }

  lemma PrefixPart(tr: Transfer)
    requires ChunksOk(tr)
    ensures PrefixOk(tr)
  {
    hide PrefixOk, PointerOk;
  }

  lemma PayloadPlace(tr: Transfer, t: u8, payload: seq<u8>)
    requires PrefixOk(tr) && tr.engine.state == Receiving && tr.accepted == payload && Target(tr.engine.header) == t
    requires IsSlot(t) && |payload| <= PAYLOAD_MAX
    ensures tr.mem[PayloadStart(t)..PayloadStart(t) + |payload|] == payload
  {
    hide TransferOk, EngineOk, GoodTarget;
  }

  lemma EndRequest(b: Board, q: Request)
    requires q == Request(END_UPDATE, q.sequence, []) && EndError(b.engine, b.mem) == NoError
    ensures Acknowledged(b, q) && Submitted(b, q).engine.state == ReadyToBoot
    ensures Submitted(b, q).mem == Replay(b.mem, EndSteps(b.engine))
  {
    hide Replay, EndError, EndSteps, Handle;
    EndEffect(b.engine, b.mem, q);
  }

  lemma EndPublishes(m: Memory, e: Engine, t: u8, v: Version, payload: seq<u8>)
    requires Startable(m) && SessionOk(m, e) && e.state == Receiving && EndError(e, m) == NoError
    requires GoodTarget(e) && IsSlot(t) && Target(e.header) == t
    requires Package(t, v, payload).Some? && VersionOf(e.header) == v
    requires |payload| <= PAYLOAD_MAX && e.header == PackagedHeader(t, v, payload)
    requires m[PayloadStart(t)..PayloadStart(t) + |payload|] == payload
    ensures Delivered(Replay(m, EndSteps(e)), e.metadata.active, t, v, payload)
  {
    hide *;
    EndRecord(m, e);
    EndStoresPackage(m, e, t, v, payload);
    AllDelivered(Replay(m, EndSteps(e)), e.metadata.active, t, v, payload);
  }

  lemma AllDelivered(m: Memory, active: u8, t: u8, v: Version, payload: seq<u8>)
    requires IsSlot(t) && Package(t, v, payload).Some? && Stored(m, t, Package(t, v, payload).value) && ImageOk(m, t)
    requires var r := EffectiveRecord(m);
      && r.pending == t && r.Slot(t).state == PENDING && r.Slot(t).version == v && r.active == active
    requires IsSlot(active) && ImageOk(m, active)
    ensures Delivered(m, active, t, v, payload)
  {
    hide Stored, ImageOk, EffectiveRecord, Package;
  }

  /** The record that END leaves, and the two images beside it. */
  lemma EndRecord(m: Memory, e: Engine)
    requires Startable(m) && SessionOk(m, e) && EndError(e, m) == NoError
    requires GoodTarget(e) && IsSlot(Target(e.header))
    ensures var m', t := Replay(m, EndSteps(e)), Target(e.header);
      var r := EffectiveRecord(m');
      && ImageOk(m', t) && IsSlot(e.metadata.active) && ImageOk(m', e.metadata.active)
      && r.pending == t && r.Slot(t).state == PENDING && r.Slot(t).version == VersionOf(e.header)
      && r.active == e.metadata.active
  {
    hide *;
    var q := EndPacket();
    EndEffect(e, m, q);
    NoErrorPublishes(e, m);
    CutAtEnd(m, EndSteps(e), None);
    EndCrash(m, e, |EndSteps(e)|, None);
    ActiveStays(m, e, q);
    SessionFacts(m, e);
    PendingSlot(e);
    PendingState(e);
    SealedSlot(PendingRecord(e), Target(e.header));
  }

  lemma EndPacket() returns (q: Request)
    ensures q.command == END_UPDATE
  {
    q := Request(END_UPDATE, 0, []);
  }

  lemma NoErrorPublishes(e: Engine, m: Memory)
    requires EndError(e, m) == NoError
    ensures Published(EndError(e, m))
  {
    hide EndError;
  }

  lemma SealedSlot(r: Record, t: u8)
    ensures Next(r).Slot(t) == r.Slot(t) && Next(r).pending == r.pending && Next(r).active == r.active
  {
    SealKeeps(r);
    hide Next;
  }

  lemma PendingState(e: Engine)
    requires IsSlot(Target(e.header))
    ensures PendingRecord(e).Slot(Target(e.header)).state == PENDING
  {
    hide RecordCrc, VersionOf, PayloadSize, PayloadCrc;
  }

  lemma EndEffect(e: Engine, m: Memory, q: Request)
    requires q.command == END_UPDATE && EndError(e, m) == NoError
    ensures var f := Handle(e, m, q);
      f.reply.Ack? && f.engine.state == ReadyToBoot && f.steps == EndSteps(e)
  {
    hide EndError, EndSteps, PendingRecord;
  }

  /** A stored payload passes the checks of END. */
  lemma StoredPayload(tr: Transfer, t: u8, v: Version, payload: seq<u8>)
    requires PrefixOk(tr) && tr.engine.state == Receiving && tr.accepted == payload
    requires tr.engine.header == PackagedHeader(t, v, payload) && |payload| <= PAYLOAD_MAX
    requires HeaderOk(tr.engine.header, t) && Target(tr.engine.header) == t
    requires PayloadSize(tr.engine.header) == |payload| && PayloadCrc(tr.engine.header) == Crc32.Crc(payload)
    requires IsSlot(t) && Package(t, v, payload).Some?
    ensures EndError(tr.engine, tr.mem) == NoError && Published(EndError(tr.engine, tr.mem))
  {
    hide HeaderOk, PackagedHeader, PayloadSize, PayloadCrc, Crc32.Crc, VectorVerdict, PendingRecord, HeaderOpen, Sound,
      TransferOk, PayloadVerified, Package, PrefixOk, Read, GetU32, GoodTarget;
    var e, m := tr.engine, tr.mem;
    PrefixParts(tr);
    GoodTargetFacts(e);
    PendingIsSound(e);
    PackageVector(t, v, payload);
    PayloadPlace(tr, t, payload);
    VectorRead(m, t, payload);
    PayloadChecks(e, m, t, payload);
  }

  lemma PrefixParts(tr: Transfer)
    requires PrefixOk(tr) && tr.engine.state == Receiving
    ensures EngineOk(tr.engine) && GoodTarget(tr.engine) && |tr.accepted| == tr.engine.received
  {
    hide TransferOk, Sound, HeaderOk;
  }

  lemma PackageVector(t: u8, v: Version, payload: seq<u8>)
    requires IsSlot(t) && Package(t, v, payload).Some?
    ensures 8 <= |payload| <= PAYLOAD_MAX
    ensures VectorVerdict(GetU32(payload, 0), GetU32(payload, 4), t) == Verdict.Ok
  {
    hide VectorVerdict, GetU32, PatchCrc, PackHeader, Crc32.Crc;
  }

  lemma VectorRead(m: Memory, t: u8, payload: seq<u8>)
    requires IsSlot(t) && 8 <= |payload| <= PAYLOAD_MAX
    requires m[PayloadStart(t)..PayloadStart(t) + |payload|] == payload
    ensures Read(m, PayloadStart(t), |payload|) == payload
    ensures var vector := Read(m, PayloadStart(t), 8);
      GetU32(vector, 0) == GetU32(payload, 0) && GetU32(vector, 4) == GetU32(payload, 4)
  {
    var vector := Read(m, PayloadStart(t), 8);
    assert vector == m[PayloadStart(t)..PayloadStart(t) + |payload|][..8] == payload[..8];
  }

  lemma PayloadChecks(e: Engine, m: Memory, t: u8, payload: seq<u8>)
    requires Target(e.header) == t && e.received == |payload| && PayloadCrc(e.header) == Crc32.Crc(payload)
    requires Read(m, PayloadStart(t), |payload|) == payload
    requires var vector := Read(m, PayloadStart(t), 8);
      VectorVerdict(GetU32(vector, 0), GetU32(vector, 4), t) == Verdict.Ok
    ensures PayloadVerified(e, m)
  {
    hide Read, GetU32, VectorVerdict, Crc32.Crc, PayloadCrc;
  }

  /** Header steps on a blank page leave the header and erased bytes. */
  lemma HeaderPage(m: Memory, e: Engine)
    requires IsSlot(Target(e.header)) && Blank(m, SlotStart(Target(e.header)), PayloadStart(Target(e.header)))
    ensures var m1, start := Replay(m, HeaderSteps(e)), SlotStart(Target(e.header));
      && m1[start..start + HEADER_SIZE] == e.header
      && Blank(m1, start + HEADER_SIZE, start + PAGE)
      && Same(m, m1, start + PAGE, FLASH_END)
  {
    hide Replay, And8;
    var start := SlotStart(Target(e.header));
    WholeWords(e.header);
    ProgramAll(m, start, e.header);
    ProgramBlank(m, start, e.header);
  }

  lemma ThreeParts(m: Memory, start: nat, header: Header, payload: seq<u8>)
    requires start + PAGE + |payload| <= FLASH_END
    requires m[start..start + HEADER_SIZE] == header
    requires Blank(m, start + HEADER_SIZE, start + PAGE)
    requires m[start + PAGE..start + PAGE + |payload|] == payload
    ensures m[start..start + PAGE + |payload|] == header + seq(PAGE - HEADER_SIZE, i => 0xFF) + payload
  {
    assert m[start + HEADER_SIZE..start + PAGE] == seq(PAGE - HEADER_SIZE, i => 0xFF);
    JoinSlices(m, start, start + HEADER_SIZE, start + PAGE);
    JoinSlices(m, start, start + PAGE, start + PAGE + |payload|);
  }

  /** After END the slot holds the package: the header, the erased rest of its
      page, and the payload. */
  lemma EndStoresPackage(m: Memory, e: Engine, t: u8, v: Version, payload: seq<u8>)
    requires SessionOk(m, e) && e.state == Receiving && GoodTarget(e) && IsSlot(t) && Target(e.header) == t
    requires Package(t, v, payload).Some? && |payload| <= PAYLOAD_MAX && e.header == PackagedHeader(t, v, payload)
    requires m[PayloadStart(t)..PayloadStart(t) + |payload|] == payload
    ensures Stored(Replay(m, EndSteps(e)), t, Package(t, v, payload).value)
  {
    hide *;
    SessionFacts(m, e);
    LooseIsTransfer(e, m);
    TransferPage(m, e);
    HeaderPage(m, e);
    CommitLater(m, e);
    PackageParts(t, v, payload);
    PayloadIn(t, payload);
    SlotsHold(m, Replay(m, HeaderSteps(e)), Replay(m, EndSteps(e)), SlotStart(t), e.header, payload);
    StoredAt(Replay(m, EndSteps(e)), t, Package(t, v, payload).value, payload);
  }

  lemma PayloadIn(t: u8, payload: seq<u8>)
    requires IsSlot(t) && |payload| <= PAYLOAD_MAX
    ensures PayloadStart(t) == SlotStart(t) + PAGE
    ensures SLOT_A_START <= SlotStart(t) && SlotStart(t) + PAGE + |payload| <= METADATA_START
  {
  }

  lemma StoredAt(m: Memory, t: u8, package: seq<u8>, payload: seq<u8>)
    requires IsSlot(t) && SlotStart(t) + PAGE + |payload| <= METADATA_START && |package| == PAGE + |payload|
    requires m[SlotStart(t)..SlotStart(t) + PAGE + |payload|] == package
    ensures Stored(m, t, package)
  {
  }

  lemma CommitLater(m: Memory, e: Engine)
    ensures Same(Replay(m, HeaderSteps(e)), Replay(m, EndSteps(e)), SLOT_A_START, METADATA_START)
  {
    hide PendingRecord, HeaderSteps, CommitSteps, Replay, Avoids, Same;
    var commit := CommitSteps(OtherCopy(e.copy), PendingRecord(e));
    ReplayConcat(m, HeaderSteps(e), commit);
    CommitAvoids(OtherCopy(e.copy), PendingRecord(e));
    ReplaySame(Replay(m, HeaderSteps(e)), commit, SLOT_A_START, METADATA_START);
  }

  lemma PackageParts(t: u8, v: Version, payload: seq<u8>)
    requires IsSlot(t) && Package(t, v, payload).Some?
    ensures 0 < |payload| <= PAYLOAD_MAX && |Package(t, v, payload).value| == PAGE + |payload|
    ensures Package(t, v, payload).value == PackagedHeader(t, v, payload) + seq(PAGE - HEADER_SIZE, i => 0xFF) + payload
  {
    hide PackHeader, PatchCrc, VectorVerdict, Crc32.Crc;
  }

  lemma SlotsHold(m: Memory, m1: Memory, m': Memory, start: nat, header: Header, payload: seq<u8>)
    requires SLOT_A_START <= start && start + PAGE + |payload| <= METADATA_START
    requires m1[start..start + HEADER_SIZE] == header && Blank(m1, start + HEADER_SIZE, start + PAGE)
    requires Same(m, m1, start + PAGE, FLASH_END) && Same(m1, m', SLOT_A_START, METADATA_START)
    requires m[start + PAGE..start + PAGE + |payload|] == payload
    ensures m'[start..start + PAGE + |payload|] == header + seq(PAGE - HEADER_SIZE, i => 0xFF) + payload
  {
    hide Same, Blank;
    BlankSame(m1, m', start + HEADER_SIZE, start + PAGE);
    SameSlice(m1, m', SLOT_A_START, METADATA_START, start, start + HEADER_SIZE);
    SameSlice(m1, m', SLOT_A_START, METADATA_START, start + PAGE, start + PAGE + |payload|);
    SameSlice(m, m1, start + PAGE, FLASH_END, start + PAGE, start + PAGE + |payload|);
    ThreeParts(m', start, header, payload);
  }

  lemma BlankSame(m: Memory, m': Memory, lo: nat, hi: nat)
    requires SLOT_A_START <= lo && hi <= METADATA_START && Blank(m, lo, hi) && Same(m, m', SLOT_A_START, METADATA_START)
    ensures Blank(m', lo, hi)
  {
  }

  // ---- Byte by byte through a package ----

  /** How many payload bytes have been flushed after k package bytes. */
  function Flushed(k: nat): nat { if k < PAGE then 0 else (k - PAGE) / CHUNK_MAX * CHUNK_MAX }

  function Payloads(k: nat): nat { if k < PAGE then 0 else k - PAGE }

  /** The splitter after the first k bytes of the package. */
  ghost predicate AtByte(c: Cloud, k: nat, t: u8, v: Version, payload: seq<u8>, erased: set<nat>) {
    && 0 < |payload| <= PAYLOAD_MAX && k <= PAGE + |payload|
    && c.attached && c.remoteSize == PAGE + |payload| && c.expected == v && c.packageReceived == k
    && (k < HEADER_SIZE ==>
          c.header == PackagedHeader(t, v, payload)[..k] && c.chunk == [] && Accepting(c.board, t))
    && (k >= HEADER_SIZE ==>
          && c.header == PackagedHeader(t, v, payload) && c.started
          && c.chunk == payload[Flushed(k)..Payloads(k)]
          && Storing(c.board, c.sequence, t, v, payload, Flushed(k), erased))
  }

  lemma FlushedFacts(k: nat)
    ensures Flushed(k) <= Payloads(k) < Flushed(k) + CHUNK_MAX
    ensures k >= PAGE ==>
      (Flushed(k + 1) == if Payloads(k) + 1 == Flushed(k) + CHUNK_MAX then Flushed(k) + CHUNK_MAX else Flushed(k))
    ensures k < PAGE ==> Flushed(k + 1) == 0 && Payloads(k + 1) == 0
    ensures k >= PAGE ==> Payloads(k + 1) == Payloads(k) + 1
  {
  }

  lemma HeaderCompletes(c: LiveCloud, t: u8, v: Version, payload: seq<u8>) returns (erased: set<nat>)
    requires 0 < |payload| <= PAYLOAD_MAX && c.remoteSize == PAGE + |payload| && c.expected == v
    requires c.header == PackagedHeader(t, v, payload) && Accepting(c.board, t)
    ensures var (c1, r) := StartFromHeader(c);
      && r == Fine && c1.started && Storing(c1.board, c1.sequence, t, v, payload, 0, erased)
      && c1 == c.(started := true, sequence := c1.sequence, board := c1.board)
  {
    HeaderIsWanted(c, t, v, payload);
    var q := Request(START_UPDATE, c.sequence, c.header);
    hide *;
    erased := StartOpens(c.board, c.sequence, t, v, payload);
    StartIs(c, q);
  }

  lemma HeaderIsWanted(c: LiveCloud, t: u8, v: Version, payload: seq<u8>)
    requires 0 < |payload| <= PAYLOAD_MAX && c.remoteSize == PAGE + |payload| && c.expected == v && IsSlot(t)
    requires c.header == PackagedHeader(t, v, payload)
    ensures |c.header| == HEADER_SIZE && HeaderWanted(c)
  {
    hide PackagedHeader, HeaderOk, VersionOf, PayloadSize, PayloadCrc, Crc32.Crc;
    PackagedHeaderOk(t, v, payload);
    HeaderSize(c.header, t);
  }

  lemma FlushGoes(c: LiveCloud, q: Request, t: u8, v: Version, payload: seq<u8>, done: nat, erased: set<nat>)
    returns (erased': set<nat>)
    requires c.chunk != [] && q == Request(DATA, c.sequence, c.chunk) && NextChunk(q, q.sequence, payload, done)
    requires Storing(c.board, q.sequence, t, v, payload, done, erased)
    ensures FlushChunk(c) == (c.(chunk := [], sequence := Succ16(c.sequence), board := Submitted(c.board, q)), Fine)
    ensures Storing(Submitted(c.board, q), Succ16(c.sequence), t, v, payload, done + |c.chunk|, erased')
  {
    hide *;
    erased' := ChunkGoes(c.board, q, t, v, payload, done, erased);
    FlushIs(c, q);
  }

  lemma ChunkRequest(c: LiveCloud, payload: seq<u8>, done: nat) returns (q: Request)
    requires 0 < |c.chunk| && done + |c.chunk| <= |payload| && c.chunk == payload[done..done + |c.chunk|]
    requires |c.chunk| == CHUNK_MAX || done + |c.chunk| == |payload|
    ensures q == Request(DATA, c.sequence, c.chunk) && NextChunk(q, q.sequence, payload, done)
  {
    q := Request(DATA, c.sequence, c.chunk);
  }

  /** One package byte. */
  lemma ByteStep(c: LiveCloud, b: u8, k: nat, t: u8, v: Version, payload: seq<u8>, erased: set<nat>)
    returns (erased': set<nat>)
    requires AtByte(c, k, t, v, payload, erased) && k < PAGE + |payload|
    requires k < HEADER_SIZE ==> b == PackagedHeader(t, v, payload)[k]
    requires k >= PAGE ==> b == payload[k - PAGE]
    ensures var (c1, r) := PutByte(c, b);
      r == Fine && AtByte(c1, k + 1, t, v, payload, erased')
  {
    hide PackagedHeader, Storing, Accepting, Submitted, Acknowledged, StartFromHeader, FlushChunk, Flushed, Payloads;
    FlushedFacts(k);
    erased' := erased;
    var h := PackagedHeader(t, v, payload);
    if k < HEADER_SIZE {
      assert h[..k] + [b] == h[..k + 1];
      if k + 1 == HEADER_SIZE {
        var c1 := c.(header := c.header + [b], packageReceived := c.packageReceived + 1);
        assert h[..k + 1] == h;
        assert c1.chunk == payload[0..0];
        erased' := HeaderCompletes(c1, t, v, payload);
      }
    } else if k < PAGE {
      NoPayload(k);
    } else {
      PayloadStep(k);
      var done, n := Flushed(k), Payloads(k);
      assert payload[done..n] + [b] == payload[done..n + 1];
      if n + 1 == done + CHUNK_MAX {
        var c1 := c.(chunk := c.chunk + [b], packageReceived := c.packageReceived + 1);
        var q := ChunkRequest(c1, payload, done);
        erased' := FlushGoes(c1, q, t, v, payload, done, erased);
        assert payload[done + CHUNK_MAX..done + CHUNK_MAX] == [];
      }
    }
  }

  lemma NoPayload(k: nat)
    requires k < PAGE
    ensures Flushed(k) == 0 && Payloads(k) == 0
  {
  }

  lemma PayloadStep(k: nat)
    requires k >= PAGE
    ensures Payloads(k) == k - PAGE
  {
  }

  lemma PackageBytes(t: u8, v: Version, payload: seq<u8>, k: nat)
    requires IsSlot(t) && Package(t, v, payload).Some?
    ensures var p := Package(t, v, payload).value;
      && 0 < |payload| <= PAYLOAD_MAX && |p| == PAGE + |payload|
      && (k < HEADER_SIZE ==> p[k] == PackagedHeader(t, v, payload)[k])
      && (PAGE <= k < |p| ==> p[k] == payload[k - PAGE])
  {
    hide Package, PackagedHeader;
    PackageParts(t, v, payload);
  }

  /** The first k bytes of the package have been written without refusal. */
  ghost predicate FedTo(c: LiveCloud, package: seq<u8>, k: nat, t: u8, v: Version, payload: seq<u8>, erased: set<nat>) {
    && k <= |package| && Room(c, k)
    && PutAll(c, package[..k]).1 == Fine
    && AtByte(PutAll(c, package[..k]).0, k, t, v, payload, erased)
  }

  lemma FedStep(c: LiveCloud, package: seq<u8>, k: nat, t: u8, v: Version, payload: seq<u8>, erased: set<nat>)
    returns (erased': set<nat>)
    requires IsSlot(t) && Package(t, v, payload).Some? && package == Package(t, v, payload).value
    requires k < |package| && Room(c, k + 1) && FedTo(c, package, k, t, v, payload, erased)
    ensures FedTo(c, package, k + 1, t, v, payload, erased')
  {
    hide *;
    var c1 := FedFacts(c, package, k, t, v, payload, erased);
    PackageBytes(t, v, payload, k);
    PutNext(c, package, k);
    erased' := ByteStep(c1, package[k], k, t, v, payload, erased);
    FedTogether(c, package, k + 1, t, v, payload, erased');
  }

  lemma FedFacts(c: LiveCloud, package: seq<u8>, k: nat, t: u8, v: Version, payload: seq<u8>, erased: set<nat>)
    returns (c1: LiveCloud)
    requires FedTo(c, package, k, t, v, payload, erased)
    ensures k <= |package| && Room(c, k) && PutAll(c, package[..k]).1 == Fine && c1 == PutAll(c, package[..k]).0
    ensures AtByte(c1, k, t, v, payload, erased)
  {
    hide AtByte, PutAll;
    c1 := PutAll(c, package[..k]).0;
  }

  lemma FedTogether(c: LiveCloud, package: seq<u8>, k: nat, t: u8, v: Version, payload: seq<u8>, erased: set<nat>)
    requires k <= |package| && Room(c, k) && PutAll(c, package[..k]).1 == Fine
    requires AtByte(PutAll(c, package[..k]).0, k, t, v, payload, erased)
    ensures FedTo(c, package, k, t, v, payload, erased)
  {
    hide AtByte, PutAll;
  }

  lemma {:induction false} PackageFed(c: LiveCloud, t: u8, v: Version, payload: seq<u8>, package: seq<u8>, k: nat)
    returns (erased: set<nat>)
    requires IsSlot(t) && Package(t, v, payload).Some? && package == Package(t, v, payload).value
    requires AtByte(c, 0, t, v, payload, {}) && k <= |package| == PAGE + |payload|
    ensures FedTo(c, package, k, t, v, payload, erased)
    decreases k
  {
    AtStart(c, t, v, payload);
    assert Room(c, k);
    hide *;
    if k == 0 {
      PutNothing(c);
      assert package[..0] == [];
      erased := {};
      FedTogether(c, package, 0, t, v, payload, erased);
    } else {
      erased := PackageFed(c, t, v, payload, package, k - 1);
      erased := FedStep(c, package, k - 1, t, v, payload, erased);
    }
  }

  lemma WholePackage(c: LiveCloud, package: seq<u8>, t: u8, v: Version, payload: seq<u8>, erased: set<nat>)
    requires FedTo(c, package, |package|, t, v, payload, erased)
    ensures Room(c, |package|) && PutAll(c, package).1 == Fine
    ensures AtByte(PutAll(c, package).0, |package|, t, v, payload, erased)
  {
    hide AtByte, PutAll;
    assert package[..|package|] == package;
  }

  lemma AtStart(c: LiveCloud, t: u8, v: Version, payload: seq<u8>)
    requires AtByte(c, 0, t, v, payload, {})
    ensures c.packageReceived == 0 && c.remoteSize == PAGE + |payload|
  {
    hide Accepting, Storing, PackagedHeader;
  }

  /** After the last byte, finish flushes what is left and publishes. */
  lemma FinishGoes(c: LiveCloud, t: u8, v: Version, payload: seq<u8>, erased: set<nat>)
    requires AtByte(c, PAGE + |payload|, t, v, payload, erased) && Package(t, v, payload).Some?
    ensures var (c1, r) := FinishPackage(c);
      && r == ReadyToReboot && c1.board.engine.state == ReadyToBoot
      && Delivered(c1.board.mem, c1.board.engine.metadata.active, t, v, payload)
  {
    hide PackagedHeader, Storing, Accepting, Submitted, Acknowledged, FlushChunk, Flushed, Payloads, Package, Delivered;
    var k := PAGE + |payload|;
    FlushedFacts(k);
    PayloadStep(k);
    var erased' := erased;
    if c.chunk == [] {
      assert Flushed(k) == |payload|;
      assert FlushChunk(c) == (c, Fine) by { NoFlush(c); }
    } else {
      var q := ChunkRequest(c, payload, Flushed(k));
      erased' := FlushGoes(c, q, t, v, payload, Flushed(k), erased);
    }
    var c1 := FlushChunk(c).0;
    StoringFacts(c1.board, c1.sequence, t, v, payload, |payload|, erased');
    var q := Request(END_UPDATE, c1.sequence, []);
    EndGoes(c1.board, q, t, v, payload, erased');
    ActiveKept(c1.board, q);
  }

  lemma NoFlush(c: LiveCloud)
    requires c.chunk == []
    ensures FlushChunk(c) == (c, Fine)
  {
  }

  lemma ActiveKept(b: Board, q: Request)
    requires IsSlot(b.engine.metadata.active)
    ensures Submitted(b, q).engine.metadata.active == b.engine.metadata.active
  {
    hide Handle, Replay, Harmless;
    HandleHarmless(b.engine, b.mem, q);
  }

  /** For every package for the inactive slot and every split of its bytes into
      writes: begin accepts its size, every write succeeds, finish reports READY
      TO REBOOT; the slot then holds the package byte for byte and validates, and
      the record that the next start-up finds marks it PENDING. */
  lemma EndToEnd(board: Board, t: u8, v: Version, payload: seq<u8>, fs: Fragments)
    requires Startable(board.mem) && SessionOk(board.mem, board.engine)
    requires IsSlot(t) && t == Other(board.engine.metadata.active)
    requires Package(t, v, payload).Some? && Joined(fs) == Package(t, v, payload).value
    ensures var (c0, r0) := Begin(board, |Joined(fs)|, v);
      var (c1, r1) := WriteAll(c0, fs);
      var (c2, r2) := FinishPackage(c1);
      && r0 == Fine && r1 == Fine && r2 == ReadyToReboot && c2.board.engine.state == ReadyToBoot
      && Delivered(c2.board.mem, c2.board.engine.metadata.active, t, v, payload)
  {
    hide *;
    var package := Joined(fs);
    PackageBytes(t, v, payload, 0);
    var c0 := Opened(board, t, v, payload);
    var erased := PackageFed(c0, t, v, payload, package, |package|);
    WholePackage(c0, package, t, v, payload, erased);
    WritesAgree(c0, fs);
    FinishGoes(PutAll(c0, package).0, t, v, payload, erased);
  }

  lemma Opened(board: Board, t: u8, v: Version, payload: seq<u8>) returns (c: LiveCloud)
    requires Startable(board.mem) && SessionOk(board.mem, board.engine)
    requires IsSlot(t) && t == Other(board.engine.metadata.active) && 0 < |payload| <= PAYLOAD_MAX
    ensures Begin(board, PAGE + |payload|, v) == (c, Fine)
    ensures AtByte(c, 0, t, v, payload, {}) && c.attached
  {
    hide PackagedHeader, Startable, SessionOk, Storing;
    c := Begin(board, PAGE + |payload|, v).0;
    assert PackagedHeader(t, v, payload)[..0] == [];
  }

  // ---- Only the expected version ----

  /** The header that a download of this size and version has to begin with. */
  predicate Expected(header: Header, size: nat, v: Version) {
    VersionOf(header) == v && PayloadSize(header) + 1024 == size && HeaderOk(header, header[6])
  }

  /** The splitter after these bytes of a download have been accepted. */
  ghost predicate Gated(c: Cloud, board: Board, size: nat, v: Version, data: seq<u8>) {
    && c.attached && c.remoteSize == size && 1024 < size <= PACKAGE_MAX && c.expected == v
    && c.packageReceived == |data| <= size
    && |c.chunk| <= CHUNK_MAX
    && (|data| < 32 ==> c.header == data && c.chunk == [] && !c.started && c.board == board)
    && (|data| >= 32 ==> c.header == data[..32] && Expected(c.header, size, v))
  }

  lemma WantedExactly(c: Cloud, size: nat)
    requires |c.header| == 32 && c.remoteSize == size && 1024 < size <= PACKAGE_MAX
    ensures HeaderWanted(c) <==> Expected(c.header, size, c.expected)
  {
    hide HeaderOk, VersionOf, PayloadSize;
  }

  /** One byte: the board stays as it is up to the 32nd, and the 32nd is refused
      unless it completes the expected header. */
  lemma GatedByte(c: LiveCloud, b: u8, board: Board, size: nat, v: Version, data: seq<u8>)
    requires Gated(c, board, size, v, data) && |data| < size
    ensures Expecting(c)
    ensures var (c1, r) := PutByte(c, b);
      && (|data| + 1 < 32 ==> r == Fine)
      && (|data| + 1 == 32 && !Expected(data + [b], size, v) ==> r == HeaderRefused && c1.board == board)
      && (r == Fine ==> Gated(c1, board, size, v, data + [b]))
      && (r != Fine ==> |data| + 1 >= 32)
      && (r == HeaderRefused ==> |data| + 1 == 32)
  {
    hide Expected, HeaderWanted, Submitted, Acknowledged;
    if |data| < 32 {
      assert data + [b] == c.header + [b];
      if |data| + 1 == 32 {
        WantedExactly(c.(header := c.header + [b], packageReceived := c.packageReceived + 1), size);
        assert (data + [b])[..32] == data + [b];
      }
    } else {
      assert (data + [b])[..32] == data[..32];
    }
  }

  /** Any bytes: unless they begin with the expected header, the board stays as
      it was. */
  lemma {:induction false} GatedBytes(c: LiveCloud, more: seq<u8>, board: Board, size: nat, v: Version, data: seq<u8>)
    requires Gated(c, board, size, v, data) && Room(c, |more|)
    ensures var (c1, r) := PutAll(c, more);
      var all := data + more;
      && (r == Fine ==> Gated(c1, board, size, v, all))
      && (r != Fine ==> |all| >= 32)
      && (|all| >= 32 && !Expected(all[..32], size, v) ==> r == HeaderRefused && c1.board == board)
    decreases |more|
  {
    hide Expected, PutByte, Gated;
    if more == [] {
      assert data + more == data;
      GatedFacts(c, board, size, v, data);
    } else {
      var n := |more| - 1;
      var (c1, r1) := PutAll(c, more[..n]);
      var before := data + more[..n];
      assert before + [more[n]] == data + more;
      GatedRoom(c, board, size, v, data);
      GatedBytes(c, more[..n], board, size, v, data);
      if |before| >= 32 { assert (data + more)[..32] == before[..32]; }
      if r1 == Fine {
        GatedByte(c1, more[n], board, size, v, before);
        if |before| + 1 == 32 { assert (before + [more[n]])[..32] == before + [more[n]]; }
        if |before| >= 32 { GatedFacts(c1, board, size, v, before); }
      }
    }
  }

  lemma GatedRoom(c: Cloud, board: Board, size: nat, v: Version, data: seq<u8>)
    requires Gated(c, board, size, v, data)
    ensures c.packageReceived == |data| && c.remoteSize == size && c.attached
  {
    hide Expected;
  }

  lemma GatedFacts(c: Cloud, board: Board, size: nat, v: Version, data: seq<u8>)
    requires Gated(c, board, size, v, data)
    ensures |data| >= 32 ==> Expected(data[..32], size, v)
    ensures |data| < 32 ==> c.board == board
  {
    hide Expected;
  }

  /** The version gate, for every board, every size and version that are asked
      for, and all bytes in every fragmentation: the engine and the flash are not
      touched unless the bytes begin with a header of that version and size that
      validates; otherwise the write that completes the header, if it fits the
      package, answers HeaderRefused. */
  lemma VersionGate(board: Board, size: nat, v: Version, fs: Fragments)
    ensures var (c0, r0) := Begin(board, size, v);
      var (c1, r1) := WriteAll(c0, fs);
      var all := Joined(fs);
      && (r0 == Fine <==> 1024 < size <= 1024 + 110 * 1024)
      && (c1.board != board ==> r0 == Fine && |all| >= 32 && Expected(all[..32], size, v))
      && (r0 == Fine && |all| <= size ==>
            && (|all| < 32 ==> r1 == Fine)
            && (|all| >= 32 && !Expected(all[..32], size, v) ==> r1 == HeaderRefused))
  {
    hide Expected, WriteAll, PutAll, Gated;
    var c0 := Begin(board, size, v).0;
    if Begin(board, size, v).1 == Fine {
      Opening(board, size, v);
      if |Joined(fs)| <= size {
        WritesAgree(c0, fs);
        GatedBytes(c0, Joined(fs), board, size, v, []);
        assert [] + Joined(fs) == Joined(fs);
        if |Joined(fs)| < 32 { GatedFacts(PutAll(c0, Joined(fs)).0, board, size, v, Joined(fs)); }
      }
      GatedWrites(c0, fs, board, size, v, []);
      assert [] + Joined(fs) == Joined(fs);
    } else {
      NotAttached(c0, fs);
    }
  }

  lemma Opening(board: Board, size: nat, v: Version)
    requires Begin(board, size, v).1 == Fine
    ensures var c0 := Begin(board, size, v).0;
      && Gated(c0, board, size, v, []) && c0.packageReceived == 0
      && c0.remoteSize == size && c0.attached && c0.board == board
  {
    hide Expected;
  }

  lemma {:induction false} NotAttached(c: LiveCloud, fs: Fragments)
    requires !c.attached
    ensures WriteAll(c, fs).0 == c
    decreases fs
  {
    match fs
    case End =>
    case Fragment(data, rest) =>
  }

  /** Writes that do not fit are refused, and change nothing. */
  lemma {:induction false} GatedWrites(c: LiveCloud, fs: Fragments, board: Board, size: nat, v: Version, data: seq<u8>)
    requires Gated(c, board, size, v, data)
    ensures WriteAll(c, fs).0.board != board ==>
      |data + Joined(fs)| >= 32 && Expected((data + Joined(fs))[..32], size, v)
    decreases fs
  {
    hide Expected, PutAll, Gated;
    match fs
    case End =>
      assert data + Joined(fs) == data;
      GatedFacts(c, board, size, v, data);
    case Fragment(piece, rest) =>
      GatedRoom(c, board, size, v, data);
      var all, upTo := data + Joined(fs), data + piece;
      assert all == upTo + Joined(rest);
      if Room(c, |piece|) {
        GatedBytes(c, piece, board, size, v, data);
        if |upTo| >= 32 { assert all[..32] == upTo[..32]; }
        var (c1, r) := PutAll(c, piece);
        if r == Fine { GatedWrites(c1, rest, board, size, v, upTo); }
      } else {
        GatedFacts(c, board, size, v, data);
        if |data| >= 32 { assert all[..32] == data[..32]; }
      }
  }

  // ---- What is published is what was sent ----

  function Body(data: seq<u8>): (p: seq<u8>)
    ensures |p| == Payloads(|data|)
  {
    if |data| < PAGE then [] else data[PAGE..]
  }

  /** Behind an accepted header: the engine has stored the flushed part of the
      payload, the chunk holds the rest, and the numbers follow each other. */
  ghost predicate Held(c: Cloud, data: seq<u8>, erased: set<nat>) {
    && 32 <= |data| && c.header == data[..32]
    && Flushed(|data|) <= |Body(data)| && c.chunk == Body(data)[Flushed(|data|)..]
    && HeldEngine(c.board, c.sequence, c.header, Body(data)[..Flushed(|data|)], erased)
  }

  ghost predicate HeldEngine(b: Board, sequence: u16, header: seq<u8>, stored: seq<u8>, erased: set<nat>) {
    && Startable(b.mem) && SessionOk(b.mem, b.engine)
    && b.engine.state == Receiving && b.engine.header == header
    && b.engine.nextSequence == sequence
    && (b.engine.haveLast ==> Succ16(b.engine.lastSequence) == sequence)
    && PrefixOk(Transfer(b.engine, b.mem, stored, erased))
  }

  lemma StartAcked(e: Engine, m: Memory, q: Request)
    requires q.command == START_UPDATE && EngineOk(e) && Handle(e, m, q).reply.Ack?
    ensures |q.payload| == HEADER_SIZE && HeaderOk(q.payload, Target(q.payload)) && IsSlot(Target(q.payload))
    ensures Target(q.payload) == Other(e.metadata.active)
  {
    hide RangeAllowed, EraseSteps, Sound;
    if |q.payload| == HEADER_SIZE && HeaderOk(q.payload, Target(q.payload)) {
      HeaderSize(q.payload, Target(q.payload));
    }
    hide HeaderOk;
  }

  lemma StartHolds(b: Board, q: Request) returns (erased: set<nat>)
    requires Startable(b.mem) && SessionOk(b.mem, b.engine) && q.command == START_UPDATE && Acknowledged(b, q)
    ensures HeldEngine(Submitted(b, q), Succ16(q.sequence), q.payload, [], erased)
  {
    hide *;
    SessionFacts(b.mem, b.engine);
    SubmittedIs(b, q);
    StartAcked(b.engine, b.mem, q);
    StartEffect(b.engine, b.mem, q, Target(q.payload));
    StartStraight(b.engine, b.mem, q);
    PacketKeepsSession(b.mem, b.engine, q);
    var b' := Submitted(b, q);
    StartReceives(b.engine, b.mem, q);
    SessionFacts(b'.mem, b'.engine);
    StartTarget(b.engine, b'.engine, q);
    LooseIsTransfer(b'.engine, b'.mem);
    erased := {};
    FreshTransfer(b'.engine, b'.mem, erased);
    StillStartable(b.mem, b'.mem);
    FreshHeld(b', Succ16(q.sequence), q.payload, erased);
  }

  lemma StartStraight(e: Engine, m: Memory, q: Request)
    requires q.command == START_UPDATE
    ensures !Strays(e, m, q)
  {
    hide GoodTarget, InSequence, Duplicate, EndError;
  }

  lemma StartReceives(e: Engine, m: Memory, q: Request)
    requires q.command == START_UPDATE && Handle(e, m, q).reply.Ack?
    ensures var e' := Handle(e, m, q).engine;
      && e'.state == Receiving && e'.state != ReadyToBoot && e'.header == q.payload && e'.received == 0 && !e'.haveLast
      && e'.nextSequence == Succ16(q.sequence) && e'.metadata == e.metadata
  {
    hide HeaderOk, RangeAllowed, EraseSteps;
  }

  lemma StartTarget(e: Engine, e': Engine, q: Request)
    requires |q.payload| == HEADER_SIZE && HeaderOk(q.payload, Target(q.payload))
    requires Target(q.payload) == Other(e.metadata.active) && IsSlot(e.metadata.active)
    requires e'.header == q.payload && e'.metadata == e.metadata
    ensures GoodTarget(e')
  {
    hide HeaderOk;
  }

  lemma FreshHeld(b: Board, sequence: u16, header: seq<u8>, erased: set<nat>)
    requires Startable(b.mem) && SessionOk(b.mem, b.engine) && ChunksOk(Transfer(b.engine, b.mem, [], erased))
    requires b.engine.state == Receiving && b.engine.header == header && !b.engine.haveLast
    requires b.engine.nextSequence == sequence
    ensures HeldEngine(b, sequence, header, [], erased)
  {
    hide Startable, SessionOk, PrefixOk, PointerOk;
  }

  lemma HeldParts(b: Board, sequence: u16, header: seq<u8>, stored: seq<u8>, erased: set<nat>)
    requires HeldEngine(b, sequence, header, stored, erased)
    ensures Startable(b.mem) && SessionOk(b.mem, b.engine) && b.engine.state == Receiving && b.engine.header == header
    ensures b.engine.nextSequence == sequence && (b.engine.haveLast ==> Succ16(b.engine.lastSequence) == sequence)
    ensures PrefixOk(Transfer(b.engine, b.mem, stored, erased))
  {
    hide Startable, SessionOk, PrefixOk;
  }

  /** An acknowledged chunk is one that has been stored. */
  lemma ChunkHolds(b: Board, q: Request, header: seq<u8>, stored: seq<u8>, erased: set<nat>) returns (erased': set<nat>)
    requires HeldEngine(b, q.sequence, header, stored, erased)
    requires q.command == DATA && q.payload != [] && Acknowledged(b, q)
    ensures HeldEngine(Submitted(b, q), Succ16(q.sequence), header, stored + q.payload, erased')
  {
    hide *;
    HeldParts(b, q.sequence, header, stored, erased);
    var tr := Transfer(b.engine, b.mem, stored, erased);
    SubmittedIs(b, q);
    NotRepeated(b.engine, q);
    TakenData(tr, q);
    PrefixStraight(tr, q);
    NotRefused(b.engine, q);
    AdvanceKeepsPrefix(tr, q);
    AdvanceIs(tr, q);
    PacketKeepsSession(b.mem, b.engine, q);
    StillStartable(b.mem, Submitted(b, q).mem);
    erased' := Advance(tr, q).erased;
    HeldAgain(Submitted(b, q), Succ16(q.sequence), header, Advance(tr, q));
  }

  lemma NotRepeated(e: Engine, q: Request)
    requires e.haveLast ==> Succ16(e.lastSequence) == q.sequence
    ensures !Duplicate(e, q)
  {
    hide Crc32.Crc;
  }

  lemma NotRefused(e: Engine, q: Request)
    requires q.command == DATA
    ensures !RefusedMidTransfer(e, q)
  {
  }

  lemma PrefixStraight(t: Transfer, q: Request)
    requires PrefixOk(t)
    ensures !Strays(t.engine, t.mem, q)
  {
    hide TransferOk, LooseTransfer, EngineOk, GoodTarget, InSequence, Duplicate, EndError;
    TransferIsLoose(t.engine, t.mem);
  }

  lemma TakenData(t: Transfer, q: Request)
    requires q.command == DATA && !Duplicate(t.engine, q) && Handle(t.engine, t.mem, q).reply.Ack? && q.payload != []
    ensures var t' := Advance(t, q);
      && t'.accepted == t.accepted + q.payload
      && t'.engine.state == Receiving && t'.engine.header == t.engine.header && t'.engine.state != ReadyToBoot
      && t'.engine.nextSequence == Succ16(t.engine.nextSequence) && t'.engine.nextSequence == Succ16(q.sequence)
      && t'.engine.haveLast && t'.engine.lastSequence == q.sequence
  {
    hide Duplicate, Crc32.Crc, PayloadSize, Replay, ErasedBy, DataSteps;
    if WriteSucceeds(t.engine, t.mem, q) { ReadBack(t.engine, t.mem, q); }
  }

  lemma HeldAgain(b: Board, sequence: u16, header: seq<u8>, t: Transfer)
    requires Startable(b.mem) && SessionOk(b.mem, b.engine) && PrefixOk(t) && t.engine == b.engine && t.mem == b.mem
    requires b.engine.state == Receiving && b.engine.header == header && b.engine.nextSequence == sequence
    requires b.engine.haveLast ==> Succ16(b.engine.lastSequence) == sequence
    ensures HeldEngine(b, sequence, header, t.accepted, t.erased)
  {
    hide Startable, SessionOk, PrefixOk;
  }

  /** The splitter and the engine after these bytes: nothing has happened before
      the header is complete. */
  ghost predicate Follows(c: Cloud, board: Board, size: nat, v: Version, data: seq<u8>, erased: set<nat>) {
    Gated(c, board, size, v, data) && (|data| >= 32 ==> Held(c, data, erased))
  }

  lemma FlushHolds(c: LiveCloud, data: seq<u8>, stored: seq<u8>, erased: set<nat>) returns (erased': set<nat>)
    requires c.chunk != [] && HeldEngine(c.board, c.sequence, data, stored, erased) && FlushChunk(c).1 == Fine
    ensures var c1 := FlushChunk(c).0;
      && c1 == c.(chunk := [], sequence := c1.sequence, board := c1.board)
      && HeldEngine(c1.board, c1.sequence, data, stored + c.chunk, erased')
  {
    var q := Request(DATA, c.sequence, c.chunk);
    hide HeldEngine, Submitted, Acknowledged;
    erased' := ChunkHolds(c.board, q, data, stored, erased);
  }

  lemma HeaderHolds(c: LiveCloud) returns (erased: set<nat>)
    requires |c.header| == HEADER_SIZE && Startable(c.board.mem) && SessionOk(c.board.mem, c.board.engine)
    requires StartFromHeader(c).1 == Fine
    ensures var c1 := StartFromHeader(c).0;
      && c1 == c.(started := true, sequence := c1.sequence, board := c1.board)
      && HeldEngine(c1.board, c1.sequence, c.header, [], erased)
  {
    hide HeldEngine, Submitted, Acknowledged, HeaderWanted, Startable, SessionOk;
    erased := StartHolds(c.board, Request(START_UPDATE, c.sequence, c.header));
  }

  lemma BodyGrows(data: seq<u8>, b: u8)
    ensures |data| < PAGE ==> Body(data + [b]) == []
    ensures |data| >= PAGE ==> Body(data + [b]) == Body(data) + [b]
    ensures |data| < PAGE ==> Body(data) == []
  {
    if |data| >= PAGE { assert (data + [b])[PAGE..] == data[PAGE..] + [b]; }
  }

  /** One accepted byte. */
  lemma FollowsByte(c: LiveCloud, b: u8, board: Board, size: nat, v: Version, data: seq<u8>, erased: set<nat>)
    returns (erased': set<nat>)
    requires Startable(board.mem) && SessionOk(board.mem, board.engine)
    requires Follows(c, board, size, v, data, erased) && |data| < size && Expecting(c) && PutByte(c, b).1 == Fine
    ensures Follows(PutByte(c, b).0, board, size, v, data + [b], erased')
  {
    hide Expected, HeldEngine, StartFromHeader, FlushChunk, Startable, SessionOk, Flushed, Payloads, Gated;
    GatedByte(c, b, board, size, v, data);
    FlushedFacts(|data|);
    BodyGrows(data, b);
    erased' := erased;
    GatedShape(c, board, size, v, data);
    if |data| < 32 {
      if |data| + 1 == 32 {
        var c1 := c.(header := c.header + [b], packageReceived := c.packageReceived + 1);
        erased' := HeaderHolds(c1);
        NoPayload(32);
        assert (data + [b])[..32] == data + [b];
      }
    } else {
      assert (data + [b])[..32] == data[..32];
      if |data| < PAGE {
        NoPayload(|data|);
      } else {
        erased' := PayloadFollows(c, b, data, erased);
      }
    }
  }

  lemma PayloadFollows(c: LiveCloud, b: u8, data: seq<u8>, erased: set<nat>) returns (erased': set<nat>)
    requires PAGE <= |data| && Held(c, data, erased) && c.packageReceived == |data|
    requires Expecting(c) && PutByte(c, b).1 == Fine
    ensures Held(PutByte(c, b).0, data + [b], erased')
  {
    hide HeldEngine, StartFromHeader, FlushChunk, Flushed, Payloads;
    FlushedFacts(|data|);
    BodyGrows(data, b);
    assert (data + [b])[..32] == data[..32];
    erased' := erased;
    var done := Flushed(|data|);
    assert (Body(data) + [b])[..done] == Body(data)[..done];
    assert (Body(data) + [b])[done..] == Body(data)[done..] + [b];
    var c1 := c.(chunk := c.chunk + [b], packageReceived := c.packageReceived + 1);
    if |c1.chunk| == CHUNK_MAX {
      erased' := FlushHolds(c1, data[..32], Body(data)[..done], erased);
      assert Body(data + [b])[..done] + c1.chunk == Body(data + [b]);
      assert Body(data + [b])[..|Body(data + [b])|] == Body(data + [b]);
    }
  }

  lemma GatedShape(c: Cloud, board: Board, size: nat, v: Version, data: seq<u8>)
    requires Gated(c, board, size, v, data)
    ensures c.packageReceived == |data| && (|data| < 32 ==> c.header == data && c.chunk == [] && c.board == board)
    ensures |data| >= 32 ==> c.header == data[..32]
  {
    hide Expected;
  }

  lemma {:induction false} FollowsBytes(c: LiveCloud, more: seq<u8>, board: Board, size: nat, v: Version)
    returns (erased: set<nat>)
    requires Startable(board.mem) && SessionOk(board.mem, board.engine)
    requires Follows(c, board, size, v, [], {}) && Room(c, |more|) && PutAll(c, more).1 == Fine
    ensures Follows(PutAll(c, more).0, board, size, v, more, erased)
    decreases |more|
  {
    hide Follows, PutByte, Startable, SessionOk;
    if more == [] {
      erased := {};
    } else {
      var n := |more| - 1;
      erased := FollowsBytes(c, more[..n], board, size, v);
      var c1 := PutAll(c, more[..n]).0;
      FollowsRoom(c, board, size, v, [], {});
      FollowsRoom(c1, board, size, v, more[..n], erased);
      erased := FollowsByte(c1, more[n], board, size, v, more[..n], erased);
      assert more[..n] + [more[n]] == more;
    }
  }

  lemma FollowsRoom(c: Cloud, board: Board, size: nat, v: Version, data: seq<u8>, erased: set<nat>)
    requires Follows(c, board, size, v, data, erased)
    ensures c.packageReceived == |data| && c.remoteSize == size
  {
    hide Held, Expected;
  }

  /** The flash holds exactly this header, erased bytes and this payload in slot
      t, the image validates, and the record that the next start-up finds marks
      it PENDING with version v, beside the same active slot. */
  ghost predicate Holds(m: Memory, active: u8, t: u8, v: Version, header: seq<u8>, payload: seq<u8>) {
    var r, start := EffectiveRecord(m), SlotStart(t);
    && IsSlot(t) && start + PAGE + |payload| <= FLASH_END
    && m[start..start + PAGE + |payload|] == header + seq(PAGE - HEADER_SIZE, i => 0xFF) + payload
    && ImageOk(m, t) && r.pending == t && r.Slot(t).state == PENDING && r.Slot(t).version == v
    && r.active == active && IsSlot(active) && ImageOk(m, active)
  }

  lemma EndHolds(b: Board, sequence: u16, header: seq<u8>, payload: seq<u8>, erased: set<nat>, q: Request)
    requires HeldEngine(b, sequence, header, payload, erased) && |payload| <= PAYLOAD_MAX
    requires q.command == END_UPDATE && Acknowledged(b, q) && |header| == HEADER_SIZE
    ensures Holds(Submitted(b, q).mem, b.engine.metadata.active, Target(header), VersionOf(header), header, payload)
    ensures Target(header) == Other(b.engine.metadata.active)
    ensures Submitted(b, q).engine.state == ReadyToBoot
  {
    hide *;
    var e, m, t := b.engine, b.mem, Target(header);
    HeldParts(b, sequence, header, payload, erased);
    var tr := Transfer(e, m, payload, erased);
    PrefixParts(tr);
    GoodTargetFacts(e);
    SubmittedIs(b, q);
    EndAccepted(e, m, q);
    EndEffect(e, m, q);
    EndRecord(m, e);
    SessionFacts(m, e);
    LooseIsTransfer(e, m);
    TransferPage(m, e);
    PayloadPlace(tr, t, payload);
    HeaderPage(m, e);
    CommitLater(m, e);
    SlotRoom(t, payload);
    SlotsHold(m, Replay(m, HeaderSteps(e)), Replay(m, EndSteps(e)), SlotStart(t), header, payload);
    HoldsAll(Replay(m, EndSteps(e)), e.metadata.active, t, VersionOf(header), header, payload);
  }

  lemma EndAccepted(e: Engine, m: Memory, q: Request)
    requires q.command == END_UPDATE && Handle(e, m, q).reply.Ack?
    ensures EndError(e, m) == NoError
  {
    hide EndError, EndSteps, PendingRecord;
  }

  lemma SlotRoom(t: u8, payload: seq<u8>)
    requires IsSlot(t) && |payload| <= PAYLOAD_MAX
    ensures SLOT_A_START <= SlotStart(t) && SlotStart(t) + PAGE + |payload| <= METADATA_START <= FLASH_END
    ensures PayloadStart(t) == SlotStart(t) + PAGE
  {
  }

  lemma HoldsAll(m: Memory, active: u8, t: u8, v: Version, header: seq<u8>, payload: seq<u8>)
    requires IsSlot(t) && SlotStart(t) + PAGE + |payload| <= FLASH_END
    requires m[SlotStart(t)..SlotStart(t) + PAGE + |payload|] == header + seq(PAGE - HEADER_SIZE, i => 0xFF) + payload
    requires var r := EffectiveRecord(m);
      r.pending == t && r.Slot(t).state == PENDING && r.Slot(t).version == v && r.active == active
    requires ImageOk(m, t) && IsSlot(active) && ImageOk(m, active)
    ensures Holds(m, active, t, v, header, payload)
  {
    hide EffectiveRecord, ImageOk;
  }

  /** At the end of the bytes: finish flushes the rest and publishes. */
  lemma FinishHolds(c: LiveCloud, board: Board, size: nat, v: Version, data: seq<u8>, erased: set<nat>)
    requires Follows(c, board, size, v, data, erased) && FinishPackage(c).1 == ReadyToReboot
    ensures Installed(c, FinishPackage(c).0, size, v, data)
  {
    hide Expected, HeldEngine, FlushChunk, Submitted, Acknowledged, Holds, Flushed, Payloads, Gated;
    GatedFacts(c, board, size, v, data);
    GatedRoom(c, board, size, v, data);
    GatedSize(c, board, size, v, data);
    var stored, erased' := Body(data)[..Flushed(|data|)], erased;
    var c1 := FlushChunk(c).0;
    if c.chunk == [] {
      NoFlush(c);
      assert stored == Body(data);
    } else {
      erased' := FlushHolds(c, data[..32], stored, erased);
      assert stored + c.chunk == Body(data);
    }
    var q := Request(END_UPDATE, c1.sequence, []);
    ExpectedFields(data[..32], size, v);
    HeldSlot(c.board, c.sequence, data[..32], stored, erased);
    EndHolds(c1.board, c1.sequence, data[..32], Body(data), erased', q);
    FlushActive(c);
  }

  lemma GatedSize(c: Cloud, board: Board, size: nat, v: Version, data: seq<u8>)
    requires Gated(c, board, size, v, data)
    ensures PAGE < size <= PACKAGE_MAX
  {
    hide Expected;
  }

  lemma ExpectedFields(header: Header, size: nat, v: Version)
    requires Expected(header, size, v)
    ensures VersionOf(header) == v && Target(header) == header[6]
  {
    hide HeaderOk, VersionOf, PayloadSize;
  }

  lemma HeldSlot(b: Board, sequence: u16, header: seq<u8>, stored: seq<u8>, erased: set<nat>)
    requires HeldEngine(b, sequence, header, stored, erased)
    ensures IsSlot(b.engine.metadata.active)
  {
    hide *;
    HeldParts(b, sequence, header, stored, erased);
    SessionFacts(b.mem, b.engine);
  }

  lemma FlushActive(c: LiveCloud)
    requires IsSlot(c.board.engine.metadata.active)
    ensures FlushChunk(c).0.board.engine.metadata.active == c.board.engine.metadata.active
  {
    hide Submitted, Acknowledged;
    if c.chunk != [] { ActiveKept(c.board, Request(DATA, c.sequence, c.chunk)); }
  }

  lemma {:induction false} FineFits(c: LiveCloud, fs: Fragments)
    requires WriteAll(c, fs).1 == Fine && fs.Fragment? ==> c.attached
    ensures WriteAll(c, fs).1 == Fine ==> Room(c, |Joined(fs)|)
    decreases fs
  {
    hide PutByte;
    match fs
    case End =>
    case Fragment(data, rest) =>
      if Write(c, data).1 == Fine { FineFits(Write(c, data).0, rest); }
  }

  /** The bytes are a package of this size and version for the slot that is not
      active, and the flash holds it. */
  ghost predicate Installed(before: Cloud, after: Cloud, size: nat, v: Version, data: seq<u8>) {
    && |data| == size && size > PAGE && Expected(data[..32], size, v)
    && after.board.engine.state == ReadyToBoot
    && data[6] == Other(before.board.engine.metadata.active)
    && Holds(after.board.mem, before.board.engine.metadata.active, data[6], v, data[..32], data[PAGE..])
  }

  /** Conversely, whatever bytes arrive in whatever fragmentation: READY TO REBOOT
      is answered only if they begin with a header of the version and size asked
      for, for the inactive slot; and then the slot holds that header and the
      payload that was sent, byte for byte, and validates, and the next start-up
      finds it PENDING with that version. */
  lemma OnlyWhatWasSent(board: Board, size: nat, v: Version, fs: Fragments)
    requires Startable(board.mem) && SessionOk(board.mem, board.engine)
    ensures var (c0, r0) := Begin(board, size, v);
      var (c1, r1) := WriteAll(c0, fs);
      var (c2, r2) := FinishPackage(c1);
      r0 == Fine && r1 == Fine && r2 == ReadyToReboot ==> Installed(c1, c2, size, v, Joined(fs))
  {
    hide *;
    var (c0, r0) := Begin(board, size, v);
    var (c1, r1) := WriteAll(c0, fs);
    if r0 == Fine && r1 == Fine && FinishPackage(c1).1 == ReadyToReboot {
      Opening(board, size, v);
      FineFits(c0, fs);
      WritesAgree(c0, fs);
      StartsFollowing(c0, board, size, v);
      var erased := FollowsBytes(c0, Joined(fs), board, size, v);
      FinishHolds(c1, board, size, v, Joined(fs), erased);
    }
  }

  lemma StartsFollowing(c: Cloud, board: Board, size: nat, v: Version)
    requires Gated(c, board, size, v, [])
    ensures Follows(c, board, size, v, [], {})
  {
    hide Gated;
  }
}
