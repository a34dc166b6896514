// What the update engine keeps from request to request: protected regions,
// the erased header page, the received prefix, and the chunks it must accept.

module Session {
  import opened Bytes
  import opened Flash
  import opened Crc32
  import opened Image
  import opened Metadata
  import opened Update

  // ---- Protected regions ----

  /** Every step stays above the bootloader and outside the active slot. */
  predicate Harmless(steps: seq<Step>, active: u8) {
    && Avoids(steps, 0, SLOT_A_START)
    && Avoids(steps, SlotStart(active), SlotStart(active) + SLOT_SIZE)
  }

  lemma HarmlessConcat(a: seq<Step>, b: seq<Step>, active: u8)
    requires Harmless(a, active) && Harmless(b, active)
    ensures Harmless(a + b, active)
  {
  }

  lemma ProgramHarmless(address: u32, data: seq<u8>, active: u8)
    requires IsSlot(active) && ProgramAllowed(address, |data|, active) && |data| <= CHUNK_MAX
    ensures Harmless(ProgramSteps(address, Padded(data)), active)
  {
    GuardProtects(address, PaddedLength(|data|), active, Program);
  }

  lemma EraseHarmless(address: u32, active: u8)
    requires IsSlot(active) && RangeAllowed(address, PAGE, active, Erase)
    ensures Harmless(EraseSteps(address, PAGE), active)
  {
    GuardProtects(address, PAGE, active, Erase);
  }

  lemma CommitHarmless(copy: Copy, r: Record, active: u8)
    requires IsSlot(active)
    ensures Harmless(CommitSteps(copy, r), active)
  {
    hide Encode, Next;
  }

  lemma WriteHarmless(e: Engine, q: Request)
    requires IsSlot(e.metadata.active)
    ensures Harmless(WriteSteps(e, q), e.metadata.active)
  {
    hide RangeAllowed, ProgramAllowed, Harmless, EraseSteps, ProgramSteps, Padded;
    var active := e.metadata.active;
    NothingHarmless(active);
    if EraseOpen(e) {
      if e.received % PAGE == 0 { EraseHarmless(WriteAddress(e), active); }
      if ProgramAllowed(WriteAddress(e), |q.payload|, active) {
        ProgramHarmless(WriteAddress(e), q.payload, active);
        HarmlessConcat(LazyErase(e), ProgramSteps(WriteAddress(e), Padded(q.payload)), active);
      }
    }
  }

  lemma NothingHarmless(active: u8)
    ensures Harmless([], active)
  {
  }

  /** Whatever the request and whatever the engine's state, the flash steps
      leave the bootloader and the active slot alone, and the active slot of
      the session stays the same. */
  lemma HandleHarmless(e: Engine, m: Memory, q: Request)
    requires IsSlot(e.metadata.active)
    ensures var f := Handle(e, m, q);
      Harmless(f.steps, e.metadata.active) && f.engine.metadata.active == e.metadata.active
  {
    hide RangeAllowed, ProgramAllowed, Harmless, HeaderOk, PayloadVerified, Crc, Replay, CommitSteps,
      EraseSteps, ProgramSteps, Padded, Sound, WriteSteps, DataSteps, InSequence, Finalize;
    var active := e.metadata.active;
    NothingHarmless(active);
    if q.command == START_UPDATE && |q.payload| == HEADER_SIZE {
      var target := Target(q.payload);
      if RangeAllowed(SlotStart(target), PAGE, active, Erase) { EraseHarmless(SlotStart(target), active); }
    } else if q.command == DATA {
      WriteHarmless(e, q);
      if WriteSucceeds(e, m, q) { SucceedsWrites(e, m, q); }
    } else if q.command == END_UPDATE && HeaderOpen(e) {
      ProgramHarmless(SlotStart(Target(e.header)), e.header, active);
      CommitHarmless(OtherCopy(e.copy), PendingRecord(e), active);
      HarmlessConcat(HeaderSteps(e), CommitSteps(OtherCopy(e.copy), PendingRecord(e)), active);
      PendingKeepsActive(e);
    }
  }

  lemma PendingKeepsActive(e: Engine)
    ensures PendingRecord(e).active == e.metadata.active
    ensures PendingRecord(e).generation == e.metadata.generation
    ensures PendingRecord(e).pending == Target(e.header)
  {
  }

  lemma SucceedsWrites(e: Engine, m: Memory, q: Request)
    requires WriteSucceeds(e, m, q)
    ensures WriteSteps(e, q) == DataSteps(e, q)
  {
  }

  /** A whole session of arbitrary packets, refused START packets included. */
  function Serve(e: Engine, m: Memory, qs: seq<Request>): (Engine, Memory) {
    if qs == [] then (e, m)
    else
      var (e1, m1) := Serve(e, m, qs[..|qs| - 1]);
      var f := Handle(e1, m1, qs[|qs| - 1]);
      (f.engine, Replay(m1, f.steps))
  }

  /** No run of packets changes a bootloader byte or a byte of the active
      slot; the active slot stays what it was. */
  lemma {:induction false} ProtectedRegions(e: Engine, m: Memory, qs: seq<Request>)
    requires IsSlot(e.metadata.active)
    ensures var (e', m') := Serve(e, m, qs);
      var start := SlotStart(e.metadata.active);
      && Same(m, m', 0, SLOT_A_START)
      && Same(m, m', start, start + SLOT_SIZE)
      && e'.metadata.active == e.metadata.active
  {
    hide Handle, Replay, Avoids;
    if qs != [] {
      ProtectedRegions(e, m, qs[..|qs| - 1]);
      var (e1, m1) := Serve(e, m, qs[..|qs| - 1]);
      var f := Handle(e1, m1, qs[|qs| - 1]);
      HandleHarmless(e1, m1, qs[|qs| - 1]);
      var start := SlotStart(e.metadata.active);
      ReplaySame(m1, f.steps, 0, SLOT_A_START);
      ReplaySame(m1, f.steps, start, start + SLOT_SIZE);
    }
  }

  // ---- The erased header page of a transfer ----

  /** What the rest of the bootloader gives the engine: an active slot to
      protect and a record that can be stored. */
  predicate EngineOk(e: Engine) { IsSlot(e.metadata.active) && Sound(e.metadata) }

  /** The engine's header names a valid target other than the active slot. */
  predicate GoodTarget(e: Engine) {
    HeaderOk(e.header, Target(e.header)) && Target(e.header) != e.metadata.active
  }

  /** During a transfer the target is known good and its header page is blank:
      nothing can boot from it. */
  predicate TransferOk(e: Engine, m: Memory) {
    e.state == Receiving ==>
      && GoodTarget(e)
      && e.received <= PayloadSize(e.header)
      && Blank(m, SlotStart(Target(e.header)), PayloadStart(Target(e.header)))
  }

  /** A START packet whose header is copied over the running transfer's header
      and then refused. */
  predicate RefusedMidTransfer(e: Engine, q: Request) {
    && e.state == Receiving
    && q.command == START_UPDATE
    && |q.payload| == HEADER_SIZE
    && !(HeaderOk(q.payload, Target(q.payload)) && Target(q.payload) != e.metadata.active)
  }

  lemma GoodTargetFacts(e: Engine)
    requires EngineOk(e) && GoodTarget(e)
    ensures IsSlot(Target(e.header)) && Target(e.header) == Other(e.metadata.active)
    ensures 0 < PayloadSize(e.header) <= PAYLOAD_MAX
    ensures HeaderOpen(e)
  {
    hide PayloadSize;
  }

  lemma TargetOpens(target: u8, active: u8)
    requires IsSlot(target) && IsSlot(active) && target != active
    ensures RangeAllowed(SlotStart(target), PAGE, active, Erase)
    ensures EraseSteps(SlotStart(target), PAGE) == [EraseStep(SlotStart(target))]
  {
  }

  /** Inside a transfer, a write starts at the write pointer and ends inside
      the target slot. */
  lemma WriteFootprint(e: Engine, q: Request, lo: nat, hi: nat)
    requires EngineOk(e) && GoodTarget(e) && e.received < PayloadSize(e.header)
    requires hi <= PayloadStart(Target(e.header)) + e.received || lo >= SlotStart(Target(e.header)) + SLOT_SIZE
    ensures WriteAddress(e) == PayloadStart(Target(e.header)) + e.received
    ensures Avoids(WriteSteps(e, q), lo, hi)
  {
    hide HeaderOk, PayloadSize, Padded;
    GoodTargetFacts(e);
    var wa := WriteAddress(e);
    assert wa == PayloadStart(Target(e.header)) + e.received;
    if EraseOpen(e) {
      var p := Padded(q.payload);
      PaddedFits(q.payload);
      if e.received % PAGE == 0 {
        GuardExact(wa, PAGE, e.metadata.active, Erase);
        assert wa + PAGE <= SlotStart(Target(e.header)) + SLOT_SIZE;
      }
      assert Avoids(LazyErase(e), lo, hi);
      if ProgramAllowed(wa, |q.payload|, e.metadata.active) {
        GuardExact(wa, PaddedLength(|q.payload|), e.metadata.active, Program);
        assert wa + |p| <= SlotStart(Target(e.header)) + SLOT_SIZE;
        assert Avoids(ProgramSteps(wa, p), lo, hi);
      }
    }
  }

  lemma PaddedFits(p: Payload)
    ensures p != [] ==> |Padded(p)| == PaddedLength(|p|)
    ensures p == [] ==> PaddedLength(|p|) == 0
  {
  }

  lemma PendingIsSound(e: Engine)
    requires EngineOk(e) && IsSlot(Target(e.header))
    ensures RecordValid(PendingRecord(e))
    ensures Sound(PendingRecord(e))
  {
    hide RecordCrc, PayloadSize, PayloadCrc, VersionOf;
    var target := Target(e.header);
    var r := e.metadata.WithSlot(target,
      SlotRecord(PENDING, ZERO3, VersionOf(e.header), 0, PayloadSize(e.header), PayloadCrc(e.header), 0))
      .(pending := target);
    assert Sound(r);
    FinalizeIsValid(r);
  }

  lemma InSequenceFits(e: Engine, q: Request)
    requires e.received <= PayloadSize(e.header) && InSequence(e, q)
    ensures 0 < |q.payload| <= PayloadSize(e.header) - e.received
    ensures Add32(e.received, |q.payload|) == e.received + |q.payload|
  {
    hide PayloadSize;
  }

  lemma StartKeepsTransfer(e: Engine, m: Memory, q: Request)
    requires EngineOk(e) && TransferOk(e, m) && q.command == START_UPDATE && !RefusedMidTransfer(e, q)
    ensures var f := HandleStart(e, q);
      EngineOk(f.engine) && TransferOk(f.engine, Replay(m, f.steps))
  {
    hide HeaderOk, PayloadSize, Sound, RangeAllowed;
    ReplayNone(m);
    if |q.payload| == HEADER_SIZE {
      var target := Target(q.payload);
      if HeaderOk(q.payload, target) && target != e.metadata.active {
        HeaderSize(q.payload, target);
        TargetOpens(target, e.metadata.active);
        ReplayOne(m, EraseStep(SlotStart(target)));
      }
    }
  }

  lemma DataKeepsTransfer(e: Engine, m: Memory, q: Request)
    requires EngineOk(e) && TransferOk(e, m)
    ensures var f := HandleData(e, m, q);
      EngineOk(f.engine) && TransferOk(f.engine, Replay(m, f.steps))
  {
    hide HeaderOk, PayloadSize, Sound, Duplicate, InSequence, WriteSteps, WriteSucceeds, DataSteps, Replay, Crc;
    ReplayNone(m);
    if e.state == Receiving && !Duplicate(e, q) && InSequence(e, q) {
      InSequenceFits(e, q);
      GoodTargetFacts(e);
      var t := Target(e.header);
      WriteFootprint(e, q, SlotStart(t), PayloadStart(t));
      ReplaySame(m, WriteSteps(e, q), SlotStart(t), PayloadStart(t));
      if WriteSucceeds(e, m, q) { SucceedsWrites(e, m, q); }
    }
  }

  lemma EndKeepsTransfer(e: Engine, m: Memory, q: Request)
    requires EngineOk(e) && TransferOk(e, m)
    ensures var f := HandleEnd(e, m, q);
      EngineOk(f.engine) && TransferOk(f.engine, Replay(m, f.steps))
  {
    hide HeaderOk, PayloadSize, Sound, PayloadVerified, PendingRecord, EndSteps, Replay;
    ReplayNone(m);
    if e.state == Receiving {
      GoodTargetFacts(e);
      PendingIsSound(e);
      PendingKeepsActive(e);
    }
  }

  /** Every request keeps the transfer invariant, unless it is a START that is
      refused in the middle of a transfer. */
  lemma HandleKeepsTransfer(e: Engine, m: Memory, q: Request)
    requires EngineOk(e) && TransferOk(e, m) && !RefusedMidTransfer(e, q)
    ensures var f := Handle(e, m, q);
      EngineOk(f.engine) && TransferOk(f.engine, Replay(m, f.steps))
  {
    hide HandleStart, HandleData, HandleEnd, HeaderOk, Sound, RefusedMidTransfer, PayloadSize;
    ReplayNone(m);
    hide Replay;
    if q.command == START_UPDATE {
      StartKeepsTransfer(e, m, q);
    } else if q.command == DATA {
      DataKeepsTransfer(e, m, q);
    } else if q.command == END_UPDATE {
      EndKeepsTransfer(e, m, q);
    }
  }

  /** The exception is exact: after a START packet during a transfer, a
      receiving engine holds a good header if and only if the packet was not
      refused after its header had been copied. */
  lemma RefusedStartExact(e: Engine, m: Memory, q: Request)
    requires EngineOk(e) && TransferOk(e, m) && q.command == START_UPDATE
    ensures var e' := Handle(e, m, q).engine;
      (e'.state == Receiving ==> GoodTarget(e')) <==> !RefusedMidTransfer(e, q)
  {
    hide HeaderOk, Replay;
    if !RefusedMidTransfer(e, q) {
      HandleKeepsTransfer(e, m, q);
    }
  }

  /** For instance a START whose 32 bytes are all zero is refused, and leaves
      a receiving engine with a header that does not validate. */
  lemma ZeroStartLeavesBadHeader(e: Engine, m: Memory, sequence: u16)
    requires e.state == Receiving
    ensures var q := Request(START_UPDATE, sequence, ZeroHeader());
      var f := Handle(e, m, q);
      f.reply.Nack? && f.engine.state == Receiving && !GoodTarget(f.engine)
  {
    var h := ZeroHeader();
    assert GetU32(h, 0) == 0;
  }

  // ---- Transfers that go on with a refused header ----

  /** The engine is receiving with a header that a refused START left behind. */
  predicate Misled(e: Engine) { e.state == Receiving && !GoodTarget(e) }

  /** What is left of the transfer invariant when STARTs may be refused: the
      header page of the inactive slot is blank. */
  predicate LooseTransfer(e: Engine, m: Memory) {
    e.state == Receiving ==>
      && Blank(m, SlotStart(Other(e.metadata.active)), PayloadStart(Other(e.metadata.active)))
      && (GoodTarget(e) ==> e.received <= PayloadSize(e.header))
  }

  /** An engine with a refused header stores a DATA payload in the metadata
      pages or in the header page of the inactive slot, or publishes the refused
      header in END. */
  predicate Strays(e: Engine, m: Memory, q: Request) {
    && Misled(e)
    && ((q.command == DATA && InSequence(e, q) && !Duplicate(e, q)
         && (METADATA_START <= WriteAddress(e)
             || SlotStart(Other(e.metadata.active)) <= WriteAddress(e) < PayloadStart(Other(e.metadata.active))))
        || (q.command == END_UPDATE && Published(EndError(e, m))))
  }

  lemma LooseIsTransfer(e: Engine, m: Memory)
    requires EngineOk(e) && LooseTransfer(e, m) && (e.state == Receiving ==> GoodTarget(e))
    ensures TransferOk(e, m)
  {
    hide HeaderOk, PayloadSize, Sound;
    if e.state == Receiving { GoodTargetFacts(e); }
  }

  lemma TransferIsLoose(e: Engine, m: Memory)
    requires EngineOk(e) && TransferOk(e, m)
    ensures LooseTransfer(e, m) && !Misled(e)
  {
    hide HeaderOk, PayloadSize, Sound;
    if e.state == Receiving { GoodTargetFacts(e); }
  }

  lemma PublishesGood(e: Engine, m: Memory, q: Request)
    requires q.command == END_UPDATE && Published(EndError(e, m)) && !Strays(e, m, q)
    ensures GoodTarget(e)
  {
    hide GoodTarget, PayloadVerified, PayloadSize, HeaderOpen, Sound, PendingRecord;
  }

  /** As long as no more has been received than a slot can hold, DATA does not
      stray, whatever header was left behind. */
  lemma PointerInside(e: Engine, m: Memory, q: Request)
    requires EngineOk(e) && q.command == DATA && e.received < PAYLOAD_MAX
    ensures !Strays(e, m, q)
  {
    hide InSequence, Duplicate, Sound, GoodTarget;
    assert WriteAddress(e) == PayloadStart(Target(e.header)) + e.received;
  }

  /** The guard keeps a write that starts neither in the metadata pages nor in
      the inactive slot's header page out of both. */
  lemma StartsOutside(e: Engine, q: Request)
    requires EngineOk(e) && WriteAddress(e) < METADATA_START
    requires var o := Other(e.metadata.active); !(SlotStart(o) <= WriteAddress(e) < PayloadStart(o))
    ensures var o := Other(e.metadata.active);
      Avoids(WriteSteps(e, q), METADATA_START, FLASH_END) && Avoids(WriteSteps(e, q), SlotStart(o), PayloadStart(o))
  {
    hide Padded, WriteAddress, Sound;
    PaddedFits(q.payload);
    var wa, active := WriteAddress(e), e.metadata.active;
    if EraseOpen(e) {
      if e.received % PAGE == 0 { GuardExact(wa, PAGE, active, Erase); }
      if ProgramAllowed(wa, |q.payload|, active) { GuardExact(wa, PaddedLength(|q.payload|), active, Program); }
    }
  }

  /** DATA that does not stray touches neither the records, nor the active
      slot, nor the header page of the other slot. */
  lemma DataAvoids(e: Engine, m: Memory, q: Request)
    requires EngineOk(e) && LooseTransfer(e, m) && q.command == DATA && !Strays(e, m, q)
    ensures var steps, o := HandleData(e, m, q).steps, Other(e.metadata.active);
      && (steps != [] ==> e.state == Receiving)
      && Avoids(steps, METADATA_START, FLASH_END)
      && Avoids(steps, SlotStart(o), PayloadStart(o))
      && Harmless(steps, e.metadata.active)
  {
    hide HeaderOk, Sound, Crc, Duplicate, InSequence, WriteSteps, WriteSucceeds, DataSteps, PayloadSize, Replay,
      Harmless, Blank, WriteAddress, GoodTarget, StepAvoids, EndError;
    NothingHarmless(e.metadata.active);
    if e.state == Receiving && !Duplicate(e, q) && InSequence(e, q) {
      if WriteSucceeds(e, m, q) { SucceedsWrites(e, m, q); }
      WriteHarmless(e, q);
      if GoodTarget(e) {
        GoodTargetFacts(e);
        InSequenceFits(e, q);
        var t := Target(e.header);
        WriteFootprint(e, q, METADATA_START, FLASH_END);
        WriteFootprint(e, q, SlotStart(t), PayloadStart(t));
      } else {
        StartsOutside(e, q);
      }
    }
  }

  lemma DataKeepsLoose(e: Engine, m: Memory, q: Request)
    requires EngineOk(e) && LooseTransfer(e, m) && q.command == DATA && !Strays(e, m, q)
    ensures var f := HandleData(e, m, q);
      EngineOk(f.engine) && LooseTransfer(f.engine, Replay(m, f.steps))
  {
    var f, o := HandleData(e, m, q), Other(e.metadata.active);
    hide HeaderOk, PayloadSize, Sound, Duplicate, InSequence, WriteSteps, WriteSucceeds, DataSteps, Replay, Crc,
      EndError, Avoids, Harmless, Strays;
    DataAvoids(e, m, q);
    ReplaySame(m, f.steps, SlotStart(o), PayloadStart(o));
    if e.state == Receiving && GoodTarget(e) {
      LooseIsTransfer(e, m);
      DataKeepsTransfer(e, m, q);
      TransferIsLoose(f.engine, Replay(m, f.steps));
    }
  }

  lemma StartKeepsLoose(e: Engine, m: Memory, q: Request)
    requires EngineOk(e) && LooseTransfer(e, m) && q.command == START_UPDATE
    ensures var f := HandleStart(e, q);
      EngineOk(f.engine) && LooseTransfer(f.engine, Replay(m, f.steps))
  {
    hide HeaderOk, PayloadSize, Sound, RangeAllowed;
    ReplayNone(m);
    if |q.payload| == HEADER_SIZE {
      var target := Target(q.payload);
      if HeaderOk(q.payload, target) && target != e.metadata.active {
        HeaderSize(q.payload, target);
        TargetOpens(target, e.metadata.active);
        ReplayOne(m, EraseStep(SlotStart(target)));
      }
    }
  }

  lemma EndKeepsLoose(e: Engine, m: Memory, q: Request)
    requires EngineOk(e) && LooseTransfer(e, m) && q.command == END_UPDATE && !Strays(e, m, q)
    ensures var f := HandleEnd(e, m, q);
      EngineOk(f.engine) && LooseTransfer(f.engine, Replay(m, f.steps))
  {
    hide HeaderOk, PayloadSize, Sound, PayloadVerified, PendingRecord, EndSteps, HeaderOpen, Replay;
    ReplayNone(m);
    if e.state == Receiving && GoodTarget(e) {
      GoodTargetFacts(e);
      PendingIsSound(e);
      PendingKeepsActive(e);
    }
  }

  /** Refused STARTs included: a request that does not stray keeps the header
      page of the inactive slot blank during a transfer. */
  lemma HandleKeepsLoose(e: Engine, m: Memory, q: Request)
    requires EngineOk(e) && LooseTransfer(e, m) && !Strays(e, m, q)
    ensures var f := Handle(e, m, q);
      EngineOk(f.engine) && LooseTransfer(f.engine, Replay(m, f.steps))
  {
    hide HandleStart, HandleData, HandleEnd, HeaderOk, Sound, Strays, PayloadSize;
    ReplayNone(m);
    hide Replay;
    if q.command == START_UPDATE {
      StartKeepsLoose(e, m, q);
    } else if q.command == DATA {
      DataKeepsLoose(e, m, q);
    } else if q.command == END_UPDATE {
      EndKeepsLoose(e, m, q);
    }
  }

  /** A header of erased bytes. */
  function ErasedHeader(): Header { seq(HEADER_SIZE, i => 0xFF) }

  /** What straying can do: a transfer of the largest size is complete, a START
      with an erased header is refused, and the next DATA packet strays: it
      erases metadata copy 0, whether or not the records need it. */
  lemma StrayErasesRecord(e: Engine, m: Memory, sequence: u16, q: Request)
    requires EngineOk(e) && e.state == Receiving && e.received == PAYLOAD_MAX && !Duplicate(e, q)
    requires q.command == DATA && q.sequence == e.nextSequence && q.payload != []
    ensures var start := Handle(e, m, Request(START_UPDATE, sequence, ErasedHeader()));
      && start.reply.Nack? && start.steps == []
      && Strays(start.engine, m, q)
      && var steps := Handle(start.engine, m, q).steps;
         && steps != [] && steps[0] == EraseStep(CopyStart(0))
         && !CopyValid(Replay(m, steps[..1]), 0)
  {
    var h := ErasedHeader();
    ErasedHeaderFields();
    hide HeaderOk, Crc, Sound, Replay, Padded, RecordValid, Decode;
    var e' := e.(header := h, lastError := BadHeaderField);
    assert Handle(e, m, Request(START_UPDATE, sequence, h)).engine == e';
    assert WriteAddress(e') == METADATA_START;
    StrayWrites(e', m, q);
    var steps := Handle(e', m, q).steps;
    assert steps[..1] == [EraseStep(CopyStart(0))];
    ReplayOne(m, EraseStep(CopyStart(0)));
    TornCopyFails(Replay(m, steps[..1]), 0);
  }

  lemma ErasedHeaderFields()
    ensures var h := ErasedHeader();
      && Target(h) == 0xFF && PayloadSize(h) == U32_MAX && !HeaderOk(h, Target(h))
  {
  }

  lemma StrayWrites(e: Engine, m: Memory, q: Request)
    requires IsSlot(e.metadata.active) && e.state == Receiving && e.received == PAYLOAD_MAX
    requires WriteAddress(e) == METADATA_START && PayloadSize(e.header) == U32_MAX
    requires !Duplicate(e, q) && q.command == DATA && q.sequence == e.nextSequence && q.payload != []
    ensures InSequence(e, q)
    ensures Handle(e, m, q).steps == DataSteps(e, q) && DataSteps(e, q)[..1] == [EraseStep(METADATA_START)]
  {
    hide Duplicate, PayloadSize, WriteAddress, Crc, Padded, Replay;
    GuardExact(METADATA_START, PAGE, e.metadata.active, Erase);
    GuardExact(METADATA_START, PaddedLength(|q.payload|), e.metadata.active, Program);
    PaddedFits(q.payload);
  }

  // ---- The received prefix ----

  /** A transfer with its history: the payload bytes accepted and the pages
      erased since the last accepted START. */
  datatype Transfer = Transfer(engine: Engine, mem: Memory, accepted: seq<u8>, erased: set<nat>)

  function ErasedBy(steps: seq<Step>): set<nat> {
    set k | 0 <= k < |steps| && steps[k].EraseStep? :: steps[k].page
  }

  function Advance(t: Transfer, q: Request): Transfer {
    var f := Handle(t.engine, t.mem, q);
    var m := Replay(t.mem, f.steps);
    if q.command == START_UPDATE && f.reply.Ack? then
      Transfer(f.engine, m, [], ErasedBy(f.steps))
    else if q.command == DATA && f.reply.Ack? && f.steps != [] then
      Transfer(f.engine, m, t.accepted + q.payload, t.erased + ErasedBy(f.steps))
    else
      Transfer(f.engine, m, t.accepted, t.erased + ErasedBy(f.steps))
  }

  predicate PrefixOk(t: Transfer) {
    && EngineOk(t.engine)
    && TransferOk(t.engine, t.mem)
    && (t.engine.state == Receiving ==>
          var start := PayloadStart(Target(t.engine.header));
          && GoodTarget(t.engine)
          && |t.accepted| == t.engine.received
          && start + |t.accepted| <= FLASH_END
          && t.mem[start..start + |t.accepted|] == t.accepted)
  }

  /** A write leaves the received prefix as it is; a successful one extends it
      by exactly the payload. */
  lemma WriteExtends(t: Transfer, q: Request)
    requires PrefixOk(t) && t.engine.state == Receiving && InSequence(t.engine, q)
    ensures var e := t.engine;
      var start, m := PayloadStart(Target(e.header)), Replay(t.mem, WriteSteps(e, q));
      && start + e.received <= FLASH_END
      && m[start..start + e.received] == t.accepted
      && (WriteSucceeds(e, t.mem, q) ==>
            && WriteSteps(e, q) == DataSteps(e, q) != []
            && start + e.received + |q.payload| <= FLASH_END
            && m[start..start + e.received + |q.payload|] == t.accepted + q.payload)
  {
    hide HeaderOk, PayloadSize, Sound, InSequence, WriteSteps, WriteSucceeds, DataSteps, Replay, TransferOk;
    var e := t.engine;
    assert e.received <= PayloadSize(e.header) by { TransferFacts(e, t.mem); }
    InSequenceFits(e, q);
    var start := PayloadStart(Target(e.header));
    var m := Replay(t.mem, WriteSteps(e, q));
    WriteFootprint(e, q, start, start + e.received);
    ReplaySame(t.mem, WriteSteps(e, q), start, start + e.received);
    SameSlice(t.mem, m, start, start + e.received, start, start + e.received);
    if WriteSucceeds(e, t.mem, q) {
      SucceedsWrites(e, t.mem, q);
      ReadBack(e, t.mem, q);
      JoinSlices(m, start, start + e.received, start + e.received + |q.payload|);
    }
  }

  lemma JoinSlices(m: Memory, a: nat, b: nat, c: nat)
    requires a <= b <= c <= FLASH_END
    ensures m[a..c] == m[a..b] + m[b..c]
  {
  }

  lemma TransferFacts(e: Engine, m: Memory)
    requires TransferOk(e, m) && e.state == Receiving
    ensures GoodTarget(e) && e.received <= PayloadSize(e.header)
  {
  }

  /** The three outcomes of a DATA packet during a transfer. */
  lemma AdvanceData(t: Transfer, q: Request)
    requires t.engine.state == Receiving && q.command == DATA && (InSequence(t.engine, q) ==> q.payload != [])
    ensures var e, t' := t.engine, Advance(t, q);
      && t'.engine.state == Receiving && t'.engine.header == e.header && t'.engine.metadata == e.metadata
      && (Duplicate(e, q) || !InSequence(e, q) ==>
            t'.mem == t.mem && t'.accepted == t.accepted && t'.engine.received == e.received)
      && (!Duplicate(e, q) && InSequence(e, q) && !WriteSucceeds(e, t.mem, q) ==>
            && t'.mem == Replay(t.mem, WriteSteps(e, q))
            && t'.accepted == t.accepted && t'.engine.received == e.received)
      && (!Duplicate(e, q) && InSequence(e, q) && WriteSucceeds(e, t.mem, q) ==>
            && Handle(e, t.mem, q).reply == Ack(DATA, q.sequence)
            && Handle(e, t.mem, q).steps == DataSteps(e, q)
            && t'.mem == Replay(t.mem, DataSteps(e, q))
            && t'.erased == t.erased + ErasedBy(DataSteps(e, q))
            && t'.accepted == t.accepted + q.payload
            && t'.engine.received == Add32(e.received, |q.payload|))
  {
    hide Duplicate, InSequence, WriteSteps, WriteSucceeds, DataSteps, Replay, Crc, ErasedBy, PayloadSize, Add32;
    ReplayNone(t.mem);
    if WriteSucceeds(t.engine, t.mem, q) && q.payload != [] { ReadBack(t.engine, t.mem, q); }
  }

  lemma DataAppends(t: Transfer, q: Request)
    requires PrefixOk(t) && t.engine.state == Receiving && q.command == DATA
    ensures PrefixOk(Advance(t, q))
  {
    hide HeaderOk, PayloadSize, Sound, Duplicate, InSequence, WriteSteps, WriteSucceeds, DataSteps, Replay, Crc,
      ErasedBy, TransferOk, EngineOk, GoodTarget, Advance, HandleData, Handle, Add32;
    var e := t.engine;
    DataKeepsTransfer(e, t.mem, q);
    AdvanceIsData(t, q);
    TransferFacts(e, t.mem);
    var t' := Advance(t, q);
    if InSequence(e, q) { InSequenceFits(e, q); }
    AdvanceData(t, q);
    SameTarget(e, t'.engine);
    if !Duplicate(e, q) && InSequence(e, q) {
      WriteExtends(t, q);
    }
  }

  lemma SameTarget(e: Engine, e': Engine)
    requires e'.header == e.header && e'.metadata == e.metadata
    ensures GoodTarget(e') == GoodTarget(e)
  {
  }

  lemma AdvanceIsData(t: Transfer, q: Request)
    requires q.command == DATA
    ensures var f := HandleData(t.engine, t.mem, q);
      Advance(t, q).engine == f.engine && Advance(t, q).mem == Replay(t.mem, f.steps)
  {
    hide HandleData, Replay, ErasedBy;
  }

  lemma ReadBack(e: Engine, m: Memory, q: Request)
    requires WriteSucceeds(e, m, q) && q.payload != []
    ensures DataSteps(e, q) != []
    ensures WriteAddress(e) + |q.payload| <= FLASH_END
    ensures Replay(m, DataSteps(e, q))[WriteAddress(e)..WriteAddress(e) + |q.payload|] == q.payload
  {
    hide Replay, RangeAllowed, WriteAddress, Padded;
    PaddedFits(q.payload);
    GuardExact(WriteAddress(e), PaddedLength(|q.payload|), e.metadata.active, Program);
    assert |DataSteps(e, q)| >= |ProgramSteps(WriteAddress(e), Padded(q.payload))|;
  }

  lemma AdvanceKeepsPrefix(t: Transfer, q: Request)
    requires PrefixOk(t) && !RefusedMidTransfer(t.engine, q)
    ensures PrefixOk(Advance(t, q))
  {
    hide HeaderOk, PayloadSize, Sound, Crc, ErasedBy, WriteSteps, WriteSucceeds, DataSteps, EndSteps, PendingRecord,
      PayloadVerified, RangeAllowed, EraseSteps;
    ReplayNone(t.mem);
    hide Replay;
    HandleKeepsTransfer(t.engine, t.mem, q);
    if q.command == DATA && t.engine.state == Receiving {
      DataAppends(t, q);
    } else if q.command == END_UPDATE && t.engine.state == Receiving {
      GoodTargetFacts(t.engine);
      PendingIsSound(t.engine);
    } else if q.command == START_UPDATE {
      StartClears(t, q);
    }
  }

  lemma StartClears(t: Transfer, q: Request)
    requires PrefixOk(t) && !RefusedMidTransfer(t.engine, q) && q.command == START_UPDATE
    ensures PrefixOk(Advance(t, q))
  {
    hide HeaderOk, PayloadSize, Sound, ErasedBy, RangeAllowed, EraseSteps;
    ReplayNone(t.mem);
    hide Replay;
    StartKeepsTransfer(t.engine, t.mem, q);
    if |q.payload| == HEADER_SIZE && HeaderOk(q.payload, Target(q.payload)) {
      HeaderSize(q.payload, Target(q.payload));
      if Target(q.payload) != t.engine.metadata.active {
        TargetOpens(Target(q.payload), t.engine.metadata.active);
      }
    }
  }

  function AdvanceAll(t: Transfer, qs: seq<Request>): Transfer
    decreases |qs|
  {
    if qs == [] then t else AdvanceAll(Advance(t, qs[0]), qs[1..])
  }

  lemma {:induction false} AdvanceLast(t: Transfer, qs: seq<Request>, q: Request)
    ensures AdvanceAll(t, qs + [q]) == Advance(AdvanceAll(t, qs), q)
    decreases |qs|
  {
    hide Advance;
    if qs == [] {
      assert qs + [q] == [q] && [q][1..] == [];
    } else {
      assert (qs + [q])[1..] == qs[1..] + [q];
      AdvanceLast(Advance(t, qs[0]), qs[1..], q);
    }
  }

  /** The packets of a run are handled one after the other, each by the engine
      and on the flash that the ones before have left. */
  lemma {:induction false} RunServes(t: Transfer, qs: seq<Request>, q: Request)
    ensures var (e, m) := Serve(t.engine, t.mem, qs);
      && AdvanceAll(t, qs).engine == e && AdvanceAll(t, qs).mem == m
      && Serve(t.engine, t.mem, qs + [q]) == (Handle(e, m, q).engine, Replay(m, Handle(e, m, q).steps))
    decreases |qs|
  {
    hide Handle, Replay, ErasedBy;
    assert (qs + [q])[..|qs|] == qs;
    if qs != [] {
      var n := |qs| - 1;
      RunServes(t, qs[..n], qs[n]);
      AdvanceLast(t, qs[..n], qs[n]);
      assert qs[..n] + [qs[n]] == qs;
    }
  }

  predicate NoRefusedStart(t: Transfer, qs: seq<Request>)
    decreases |qs|
  {
    qs == [] || (!RefusedMidTransfer(t.engine, qs[0]) && NoRefusedStart(Advance(t, qs[0]), qs[1..]))
  }

  /** The received prefix over any run of packets in which no START is refused
      in mid-transfer: while the engine is receiving, the flash from the start of
      the payload area holds exactly the accepted DATA payloads, in order. */
  lemma {:induction false} PrefixRun(t: Transfer, qs: seq<Request>)
    requires PrefixOk(t) && NoRefusedStart(t, qs)
    ensures var t' := AdvanceAll(t, qs);
      var start := PayloadStart(Target(t'.engine.header));
      PrefixOk(t') &&
      (t'.engine.state == Receiving ==>
         && |t'.accepted| == t'.engine.received && start + |t'.accepted| <= FLASH_END
         && t'.mem[start..start + |t'.accepted|] == t'.accepted)
    decreases |qs|
  {
    hide Advance, RefusedMidTransfer, EngineOk, TransferOk, GoodTarget;
    if qs != [] {
      AdvanceKeepsPrefix(t, qs[0]);
      PrefixRun(Advance(t, qs[0]), qs[1..]);
    }
  }

  // ---- Full chunks ----

  /** The sender's discipline: chunks of 256 bytes, and a last shorter one. */
  predicate FullChunk(e: Engine, q: Request) {
    |q.payload| == CHUNK_MAX || e.received + |q.payload| == PayloadSize(e.header)
  }

  function PageCeiling(n: nat): nat { (n + PAGE - 1) / PAGE * PAGE }

  /** Under that discipline the write pointer is at a chunk boundary, every
      page up to it has been erased in this transfer, and the rest of the
      current page is still blank. */
  ghost predicate ChunksOk(t: Transfer) {
    && PrefixOk(t)
    && (t.engine.state == Receiving && t.engine.received < PayloadSize(t.engine.header) ==>
          PointerOk(PayloadStart(Target(t.engine.header)), t.engine.received, t.mem, t.erased))
  }

  ghost predicate PointerOk(start: nat, n: nat, m: Memory, erased: set<nat>) {
    && n % CHUNK_MAX == 0
    && start + PageCeiling(n) <= FLASH_END
    && Blank(m, start + n, start + PageCeiling(n))
    && forall k: nat :: k * PAGE < n ==> PageAt(start, k) in erased
  }

  function PageAt(start: nat, k: nat): nat { start + k * PAGE }

  /** Every programmed word lies in a page erased in this transfer. */
  predicate OnErasedPages(steps: seq<Step>, erased: set<nat>) {
    forall k :: 0 <= k < |steps| && steps[k].WordStep? ==>
      && steps[k].address / PAGE * PAGE in erased
      && |steps[k].word| == 4 && steps[k].address % PAGE + 4 <= PAGE
  }

  lemma PageArithmetic(n: nat)
    requires n % CHUNK_MAX == 0
    ensures n % PAGE != 0 ==> n + CHUNK_MAX <= PageCeiling(n) && PageCeiling(n) == n / PAGE * PAGE + PAGE
    ensures n % PAGE == 0 ==> PageCeiling(n) == n
    ensures n <= PageCeiling(n) < n + PAGE
    ensures PageCeiling(n + CHUNK_MAX) == if n % PAGE == 0 then n + PAGE else PageCeiling(n)
    ensures n <= PAYLOAD_MAX ==> PageCeiling(n) <= PAYLOAD_MAX
    ensures n < PAYLOAD_MAX ==> n / PAGE * PAGE + PAGE <= PAYLOAD_MAX
  {
  }

  /** The guard lets the next write of a transfer through, and it stays on
      the current page. */
  lemma WriteOpen(e: Engine, q: Request)
    requires EngineOk(e) && GoodTarget(e) && e.received < PayloadSize(e.header)
    requires e.received % CHUNK_MAX == 0 && 0 < |q.payload|
    ensures var start, n := PayloadStart(Target(e.header)), e.received;
      && EraseOpen(e) && ProgramAllowed(WriteAddress(e), |q.payload|, e.metadata.active)
      && WriteAddress(e) == start + n
      && start + n / PAGE * PAGE + PAGE <= FLASH_END
      && n + |Padded(q.payload)| <= n / PAGE * PAGE + PAGE
      && LazyErase(e) == (if n % PAGE == 0 then [EraseStep(start + n)] else [])
  {
    hide HeaderOk, PayloadSize, Sound;
    var start, n := PayloadStart(Target(e.header)), e.received;
    GoodTargetFacts(e);
    PageArithmetic(n);
    PaddedFits(q.payload);
    if n % PAGE == 0 { GuardExact(start + n, PAGE, e.metadata.active, Erase); }
    GuardExact(start + n, PaddedLength(|q.payload|), e.metadata.active, Program);
  }

  /** The current page after the lazy erase: blank from the write pointer on. */
  lemma PageReady(t: Transfer, q: Request)
    requires ChunksOk(t) && t.engine.state == Receiving && t.engine.received < PayloadSize(t.engine.header)
    requires 0 < |q.payload|
    ensures var e := t.engine;
      var start := PayloadStart(Target(e.header));
      var n := e.received;
      && EraseOpen(e) && ProgramAllowed(WriteAddress(e), |q.payload|, e.metadata.active)
      && WriteAddress(e) == start + n
      && start + n / PAGE * PAGE + PAGE <= FLASH_END
      && n + |Padded(q.payload)| <= n / PAGE * PAGE + PAGE
      && Blank(Replay(t.mem, LazyErase(e)), start + n, start + n / PAGE * PAGE + PAGE)
      && LazyErase(e) == (if n % PAGE == 0 then [EraseStep(start + n)] else [])
  {
    hide HeaderOk, PayloadSize, Sound, EraseOpen, ProgramAllowed, WriteAddress, Padded, GoodTarget, TransferOk,
      EngineOk, LazyErase, Replay, PageCeiling;
    var e := t.engine;
    var start, n := PayloadStart(Target(e.header)), e.received;
    WriteOpen(e, q);
    PageArithmetic(n);
    ReplayNone(t.mem);
    if n % PAGE == 0 { ReplayOne(t.mem, EraseStep(start + n)); }
  }

  /** A full chunk that is next in sequence is always stored: the write
      succeeds, and the bytes after it in the page stay blank. */
  lemma ChunkStored(t: Transfer, q: Request)
    requires ChunksOk(t) && t.engine.state == Receiving && t.engine.received < PayloadSize(t.engine.header)
    requires 0 < |q.payload|
    ensures WriteSucceeds(t.engine, t.mem, q)
    ensures var e := t.engine;
      var pageEnd := PayloadStart(Target(e.header)) + e.received / PAGE * PAGE + PAGE;
      && WriteAddress(e) + |Padded(q.payload)| <= pageEnd <= FLASH_END
      && Blank(Replay(t.mem, DataSteps(e, q)), WriteAddress(e) + |Padded(q.payload)|, pageEnd)
  {
    hide HeaderOk, PayloadSize, EraseOpen, ProgramAllowed, Padded, Replay, LazyErase, WriteAddress, EngineOk,
      TransferOk, PointerOk, GoodTarget;
    PageReady(t, q);
    var e := t.engine;
    var ready := Replay(t.mem, LazyErase(e));
    var pageEnd := PayloadStart(Target(e.header)) + e.received / PAGE * PAGE + PAGE;
    ReplayConcat(t.mem, LazyErase(e), ProgramSteps(WriteAddress(e), Padded(q.payload)));
    BlankStores(ready, WriteAddress(e), q.payload, pageEnd);
  }

  lemma BlankStores(m: Memory, address: nat, payload: Payload, end: nat)
    requires address + |Padded(payload)| <= end <= FLASH_END && Blank(m, address, end)
    ensures var m' := Replay(m, ProgramSteps(address, Padded(payload)));
      Read(m', address, |payload|) == payload && Blank(m', address + |Padded(payload)|, end)
  {
    var words := Padded(payload);
    ProgramAll(m, address, words);
    ProgramBlank(m, address, words);
    var m' := Programmed(m, address, words);
    assert m'[address..address + |payload|] == m'[address..address + |words|][..|payload|];
  }

  /** Under the chunk discipline an in-sequence DATA packet is accepted, it
      only programs pages erased in this transfer, and the discipline's
      invariant is kept. */
  lemma ChunkAccepted(t: Transfer, q: Request)
    requires ChunksOk(t) && t.engine.state == Receiving && q.command == DATA
    requires InSequence(t.engine, q) && !Duplicate(t.engine, q) && FullChunk(t.engine, q)
    ensures var t' := Advance(t, q);
      && Handle(t.engine, t.mem, q).reply == Ack(DATA, q.sequence)
      && t'.accepted == t.accepted + q.payload
      && t'.engine.state == Receiving && t'.engine.header == t.engine.header
      && t'.engine.received == t.engine.received + |q.payload|
      && ChunksOk(t')
      && OnErasedPages(Handle(t.engine, t.mem, q).steps, t'.erased)
  {
    hide HeaderOk, PayloadSize, Sound, Duplicate, InSequence, DataSteps, Replay, Crc, Handle, Advance, EngineOk,
      ErasedBy, TransferOk, OnErasedPages, PointerOk;
    var e := t.engine;
    ChunkStep(t, q);
    if e.received + |q.payload| < PayloadSize(e.header) {
      PointerMoves(t, q);
    }
  }

  lemma ChunkStep(t: Transfer, q: Request)
    requires ChunksOk(t) && t.engine.state == Receiving && q.command == DATA
    requires InSequence(t.engine, q) && !Duplicate(t.engine, q)
    ensures 0 < |q.payload| <= PayloadSize(t.engine.header) - t.engine.received
    ensures var e, t' := t.engine, Advance(t, q);
      && Handle(e, t.mem, q).reply == Ack(DATA, q.sequence)
      && Handle(e, t.mem, q).steps == DataSteps(e, q)
      && t'.accepted == t.accepted + q.payload
      && t'.engine.state == Receiving && t'.engine.header == e.header
      && t'.engine.received == e.received + |q.payload|
      && t'.mem == Replay(t.mem, DataSteps(e, q))
      && t'.erased == t.erased + ErasedBy(DataSteps(e, q))
      && PrefixOk(t')
      && OnErasedPages(DataSteps(e, q), t'.erased)
  {
    var e := t.engine;
    TransferFacts(e, t.mem);
    InSequenceFits(e, q);
    ChunkStored(t, q);
    DataAppends(t, q);
    ChunkPages(t, q);
    AdvanceData(t, q);
    hide HeaderOk, PayloadSize, Sound, Duplicate, InSequence, WriteSucceeds, DataSteps, Replay, Crc, Advance, Handle,
      ErasedBy, PrefixOk, OnErasedPages, Padded, WriteAddress;
  }

  /** Where the write pointer and the blank rest of the page are afterwards. */
  lemma PointerMoves(t: Transfer, q: Request)
    requires ChunksOk(t) && t.engine.state == Receiving && t.engine.received < PayloadSize(t.engine.header)
    requires |q.payload| == CHUNK_MAX && t.engine.received + CHUNK_MAX < PayloadSize(t.engine.header)
    ensures var start, n := PayloadStart(Target(t.engine.header)), t.engine.received + CHUNK_MAX;
      PointerOk(start, n, Replay(t.mem, DataSteps(t.engine, q)), t.erased + ErasedBy(DataSteps(t.engine, q)))
  {
    hide HeaderOk, PayloadSize, Sound, DataSteps, Replay, ErasedBy, Padded, WriteAddress, PageAt,
      PrefixOk, WriteSucceeds, PageCeiling;
    var e := t.engine;
    var start, n := PayloadStart(Target(e.header)), e.received;
    ChunkStored(t, q);
    NextCeiling(n);
    assert |Padded(q.payload)| == CHUNK_MAX by { PaddedFits(q.payload); }
    assert WriteAddress(e) == start + n by { PageReady(t, q); }
    PagesGrow(t, q);
  }

  lemma NextCeiling(n: nat)
    requires n % CHUNK_MAX == 0
    ensures PageCeiling(n + CHUNK_MAX) == n / PAGE * PAGE + PAGE && (n + CHUNK_MAX) % CHUNK_MAX == 0
  {
    hide PageCeiling;
    PageArithmetic(n);
    NextMultiple(n);
  }

  lemma NextMultiple(n: nat)
    requires n % CHUNK_MAX == 0
    ensures (n + CHUNK_MAX) % CHUNK_MAX == 0
    ensures n % PAGE == 0 ==> n / PAGE * PAGE == n
  {
    var c := n / 256;
    assert n == 256 * c;
    assert (256 * (c + 1)) % 256 == 0;
  }

  lemma PagesGrow(t: Transfer, q: Request)
    requires ChunksOk(t) && t.engine.state == Receiving && t.engine.received < PayloadSize(t.engine.header)
    requires |q.payload| == CHUNK_MAX
    ensures var start, n := PayloadStart(Target(t.engine.header)), t.engine.received + CHUNK_MAX;
      forall k: nat :: k * PAGE < n ==> PageAt(start, k) in t.erased + ErasedBy(DataSteps(t.engine, q))
  {
    hide HeaderOk, PayloadSize, DataSteps, ErasedBy, OnErasedPages, PrefixOk, Blank, PageCeiling;
    ChunkPages(t, q);
    var start, n := PayloadStart(Target(t.engine.header)), t.engine.received;
    forall k: nat | k * PAGE < n + CHUNK_MAX
      ensures PageAt(start, k) in t.erased + ErasedBy(DataSteps(t.engine, q))
    {
      if k * PAGE >= n { assert k == n / PAGE; }
    }
  }

  lemma ChunkPages(t: Transfer, q: Request)
    requires ChunksOk(t) && t.engine.state == Receiving && t.engine.received < PayloadSize(t.engine.header)
    requires 0 < |q.payload|
    ensures OnErasedPages(DataSteps(t.engine, q), t.erased + ErasedBy(DataSteps(t.engine, q)))
    ensures var start, n := PayloadStart(Target(t.engine.header)), t.engine.received;
      start + n / PAGE * PAGE in t.erased + ErasedBy(DataSteps(t.engine, q))
  {
    var e := t.engine;
    var start, n := PayloadStart(Target(e.header)), e.received;
    var page := PageAt(start, n / PAGE);
    PagesStartAligned(Target(e.header));
    PageReady(t, q);
    PageArithmetic(n);
    WordsOnPage(start, n, Padded(q.payload));
    hide HeaderOk, PayloadSize, EraseOpen, ProgramAllowed, Padded, Replay, WriteAddress, EngineOk, TransferOk, Blank;
    var steps := DataSteps(e, q);
    if n % PAGE == 0 {
      assert steps[0] == EraseStep(page);
      assert page in ErasedBy(steps);
    } else {
      assert n / PAGE * PAGE < n;
    }
    hide ErasedBy, PageAt;
    assert steps == LazyErase(e) + ProgramSteps(start + n, Padded(q.payload));
  }

  lemma PagesStartAligned(slot: u8)
    ensures PayloadStart(slot) % PAGE == 0
  {
  }

  lemma WordsOnPage(start: nat, n: nat, words: seq<u8>)
    requires start % PAGE == 0 && n % CHUNK_MAX == 0 && |words| % 4 == 0
    requires n + |words| <= n / PAGE * PAGE + PAGE
    ensures OnErasedPages(ProgramSteps(start + n, words), {PageAt(start, n / PAGE)})
  {
    hide PageAt;
    var steps := ProgramSteps(start + n, words);
    forall k | 0 <= k < |steps|
      ensures steps[k].address / PAGE * PAGE == PageAt(start, n / PAGE)
      ensures steps[k].address % PAGE + 4 <= PAGE
    {
      WordPage(start, n, 4 * k);
    }
  }

  lemma DivUnique(a: nat, k: nat, r: nat)
    requires a == k * PAGE + r && r < PAGE
    ensures a / PAGE == k && a % PAGE == r
  {
  }

  lemma WordPage(start: nat, n: nat, offset: nat)
    requires start % PAGE == 0 && n % CHUNK_MAX == 0 && offset % 4 == 0 && n + offset < n / PAGE * PAGE + PAGE
    ensures (start + n + offset) / PAGE * PAGE == PageAt(start, n / PAGE)
    ensures (start + n + offset) % PAGE + 4 <= PAGE
  {
    var s, q := start / PAGE, n / PAGE;
    var r := n - q * PAGE + offset;
    var c := n / CHUNK_MAX;
    assert n == c * CHUNK_MAX && r == 4 * (c * 64 - q * 256 + offset / 4);
    assert start == s * PAGE;
    DivUnique(start + n + offset, s + q, r);
  }
}
