// tm4c123gxl/bootloader/src/bl_update.c: the update engine.

module Update {
  import opened Bytes
  import opened Flash
  import opened Crc32
  import opened Image
  import opened Metadata

  const GET_INFO: u8 := 1
  const START_UPDATE: u8 := 2
  const DATA: u8 := 3
  const END_UPDATE: u8 := 4
  const ABORT: u8 := 5
  const RESET: u8 := 8
  const TIMEOUT_MS: u32 := 1000

  /** A received packet; the length field is the length of the payload. */
  type Payload = p: seq<u8> | |p| <= CHUNK_MAX
  datatype Request = Request(command: u8, sequence: u16, payload: Payload)

  datatype Error =
    NoError | BadCommand | BadState | BadSlot | BadHeaderField | BadSequence | FlashError | VerifyError | TimedOut

  /** Replies name the request they answer. */
  datatype Reply =
    | Ack(command: u8, sequence: u16)
    | Nack(command: u8, sequence: u16, error: Error)

  datatype State = Idle | Receiving | ReadyToBoot

  /** bl_update_t, with the part of its services that it edits. */
  datatype Engine = Engine(
    state: State, header: Header, received: u32, nextSequence: u16,
    lastSequence: u16, lastLength: nat, lastCrc: u32, haveLast: bool,
    lastActivity: u32, lastError: Error, metadata: Record, copy: Copy)

  function ZeroHeader(): Header { seq(HEADER_SIZE, i => 0) }

  /** bl_update_init. */
  function Init(metadata: Record, copy: Copy): Engine {
    Engine(Idle, ZeroHeader(), 0, 0, 0, 0, 0, false, 0, NoError, metadata, copy)
  }

  /** What handling a request does: the engine afterwards, the flash steps
      performed, the reply, and whether a reset was asked for. */
  datatype Effect = Effect(engine: Engine, steps: seq<Step>, reply: Reply, reset: bool)

  function Accept(e: Engine, steps: seq<Step>, q: Request): Effect {
    Effect(e, steps, Ack(q.command, q.sequence), false)
  }

  function Fail(e: Engine, steps: seq<Step>, q: Request, error: Error): Effect {
    Effect(e.(lastError := error), steps, Nack(q.command, q.sequence, error), false)
  }

  function HandleStart(e: Engine, q: Request): Effect {
    if |q.payload| != HEADER_SIZE then Fail(e, [], q, BadHeaderField)
    else
      var copied := e.(header := q.payload);
      var target := Target(copied.header);
      if !HeaderOk(copied.header, target) then Fail(copied, [], q, BadHeaderField)
      else if target == e.metadata.active then Fail(copied, [], q, BadSlot)
      else if !RangeAllowed(SlotStart(target), PAGE, e.metadata.active, Erase) then Fail(copied, [], q, FlashError)
      else
        Accept(copied.(state := Receiving, received := 0, nextSequence := Succ16(q.sequence),
                       haveLast := false, lastError := NoError),
               EraseSteps(SlotStart(target), PAGE), q)
  }

  /** A byte-identical repetition of the last accepted DATA packet. */
  predicate Duplicate(e: Engine, q: Request) {
    && e.haveLast
    && q.sequence == e.lastSequence
    && |q.payload| == e.lastLength
    && Crc(q.payload) == e.lastCrc
  }

  predicate InSequence(e: Engine, q: Request) {
    && q.sequence == e.nextSequence
    && |q.payload| != 0
    && |q.payload| <= Sub32(PayloadSize(e.header), e.received)
  }

  function WriteAddress(e: Engine): u32 { Add32(PayloadStart(Target(e.header)), e.received) }

  /** A page is erased when the write pointer enters it. */
  function LazyErase(e: Engine): seq<Step> {
    if e.received % PAGE == 0 then EraseSteps(WriteAddress(e), PAGE) else []
  }

  function DataSteps(e: Engine, q: Request): seq<Step> {
    LazyErase(e) + ProgramSteps(WriteAddress(e), Padded(q.payload))
  }

  /** The guard lets the lazy erase through, if there is one. */
  predicate EraseOpen(e: Engine) {
    e.received % PAGE == 0 ==> RangeAllowed(WriteAddress(e), PAGE, e.metadata.active, Erase)
  }

  /** The flash steps of an attempt to store a payload: it stops at the first
      step that the guard refuses. */
  function WriteSteps(e: Engine, q: Request): seq<Step> {
    if !EraseOpen(e) then []
    else if !ProgramAllowed(WriteAddress(e), |q.payload|, e.metadata.active) then LazyErase(e)
    else DataSteps(e, q)
  }

  /** The attempt went through and the payload reads back. */
  predicate WriteSucceeds(e: Engine, m: Memory, q: Request) {
    && EraseOpen(e)
    && ProgramAllowed(WriteAddress(e), |q.payload|, e.metadata.active)
    && Read(Replay(m, DataSteps(e, q)), WriteAddress(e), |q.payload|) == q.payload
  }

  function HandleData(e: Engine, m: Memory, q: Request): Effect {
    if e.state != Receiving then Fail(e, [], q, BadState)
    else if Duplicate(e, q) then Accept(e, [], q)
    else if !InSequence(e, q) then Fail(e, [], q, BadSequence)
    else if !WriteSucceeds(e, m, q) then Fail(e, WriteSteps(e, q), q, FlashError)
    else
      Accept(e.(received := Add32(e.received, |q.payload|), lastSequence := q.sequence,
                lastLength := |q.payload|, lastCrc := Crc(q.payload), haveLast := true,
                nextSequence := Succ16(e.nextSequence)),
             DataSteps(e, q), q)
  }

  /** The received payload and its vector table check out. */
  predicate PayloadVerified(e: Engine, m: Memory) {
    var target := Target(e.header);
    var vector := Read(m, PayloadStart(target), 8);
    && Crc(Read(m, PayloadStart(target), e.received)) == PayloadCrc(e.header)
    && VectorVerdict(GetU32(vector, 0), GetU32(vector, 4), target) == Ok
  }

  /** The guard opens the header page of the target. */
  predicate HeaderOpen(e: Engine) {
    ProgramAllowed(SlotStart(Target(e.header)), HEADER_SIZE, e.metadata.active)
  }

  /** The record that END commits: the target becomes the pending slot. */
  function PendingRecord(e: Engine): Record {
    var target := Target(e.header);
    Finalize(e.metadata.WithSlot(target,
      SlotRecord(PENDING, ZERO3, VersionOf(e.header), 0, PayloadSize(e.header), PayloadCrc(e.header), 0))
      .(pending := target))
  }

  function HeaderSteps(e: Engine): seq<Step> {
    ProgramSteps(SlotStart(Target(e.header)), Padded(e.header))
  }

  /** The header goes in last, then the record is committed. */
  function EndSteps(e: Engine): seq<Step> {
    HeaderSteps(e) + CommitSteps(OtherCopy(e.copy), PendingRecord(e))
  }

  /** The first check of END that fails, in the order of the source. */
  function EndError(e: Engine, m: Memory): Error {
    if e.state != Receiving || e.received != PayloadSize(e.header) then BadState
    else if !(PayloadVerified(e, m) && HeaderOpen(e)) then VerifyError
    else if !Sound(PendingRecord(e)) then FlashError
    else NoError
  }

  /** END got as far as storing the header and the record. */
  predicate Published(error: Error) { error == NoError || error == FlashError }

  function HandleEnd(e: Engine, m: Memory, q: Request): Effect {
    var error := EndError(e, m);
    var e1 := if Published(error) then e.(metadata := PendingRecord(e)) else e;
    var steps := if Published(error) then EndSteps(e) else [];
    if error == NoError then Accept(e1.(state := ReadyToBoot), steps, q)
    else Fail(e1, steps, q, error)
  }

  lemma EndShape(e: Engine, m: Memory, q: Request)
    ensures var f, error := HandleEnd(e, m, q), EndError(e, m);
      && !f.reset
      && f.reply == (if error == NoError then Ack(q.command, q.sequence) else Nack(q.command, q.sequence, error))
      && f.steps == (if Published(error) then EndSteps(e) else [])
      && (error == NoError ==> f.engine == e.(metadata := PendingRecord(e)).(state := ReadyToBoot))
      && (error != NoError && Published(error) ==>
            f.engine == e.(metadata := PendingRecord(e)).(lastError := error))
      && (!Published(error) ==> f.engine == e.(lastError := error))
      && (error == NoError ==> Published(error))
  {
    hide EndError, EndSteps, PendingRecord;
  }

  /** bl_update_handle. */
  function Handle(e: Engine, m: Memory, q: Request): Effect {
    if q.command == GET_INFO then Accept(e, [], q)
    else if q.command == RESET then Accept(e, [], q).(reset := true)
    else if q.command == ABORT then
      if e.state != Receiving then Fail(e, [], q, BadState)
      else Accept(e.(state := Idle, received := 0, haveLast := false), [], q)
    else if q.command == START_UPDATE then HandleStart(e, q)
    else if q.command == DATA then HandleData(e, m, q)
    else if q.command == END_UPDATE then HandleEnd(e, m, q)
    else Fail(e, [], q, BadCommand)
  }

  /** bl_update_poll. */
  function Poll(e: Engine, now: u32): Engine {
    if e.state == Receiving && Sub32(now, e.lastActivity) >= TIMEOUT_MS
    then e.(state := Idle, lastError := TimedOut, haveLast := false)
    else e
  }

  /** A call with effect f went from the old to the new engine, contents and
      trace, and returned the reply and the reset flag. */
  ghost predicate Performs(f: Effect, e: Engine, m: Memory, m': Memory, trace: seq<Step>, trace': seq<Step>,
                           reply: Reply, reset: bool)
  {
    && e == f.engine && reply == f.reply && reset == f.reset
    && trace' == trace + f.steps
    && m' == Replay(m, f.steps)
  }

  lemma Performed(f: Effect, m: Memory, trace: seq<Step>)
    ensures Performs(f, f.engine, m, Replay(m, f.steps), trace, trace + f.steps, f.reply, f.reset)
    ensures f.steps == [] ==> Performs(f, f.engine, m, m, trace, trace, f.reply, f.reset)
  {
    ReplayNone(m);
  }

  /** The engine over a flash device, as the source writes it: the fields of
      bl_update_t change one after the other, between calls to the flash. Every
      request has exactly the effect described by Handle, flash step for flash
      step. */
  class BlUpdate {
    const flash: FlashDriver
    var update: Engine

    constructor (flash: FlashDriver, metadata: Record, copy: Copy)
      ensures update == Init(metadata, copy) && this.flash == flash
    {
      this.flash := flash;
      update := Engine(Idle, ZeroHeader(), 0, 0, 0, 0, 0, false, 0, NoError, metadata, copy);
    }

    method HandleRequest(q: Request) returns (reply: Reply, reset: bool)
      modifies this, flash
      ensures Performs(Handle(old(update), old(flash.mem), q), update, old(flash.mem), flash.mem,
        old(flash.trace), flash.trace, reply, reset)
    {
      ReplayNone(flash.mem);
      hide HandleStart, HandleData, HandleEnd, Replay;
      reset := false;
      if q.command == GET_INFO {
        reply := Ack(q.command, q.sequence);
      } else if q.command == RESET {
        reply, reset := Ack(q.command, q.sequence), true;
      } else if q.command == ABORT {
        if update.state != Receiving {
          reply := Refuse(q, BadState);
          return;
        }
        update := update.(state := Idle);
        update := update.(received := 0);
        update := update.(haveLast := false);
        reply := Ack(q.command, q.sequence);
      } else if q.command == START_UPDATE {
        reply := Start(q);
      } else if q.command == DATA {
        reply := Data(q);
      } else if q.command == END_UPDATE {
        reply := End(q);
      } else {
        reply := Refuse(q, BadCommand);
      }
    }

    /** fail: remember the error and answer NACK. */
    method Refuse(q: Request, error: Error) returns (reply: Reply)
      modifies this
      ensures update == old(update).(lastError := error) && reply == Nack(q.command, q.sequence, error)
    {
      update := update.(lastError := error);
      reply := Nack(q.command, q.sequence, error);
    }

    method Start(q: Request) returns (reply: Reply)
      modifies this, flash
      ensures Performs(HandleStart(old(update), q), update, old(flash.mem), flash.mem,
        old(flash.trace), flash.trace, reply, false)
    {
      Performed(HandleStart(update, q), flash.mem, flash.trace);
      hide Performs, HeaderOk, RangeAllowed, Replay, EraseSteps;
      if |q.payload| != HEADER_SIZE {
        reply := Refuse(q, BadHeaderField);
        return;
      }
      update := update.(header := q.payload);
      var target := Target(update.header);
      if !HeaderOk(update.header, target) {
        reply := Refuse(q, BadHeaderField);
        return;
      }
      if target == update.metadata.active {
        reply := Refuse(q, BadSlot);
        return;
      }
      var erased := flash.ErasePages(SlotStart(target), PAGE, update.metadata.active);
      if !erased {
        reply := Refuse(q, FlashError);
        return;
      }
      update := update.(state := Receiving);
      update := update.(received := 0);
      update := update.(nextSequence := Succ16(q.sequence));
      update := update.(haveLast := false);
      update := update.(lastError := NoError);
      reply := Ack(q.command, q.sequence);
    }

    method Data(q: Request) returns (reply: Reply)
      modifies this, flash
      ensures Performs(HandleData(old(update), old(flash.mem), q), update, old(flash.mem), flash.mem,
        old(flash.trace), flash.trace, reply, false)
    {
      Performed(HandleData(update, flash.mem, q), flash.mem, flash.trace);
      hide Performs, Crc, Replay, WriteSteps, WriteSucceeds, DataSteps, PayloadSize, Add32, Sub32, Succ16;
      if update.state != Receiving {
        reply := Refuse(q, BadState);
        return;
      }
      var crc := Crc(q.payload);
      if update.haveLast && q.sequence == update.lastSequence
         && |q.payload| == update.lastLength && crc == update.lastCrc {
        return Ack(q.command, q.sequence);
      }
      if q.sequence != update.nextSequence || |q.payload| == 0
         || |q.payload| > Sub32(PayloadSize(update.header), update.received) {
        reply := Refuse(q, BadSequence);
        return;
      }
      var written := Write(q);
      if !written {
        reply := Refuse(q, FlashError);
        return;
      }
      update := update.(received := Add32(update.received, |q.payload|));
      update := update.(lastSequence := q.sequence);
      update := update.(lastLength := |q.payload|);
      update := update.(lastCrc := crc);
      update := update.(haveLast := true);
      update := update.(nextSequence := Succ16(update.nextSequence));
      reply := Ack(q.command, q.sequence);
    }

    /** The erase, program and read-back of one DATA packet. */
    method Write(q: Request) returns (ok: bool)
      modifies flash
      ensures ok == WriteSucceeds(update, old(flash.mem), q)
      ensures ok ==> WriteSteps(update, q) == DataSteps(update, q)
      ensures flash.trace == old(flash.trace) + WriteSteps(update, q)
      ensures flash.mem == Replay(old(flash.mem), WriteSteps(update, q))
    {
      hide RangeAllowed, ProgramAllowed, Replay, EraseSteps, ProgramSteps, Padded, PayloadStart, Add32;
      var address := Add32(PayloadStart(Target(update.header)), update.received);
      ghost var before := flash.mem;
      ReplayNone(before);
      if update.received % PAGE == 0 {
        var erased := flash.ErasePages(address, PAGE, update.metadata.active);
        if !erased {
          return false;
        }
      }
      ghost var lazy, words := LazyErase(update), ProgramSteps(address, Padded(q.payload));
      var programmed := flash.ProgramBytes(address, q.payload, update.metadata.active);
      if !programmed {
        return false;
      }
      ReplayConcat(before, lazy, words);
      assert flash.trace == old(flash.trace) + (lazy + words);
      var readback := flash.ReadBytes(address, |q.payload|);
      ok := readback == q.payload;
    }

    method End(q: Request) returns (reply: Reply)
      modifies this, flash
      ensures Performs(HandleEnd(old(update), old(flash.mem), q), update, old(flash.mem), flash.mem,
        old(flash.trace), flash.trace, reply, false)
    {
      ghost var f := HandleEnd(update, flash.mem, q);
      Performed(f, flash.mem, flash.trace);
      EndShape(update, flash.mem, q);
      hide Performs, HandleEnd, Replay, EndError, EndSteps, PendingRecord, Published;
      var error := TryEnd();
      if error == NoError {
        update := update.(state := ReadyToBoot);
        reply := Ack(q.command, q.sequence);
      } else {
        update := update.(lastError := error);
        reply := Nack(q.command, q.sequence, error);
      }
    }

    /** The checks of END in order, then the two writes. */
    method TryEnd() returns (error: Error)
      modifies this, flash
      ensures error == EndError(old(update), old(flash.mem))
      ensures Published(error) ==>
        && update == old(update).(metadata := PendingRecord(old(update)))
        && flash.trace == old(flash.trace) + EndSteps(old(update))
        && flash.mem == Replay(old(flash.mem), EndSteps(old(update)))
      ensures !Published(error) ==>
        update == old(update) && flash.trace == old(flash.trace) && flash.mem == old(flash.mem)
    {
      hide Replay, PayloadVerified, HeaderOpen, EndSteps, PendingRecord, Sound, PayloadSize;
      if update.state != Receiving || update.received != PayloadSize(update.header) {
        return BadState;
      }
      var verified := CheckPayload();
      if !verified {
        return VerifyError;
      }
      error := Publish();
    }

    /** read_payload_crc and the check of the actual vector table. */
    method CheckPayload() returns (ok: bool)
      ensures ok == PayloadVerified(update, flash.mem)
    {
      hide Crc, VectorVerdict;
      var target := Target(update.header);
      var crc := PayloadChecksum(flash, target, update.received);
      if crc != PayloadCrc(update.header) {
        return false;
      }
      var vector := flash.ReadBytes(PayloadStart(target), 8);
      ok := VectorVerdict(GetU32(vector, 0), GetU32(vector, 4), target) == Ok;
    }

    /** The header goes in last, then the record that names the slot pending. */
    method Publish() returns (error: Error)
      modifies this, flash
      ensures var e := old(update);
        if !HeaderOpen(e) then
          error == VerifyError && update == e && flash.trace == old(flash.trace) && flash.mem == old(flash.mem)
        else
          && error == (if Sound(PendingRecord(e)) then NoError else FlashError)
          && update == e.(metadata := PendingRecord(e))
          && flash.trace == old(flash.trace) + EndSteps(e)
          && flash.mem == Replay(old(flash.mem), EndSteps(e))
    {
      hide Replay, CommitSteps, Finalize, Sound, Padded, ProgramAllowed, ProgramSteps, PayloadSize, PayloadCrc,
        VersionOf;
      ghost var before, e := flash.mem, update;
      var target := Target(update.header);
      var programmed := flash.ProgramBytes(SlotStart(target), update.header, update.metadata.active);
      if !programmed {
        return VerifyError;
      }
      var entry := SlotRecord(PENDING, ZERO3, VersionOf(update.header), 0,
        PayloadSize(update.header), PayloadCrc(update.header), 0);
      var record := update.metadata.WithSlot(target, entry);
      record := record.(pending := target);
      record := Finalize(record);
      update := update.(metadata := record);
      var committed := Commit(flash, record, update.copy);
      ReplayConcat(before, HeaderSteps(e), CommitSteps(OtherCopy(e.copy), PendingRecord(e)));
      error := if committed then NoError else FlashError;
    }

    method PollAt(now: u32)
      modifies this
      ensures update == Poll(old(update), now)
    {
      if update.state == Receiving && Sub32(now, update.lastActivity) >= TIMEOUT_MS {
        update := update.(state := Idle);
        update := update.(lastError := TimedOut);
        update := update.(haveLast := false);
      }
    }

    method NoteActivity(now: u32)
      modifies this
      ensures update == old(update).(lastActivity := now)
    {
      update := update.(lastActivity := now);
    }
  }

  // ---- Requests and answers in numbers ----

  /** A header for the slot that it names. */
  predicate HeaderFits(p: seq<u8>) { |p| == 32 && HeaderOk(p, p[6]) }

  /** START, the command 2: it is acknowledged exactly for a header that fits and
      names the slot that is not active (slot A if none is), and then the engine
      receives from byte 0 with the next number, and the header page of that slot
      is erased. Otherwise the error says what was wrong, the flash is left
      alone, and of the engine only the header may have changed. */
  lemma StartExact(e: Engine, m: Memory, q: Request)
    requires q.command == 2
    ensures var f, p := Handle(e, m, q), q.payload;
      && !f.reset
      && f.reply == (if !HeaderFits(p) then Nack(2, q.sequence, BadHeaderField)
                     else if p[6] == e.metadata.active then Nack(2, q.sequence, BadSlot)
                     else if p[6] == 1 && e.metadata.active != 0 then Nack(2, q.sequence, FlashError)
                     else Ack(2, q.sequence))
      && (f.reply.Ack? ==>
            && f.engine == e.(state := Receiving, header := p, received := 0, haveLast := false, lastError := NoError,
                              nextSequence := (q.sequence + 1) % 65536)
            && f.steps == [EraseStep(if p[6] == 0 then 0x8000 else 0x2_3C00)])
      && (f.reply.Nack? ==>
            && f.engine == e.(lastError := f.reply.error, header := if |p| == 32 then p else e.header)
            && f.steps == [])
  {
    if HeaderFits(q.payload) { HeaderExact(q.payload, q.payload[6]); }
    hide HeaderOk;
    if HeaderFits(q.payload) { GuardInNumbers(SlotStart(q.payload[6]), PAGE, e.metadata.active, Erase); }
    assert EraseSteps(0x8000, PAGE) == [EraseStep(0x8000)] && EraseSteps(0x2_3C00, PAGE) == [EraseStep(0x2_3C00)];
    hide RangeAllowed, EraseSteps;
  }

  /** Where the next byte of the payload goes. */
  function Place(e: Engine): u32 { ((if Target(e.header) == 0 then 0x8400 else 0x2_4000) + e.received) % 0x1_0000_0000 }

  /** DATA, the command 3, with n bytes: BadState unless the engine receives; the
      packet accepted last is acknowledged again and nothing happens; a packet
      that is not the next one, is empty, or is longer than what is missing, is a
      BadSequence; and otherwise it is a FlashError, or is acknowledged and
      stored. */
  lemma DataExact(e: Engine, m: Memory, q: Request)
    requires q.command == 3
    ensures var f, n := Handle(e, m, q), |q.payload|;
      var repeated := e.haveLast && q.sequence == e.lastSequence && n == e.lastLength && Crc(q.payload) == e.lastCrc;
      var next := q.sequence == e.nextSequence && 0 < n <= (PayloadSize(e.header) - e.received) % 0x1_0000_0000;
      && !f.reset
      && (f.reply == Nack(3, q.sequence, BadState) <==> e.state != Receiving)
      && (f.reply == Nack(3, q.sequence, BadSequence) <==> e.state == Receiving && !repeated && !next)
      && (e.state == Receiving && repeated ==> f == Effect(e, [], Ack(3, q.sequence), false))
      && (f.reply == Ack(3, q.sequence) || (f.reply.Nack? && f.reply == Nack(3, q.sequence, f.reply.error)))
      && (f.reply.Nack? ==> f.engine == e.(lastError := f.reply.error))
      && (f.reply.Ack? && !repeated ==>
            f.engine == e.(received := (e.received + n) % 0x1_0000_0000, nextSequence := (e.nextSequence + 1) % 65536,
                           lastSequence := q.sequence, lastLength := n, lastCrc := Crc(q.payload), haveLast := true))
  {
    hide Crc, PayloadSize, WriteSucceeds, WriteSteps, DataSteps;
  }

  /** The page is erased if the place is its first byte, and then the words are
      written; the guard may stop either. */
  function StoreSteps(e: Engine, payload: Payload): seq<Step> {
    var at := Place(e);
    var erase := if e.received % 1024 == 0 then [EraseStep(at)] else [];
    if e.received % 1024 == 0 && !RangeAllowed(at, 1024, e.metadata.active, Erase) then []
    else if !ProgramAllowed(at, |payload|, e.metadata.active) then erase
    else erase + ProgramSteps(at, Padded(payload))
  }

  predicate StoreOpen(e: Engine, payload: Payload) {
    && (e.received % 1024 == 0 ==> RangeAllowed(Place(e), 1024, e.metadata.active, Erase))
    && ProgramAllowed(Place(e), |payload|, e.metadata.active)
  }

  lemma StoreStepsExact(e: Engine, q: Request)
    ensures WriteSteps(e, q) == StoreSteps(e, q.payload)
    ensures StoreOpen(e, q.payload) ==> StoreSteps(e, q.payload) == DataSteps(e, q)
    ensures Place(e) == WriteAddress(e)
    ensures StoreOpen(e, q.payload) <==>
      EraseOpen(e) && ProgramAllowed(WriteAddress(e), |q.payload|, e.metadata.active)
  {
    assert EraseSteps(Place(e), PAGE) == [EraseStep(Place(e))];
    hide RangeAllowed, ProgramAllowed, EraseSteps, ProgramSteps, Padded;
  }

  /** What DATA stores; and it is acknowledged exactly if the guard lets all of
      that through and the bytes read back. */
  lemma StoredExact(e: Engine, m: Memory, q: Request)
    requires q.command == 3 && e.state == Receiving && InSequence(e, q) && !Duplicate(e, q)
    ensures var f := Handle(e, m, q);
      && f.steps == StoreSteps(e, q.payload)
      && (f.reply == Ack(3, q.sequence) <==>
            && StoreOpen(e, q.payload)
            && Read(Replay(m, StoreSteps(e, q.payload)), Place(e), |q.payload|) == q.payload)
      && (f.reply == Nack(3, q.sequence, FlashError) <==> f.reply != Ack(3, q.sequence))
  {
    StoreStepsExact(e, q);
    hide Crc, StoreSteps, StoreOpen, DataSteps, EraseOpen, WriteAddress, Place, ProgramAllowed, Replay, Read, Duplicate,
      InSequence;
    assert StoreOpen(e, q.payload) ==> WriteSteps(e, q) == DataSteps(e, q);
  }

  /** What END commits: the target is pending, in state PENDING with the fields of
      the header and no trials, and the rest of the record is as it was. */
  lemma PendingExact(e: Engine)
    ensures var r, t, h := PendingRecord(e), Target(e.header), e.header;
      && r.pending == t
      && r.Slot(t) == SlotRecord(3, [0, 0, 0],
                                 Version(Le16(h[8], h[9]), Le16(h[10], h[11]), Le16(h[12], h[13])), 0,
                                 Le32(h[14], h[15], h[16], h[17]), Le32(h[18], h[19], h[20], h[21]), 0)
      && (t == 0 ==> r == e.metadata.(slotA := r.slotA, pending := t, crc := r.crc))
      && (t != 0 ==> r == e.metadata.(slotB := r.slotB, pending := t, crc := r.crc))
      && r.crc == Crc(Encode(r.(crc := 0)))
  {
    FieldsExact(e.header);
    var r := PendingRecord(e);
    assert r.(crc := 0).crc == 0;
    hide Crc, Encode, VersionOf, PayloadSize, PayloadCrc;
  }

  /** All of the payload has been received. */
  predicate Complete(e: Engine) {
    && e.state == Receiving
    && e.received == Le32(e.header[14], e.header[15], e.header[16], e.header[17])
  }

  /** The payload has the checksum of the header, its vector table fits the slot,
      and the slot is not the active one. */
  predicate Checks(e: Engine, m: Memory) {
    var start := if Target(e.header) == 0 then 0x8400 else 0x2_4000;
    var v := Read(m, start, 8);
    && Crc(Read(m, start, e.received)) == Le32(e.header[18], e.header[19], e.header[20], e.header[21])
    && VectorFits(Le32(v[0], v[1], v[2], v[3]), Le32(v[4], v[5], v[6], v[7]), Target(e.header))
    && (if Target(e.header) == 0 then e.metadata.active != 0 else e.metadata.active == 0)
  }

  lemma ChecksExact(e: Engine, m: Memory)
    ensures Checks(e, m) <==> PayloadVerified(e, m) && HeaderOpen(e)
    ensures Complete(e) <==> e.state == Receiving && e.received == PayloadSize(e.header)
  {
    hide Crc, VectorVerdict, VectorFits, HeaderOpen, Read, Le32, GetU32, PayloadSize, PayloadCrc, VersionOf;
    var start := if Target(e.header) == 0 then 0x8400 else 0x2_4000;
    var v := Read(m, start, 8);
    assert PayloadStart(Target(e.header)) == start;
    FieldsExact(e.header);
    VectorRead(v, Target(e.header));
    HeaderOpenExact(e);
  }

  lemma VectorRead(v: seq<u8>, slot: u8)
    requires |v| == 8
    ensures VectorVerdict(GetU32(v, 0), GetU32(v, 4), slot) == Ok <==>
      VectorFits(Le32(v[0], v[1], v[2], v[3]), Le32(v[4], v[5], v[6], v[7]), slot)
  {
    VectorExact(GetU32(v, 0), GetU32(v, 4), slot);
    hide VectorVerdict, VectorFits;
  }

  lemma EndStepsExact(e: Engine)
    ensures EndSteps(e)
         == ProgramSteps(if Target(e.header) == 0 then 0x8000 else 0x2_3C00, e.header)
            + CommitSteps(if e.copy == 0 then 1 else 0, PendingRecord(e))
  {
    hide PendingRecord, CommitSteps, ProgramSteps, VersionOf, PayloadSize;
    assert Padded(e.header) == e.header;
  }

  /** END, the command 4: BadState unless the payload is complete, VerifyError
      unless it checks out; and then the header is stored and the record behind
      it, and END is acknowledged exactly if the record is sound. */
  lemma EndExact(e: Engine, m: Memory, q: Request)
    requires q.command == 4
    ensures var f, stored := Handle(e, m, q), Complete(e) && Checks(e, m);
      && !f.reset
      && f.reply == (if !Complete(e) then Nack(4, q.sequence, BadState)
                     else if !Checks(e, m) then Nack(4, q.sequence, VerifyError)
                     else if !Sound(PendingRecord(e)) then Nack(4, q.sequence, FlashError)
                     else Ack(4, q.sequence))
      && (f.reply.Ack? ==> f.engine == e.(metadata := PendingRecord(e), state := ReadyToBoot))
      && (f.reply.Nack? ==>
            f.engine == e.(lastError := f.reply.error, metadata := if stored then PendingRecord(e) else e.metadata))
      && f.steps == if stored then EndSteps(e) else []
  {
    HandleEndIs(e, m, q);
    EndErrorExact(e, m);
    EndShape(e, m, q);
    hide Complete, Checks, PendingRecord, Sound, EndSteps, PayloadVerified, HeaderOpen, HandleEnd, PayloadSize, Handle,
      EndError;
  }

  lemma EndErrorExact(e: Engine, m: Memory)
    ensures EndError(e, m) ==
      if !Complete(e) then BadState
      else if !Checks(e, m) then VerifyError
      else if !Sound(PendingRecord(e)) then FlashError
      else NoError
  {
    ChecksExact(e, m);
    hide Complete, Checks, PendingRecord, Sound, PayloadVerified, HeaderOpen, PayloadSize;
  }

  lemma HandleEndIs(e: Engine, m: Memory, q: Request)
    requires q.command == 4
    ensures Handle(e, m, q) == HandleEnd(e, m, q)
  {
    hide HandleEnd;
  }

  lemma HeaderOpenExact(e: Engine)
    ensures HeaderOpen(e) <==> if Target(e.header) == 0 then e.metadata.active != 0 else e.metadata.active == 0
  {
    var start := SlotStart(Target(e.header));
    WriteInNumbers(start, HEADER_SIZE, e.metadata.active, 8);
    GuardInNumbers(start, HEADER_SIZE, e.metadata.active, Program);
  }

  /** The other commands. 1 and 8 are always acknowledged, and 8 alone asks for a
      reset; 5 is acknowledged exactly by a receiving engine, which then is idle
      and remembers no packet; everything else is a BadCommand. None of them
      touches the flash. */
  lemma OtherCommandsExact(e: Engine, m: Memory, q: Request)
    requires q.command != 2 && q.command != 3 && q.command != 4
    ensures var f, c := Handle(e, m, q), q.command;
      && f.steps == [] && (f.reset <==> c == 8)
      && (f.reply == Ack(c, q.sequence) <==> c == 1 || c == 8 || (c == 5 && e.state == Receiving))
      && (c == 1 || c == 8 ==> f.engine == e)
      && (c == 5 && e.state == Receiving ==> f.engine == e.(state := Idle, received := 0, haveLast := false))
      && (c == 5 && e.state != Receiving ==>
            f.reply == Nack(c, q.sequence, BadState) && f.engine == e.(lastError := BadState))
      && (c != 1 && c != 8 && c != 5 ==>
            f.reply == Nack(c, q.sequence, BadCommand) && f.engine == e.(lastError := BadCommand))
  {
  }

  /** A poll drops the transfer exactly if the engine is receiving and the last
      activity lies a second or more back, on a clock that wraps around. */
  lemma PollExact(e: Engine, now: u32)
    ensures Poll(e, now) != e <==> e.state == Receiving && (now - e.lastActivity) % 0x1_0000_0000 >= 1000
    ensures Poll(e, now) == e || Poll(e, now) == e.(state := Idle, lastError := TimedOut, haveLast := false)
  {
  }

  /** A new engine is idle: DATA, END and ABORT are refused, and nothing that was
      received before is remembered. */
  lemma NewEngineExact(r: Record, copy: Copy, m: Memory, q: Request)
    requires q.command == 3 || q.command == 4 || q.command == 5
    ensures var e := Init(r, copy);
      && e.metadata == r && e.copy == copy && e.lastError == NoError && !e.haveLast && e.received == 0
      && Handle(e, m, q) == Effect(e.(lastError := BadState), [], Nack(q.command, q.sequence, BadState), false)
  {
    hide PendingRecord, EndSteps, HandleStart;
  }
}
