// tm4c123gxl/bootloader/src/bl_main.c as it runs: start-up and one turn of the
// packet loop, over the flash, the mailbox and the engine it edits in place.

module BlMain {
  import opened Bytes
  import opened Flash
  import opened Image
  import opened Metadata
  import opened Boot
  import opened Update
  import opened Mailbox
  import opened Bootloader
  import opened Runs

  datatype Exit = Continue | Reset | JumpTo(slot: u8)

  /** The machine state that an exit from the loop body stands for. */
  function View(m: Memory, box: Box, e: Engine, decision: Decision, exit: Exit): Machine {
    match exit
    case Continue => Running(m, box, e, decision)
    case Reset => Off(m, box)
    case JumpTo(slot) => App(m, box, slot)
  }

  /** What one turn of the loop amounts to: the poll, a packet and the activity
      it notes, and the jump once the window is over. */
  function Turn(q: Option<Request>, now: u32, later: u32, windowOver: bool): seq<Input> {
    [Tick(now)] + (if q.Some? then [Packet(q.value), Activity(later)] else [])
    + (if windowOver then [Jump] else [])
  }

  lemma CommitsSealed(copy: Copy, r: Record)
    ensures Next(Finalize(r)) == Next(r) && CommitSteps(copy, Finalize(r)) == CommitSteps(copy, r)
    ensures Finalize(Finalize(r).(generation := Add32(r.generation, 1))) == Next(r)
  {
    hide Encode;
    assert Finalize(r).(generation := Add32(r.generation, 1), crc := 0)
      == r.(generation := Add32(r.generation, 1), crc := 0);
  }

  class Device {
    const flash: FlashDriver
    const mailbox: RetainedMailbox
    const engine: BlUpdate
    var decision: Decision

    constructor (flash: FlashDriver, mailbox: RetainedMailbox, engine: BlUpdate)
      requires engine.flash == flash
      ensures this.flash == flash && this.mailbox == mailbox && this.engine == engine
    {
      this.flash, this.mailbox, this.engine, decision := flash, mailbox, engine, Stay;
    }

    /** reconstruct_metadata: both images are probed, the record is filled in
        field by field, and committed to copy 0. */
    method Reconstruct() returns (metadata: Record, copy: Copy)
      modifies flash
      ensures metadata == Next(Reconstructed(old(flash.mem))) && copy == 0
      ensures flash.trace == old(flash.trace) + CommitSteps(0, Reconstructed(old(flash.mem)))
      ensures flash.mem == Replay(old(flash.mem), CommitSteps(0, Reconstructed(old(flash.mem))))
    {
      hide Replay, CommitSteps, Sound, Finalize, Next, HeaderAt, ImageVerdict, FromImage, Add32;
      ghost var m := flash.mem;
      var verdictA, a := Validate(flash, SLOT_A);
      var verdictB, b := Validate(flash, SLOT_B);
      metadata := Record(RECORD_MAGIC, RECORD_SCHEMA, 0, 0, EMPTY_SLOT, EMPTY_SLOT, SLOT_NONE, SLOT_NONE, 0, 0, ZERO12);
      if verdictA == Ok {
        metadata := metadata.(slotA := FromImage(a, ACTIVE));
        metadata := metadata.(active := SLOT_A);
      } else if verdictB == Ok {
        metadata := metadata.(slotB := FromImage(b, ACTIVE));
        metadata := metadata.(active := SLOT_B);
      }
      if verdictB == Ok && metadata.active != SLOT_B {
        metadata := metadata.(slotB := FromImage(b, VALID));
      }
      assert metadata == Reconstructed(m);
      CommitsSealed(0, metadata);
      ReconstructedSound(m);
      SealKeeps(metadata);
      metadata := Finalize(metadata);
      copy := 0;
      var committed := Commit(flash, metadata, 1);
      if committed {
        metadata := metadata.(generation := Add32(metadata.generation, 1));
        metadata := Finalize(metadata);
      }
    }

    /** bl_main up to its loop: load or reconstruct, consume the mailbox,
        decide, commit, initialise the engine. */
    method StartUp()
      modifies this, flash, mailbox, engine
      requires engine.flash == flash
      ensures flash.trace == old(flash.trace) + StartupSteps(old(flash.mem), Message(old(mailbox.box)))
      ensures View(flash.mem, mailbox.box, engine.update, decision, Continue)
        == Do(Off(old(flash.mem), old(mailbox.box)), PowerOn)
    {
      hide Replay, RecordAt, Selected, Decide, CommitSteps, Finalize, Next, Reconstructed, Message, Consumed, Init;
      ghost var m := flash.mem;
      ReplayNone(m);
      var found, metadata, copy := Load(flash);
      if !found {
        metadata, copy := Reconstruct();
      }
      assert metadata == EffectiveRecord(m) && copy == EffectiveCopy(m);
      assert flash.mem == Replay(m, LoadSteps(m));
      var message := mailbox.Consume();
      LoadPhaseSlots(m);
      var record := new BootRecord(metadata);
      var choice, commit := record.DecideInPlace(message, Probe(flash.mem));
      SameDecision(metadata, message, flash.mem, m);
      metadata, decision := record.record, choice;
      ghost var boot: seq<Step> := [];
      if commit {
        metadata := Finalize(metadata);
        boot := CommitSteps(OtherCopy(copy), metadata);
        var _ := Commit(flash, metadata, copy);
      }
      ReplayNone(Replay(m, LoadSteps(m)));
      ReplayConcat(m, LoadSteps(m), boot);
      engine.update := Init(metadata, copy);
      assert boot == BootSteps(m, message);
    }

    /** One turn of the loop, without the cloud controller. */
    method LoopBody(q: Option<Request>, now: u32, later: u32, windowOver: bool) returns (exit: Exit)
      modifies this, flash, mailbox, engine
      requires engine.flash == flash && engine.update.state != ReadyToBoot
      ensures View(flash.mem, mailbox.box, engine.update, decision, exit)
        == DoAll(Running(old(flash.mem), old(mailbox.box), old(engine.update), old(decision)),
                 Turn(q, now, later, windowOver))
    {
      ghost var d := Running(flash.mem, mailbox.box, engine.update, decision);
      TurnSteps(d, q, now, later, windowOver);
      ReplayNone(flash.mem);
      hide Handle, Poll, DoAll, Turn, Replay, Cleared;
      engine.PollAt(now);
      PollNotReady(d.engine, now);
      if q.Some? { HandleResets(engine.update, flash.mem, q.value); }
      if q.Some? {
        var reply, reset := engine.HandleRequest(q.value);
        if reset {
          return Reset;
        }
        engine.NoteActivity(later);
      }
      if engine.update.state == ReadyToBoot {
        mailbox.Clear();
        return Reset;
      }
      if windowOver && engine.update.state == Idle && decision.BootSlot? {
        return JumpTo(decision.slot);
      }
      exit := Continue;
    }
  }

  lemma PollNotReady(e: Engine, now: u32)
    requires e.state != ReadyToBoot
    ensures Poll(e, now).state != ReadyToBoot
  {
  }

  lemma HandleResets(e: Engine, m: Memory, q: Request)
    requires e.state != ReadyToBoot
    ensures Handle(e, m, q).reset ==> Handle(e, m, q).engine.state != ReadyToBoot
  {
    hide HeaderOk, RangeAllowed, Duplicate, InSequence, WriteSucceeds, WriteSteps, DataSteps, EndError, EndSteps,
      PendingRecord, EraseSteps;
  }

  lemma LoadPhaseSlots(m: Memory)
    ensures SlotsSame(m, Replay(m, LoadSteps(m)))
  {
    LoadPhase(m);
  }

  /** Probing before or after the load phase makes no difference. */
  lemma SameDecision(r: Record, c: Option<Confirmation>, m: Memory, m': Memory)
    requires SlotsSame(m, m')
    ensures Decide(r, c, Probe(m)) == Decide(r, c, Probe(m'))
  {
    SameProbe(m, m', r.pending);
    SameProbe(m, m', r.active);
    SameProbe(m, m', Other(r.active));
    hide Probe, Bootable, Promote, Reject, CountAttempt;
  }

  lemma SameProbe(m: Memory, m': Memory, slot: u8)
    requires SlotsSame(m, m')
    ensures Bootable(Probe(m), slot) == Bootable(Probe(m'), slot)
  {
    SlotsFrame(m, m');
    hide ImageOk;
  }

  lemma LastJump(d: Machine, windowOver: bool)
    ensures DoAll(d, if windowOver then [Jump] else []) == if windowOver then Do(d, Jump) else d
  {
    hide Do;
    assert [Jump][1..] == [];
    assert DoAll(Do(d, Jump), []) == Do(d, Jump);
  }

  lemma TurnSteps(d: Machine, q: Option<Request>, now: u32, later: u32, windowOver: bool)
    ensures var d1 := Do(d, Tick(now));
      var d2 := if q.Some? then Do(Do(d1, Packet(q.value)), Activity(later)) else d1;
      DoAll(d, Turn(q, now, later, windowOver)) == if windowOver then Do(d2, Jump) else d2
  {
    hide Do;
    var d1 := Do(d, Tick(now));
    var jump := if windowOver then [Jump] else [];
    var rest := (if q.Some? then [Packet(q.value), Activity(later)] else []) + jump;
    assert Turn(q, now, later, windowOver) == [Tick(now)] + rest;
    assert ([Tick(now)] + rest)[1..] == rest;
    if q.Some? {
      assert rest[1..] == [Activity(later)] + jump && rest[1..][1..] == jump;
      assert DoAll(d1, rest) == DoAll(Do(Do(d1, Packet(q.value)), Activity(later)), jump);
    } else {
      assert rest == jump;
    }
    LastJump(d1, windowOver);
    if q.Some? { LastJump(Do(Do(d1, Packet(q.value)), Activity(later)), windowOver); }
  }
}
