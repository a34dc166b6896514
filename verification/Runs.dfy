// Whole runs of the machine: crash safety, header-last integrity, the three
// records a session can leave, bounded trial boots, and the confirmation
// handshake across two resets.

module Runs {
  import opened Bytes
  import opened Flash
  import opened Image
  import opened Metadata
  import opened Boot
  import opened Update
  import opened Session
  import opened Mailbox
  import opened Bootloader

  // ---- Crash safety ----

  /** A start-up with this flash and mailbox finds a record whose active slot
      validates, and decides to boot a slot that validates. */
  ghost predicate StartsSafely(m: Memory, box: Box) {
    var r := EffectiveRecord(m);
    var o := BootOutcome(m, Message(box));
    && IsSlot(r.active) && ImageOk(m, r.active)
    && o.decision.BootSlot? && IsSlot(o.decision.slot) && ImageOk(m, o.decision.slot)
  }

  lemma {:induction false} RunKeeps(d: Machine, es: seq<Event>)
    requires MachineOk(d) && AdmissibleRun(d, es)
    ensures MachineOk(Run(d, es)) && Durable(d.flash, Run(d, es).flash)
    decreases |es|
  {
    hide Admissible, AfterEvent, Startable, SessionOk, HeadersHonest, EngineOk;
    if es != [] {
      EventKeepsSafe(d, es[0]);
      RunKeeps(AfterEvent(d, es[0]), es[1..]);
    }
  }

  /** From a device whose active slot validates: after any run of start-ups,
      packets, polls, jumps, confirmations, resets and power cuts between flash
      steps, the next start-up is safe, whatever the mailbox then holds. */
  lemma CrashSafety(flash: Memory, box: Box, es: seq<Event>, box': Box)
    requires Startable(flash) && AdmissibleRun(Off(flash, box), es)
    ensures StartsSafely(Run(Off(flash, box), es).flash, box')
  {
    RunKeeps(Off(flash, box), es);
    var m := Run(Off(flash, box), es).flash;
    hide AdmissibleRun, Run, HeadersHonest, SessionOk;
    VerdictSafe(m, Message(box'));
    hide BootOutcome, EffectiveRecord, ImageOk;
  }

  /** A start-up whose record names an active slot goes on to boot exactly if
      either image validates, whatever the mailbox holds; and without a pending
      image it is the active one if that validates, else the other one. */
  lemma BootsIfAny(flash: Memory, box: Box)
    requires IsSlot(EffectiveRecord(flash).active)
    ensures var r, d := EffectiveRecord(flash), Do(Off(flash, box), PowerOn);
      && d.Running?
      && (d.decision.BootSlot? <==> ImageOk(flash, 0) || ImageOk(flash, 1))
      && (!IsSlot(r.pending) ==> d.decision == WithoutPending(flash, r.active))
  {
    hide *;
    Started(flash, box);
    OutcomeIfAny(flash, Message(box));
  }

  function WithoutPending(flash: Memory, active: u8): Decision
    requires IsSlot(active)
  {
    if ImageOk(flash, active) then BootSlot(active)
    else if ImageOk(flash, 1 - active) then BootSlot(1 - active)
    else Stay
  }

  lemma OutcomeIfAny(m: Memory, c: Option<Confirmation>)
    requires IsSlot(EffectiveRecord(m).active)
    ensures BootOutcome(m, c).decision.BootSlot? <==> ImageOk(m, 0) || ImageOk(m, 1)
    ensures !IsSlot(EffectiveRecord(m).pending) ==>
      BootOutcome(m, c).decision == WithoutPending(m, EffectiveRecord(m).active)
  {
    hide EffectiveRecord, ImageOk, Decide;
    StaysExactly(EffectiveRecord(m), c, Probe(m));
    DecisionExact(EffectiveRecord(m), c, Probe(m));
  }

  // ---- A new device ----

  /** A new device: a package in slot A, everything else erased. */
  function NewDevice(package: seq<u8>): Memory {
    seq(FLASH_END, i requires 0 <= i < FLASH_END =>
      if SLOT_A_START <= i < SLOT_A_START + |package| then package[i - SLOT_A_START] else 0xFF)
  }

  /** A device that has left the factory with one packaged image and no records
      meets what the theorems assume, and its first start-up boots that image. */
  lemma NewDeviceBoots(v: Version, payload: seq<u8>, box: Box)
    requires Package(SLOT_A, v, payload).Some?
    ensures var m := NewDevice(Package(SLOT_A, v, payload).value);
      && Startable(m) && HeadersHonest(m) && EffectiveRecord(m).active == SLOT_A
      && BootOutcome(m, Message(box)).decision == BootSlot(SLOT_A)
  {
    assert IsSlot(SLOT_A);
    hide *;
    var package := Package(SLOT_A, v, payload).value;
    var m := NewDevice(package);
    PackageLength(v, payload);
    NewDeviceHolds(package);
    PackageValidates(SLOT_A, v, payload, m);
    TornCopyFails(m, 0);
    TornCopyFails(m, 1);
    TornHeaderFails(m, SLOT_B);
    BadHeaderFails(m, SLOT_B);
    FactoryStart(m, Message(box));
  }

  lemma PackageLength(v: Version, payload: seq<u8>)
    requires Package(SLOT_A, v, payload).Some?
    ensures IsSlot(SLOT_A) && PAGE <= |Package(SLOT_A, v, payload).value| <= SLOT_SIZE
  {
    hide PackHeader, PatchCrc, VectorVerdict;
  }

  lemma NewDeviceHolds(package: seq<u8>)
    requires PAGE <= |package| <= SLOT_SIZE
    ensures var m := NewDevice(package);
      && Stored(m, SLOT_A, package) && m[SlotStart(SLOT_B) + HEADER_SIZE - 1] == 0xFF
      && forall c: Copy :: m[CopyStart(c) + RECORD_SIZE - 1] == 0xFF
  {
  }

  /** One valid image in slot A, and no record. */
  lemma FactoryStart(m: Memory, c: Option<Confirmation>)
    requires ImageOk(m, SLOT_A) && !HeaderValid(m, SLOT_B) && !ImageOk(m, SLOT_B)
    requires !CopyValid(m, 0) && !CopyValid(m, 1)
    ensures Startable(m) && HeadersHonest(m) && EffectiveRecord(m).active == SLOT_A
    ensures BootOutcome(m, c).decision == BootSlot(SLOT_A)
  {
    hide ImageOk, HeaderValid, RecordValid, Decode, FromImage, Next;
    SealKeeps(Reconstructed(m));
  }

  // ---- Header last ----

  lemma ReceivingTarget(m: Memory, e: Engine)
    requires EngineOk(e) && LooseTransfer(e, m) && e.state == Receiving
    ensures var o := Other(e.metadata.active);
      !HeaderValid(m, o) && !ImageOk(m, o)
  {
    hide HeaderOk, Sound, PayloadSize;
    BlankHeaderFails(m, Other(e.metadata.active));
  }

  /** A START packet that the engine accepts. */
  predicate AcceptsStart(d: Machine, e: Event) {
    d.Running? && e.i.Packet? && e.i.q.command == START_UPDATE && Handle(d.engine, d.flash, e.i.q).reply.Ack?
  }

  /** A START for slot s is accepted, and gets as far as erasing. */
  predicate Erases(d: Machine, e: Event, s: u8) {
    AcceptsStart(d, e) && s == Other(d.engine.metadata.active) && (Done(d, e) > 0 || TornPage(e).Some?)
  }

  /** An END packet that passes its checks. */
  ghost predicate Publishes(d: Machine, e: Event) {
    d.Running? && e.i.Packet? && e.i.q.command == END_UPDATE && Published(EndError(d.engine, d.flash))
  }

  /** END for slot s gets as far as its last header word. */
  ghost predicate Heads(d: Machine, e: Event, s: u8) {
    Publishes(d, e) && s == Target(d.engine.header) && Done(d, e) >= 8
  }

  /** After any event, whole or cut, exactly those slots validate whose header
      END has completed, and those that validated before and are not erased. */
  lemma ImageExact(d: Machine, e: Event, s: u8)
    requires MachineOk(d) && Admissible(d, e) && IsSlot(s)
    ensures ImageOk(AfterEvent(d, e).flash, s) <==> Heads(d, e, s) || (ImageOk(d.flash, s) && !Erases(d, e, s))
  {
    hide SessionOk, Handle, ImageOk, RecordValid, Decode, EffectiveRecord, CutFlash, HeadersHonest,
      Strays, StartupSteps, BootOutcome, BootRecordOf, EffectiveCopy, TornPageFails, Init, Posted, Consumed,
      Cleared, BoxValid, Replay, Poll, EndError, Published;
    var steps, done, torn := StepsOf(d, e.i), Done(d, e), TornPage(e);
    EventFlash(d, e);
    if e.i.PowerOn? && d.Off? {
      StartupCrash(d.flash, Message(d.box), done, torn);
      SlotsFrame(d.flash, CutFlash(d.flash, steps, done, torn));
    } else if e.i.Packet? && d.Running? {
      if e.i.q.command == START_UPDATE {
        SessionFacts(d.flash, d.engine);
        StartEffects(d.engine, d.flash, e.i.q);
        if steps == [] {
          NoSteps(d.flash, torn);
        } else {
          EraseEndsImage(d.flash, Other(d.engine.metadata.active), done, torn, s);
        }
      } else {
        PacketImages(d.flash, d.engine, e.i.q, done, torn, s);
      }
    } else {
      NoSteps(d.flash, torn);
    }
  }

  /** An image that validates goes on validating, through power cuts too, until
      exactly a START packet for its slot is accepted. */
  lemma ImagePersists(d: Machine, e: Event, s: u8)
    requires MachineOk(d) && Admissible(d, e) && ImageOk(d.flash, s)
    ensures ImageOk(AfterEvent(d, e).flash, s) <==> !Erases(d, e, s)
  {
    hide *;
    ImageIsSlot(d.flash, s);
    ImageExact(d, e, s);
    HeadsOrErases(d, e, s);
  }

  lemma HeadsOrErases(d: Machine, e: Event, s: u8)
    ensures !(Heads(d, e, s) && Erases(d, e, s))
  {
    hide Handle, Done, Published, EndError;
  }

  /** A slot that does not validate goes on not validating, through power cuts
      too, until exactly the last header word of an END for it. */
  lemma ImageAppears(d: Machine, e: Event, s: u8)
    requires MachineOk(d) && Admissible(d, e) && IsSlot(s) && !ImageOk(d.flash, s)
    ensures ImageOk(AfterEvent(d, e).flash, s) <==> Heads(d, e, s)
  {
    hide AfterEvent, MachineOk, Admissible, Heads, Erases, ImageOk;
    ImageExact(d, e, s);
  }

  /** No event of the run erases the header page of slot s. */
  ghost predicate Spares(d: Machine, es: seq<Event>, s: u8)
    decreases |es|
  {
    es == [] || (!Erases(d, es[0], s) && Spares(AfterEvent(d, es[0]), es[1..], s))
  }

  /** So over whole runs an image outlives everything but an accepted START
      for its own slot. */
  lemma {:induction false} ImageOutlives(d: Machine, es: seq<Event>, s: u8)
    requires MachineOk(d) && AdmissibleRun(d, es) && ImageOk(d.flash, s) && Spares(d, es, s)
    ensures ImageOk(Run(d, es).flash, s)
    decreases |es|
  {
    hide Admissible, AfterEvent, MachineOk, Durable, ImageOk, Erases;
    if es != [] {
      EventKeepsSafe(d, es[0]);
      ImagePersists(d, es[0], s);
      ImageOutlives(AfterEvent(d, es[0]), es[1..], s);
    }
  }

  /** Whether slot s validates after a run that begins with `ok`: completed
      headers make it valid, erased ones invalid, and nothing else matters. */
  ghost predicate Standing(d: Machine, es: seq<Event>, s: u8, ok: bool)
    decreases |es|
  {
    if es == [] then ok
    else Standing(AfterEvent(d, es[0]), es[1..], s, Heads(d, es[0], s) || (ok && !Erases(d, es[0], s)))
  }

  lemma {:induction false} ImageHistory(d: Machine, es: seq<Event>, s: u8)
    requires MachineOk(d) && AdmissibleRun(d, es) && IsSlot(s)
    ensures ImageOk(Run(d, es).flash, s) <==> Standing(d, es, s, ImageOk(d.flash, s))
    decreases |es|
  {
    hide Admissible, AfterEvent, MachineOk, Durable, ImageOk, Erases, Heads;
    if es != [] {
      EventKeepsSafe(d, es[0]);
      ImageExact(d, es[0], s);
      ImageHistory(AfterEvent(d, es[0]), es[1..], s);
    }
  }

  /** No END of the run completes the header of slot s. */
  ghost predicate Headless(d: Machine, es: seq<Event>, s: u8)
    decreases |es|
  {
    es == [] || (!Heads(d, es[0], s) && Headless(AfterEvent(d, es[0]), es[1..], s))
  }

  /** A slot that does not validate stays so until a header for it is complete. */
  lemma {:induction false} StaysInvalid(d: Machine, es: seq<Event>, s: u8)
    requires MachineOk(d) && AdmissibleRun(d, es) && IsSlot(s) && !ImageOk(d.flash, s) && Headless(d, es, s)
    ensures MachineOk(Run(d, es)) && !ImageOk(Run(d, es).flash, s)
    decreases |es|
  {
    hide Admissible, AfterEvent, MachineOk, Durable, ImageOk, Heads;
    if es != [] {
      EventKeepsSafe(d, es[0]);
      ImageAppears(d, es[0], s);
      StaysInvalid(AfterEvent(d, es[0]), es[1..], s);
    }
  }

  /** A start-up with this flash does not choose slot s, whatever the mailbox
      holds. */
  ghost predicate Unbootable(m: Memory, s: u8) {
    !ImageOk(m, s) && forall box :: BootOutcome(m, Message(box)).decision != BootSlot(s)
  }

  lemma InvalidUnbootable(m: Memory, s: u8)
    requires Startable(m) && !ImageOk(m, s)
    ensures Unbootable(m, s)
  {
    hide Startable, ImageOk, BootOutcome, BootRecordOf, Message, EffectiveRecord;
    forall box
      ensures BootOutcome(m, Message(box)).decision != BootSlot(s)
    {
      VerdictSafe(m, Message(box));
    }
  }

  /** Header last: from the event in which START erases slot s, whole or cut,
      over every run through cuts, resets, aborts and timeouts, the slot cannot
      be booted until an END for it gets as far as its last header word. */
  lemma UnbootableUntilHeader(d: Machine, e: Event, es: seq<Event>, s: u8)
    requires MachineOk(d) && Admissible(d, e) && IsSlot(s) && Erases(d, e, s)
    requires AdmissibleRun(AfterEvent(d, e), es) && Headless(AfterEvent(d, e), es, s)
    ensures Unbootable(Run(AfterEvent(d, e), es).flash, s)
  {
    hide *;
    HeadsOrErases(d, e, s);
    EventKeepsSafe(d, e);
    ImageExact(d, e, s);
    StaysInvalid(AfterEvent(d, e), es, s);
    StartableOf(Run(AfterEvent(d, e), es));
    InvalidUnbootable(Run(AfterEvent(d, e), es).flash, s);
  }

  lemma StartableOf(d: Machine)
    requires MachineOk(d)
    ensures Startable(d.flash)
  {
    hide Startable, SessionOk;
  }

  /** The same from the beginning of a run: if every valid header heads a valid
      image, then so it does after every run; a slot validates exactly if its
      last erase, if any, is followed by a completed header; otherwise it cannot
      be booted; and during a transfer the inactive slot is such a slot. */
  lemma HeaderLast(flash: Memory, box: Box, es: seq<Event>)
    requires Startable(flash) && HeadersHonest(flash) && AdmissibleRun(Off(flash, box), es)
    ensures var d := Run(Off(flash, box), es);
      && HeadersHonest(d.flash)
      && (forall s: u8 :: IsSlot(s) ==>
            && (ImageOk(d.flash, s) <==> Standing(Off(flash, box), es, s, ImageOk(flash, s)))
            && (HeaderValid(d.flash, s) <==> ImageOk(d.flash, s))
            && (!ImageOk(d.flash, s) ==> Unbootable(d.flash, s)))
      && (d.Running? && d.engine.state == Receiving ==>
            var o := Other(d.engine.metadata.active);
            !HeaderValid(d.flash, o) && Unbootable(d.flash, o))
  {
    hide *;
    var d0, d := Off(flash, box), Run(Off(flash, box), es);
    OffOk(flash, box);
    RunKeeps(d0, es);
    DurableParts(flash, d.flash);
    forall s: u8 | IsSlot(s)
      ensures ImageOk(d.flash, s) <==> Standing(d0, es, s, ImageOk(flash, s))
      ensures HeaderValid(d.flash, s) <==> ImageOk(d.flash, s)
      ensures !ImageOk(d.flash, s) ==> Unbootable(d.flash, s)
    {
      ImageHistory(d0, es, s);
      BadHeaderFails(d.flash, s);
      HonestHeader(d.flash, s);
      if !ImageOk(d.flash, s) { InvalidUnbootable(d.flash, s); }
    }
    if d.Running? && d.engine.state == Receiving {
      RunningFacts(d);
      ReceivingTarget(d.flash, d.engine);
      OtherIsSlot(d.engine.metadata.active);
    }
  }

  lemma OffOk(flash: Memory, box: Box)
    requires Startable(flash)
    ensures MachineOk(Off(flash, box)) && Off(flash, box).flash == flash
  {
    hide Startable;
  }

  lemma DurableParts(m: Memory, m': Memory)
    requires Durable(m, m')
    ensures Startable(m') && (HeadersHonest(m) ==> HeadersHonest(m'))
  {
    hide Startable, HeadersHonest;
  }

  lemma HonestHeader(m: Memory, s: u8)
    requires HeadersHonest(m) && IsSlot(s)
    ensures HeaderValid(m, s) ==> ImageOk(m, s)
  {
    hide HeaderValid, ImageOk;
  }

  lemma RunningFacts(d: Machine)
    requires MachineOk(d) && d.Running?
    ensures EngineOk(d.engine) && LooseTransfer(d.engine, d.flash)
  {
    hide Startable, ImageOk, EffectiveRecord, RecordValid, Decode, EngineOk, LooseTransfer;
  }

  /** The packet of a START that is accepted names the inactive slot. */
  lemma AcceptedTarget(d: Machine, e: Event)
    requires MachineOk(d) && AcceptsStart(d, e)
    ensures |e.i.q.payload| == HEADER_SIZE && Target(e.i.q.payload) == Other(d.engine.metadata.active)
  {
    hide Startable, ImageOk, EffectiveRecord, RecordValid, Decode, LooseTransfer, RangeAllowed, EraseSteps, Sound;
    if |e.i.q.payload| == HEADER_SIZE && HeaderOk(e.i.q.payload, Target(e.i.q.payload)) {
      HeaderSize(e.i.q.payload, Target(e.i.q.payload));
    }
    hide HeaderOk;
  }

  lemma StartEffects(e: Engine, m: Memory, q: Request)
    requires EngineOk(e) && q.command == START_UPDATE
    ensures Handle(e, m, q).steps ==
      if Handle(e, m, q).reply.Ack? then [EraseStep(SlotStart(Other(e.metadata.active)))] else []
  {
    hide HeaderOk, Sound, RangeAllowed;
    if |q.payload| == HEADER_SIZE && HeaderOk(q.payload, Target(q.payload)) && Target(q.payload) != e.metadata.active {
      HeaderSize(q.payload, Target(q.payload));
      TargetOpens(Target(q.payload), e.metadata.active);
    }
  }

  lemma EraseEndsImage(m: Memory, t: u8, done: nat, torn: Option<seq<u8>>, s: u8)
    requires IsSlot(t) && IsSlot(s) && done <= 1
    requires torn.Some? ==>
      done < 1 && TornPageFails(CutFlash(m, [EraseStep(SlotStart(t))], done, torn), SlotStart(t))
    ensures ImageOk(CutFlash(m, [EraseStep(SlotStart(t))], done, torn), s) <==>
      ImageOk(m, s) && !(s == t && (done > 0 || torn.Some?))
  {
    hide ImageOk, CutFlash, HeaderValid, CopyValid;
    var m' := CutFlash(m, [EraseStep(SlotStart(t))], done, torn);
    HeaderEraseCrash(m, t, done, torn);
    BadHeaderFails(m', t);
    if s != t { SlotFrame(m, m', s); }
  }

  lemma BadHeaderFails(m: Memory, s: u8)
    ensures !HeaderValid(m, s) ==> !ImageOk(m, s)
  {
    hide HeaderOk;
  }

  lemma ImageIsSlot(m: Memory, s: u8)
    requires ImageOk(m, s)
    ensures IsSlot(s)
  {
  }

  /** The images after any packet but START, cut at any step. */
  lemma PacketImages(m: Memory, e: Engine, q: Request, done: nat, torn: Option<seq<u8>>, s: u8)
    requires Startable(m) && SessionOk(m, e) && !Strays(e, m, q) && IsSlot(s) && q.command != START_UPDATE
    requires var steps := Handle(e, m, q).steps;
      && done <= |steps|
      && (torn.Some? ==> done < |steps| && steps[done].EraseStep?
                         && TornPageFails(CutFlash(m, steps, done, torn), steps[done].page))
    ensures var heads := q.command == END_UPDATE && Published(EndError(e, m)) && s == Target(e.header) && done >= 8;
      ImageOk(CutFlash(m, Handle(e, m, q).steps, done, torn), s) <==> heads || ImageOk(m, s)
  {
    hide *;
    SessionFacts(m, e);
    var steps, m', a := Handle(e, m, q).steps, CutFlash(m, Handle(e, m, q).steps, done, torn), e.metadata.active;
    NotReady(m, e);
    PacketEffect(m, e, q);
    if steps == [] {
      NoSteps(m, torn);
      if q.command == END_UPDATE && Published(EndError(e, m)) { EndLength(m, e, q); }
    } else {
      StoresWhileReceiving(m, e, q);
      ReceivingTarget(m, e);
      HandleHarmless(e, m, q);
      HarmlessSame(m, steps, a, done, torn);
      SlotFrame(m, m', a);
      OtherSlot(s, a);
      StoredImages(m, e, q, done, torn);
    }
  }

  /** The inactive slot after a packet that stores something. */
  lemma StoredImages(m: Memory, e: Engine, q: Request, done: nat, torn: Option<seq<u8>>)
    requires Startable(m) && SessionOk(m, e) && !Strays(e, m, q) && q.command != START_UPDATE
    requires var steps := Handle(e, m, q).steps;
      && steps != [] && done <= |steps|
      && (torn.Some? ==> done < |steps| && steps[done].EraseStep?
                         && TornPageFails(CutFlash(m, steps, done, torn), steps[done].page))
    ensures var o := Other(e.metadata.active);
      ImageOk(CutFlash(m, Handle(e, m, q).steps, done, torn), o) <==>
        q.command == END_UPDATE && Published(EndError(e, m)) && o == Target(e.header) && done >= 8
  {
    hide Startable, SessionOk, Strays, Handle, CutFlash, ImageOk, HeaderValid, Published, EndError, EngineOk,
      LooseTransfer, EffectiveRecord, RecordValid, Decode, Avoids, Harmless, HeadersHonest, GoodTarget, EndSteps,
      TornPageFails, HandleData, HandleStart;
    NotReady(m, e);
    SessionFacts(m, e);
    PacketEffect(m, e, q);
    var o, m' := Other(e.metadata.active), CutFlash(m, Handle(e, m, q).steps, done, torn);
    BadHeaderFails(m', o);
    if q.command == END_UPDATE && Published(EndError(e, m)) {
      EndLength(m, e, q);
      PublishesGood(e, m, q);
      GoodTargetFacts(e);
      EndCrash(m, e, done, torn);
    } else {
      DataAvoids(e, m, q);
      CutSame(m, HandleData(e, m, q).steps, done, torn, SlotStart(o), PayloadStart(o));
      BlankStays(m, m', o, e);
    }
  }

  lemma BlankStays(m: Memory, m': Memory, o: u8, e: Engine)
    requires LooseTransfer(e, m) && e.state == Receiving && o == Other(e.metadata.active)
    requires Same(m, m', SlotStart(o), PayloadStart(o))
    ensures !HeaderValid(m', o)
  {
    hide GoodTarget, PayloadSize, HeaderOk;
    BlankHeaderFails(m', o);
  }

  lemma StoresWhileReceiving(m: Memory, e: Engine, q: Request)
    requires Handle(e, m, q).steps != [] && q.command != START_UPDATE
    ensures e.state == Receiving
  {
    hide Duplicate, InSequence, WriteSucceeds, WriteSteps, DataSteps, PayloadVerified, HeaderOpen, Sound,
      PendingRecord, EndSteps, HandleStart;
  }

  // ---- What a session can leave behind ----

  /** d runs a session that started from flash m0 with the message c: the copy
      selected at load is intact, and a restart would find the record that was
      committed (or, without a commit, found) at start-up. */
  ghost predicate InSessionOf(d: Machine, m0: Memory, c: Option<Confirmation>) {
    && d.Running?
    && d.engine.copy == EffectiveCopy(m0)
    && d.engine.metadata == BootRecordOf(m0, c)
    && CopyValid(d.flash, d.engine.copy)
    && RecordAt(d.flash, d.engine.copy) == EffectiveRecord(m0)
    && EffectiveRecord(d.flash) == SessionRecord(m0, c)
  }

  /** The boot-time record if start-up commits one, else the one it found. */
  function SessionRecord(m0: Memory, c: Option<Confirmation>): Record {
    if BootOutcome(m0, c).commit then Next(BootRecordOf(m0, c)) else EffectiveRecord(m0)
  }

  ghost predicate StaysUp(d: Machine, es: seq<Event>)
    requires AdmissibleRun(d, es)
    decreases |es|
  {
    es == [] || (AfterEvent(d, es[0]).Running? && StaysUp(AfterEvent(d, es[0]), es[1..]))
  }

  lemma SessionBegins(m0: Memory, box: Box)
    requires Startable(m0)
    ensures InSessionOf(Do(Off(m0, box), PowerOn), m0, Message(box))
  {
    hide StartupSteps, Replay, BootOutcome, BootRecordOf, EffectiveCopy, EffectiveRecord, SessionOk, Message, ImageOk,
      RecordValid, Decode, Next, Consumed;
    var c := Message(box);
    StartupOpens(m0, c);
    SessionCopy(m0, c);
  }

  lemma SessionCopy(m0: Memory, c: Option<Confirmation>)
    requires Startable(m0)
    ensures var m', copy := Replay(m0, StartupSteps(m0, c)), EffectiveCopy(m0);
      CopyValid(m', copy) && RecordAt(m', copy) == EffectiveRecord(m0)
  {
    hide Replay, BootOutcome, BootRecordOf, EffectiveCopy, EffectiveRecord, ImageOk, RecordValid, Decode, Next,
      CutFlash, LoadSteps, BootSteps;
    var m1 := Replay(m0, LoadSteps(m0));
    ReplayConcat(m0, LoadSteps(m0), BootSteps(m0, c));
    CutAtEnd(m1, BootSteps(m0, c), None);
    BootCrash(m0, m1, c, |BootSteps(m0, c)|, None);
  }

  lemma SessionGoesOn(d: Machine, e: Event, m0: Memory, c: Option<Confirmation>)
    requires MachineOk(d) && Admissible(d, e) && InSessionOf(d, m0, c) && AfterEvent(d, e).Running?
    ensures InSessionOf(AfterEvent(d, e), m0, c)
  {
    hide SessionOk, Handle, ImageOk, RecordValid, Decode, EffectiveRecord, CutFlash, HeadersHonest,
      Strays, StartupSteps, BootOutcome, BootRecordOf, EffectiveCopy, TornPageFails, Replay, SessionRecord,
      Startable;
    ReplayNone(d.flash);
    if e.i.Packet? {
      var m, en, q := d.flash, d.engine, e.i.q;
      SessionFacts(m, en);
      assert en.state != ReadyToBoot by { NotReady(m, en); }
      PacketEffect(m, en, q);
      CutAtEnd(m, Handle(en, m, q).steps, None);
      PacketCrash(m, en, q, |Handle(en, m, q).steps|, None);
    }
  }

  lemma {:induction false} SessionRuns(d: Machine, es: seq<Event>, m0: Memory, c: Option<Confirmation>)
    requires MachineOk(d) && AdmissibleRun(d, es) && StaysUp(d, es) && InSessionOf(d, m0, c)
    ensures MachineOk(Run(d, es)) && InSessionOf(Run(d, es), m0, c)
    decreases |es|
  {
    hide Admissible, AfterEvent, MachineOk, InSessionOf;
    if es != [] {
      EventKeepsSafe(d, es[0]);
      SessionGoesOn(d, es[0], m0, c);
      SessionRuns(AfterEvent(d, es[0]), es[1..], m0, c);
    }
  }

  /** The record a start-up finds after an event of such a session: an END cut
      during its commit brings back the one the session started from. */
  ghost function RecordLeft(d: Machine, e: Event, m0: Memory, c: Option<Confirmation>): Record
    requires d.Running?
  {
    if !Publishes(d, e) then SessionRecord(m0, c)
    else if Done(d, e) == 29 then Next(PendingRecord(d.engine))
    else if 8 < Done(d, e) || TornPage(e).Some? then EffectiveRecord(m0)
    else SessionRecord(m0, c)
  }

  /** The last event of a session: a cut, an accepted END, or a reset. */
  lemma SessionEnds(d: Machine, e: Event, m0: Memory, c: Option<Confirmation>)
    requires MachineOk(d) && Admissible(d, e) && InSessionOf(d, m0, c)
    ensures EffectiveRecord(AfterEvent(d, e).flash) == RecordLeft(d, e, m0, c)
  {
    hide SessionOk, Handle, ImageOk, RecordValid, Decode, EffectiveRecord, CutFlash, HeadersHonest,
      Strays, StartupSteps, BootOutcome, BootRecordOf, EffectiveCopy, TornPageFails, Replay, SessionRecord,
      Startable, Next, PendingRecord, Cleared, Poll, EndError, Published;
    var steps, done, torn := StepsOf(d, e.i), Done(d, e), TornPage(e);
    EventFlash(d, e);
    if e.i.Packet? {
      PacketCrash(d.flash, d.engine, e.i.q, done, torn);
    } else {
      NoSteps(d.flash, torn);
    }
  }

  /** Atomic records: a session opened by a start-up from m0 is ended, at any
      point, by an event, a power cut for instance. The next start-up then finds
      the boot-time record, or, after an END that passed its checks, the record
      of END once it is complete and the session-start record while it is being
      committed. Until then the copy selected at load is never touched. */
  lemma SessionAtomicity(m0: Memory, box: Box, es: seq<Event>, e: Event)
    requires Startable(m0)
    requires AdmissibleRun(Do(Off(m0, box), PowerOn), es) && StaysUp(Do(Off(m0, box), PowerOn), es)
    requires Admissible(Run(Do(Off(m0, box), PowerOn), es), e)
    ensures var d, c := Run(Do(Off(m0, box), PowerOn), es), Message(box);
      && d.Running? && RecordAt(d.flash, EffectiveCopy(m0)) == EffectiveRecord(m0)
      && CopyValid(d.flash, EffectiveCopy(m0))
      && EffectiveRecord(AfterEvent(d, e).flash) == RecordLeft(d, e, m0, c)
  {
    hide *;
    var d0, c := Do(Off(m0, box), PowerOn), Message(box);
    PoweredOn(m0, box);
    SessionBegins(m0, box);
    SessionRuns(d0, es, m0, c);
    SessionShape(Run(d0, es), m0, c);
    SessionEnds(Run(d0, es), e, m0, c);
  }

  lemma PoweredOn(m0: Memory, box: Box)
    requires Startable(m0)
    ensures MachineOk(Do(Off(m0, box), PowerOn))
  {
    hide Do, Startable, HeadersHonest, SessionOk, Durable;
    assert MachineOk(Off(m0, box));
    EventKeepsSafe(Off(m0, box), Whole(PowerOn));
  }

  lemma SessionShape(d: Machine, m0: Memory, c: Option<Confirmation>)
    requires InSessionOf(d, m0, c)
    ensures d.Running? && RecordAt(d.flash, EffectiveCopy(m0)) == EffectiveRecord(m0)
    ensures CopyValid(d.flash, EffectiveCopy(m0))
  {
    hide EffectiveRecord, SessionRecord, RecordValid, Decode, EffectiveCopy, BootRecordOf;
  }

  // ---- What is jumped to ----

  /** A START is accepted during these events of a session. */
  ghost predicate Restarted(d: Machine, es: seq<Event>)
    decreases |es|
  {
    es != [] && (AcceptsStart(d, es[0]) || Restarted(AfterEvent(d, es[0]), es[1..]))
  }

  /** The header page of the inactive slot is blank. */
  predicate HeaderGone(d: Machine) {
    d.Running? && var o := Other(d.engine.metadata.active); Blank(d.flash, SlotStart(o), PayloadStart(o))
  }

  lemma HeaderStaysGone(d: Machine, e: Event)
    requires MachineOk(d) && Admissible(d, e) && d.Running? && AfterEvent(d, e).Running?
    ensures var d' := AfterEvent(d, e);
      && d'.engine.metadata.active == d.engine.metadata.active && d'.decision == d.decision
      && (HeaderGone(d) || AcceptsStart(d, e) ==> HeaderGone(d'))
  {
    hide SessionOk, Handle, ImageOk, RecordValid, Decode, EffectiveRecord, HeadersHonest, Strays, StartupSteps,
      BootOutcome, BootRecordOf, EffectiveCopy, TornPageFails, Replay, Startable, Blank;
    ReplayNone(d.flash);
    if e.i.Packet? {
      PacketPage(d.flash, d.engine, e.i.q);
    } else {
      PollActive(d.engine);
    }
  }

  lemma PollActive(e: Engine)
    ensures forall now :: Poll(e, now).metadata == e.metadata
  {
  }

  /** What a packet does to the header page of the inactive slot. */
  lemma PacketPage(m: Memory, e: Engine, q: Request)
    requires SessionOk(m, e) && !Strays(e, m, q) && Handle(e, m, q).engine.state != ReadyToBoot
    ensures var f, o := Handle(e, m, q), Other(e.metadata.active);
      var m' := Replay(m, f.steps);
      && f.engine.metadata == e.metadata
      && (Blank(m, SlotStart(o), PayloadStart(o)) || (q.command == START_UPDATE && f.reply.Ack?) ==>
            Blank(m', SlotStart(o), PayloadStart(o)))
  {
    hide SessionOk, EngineOk, Handle, HandleStart, ImageOk, LooseTransfer, EffectiveRecord, RecordValid, Decode, Avoids,
      Replay, Published, EndError, Strays, Harmless;
    NotReady(m, e);
    SessionFacts(m, e);
    PacketEffect(m, e, q);
    ReplayNone(m);
    var o := Other(e.metadata.active);
    if q.command == START_UPDATE {
      StartEffects(e, m, q);
      ReplayOne(m, EraseStep(SlotStart(o)));
    } else if q.command == DATA {
      DataAvoids(e, m, q);
      ReplaySame(m, HandleData(e, m, q).steps, SlotStart(o), PayloadStart(o));
    }
  }

  /** In a session, the image of the inactive slot stays or goes exactly with
      the first accepted START. */
  lemma {:induction false} SessionImages(d: Machine, es: seq<Event>)
    requires MachineOk(d) && d.Running? && AdmissibleRun(d, es) && StaysUp(d, es)
    ensures var d', o := Run(d, es), Other(d.engine.metadata.active);
      && MachineOk(d') && d'.Running?
      && d'.engine.metadata.active == d.engine.metadata.active && d'.decision == d.decision
      && (HeaderGone(d) || Restarted(d, es) ==> HeaderGone(d'))
      && (ImageOk(d.flash, o) && !Restarted(d, es) ==> ImageOk(d'.flash, o))
    decreases |es|
  {
    hide Admissible, AfterEvent, MachineOk, Durable, ImageOk, AcceptsStart, HeaderGone;
    if es != [] {
      EventKeepsSafe(d, es[0]);
      HeaderStaysGone(d, es[0]);
      NoStartNoErase(d, es[0]);
      if ImageOk(d.flash, Other(d.engine.metadata.active)) {
        ImagePersists(d, es[0], Other(d.engine.metadata.active));
      }
      SessionImages(AfterEvent(d, es[0]), es[1..]);
    }
  }

  lemma NoStartNoErase(d: Machine, e: Event)
    ensures forall s :: Erases(d, e, s) ==> AcceptsStart(d, e)
  {
    hide AcceptsStart;
  }

  /** The slot is decided at start-up, when its image validates. When it is
      jumped to, after any packets and polls, it validates if and only if it is
      the active slot or no START has been accepted since start-up. */
  lemma JumpedImage(m0: Memory, box: Box, es: seq<Event>)
    requires Startable(m0)
    requires AdmissibleRun(Do(Off(m0, box), PowerOn), es) && StaysUp(Do(Off(m0, box), PowerOn), es)
    requires Do(Run(Do(Off(m0, box), PowerOn), es), Jump).App?
    ensures var d0 := Do(Off(m0, box), PowerOn);
      var app := Do(Run(d0, es), Jump);
      && BootOutcome(m0, Message(box)).decision == BootSlot(app.slot) && ImageOk(d0.flash, app.slot)
      && (ImageOk(app.flash, app.slot) <==>
            app.slot == EffectiveRecord(d0.flash).active || !Restarted(d0, es))
  {
    var d0 := Do(Off(m0, box), PowerOn);
    hide *;
    PoweredOn(m0, box);
    Started(m0, box);
    StartupOpens(m0, Message(box));
    VerdictSafe(m0, Message(box));
    SessionImages(d0, es);
    Jumped(Run(d0, es));
    SlotOfSession(d0);
    SlotOfSession(Run(d0, es));
    GoneFails(Run(d0, es));
    OtherSlot(BootOutcome(m0, Message(box)).decision.slot, d0.engine.metadata.active);
  }

  lemma Jumped(d: Machine)
    requires d.Running? && Do(d, Jump).App?
    ensures d.decision.BootSlot? && Do(d, Jump) == App(d.flash, d.box, d.decision.slot)
  {
    hide Replay, StepsOf, Handle, Poll, Posted, Cleared, Message, Consumed, BootOutcome, BootRecordOf, EffectiveCopy,
      AlreadyConfirmed, Init;
  }

  lemma SlotOfSession(d: Machine)
    requires MachineOk(d) && d.Running?
    ensures IsSlot(d.engine.metadata.active) && EffectiveRecord(d.flash).active == d.engine.metadata.active
    ensures ImageOk(d.flash, d.engine.metadata.active)
  {
    hide ImageOk, RecordValid, Decode, EffectiveRecord, LooseTransfer;
    SessionFacts(d.flash, d.engine);
  }

  lemma GoneFails(d: Machine)
    requires d.Running?
    ensures HeaderGone(d) ==> !ImageOk(d.flash, Other(d.engine.metadata.active))
  {
    hide ImageOk, HeaderValid;
    var o := Other(d.engine.metadata.active);
    OtherIsSlot(d.engine.metadata.active);
    if HeaderGone(d) {
      BlankHeaderFails(d.flash, o);
      BadHeaderFails(d.flash, o);
    }
  }

  lemma OtherIsSlot(a: u8)
    ensures IsSlot(Other(a))
  {
  }

  lemma OtherSlot(s: u8, a: u8)
    requires IsSlot(s) && IsSlot(a)
    ensures s == a || s == Other(a)
  {
  }

  // ---- How the active slot changes ----

  /** A start-up that finds a matching confirmation in the mailbox. */
  predicate ConfirmedStart(d: Machine, e: Event) {
    d.Off? && e.i.PowerOn? && Confirms(EffectiveRecord(d.flash), Message(d.box), Probe(d.flash))
  }

  /** END is cut while it commits, in a session whose start-up changed the
      active slot. */
  ghost predicate Reverts(d: Machine, e: Event) {
    && Publishes(d, e)
    && RecordAt(d.flash, d.engine.copy).active != d.engine.metadata.active
    && (8 < Done(d, e) < 29 || TornPage(e).Some?)
  }

  /** The active slot that start-up finds changes exactly by a completed
      start-up with a matching confirmation, and then to the slot that was
      pending, and by an END that is cut while it commits in a session that
      such a start-up has opened: that brings the former active slot back. */
  lemma ActiveSlotChanges(d: Machine, e: Event)
    requires MachineOk(d) && Admissible(d, e)
    ensures var r, r' := EffectiveRecord(d.flash), EffectiveRecord(AfterEvent(d, e).flash);
      && (r'.active != r.active <==>
            || (ConfirmedStart(d, e) && r.pending != r.active && Done(d, e) == |StepsOf(d, e.i)|)
            || Reverts(d, e))
      && (r'.active != r.active ==>
            r'.active == if ConfirmedStart(d, e) then r.pending else RecordAt(d.flash, d.engine.copy).active)
  {
    hide SessionOk, Handle, ImageOk, RecordValid, Decode, EffectiveRecord, CutFlash, HeadersHonest,
      Strays, StartupSteps, BootOutcome, BootRecordOf, EffectiveCopy, TornPageFails, Replay, AfterEvent,
      Startable, Message, Confirms, EndError, Published;
    var steps, done, torn := StepsOf(d, e.i), Done(d, e), TornPage(e);
    EventFlash(d, e);
    if e.i.PowerOn? && d.Off? {
      StartupActive(d.flash, Message(d.box), done, torn);
    } else if e.i.Packet? && d.Running? {
      PacketActive(d.flash, d.engine, e.i.q, done, torn);
    } else {
      NoSteps(d.flash, torn);
    }
  }

  lemma StartupActive(m: Memory, c: Option<Confirmation>, done: nat, torn: Option<seq<u8>>)
    requires Startable(m) && done <= |StartupSteps(m, c)|
    requires torn.Some? ==>
      && done < |StartupSteps(m, c)| && StartupSteps(m, c)[done].EraseStep?
      && TornPageFails(CutFlash(m, StartupSteps(m, c), done, torn), StartupSteps(m, c)[done].page)
    ensures var r, r' := EffectiveRecord(m), EffectiveRecord(CutFlash(m, StartupSteps(m, c), done, torn));
      r'.active == if Confirms(r, c, Probe(m)) && done == |StartupSteps(m, c)| then r.pending else r.active
  {
    hide CutFlash, StartupSteps, EffectiveRecord, ImageOk, TornPageFails, Next, Finalize, HeadersHonest;
    StartupCrash(m, c, done, torn);
    var r := EffectiveRecord(m);
    ActiveChanges(r, c, Probe(m));
    SealKeeps(BootOutcome(m, c).record);
    SealKeeps(BootRecordOf(m, c));
    hide Confirms;
  }

  lemma PacketActive(m: Memory, e: Engine, q: Request, done: nat, torn: Option<seq<u8>>)
    requires Startable(m) && SessionOk(m, e) && !Strays(e, m, q)
    requires var steps := Handle(e, m, q).steps;
      && done <= |steps|
      && (torn.Some? ==> done < |steps| && steps[done].EraseStep?
                         && TornPageFails(CutFlash(m, steps, done, torn), steps[done].page))
    ensures EffectiveRecord(m).active == e.metadata.active
    ensures EffectiveRecord(CutFlash(m, Handle(e, m, q).steps, done, torn)).active ==
      if q.command == END_UPDATE && Published(EndError(e, m)) && (8 < done < 29 || torn.Some?)
      then RecordAt(m, e.copy).active else e.metadata.active
  {
    hide Handle, CutFlash, EffectiveRecord, ImageOk, TornPageFails, Next, PendingRecord, RecordValid, Decode,
      HeadersHonest, Startable, Strays, SessionOk, EndError, Published;
    PacketCrash(m, e, q, done, torn);
    SessionFacts(m, e);
    PendingKeepsActive(e);
    SealKeeps(PendingRecord(e));
    if q.command == END_UPDATE && Published(EndError(e, m)) { EndLength(m, e, q); }
  }

  lemma EndLength(m: Memory, e: Engine, q: Request)
    requires Startable(m) && SessionOk(m, e) && !Strays(e, m, q)
    requires q.command == END_UPDATE && Published(EndError(e, m))
    ensures Handle(e, m, q).steps == EndSteps(e) && |EndSteps(e)| == 29
  {
    hide EndError, Published, SessionOk, Startable, EffectiveRecord, HeadersHonest, PendingRecord, ImageOk, EndSteps,
      CutFlash, TornPageFails;
    PublishesGood(e, m, q);
    EndCrash(m, e, 0, None);
  }

  // ---- Bounded trial boots ----

  /** How often slot p can still be jumped to. In a running session that is the
      attempts left in the durable record and the jump already decided, or else,
      after a power cut in END, the attempts left in the record the session
      started from. */
  function Potential(d: Machine, p: u8): nat {
    var left := Remaining(EffectiveRecord(d.flash), p);
    if !d.Running? then left
    else Max(left + if d.decision == BootSlot(p) then 1 else 0, Remaining(RecordAt(d.flash, d.engine.copy), p))
  }

  function Max(a: nat, b: nat): nat { if a < b then b else a }

  /** The record a running session started from agrees with the durable one
      about the active slot. */
  predicate SameActive(d: Machine) {
    d.Running? ==> RecordAt(d.flash, d.engine.copy).active == EffectiveRecord(d.flash).active
  }

  function Jumps(d: Machine, e: Event, p: u8): nat {
    if d.Running? && e == Whole(Jump) && AfterEvent(d, e).App? && AfterEvent(d, e).slot == p then 1 else 0
  }

  ghost function JumpCount(d: Machine, es: seq<Event>, p: u8): nat
    decreases |es|
  {
    if es == [] then 0 else Jumps(d, es[0], p) + JumpCount(AfterEvent(d, es[0]), es[1..], p)
  }

  /** No start-up finds a matching confirmation, and no END that passes its
      checks is carried out to its last flash step. */
  ghost predicate Unconfirmed(d: Machine, es: seq<Event>)
    decreases |es|
  {
    es == [] ||
    (!ConfirmedStart(d, es[0]) && !Completes(d, es[0]) && Unconfirmed(AfterEvent(d, es[0]), es[1..]))
  }

  /** An update is completed. */
  ghost predicate Completes(d: Machine, e: Event) { Publishes(d, e) && Done(d, e) == 29 }

  lemma StartupSpends(m: Memory, c: Option<Confirmation>, done: nat, torn: Option<seq<u8>>, p: u8)
    requires Startable(m) && done <= |StartupSteps(m, c)|
    requires torn.Some? ==>
      && done < |StartupSteps(m, c)| && StartupSteps(m, c)[done].EraseStep?
      && TornPageFails(CutFlash(m, StartupSteps(m, c), done, torn), StartupSteps(m, c)[done].page)
    requires IsSlot(p) && p != EffectiveRecord(m).active && !Confirms(EffectiveRecord(m), c, Probe(m))
    ensures var r, r' := EffectiveRecord(m), EffectiveRecord(CutFlash(m, StartupSteps(m, c), done, torn));
      && r'.active == r.active
      && Remaining(r', p) <= Remaining(r, p)
      && (done == |StartupSteps(m, c)| && BootOutcome(m, c).decision == BootSlot(p) ==>
            Remaining(r', p) + 1 == Remaining(r, p))
  {
    hide CutFlash, StartupSteps, EffectiveRecord, ImageOk, TornPageFails, Next, Finalize, HeadersHonest, Replay;
    var r := EffectiveRecord(m);
    StartupCrash(m, c, done, torn);
    if done == |StartupSteps(m, c)| {
      StartupOpens(m, c);
      CutAtEnd(m, StartupSteps(m, c), torn);
    }
    TrialSpendsAttempt(r, c, Probe(m), p);
    DecideKeepsSound(r, c, Probe(m));
    hide Decide, Confirms;
    SealedRemaining(BootOutcome(m, c).record, p);
    SealedRemaining(r, p);
    SealedRemaining(BootRecordOf(m, c), p);
  }

  lemma SealedRemaining(r: Record, p: u8)
    ensures Remaining(Next(r), p) == Remaining(r, p) == Remaining(Finalize(r), p)
    ensures Next(r).active == r.active == Finalize(r).active
  {
    SealKeeps(r);
  }

  lemma EventSpends(d: Machine, e: Event, p: u8)
    requires MachineOk(d) && Admissible(d, e) && SameActive(d)
    requires IsSlot(p) && p != EffectiveRecord(d.flash).active
    requires !ConfirmedStart(d, e) && !Completes(d, e)
    ensures Jumps(d, e, p) + Potential(AfterEvent(d, e), p) <= Potential(d, p)
    ensures EffectiveRecord(AfterEvent(d, e).flash).active == EffectiveRecord(d.flash).active
    ensures SameActive(AfterEvent(d, e))
  {
    hide SessionOk, Handle, ImageOk, RecordValid, Decode, EffectiveRecord, CutFlash, HeadersHonest, RecordAt,
      Strays, StartupSteps, BootOutcome, BootRecordOf, EffectiveCopy, TornPageFails, Replay, Remaining,
      Startable, Message, Confirms, Consumed, Cleared, Posted, Poll, EndError, Published;
    var steps, done, torn := StepsOf(d, e.i), Done(d, e), TornPage(e);
    EventFlash(d, e);
    if e.i.PowerOn? && d.Off? {
      StartupSpends(d.flash, Message(d.box), done, torn, p);
      SessionCopy(d.flash, Message(d.box));
    } else if e.i.Packet? && d.Running? {
      PacketSpends(d.flash, d.engine, e.i.q, done, torn);
    } else {
      NoSteps(d.flash, torn);
      if d.Running? { PollCopy(d); }
    }
  }

  lemma PollCopy(d: Machine)
    requires d.Running?
    ensures forall now :: Poll(d.engine, now).copy == d.engine.copy
  {
  }

  lemma PacketSpends(m: Memory, e: Engine, q: Request, done: nat, torn: Option<seq<u8>>)
    requires Startable(m) && SessionOk(m, e) && !Strays(e, m, q)
    requires var steps := Handle(e, m, q).steps;
      && done <= |steps|
      && (torn.Some? ==> done < |steps| && steps[done].EraseStep?
                         && TornPageFails(CutFlash(m, steps, done, torn), steps[done].page))
    requires !(q.command == END_UPDATE && Published(EndError(e, m)) && done == 29)
    ensures var m', f := CutFlash(m, Handle(e, m, q).steps, done, torn), Handle(e, m, q);
      && (EffectiveRecord(m') == EffectiveRecord(m) || EffectiveRecord(m') == RecordAt(m, e.copy))
      && (done == |f.steps| ==> f.engine.state != ReadyToBoot)
      && (f.engine.state != ReadyToBoot ==>
            && EffectiveRecord(m') == EffectiveRecord(m) && f.engine.copy == e.copy
            && RecordAt(m', e.copy) == RecordAt(m, e.copy))
  {
    hide SessionOk, Handle, ImageOk, RecordValid, Decode, EffectiveRecord, CutFlash, HeadersHonest,
      Strays, TornPageFails, Startable, EndError, Published, RecordAt, Next, PendingRecord;
    NotReady(m, e);
    SessionFacts(m, e);
    PacketEffect(m, e, q);
    PacketCrash(m, e, q, done, torn);
    if q.command == END_UPDATE && Published(EndError(e, m)) { EndLength(m, e, q); }
  }

  lemma {:induction false} TrialsSpend(d: Machine, es: seq<Event>, p: u8)
    requires MachineOk(d) && AdmissibleRun(d, es) && Unconfirmed(d, es)
    requires IsSlot(p) && p != EffectiveRecord(d.flash).active && SameActive(d)
    ensures JumpCount(d, es, p) + Potential(Run(d, es), p) <= Potential(d, p)
    decreases |es|
  {
    hide Admissible, AfterEvent, MachineOk, Potential, Jumps, ConfirmedStart, EffectiveRecord, Completes, SameActive;
    if es != [] {
      EventKeepsSafe(d, es[0]);
      EventSpends(d, es[0], p);
      TrialsSpend(AfterEvent(d, es[0]), es[1..], p);
    }
  }

  /** An image that is not active is jumped to at most as often as attempts are
      left, hence at most three times, over any run of start-ups, power cuts and
      packets, refused and cut ENDs included, without a matching confirmation
      and without a completed update. */
  lemma BoundedTrials(flash: Memory, box: Box, es: seq<Event>, p: u8)
    requires Startable(flash) && AdmissibleRun(Off(flash, box), es) && Unconfirmed(Off(flash, box), es)
    requires IsSlot(p) && p != EffectiveRecord(flash).active
    ensures JumpCount(Off(flash, box), es, p) <= Remaining(EffectiveRecord(flash), p) <= 3
  {
    hide AdmissibleRun, Run, Unconfirmed, EffectiveRecord, HeadersHonest, SessionOk;
    TrialsSpend(Off(flash, box), es, p);
  }

  /** Once no attempt is left, the next unconfirmed start-up durably marks the
      pending slot failed and chooses the active one. */
  lemma ExhaustedFails(flash: Memory, box: Box)
    requires Startable(flash)
    requires var r := EffectiveRecord(flash);
      && IsSlot(r.pending) && r.pending != r.active && Remaining(r, r.pending) == 0
      && !Confirms(r, Message(box), Probe(flash))
    ensures var r, d := EffectiveRecord(flash), Do(Off(flash, box), PowerOn);
      var r' := EffectiveRecord(d.flash);
      && r'.Slot(r.pending).state == FAILED && r'.pending == SLOT_NONE
      && d.decision == BootSlot(r.active)
  {
    var c, r := Message(box), EffectiveRecord(flash);
    hide StartupSteps, EffectiveRecord, ImageOk, Next, Finalize, HeadersHonest, Replay, Message, SessionOk, Confirms;
    StartupOpens(flash, c);
    TrialSpendsAttempt(r, c, Probe(flash), r.pending);
    SealKeeps(BootOutcome(flash, c).record);
    SealKeeps(BootRecordOf(flash, c));
    hide Decide;
  }

  // ---- The confirmation handshake ----

  /** Slot t is pending with version v beside the active slot a; both validate. */
  ghost predicate TrialOf(r: Record, m: Memory, a: u8, t: u8, v: Version) {
    && IsSlot(a) && IsSlot(t) && a != t
    && ImageOk(m, a) && ImageOk(m, t)
    && r.active == a && r.pending == t
    && r.Slot(t).version == v
  }

  /** A start-up without a message tries the pending image. */
  lemma TrialStart(m: Memory, a: u8, t: u8, v: Version)
    requires TrialOf(EffectiveRecord(m), m, a, t, v) && EffectiveRecord(m).Slot(t).bootCount < MAX_ATTEMPTS
    ensures Startable(m) && Message(Cleared()) == None && Consumed(Cleared()) == Cleared()
    ensures var d := Do(Off(m, Cleared()), PowerOn);
      && d.Running? && d.engine.state == Idle && d.decision == BootSlot(t) && d.box == Cleared()
      && TrialOf(EffectiveRecord(d.flash), d.flash, a, t, v)
  {
    hide *;
    NothingPosted();
    TrialFacts(m, a, t, v);
    StartupOpens(m, None);
    SlotsFrame(m, Replay(m, StartupSteps(m, None)));
    TrialDecision(m, a, t, v);
    Started(m, Cleared());
    TrialStays(m, Replay(m, StartupSteps(m, None)), BootRecordOf(m, None), a, t, v);
  }

  lemma NothingPosted()
    ensures Message(Cleared()) == None && Consumed(Cleared()) == Cleared()
  {
  }

  lemma TrialFacts(m: Memory, a: u8, t: u8, v: Version)
    requires TrialOf(EffectiveRecord(m), m, a, t, v)
    ensures Startable(m) && IsSlot(a) && IsSlot(t) && a != t && ImageOk(m, a) && ImageOk(m, t)
  {
    hide ImageOk, EffectiveRecord;
  }

  /** The machine right after start-up. */
  lemma Started(m: Memory, box: Box)
    ensures var d, c := Do(Off(m, box), PowerOn), Message(box);
      && d == Running(Replay(m, StartupSteps(m, c)), Consumed(box), Init(BootRecordOf(m, c), EffectiveCopy(m)),
                      BootOutcome(m, c).decision)
      && d.engine.state == Idle
  {
    hide Replay, StartupSteps, Message, Consumed, BootRecordOf, EffectiveCopy, BootOutcome;
  }

  /** Without a message the pending image is tried, and the attempt counted. */
  lemma TrialDecision(m: Memory, a: u8, t: u8, v: Version)
    requires TrialOf(EffectiveRecord(m), m, a, t, v) && EffectiveRecord(m).Slot(t).bootCount < MAX_ATTEMPTS
    ensures var o, r := BootOutcome(m, None), BootRecordOf(m, None);
      && o.commit && o.decision == BootSlot(t)
      && Next(r).active == a && Next(r).pending == t && Next(r).Slot(t).version == v
  {
    hide EffectiveRecord, ImageOk, Next, Finalize;
    var r := EffectiveRecord(m);
    assert Decide(r, None, Probe(m)) == Outcome(CountAttempt(r), BootSlot(t), true);
    SealKeeps(BootOutcome(m, None).record);
    SealKeeps(BootRecordOf(m, None));
  }

  lemma TrialStays(m: Memory, m': Memory, r: Record, a: u8, t: u8, v: Version)
    requires IsSlot(a) && IsSlot(t) && a != t && ImageOk(m', a) && ImageOk(m', t)
    requires EffectiveRecord(m') == Next(r)
    requires Next(r).active == a && Next(r).pending == t && Next(r).Slot(t).version == v
    ensures TrialOf(EffectiveRecord(m'), m', a, t, v)
  {
    hide ImageOk, EffectiveRecord, Next;
  }

  /** A start-up with the matching message promotes the pending image. */
  lemma PromotingStart(m: Memory, a: u8, t: u8, v: Version)
    requires TrialOf(EffectiveRecord(m), m, a, t, v)
    ensures var d := Do(Off(m, Posted(t, v)), PowerOn);
      var r := EffectiveRecord(d.flash);
      && d.Running? && d.engine.state == Idle && d.decision == BootSlot(t) && d.box == Consumed(Posted(t, v))
      && r.active == t && r.pending == SLOT_NONE && r.Slot(t).state == ACTIVE && r.Slot(t).version == v
      && r.Slot(a).state == VALID
  {
    hide *;
    TrialFacts(m, a, t, v);
    PostedOnce(t, v);
    StartupOpens(m, Some(Confirmation(t, v)));
    PromotingDecision(m, a, t, v);
    Started(m, Posted(t, v));
  }

  lemma PromotingDecision(m: Memory, a: u8, t: u8, v: Version)
    requires TrialOf(EffectiveRecord(m), m, a, t, v)
    ensures var c := Some(Confirmation(t, v));
      var o, r := BootOutcome(m, c), Next(BootRecordOf(m, c));
      && o.commit && o.decision == BootSlot(t)
      && r.active == t && r.pending == SLOT_NONE && r.Slot(t).state == ACTIVE && r.Slot(t).version == v
      && r.Slot(a).state == VALID
  {
    hide EffectiveRecord, ImageOk, Next, Finalize;
    var r, c := EffectiveRecord(m), Some(Confirmation(t, v));
    assert Decide(r, c, Probe(m)) == Outcome(Promote(r), BootSlot(t), true);
    SealKeeps(BootOutcome(m, c).record);
    SealKeeps(BootRecordOf(m, c));
  }

  /** The flash after start-ups that find these boxes. */
  function StartUps(m: Memory, boxes: seq<Box>): Memory {
    if boxes == [] then m
    else Do(Off(StartUps(m, boxes[..|boxes| - 1]), boxes[|boxes| - 1]), PowerOn).flash
  }

  /** No box confirms version v of slot t. */
  predicate Unconfirming(boxes: seq<Box>, t: u8, v: Version) {
    forall k :: 0 <= k < |boxes| ==> Message(boxes[k]) != Some(Confirmation(t, v))
  }

  /** The start-up decides for this slot. */
  predicate Chooses(m: Memory, box: Box, slot: u8) {
    var d := Do(Off(m, box), PowerOn); d.Running? && d.decision == BootSlot(slot)
  }

  lemma AttemptStart(m: Memory, box: Box, a: u8, t: u8, v: Version)
    requires TrialOf(EffectiveRecord(m), m, a, t, v) && EffectiveRecord(m).Slot(t).bootCount < 3
    requires Message(box) != Some(Confirmation(t, v))
    ensures var d := Do(Off(m, box), PowerOn);
      && Chooses(m, box, t) && TrialOf(EffectiveRecord(d.flash), d.flash, a, t, v)
      && EffectiveRecord(d.flash).Slot(t).bootCount == EffectiveRecord(m).Slot(t).bootCount + 1
  {
    hide *;
    var c := Message(box);
    TrialFacts(m, a, t, v);
    StartupOpens(m, c);
    SlotsFrame(m, Replay(m, StartupSteps(m, c)));
    AttemptDecision(m, c, a, t, v);
    Started(m, box);
    ChoosesIs(m, box, t);
    TrialStays(m, Replay(m, StartupSteps(m, c)), BootRecordOf(m, c), a, t, v);
  }

  lemma ChoosesIs(m: Memory, box: Box, slot: u8)
    ensures var d := Do(Off(m, box), PowerOn); d.Running? ==> (Chooses(m, box, slot) <==> d.decision == BootSlot(slot))
  {
    hide Do;
  }

  lemma AttemptDecision(m: Memory, c: Option<Confirmation>, a: u8, t: u8, v: Version)
    requires TrialOf(EffectiveRecord(m), m, a, t, v) && EffectiveRecord(m).Slot(t).bootCount < 3
    requires c != Some(Confirmation(t, v))
    ensures var o, r := BootOutcome(m, c), Next(BootRecordOf(m, c));
      && o.commit && o.decision == BootSlot(t)
      && r.active == a && r.pending == t && r.Slot(t).version == v
      && r.Slot(t).bootCount == EffectiveRecord(m).Slot(t).bootCount + 1
  {
    hide EffectiveRecord, ImageOk, Next, Finalize, Decide;
    var r := EffectiveRecord(m);
    DecisionExact(r, c, Probe(m));
    RecordExact(r, c, Probe(m));
    SealKeeps(BootOutcome(m, c).record);
    SealKeeps(BootRecordOf(m, c));
  }

  lemma {:induction false} Attempts(m: Memory, boxes: seq<Box>, a: u8, t: u8, v: Version)
    requires TrialOf(EffectiveRecord(m), m, a, t, v) && EffectiveRecord(m).Slot(t).bootCount == 0
    requires |boxes| <= 3 && Unconfirming(boxes, t, v)
    ensures var m' := StartUps(m, boxes);
      TrialOf(EffectiveRecord(m'), m', a, t, v) && EffectiveRecord(m').Slot(t).bootCount == |boxes|
    decreases |boxes|
  {
    hide TrialOf, EffectiveRecord, Do, Message, Chooses;
    if boxes != [] {
      var n := |boxes| - 1;
      Attempts(m, boxes[..n], a, t, v);
      AttemptStart(StartUps(m, boxes[..n]), boxes[n], a, t, v);
    }
  }

  /** A new image that is not confirmed is started by the next three start-ups,
      whatever else the mailbox says, and not by the fourth: that one marks it
      FAILED (5), and boots the active slot. */
  lemma ThreeTrials(m: Memory, boxes: seq<Box>, a: u8, t: u8, v: Version)
    requires TrialOf(EffectiveRecord(m), m, a, t, v) && EffectiveRecord(m).Slot(t).bootCount == 0
    requires |boxes| == 4 && Unconfirming(boxes, t, v)
    ensures forall k :: 0 <= k < 3 ==> Chooses(StartUps(m, boxes[..k]), boxes[k], t)
    ensures Chooses(StartUps(m, boxes[..3]), boxes[3], a)
    ensures var d := Do(Off(StartUps(m, boxes[..3]), boxes[3]), PowerOn);
      && EffectiveRecord(d.flash).Slot(t).state == 5 && EffectiveRecord(d.flash).pending == 0xFF
  {
    hide TrialOf, EffectiveRecord, Do, Message, StartUps, Chooses;
    forall k | 0 <= k < 3
      ensures Chooses(StartUps(m, boxes[..k]), boxes[k], t)
    {
      Attempts(m, boxes[..k], a, t, v);
      AttemptStart(StartUps(m, boxes[..k]), boxes[k], a, t, v);
    }
    Attempts(m, boxes[..3], a, t, v);
    FourthStart(StartUps(m, boxes[..3]), boxes[3], a, t, v);
  }

  lemma FourthStart(m: Memory, box: Box, a: u8, t: u8, v: Version)
    requires TrialOf(EffectiveRecord(m), m, a, t, v) && EffectiveRecord(m).Slot(t).bootCount == 3
    requires Message(box) != Some(Confirmation(t, v))
    ensures Chooses(m, box, a)
    ensures var d := Do(Off(m, box), PowerOn);
      && EffectiveRecord(d.flash).Slot(t).state == 5 && EffectiveRecord(d.flash).pending == 0xFF
  {
    TrialFacts(m, a, t, v);
    Started(m, box);
    hide EffectiveRecord, ImageOk, Do, Message, Startable, Decide, StartupSteps, BootOutcome, BootRecordOf, Consumed,
      EffectiveCopy, Replay, Init;
    ExhaustedFails(m, box);
  }

  /** What END leaves for the next start-up. */
  lemma EndLeavesTrial(d: Machine, q: Request)
    requires MachineOk(d) && d.Running? && q.command == END_UPDATE
    requires !Strays(d.engine, d.flash, q) && Handle(d.engine, d.flash, q).reply.Ack?
    ensures var d', e := Do(d, Packet(q)), d.engine;
      var a, t, v := e.metadata.active, Target(e.header), VersionOf(e.header);
      && d' == Off(d'.flash, Cleared())
      && TrialOf(EffectiveRecord(d'.flash), d'.flash, a, t, v)
      && EffectiveRecord(d'.flash).Slot(t).bootCount == 0
      && HeaderAt(d'.flash, t) == e.header
  {
    hide Handle, SessionOk, EffectiveRecord, ImageOk, Next, PendingRecord, RecordValid, Decode, HeadersHonest,
      Startable, Replay, EndSteps, EndError, Published, CutFlash, Cleared, HeaderOk, Sound;
    var m, e := d.flash, d.engine;
    var f := Handle(e, m, q);
    NotReady(m, e);
    AckedEnd(e, m, q);
    SessionFacts(m, e);
    PublishesGood(e, m, q);
    PacketEffect(m, e, q);
    CutAtEnd(m, EndSteps(e), None);
    EndCrash(m, e, |EndSteps(e)|, None);
    EndStores(m, e);
    GoodTargetFacts(e);
    ActiveStays(m, e, q);
    PendingSlot(e);
    SealKeeps(PendingRecord(e));
  }

  lemma AckedEnd(e: Engine, m: Memory, q: Request)
    requires q.command == END_UPDATE && Handle(e, m, q).reply.Ack?
    ensures Published(EndError(e, m)) && Handle(e, m, q).engine.state == ReadyToBoot
  {
    hide EndError, EndSteps, PendingRecord;
  }

  lemma ActiveStays(m: Memory, e: Engine, q: Request)
    requires SessionOk(m, e)
    ensures ImageOk(Replay(m, Handle(e, m, q).steps), e.metadata.active)
  {
    hide Handle, Replay, ImageOk, EffectiveRecord, LooseTransfer, Decode, RecordValid, Harmless, CutFlash, EngineOk;
    var steps, a := Handle(e, m, q).steps, e.metadata.active;
    SessionFacts(m, e);
    HandleHarmless(e, m, q);
    CutAtEnd(m, steps, None);
    HarmlessSame(m, steps, a, |steps|, None);
    SlotFrame(m, Replay(m, steps), a);
  }

  lemma PendingSlot(e: Engine)
    requires IsSlot(Target(e.header))
    ensures var r, t := PendingRecord(e), Target(e.header);
      r.active == e.metadata.active && r.pending == t && r.Slot(t).bootCount == 0
      && r.Slot(t).version == VersionOf(e.header)
  {
    hide RecordCrc, VersionOf, PayloadSize, PayloadCrc;
  }

  function DoAll(d: Machine, inputs: seq<Input>): Machine
    decreases |inputs|
  {
    if inputs == [] then d else DoAll(Do(d, inputs[0]), inputs[1..])
  }

  lemma JumpStep(d: Machine)
    requires d.Running? && d.engine.state == Idle && d.decision.BootSlot?
    ensures Do(d, Jump) == App(d.flash, d.box, d.decision.slot)
  {
    hide Replay, StepsOf, Handle, Poll, Posted, Cleared, Message, Consumed, BootOutcome, BootRecordOf, EffectiveCopy,
      AlreadyConfirmed, Init;
  }

  lemma ConfirmStep(m: Memory, box: Box, t: u8, v: Version)
    ensures Do(App(m, box, t), Confirm(v))
      == if AlreadyConfirmed(box, t, v) then App(m, box, t) else Off(m, Posted(t, v))
  {
    hide Replay, StepsOf, Handle, Poll, Posted, Cleared, Message, Consumed, BootOutcome, BootRecordOf, EffectiveCopy,
      AlreadyConfirmed, Init;
  }

  lemma {:induction false} DoAllParts(d: Machine, a: seq<Input>, b: seq<Input>)
    ensures DoAll(d, a + b) == DoAll(DoAll(d, a), b)
    decreases |a|
  {
    hide Do;
    if a == [] {
      assert a + b == b;
    } else {
      DoAllParts(Do(d, a[0]), a[1..], b);
      assert (a + b)[0] == a[0] && (a + b)[1..] == a[1..] + b;
    }
  }

  /** Inputs that leave the bootloader waiting for the end of its window: the
      clock, and any packet except RESET and a START that is accepted. */
  predicate Quiet(d: Machine, i: Input) {
    || i.Tick?
    || i.Activity?
    || (i.Packet? && i.q.command != RESET && !AcceptsStart(d, Whole(i)))
  }

  ghost predicate AllQuiet(d: Machine, inputs: seq<Input>)
    decreases |inputs|
  {
    inputs == [] || (Quiet(d, inputs[0]) && AllQuiet(Do(d, inputs[0]), inputs[1..]))
  }

  lemma QuietStep(d: Machine, i: Input)
    requires d.Running? && d.engine.state == Idle && Quiet(d, i)
    ensures var d' := Do(d, i);
      && d'.Running? && d'.engine.state == Idle
      && d'.flash == d.flash && d'.box == d.box && d'.decision == d.decision
  {
    if i.Packet? { IdlePacket(d.engine, d.flash, i.q); }
    ReplayNone(d.flash);
    hide Handle, Replay, BootOutcome, BootRecordOf, EffectiveCopy, Consumed, Message, Posted, Cleared;
  }

  /** An idle engine answers without a flash step, unless it accepts a START. */
  lemma IdlePacket(e: Engine, m: Memory, q: Request)
    requires e.state == Idle && q.command != RESET
    requires !(q.command == START_UPDATE && Handle(e, m, q).reply.Ack?)
    ensures var f := Handle(e, m, q);
      f.steps == [] && f.engine.state == Idle && !f.reset
  {
    hide HeaderOk, RangeAllowed, PayloadVerified, PendingRecord, Sound, Duplicate, InSequence, WriteSucceeds,
      WriteSteps, DataSteps, EndSteps, HeaderOpen;
  }

  lemma {:induction false} QuietRun(d: Machine, inputs: seq<Input>)
    requires d.Running? && d.engine.state == Idle && AllQuiet(d, inputs)
    ensures var d' := DoAll(d, inputs);
      && d'.Running? && d'.engine.state == Idle
      && d'.flash == d.flash && d'.box == d.box && d'.decision == d.decision
    decreases |inputs|
  {
    hide Do, Quiet;
    if inputs != [] {
      QuietStep(d, inputs[0]);
      QuietRun(Do(d, inputs[0]), inputs[1..]);
    }
  }

  /** An input, a start-up, a quiet window, and the jump. */
  lemma ThroughWindow(d: Machine, i: Input, window: seq<Input>)
    requires var up := Do(Do(d, i), PowerOn);
      up.Running? && up.engine.state == Idle && up.decision.BootSlot? && AllQuiet(up, window)
    ensures var up := Do(Do(d, i), PowerOn);
      && DoAll(d, [i, PowerOn]) == up
      && DoAll(d, [i, PowerOn] + window + [Jump]) == App(up.flash, up.box, up.decision.slot)
  {
    hide Do, Quiet;
    var up := Do(Do(d, i), PowerOn);
    assert [i, PowerOn][1..] == [PowerOn] && [PowerOn][1..] == [] && [Jump][1..] == [];
    assert DoAll(Do(d, i), [PowerOn]) == up;
    DoAllParts(d, [i, PowerOn], window);
    DoAllParts(d, [i, PowerOn] + window, [Jump]);
    QuietRun(up, window);
    JumpStep(DoAll(up, window));
  }

  /** From an accepted END to the first run of the new application. */
  lemma TrialPhase(d: Machine, q: Request, window: seq<Input>)
    requires MachineOk(d) && d.Running? && q.command == END_UPDATE
    requires !Strays(d.engine, d.flash, q) && Handle(d.engine, d.flash, q).reply.Ack?
    requires AllQuiet(Do(Do(d, Packet(q)), PowerOn), window)
    ensures var a, t, v := d.engine.metadata.active, Target(d.engine.header), VersionOf(d.engine.header);
      var trial := DoAll(d, [Packet(q), PowerOn] + window + [Jump]);
      trial == App(trial.flash, Cleared(), t) && TrialOf(EffectiveRecord(trial.flash), trial.flash, a, t, v)
  {
    var a, t, v := d.engine.metadata.active, Target(d.engine.header), VersionOf(d.engine.header);
    assert 0 < MAX_ATTEMPTS;
    hide *;
    EndLeavesTrial(d, q);
    TrialStart(Do(d, Packet(q)).flash, a, t, v);
    ThroughWindow(d, Packet(q), window);
  }

  /** From the application's first confirmation to its second run. */
  lemma ConfirmPhase(m: Memory, a: u8, t: u8, v: Version, window: seq<Input>)
    requires TrialOf(EffectiveRecord(m), m, a, t, v)
    requires AllQuiet(Do(Do(App(m, Cleared(), t), Confirm(v)), PowerOn), window)
    ensures var trial := App(m, Cleared(), t);
      var confirmed := DoAll(trial, [Confirm(v), PowerOn] + window + [Jump]);
      var r := EffectiveRecord(confirmed.flash);
      && Do(trial, Confirm(v)).Off?
      && confirmed == App(confirmed.flash, Consumed(Posted(t, v)), t)
      && Do(confirmed, Confirm(v)) == confirmed
      && r.active == t && r.pending == SLOT_NONE
      && r.Slot(t).state == ACTIVE && r.Slot(t).version == v && r.Slot(a).state == VALID
  {
    var trial := App(m, Cleared(), t);
    assert !AlreadyConfirmed(Cleared(), t, v);
    hide *;
    PostedOnce(t, v);
    PromotingStart(m, a, t, v);
    ConfirmStep(m, Cleared(), t, v);
    var d4 := Do(Off(m, Posted(t, v)), PowerOn);
    ConfirmStep(d4.flash, d4.box, t, v);
    ThroughWindow(trial, Confirm(v), window);
  }

  /** A completed update whose application carries the header's slot and
      version, with no power cut, and with any quiet inputs in the two windows:
      the application resets through the mailbox once, is promoted to active,
      the old slot becomes VALID, and from then on the application runs without
      resetting again. */
  lemma ConfirmationHandshake(d: Machine, q: Request, window: seq<Input>, window': seq<Input>)
    requires MachineOk(d) && d.Running? && q.command == END_UPDATE
    requires !Strays(d.engine, d.flash, q) && Handle(d.engine, d.flash, q).reply.Ack?
    requires AllQuiet(Do(Do(d, Packet(q)), PowerOn), window)
    requires var trial := DoAll(d, [Packet(q), PowerOn] + window + [Jump]);
      AllQuiet(Do(Do(trial, Confirm(VersionOf(d.engine.header))), PowerOn), window')
    ensures var a, t, v := d.engine.metadata.active, Target(d.engine.header), VersionOf(d.engine.header);
      var trial := DoAll(d, [Packet(q), PowerOn] + window + [Jump]);
      var confirmed := DoAll(trial, [Confirm(v), PowerOn] + window' + [Jump]);
      var r := EffectiveRecord(confirmed.flash);
      && trial.App? && trial.slot == t
      && Do(trial, Confirm(v)).Off?
      && confirmed.App? && confirmed.slot == t
      && Do(confirmed, Confirm(v)) == confirmed
      && r.active == t && r.pending == SLOT_NONE
      && r.Slot(t).state == ACTIVE && r.Slot(t).version == v && r.Slot(a).state == VALID
  {
    hide *;
    TrialPhase(d, q, window);
    var trial := DoAll(d, [Packet(q), PowerOn] + window + [Jump]);
    ConfirmPhase(trial.flash, d.engine.metadata.active, Target(d.engine.header), VersionOf(d.engine.header), window');
  }
}
