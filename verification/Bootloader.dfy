// tm4c123gxl/bootloader/src/bl_main.c: start-up, the packet loop and the jump,
// as a state machine over the flash in which power may fail between any two
// flash steps.

module Bootloader {
  import opened Bytes
  import opened Flash
  import opened Crc32
  import opened Image
  import opened Metadata
  import opened Boot
  import opened Update
  import opened Session
  import opened Mailbox

  // ---- Start-up ----

  const EMPTY_SLOT: SlotRecord := SlotRecord(EMPTY, ZERO3, Version(0, 0, 0), 0, 0, 0, 0)

  /** set_slot_from_image. */
  function FromImage(h: Header, state: u8): SlotRecord {
    SlotRecord(state, ZERO3, VersionOf(h), 0, PayloadSize(h), PayloadCrc(h), 0)
  }

  /** The record that reconstruct_metadata derives from the images: A is active
      if it validates, otherwise B if it does. */
  function Reconstructed(m: Memory): Record {
    var a, b := ImageOk(m, SLOT_A), ImageOk(m, SLOT_B);
    Record(RECORD_MAGIC, RECORD_SCHEMA, 0, 0,
      if a then FromImage(HeaderAt(m, SLOT_A), ACTIVE) else EMPTY_SLOT,
      if b then FromImage(HeaderAt(m, SLOT_B), if a then VALID else ACTIVE) else EMPTY_SLOT,
      if a then SLOT_A else if b then SLOT_B else SLOT_NONE, SLOT_NONE, 0, 0, ZERO12)
  }

  /** The record a start-up works with: the selected copy, or else the
      reconstructed record as it has just been committed. */
  function EffectiveRecord(m: Memory): Record {
    var s := Selected(m);
    if s.Some? then RecordAt(m, s.value) else Next(Reconstructed(m))
  }

  function EffectiveCopy(m: Memory): Copy {
    var s := Selected(m);
    if s.Some? then s.value else 0
  }

  /** Reconstruction writes copy 0. */
  function LoadSteps(m: Memory): seq<Step> {
    if Selected(m).Some? then [] else CommitSteps(0, Reconstructed(m))
  }

  function Probe(m: Memory): u8 -> bool { (slot: u8) => ImageOk(m, slot) }

  /** ota_boot_decide on the loaded record. */
  function BootOutcome(m: Memory, c: Option<Confirmation>): Outcome {
    Decide(EffectiveRecord(m), c, Probe(m))
  }

  /** The boot-time commit, if the decision asks for one. */
  function BootSteps(m: Memory, c: Option<Confirmation>): seq<Step> {
    var o := BootOutcome(m, c);
    if o.commit then CommitSteps(OtherCopy(EffectiveCopy(m)), Finalize(o.record)) else []
  }

  /** The record in RAM after start-up. Its generation is the loaded one. */
  function BootRecordOf(m: Memory, c: Option<Confirmation>): Record {
    var o := BootOutcome(m, c);
    if o.commit then Finalize(o.record) else o.record
  }

  function StartupSteps(m: Memory, c: Option<Confirmation>): seq<Step> {
    LoadSteps(m) + BootSteps(m, c)
  }

  // ---- The machine ----

  datatype Machine =
    | Off(flash: Memory, box: Box)
    /** The bootloader runs: its engine and the boot decision taken at start-up. */
    | Running(flash: Memory, box: Box, engine: Engine, decision: Decision)
    | App(flash: Memory, box: Box, slot: u8)

  datatype Input =
    | PowerOn
    | Packet(q: Request)
    | Tick(now: u32)
    | Activity(now: u32)
    /** The window is over: jump to the decided slot. */
    | Jump
    /** The application calls boot_confirm with its own version. */
    | Confirm(version: Version)
    /** The application resets, leaving anything in the retained memory. */
    | AppReset(box: Box)

  function StepsOf(d: Machine, i: Input): seq<Step> {
    if i.PowerOn? && d.Off? then StartupSteps(d.flash, Message(d.box))
    else if i.Packet? && d.Running? then Handle(d.engine, d.flash, i.q).steps
    else []
  }

  /** One input, carried out completely. */
  function Do(d: Machine, i: Input): Machine {
    var flash := Replay(d.flash, StepsOf(d, i));
    match i
    case PowerOn =>
      if !d.Off? then d
      else
        var c := Message(d.box);
        Running(flash, Consumed(d.box), Init(BootRecordOf(d.flash, c), EffectiveCopy(d.flash)),
                BootOutcome(d.flash, c).decision)
    case Packet(q) =>
      if !d.Running? then d
      else
        var f := Handle(d.engine, d.flash, q);
        if f.engine.state == ReadyToBoot then Off(flash, Cleared())
        else if f.reset then Off(flash, d.box)
        else d.(flash := flash, engine := f.engine)
    case Tick(now) => if d.Running? then d.(engine := Poll(d.engine, now)) else d
    case Activity(now) => if d.Running? then d.(engine := d.engine.(lastActivity := now)) else d
    case Jump =>
      if d.Running? && d.engine.state == Idle && d.decision.BootSlot?
      then App(d.flash, d.box, d.decision.slot)
      else d
    case Confirm(version) =>
      if !d.App? || AlreadyConfirmed(d.box, d.slot, version) then d
      else Off(d.flash, Posted(d.slot, version))
    case AppReset(box) => if d.App? then Off(d.flash, box) else d
  }

  /** The flash when power fails after some of the steps. If the next step is
      an erase, it may have left anything in its page. */
  function CutFlash(m: Memory, steps: seq<Step>, done: nat, torn: Option<seq<u8>>): Memory
    requires done <= |steps|
  {
    var reached := Replay(m, steps[..done]);
    if torn.Some? && |torn.value| == PAGE && done < |steps| && steps[done].EraseStep?
    then Overwritten(reached, steps[done].page, torn.value)
    else reached
  }

  function Overwritten(m: Memory, page: nat, contents: seq<u8>): Memory
    requires |contents| == PAGE
  {
    seq(FLASH_END, i requires 0 <= i < FLASH_END =>
      if page <= i < page + PAGE then contents[i - page] else m[i])
  }

  /** Power fails while an input is being carried out; the retained memory may
      then hold anything. */
  datatype Event =
    | Whole(i: Input)
    | Cut(i: Input, done: nat, torn: Option<seq<u8>>, box: Box)

  function AfterEvent(d: Machine, e: Event): Machine {
    match e
    case Whole(i) => Do(d, i)
    case Cut(i, done, torn, box) =>
      var steps := StepsOf(d, i);
      Off(if done <= |steps| then CutFlash(d.flash, steps, done, torn) else Replay(d.flash, steps), box)
  }

  /** How many steps of its input an event performs. */
  function Done(d: Machine, e: Event): nat {
    if e.Cut? && e.done <= |StepsOf(d, e.i)| then e.done else |StepsOf(d, e.i)|
  }

  function TornPage(e: Event): Option<seq<u8>> { if e.Cut? then e.torn else None }

  /** Whole or cut, an event leaves the flash as some of its steps leave it. */
  lemma EventFlash(d: Machine, e: Event)
    ensures AfterEvent(d, e).flash == CutFlash(d.flash, StepsOf(d, e.i), Done(d, e), TornPage(e))
  {
    ReplayNone(d.flash);
    CutAtEnd(d.flash, StepsOf(d, e.i), TornPage(e));
    hide CutFlash, StartupSteps, Handle, BootRecordOf, EffectiveCopy, BootOutcome, Replay;
  }

  /** A page left behind by a cut erase is not mistaken for a valid header or a
      valid record. */
  ghost predicate TornPageFails(m: Memory, page: nat) {
    && (forall s: u8 :: IsSlot(s) && page == SlotStart(s) ==> !HeaderValid(m, s))
    && (forall c: Copy :: page == CopyStart(c) ==> !CopyValid(m, c))
  }

  /** What the theorems assume of an event: the cut lies within the input's
      steps, a torn page fails validation, and no packet strays. */
  ghost predicate Admissible(d: Machine, e: Event) {
    && (e.i.Packet? && d.Running? ==> !Strays(d.engine, d.flash, e.i.q))
    && (e.Cut? ==>
          var steps := StepsOf(d, e.i);
          && e.done <= |steps|
          && (e.torn.Some? ==>
                && |e.torn.value| == PAGE && e.done < |steps| && steps[e.done].EraseStep?
                && TornPageFails(CutFlash(d.flash, steps, e.done, e.torn), steps[e.done].page)))
  }

  ghost predicate AdmissibleRun(d: Machine, es: seq<Event>)
    decreases |es|
  {
    es == [] || (Admissible(d, es[0]) && AdmissibleRun(AfterEvent(d, es[0]), es[1..]))
  }

  ghost function Run(d: Machine, es: seq<Event>): Machine
    requires AdmissibleRun(d, es)
    decreases |es|
  {
    if es == [] then d else Run(AfterEvent(d, es[0]), es[1..])
  }

  // ---- What holds of the flash whenever power may fail ----

  /** A slot's header page validates only if its whole image does. */
  ghost predicate HeadersHonest(m: Memory) {
    forall s: u8 :: IsSlot(s) && HeaderValid(m, s) ==> ImageOk(m, s)
  }

  /** Start-up will find a record whose active slot validates. */
  ghost predicate Startable(m: Memory) {
    var active := EffectiveRecord(m).active;
    IsSlot(active) && ImageOk(m, active)
  }

  /** From m to m' the flash stays startable, and headers stay honest. */
  ghost predicate Durable(m: Memory, m': Memory) {
    Startable(m') && (HeadersHonest(m) ==> HeadersHonest(m'))
  }

  /** The session invariant of a running bootloader. */
  ghost predicate SessionOk(m: Memory, e: Engine) {
    && EngineOk(e) && e.state != ReadyToBoot && LooseTransfer(e, m)
    && ImageOk(m, e.metadata.active)
    // The copy selected at start-up is intact, and carries the RAM generation.
    && CopyValid(m, e.copy)
    && RecordAt(m, e.copy).generation == e.metadata.generation
    && IsSlot(RecordAt(m, e.copy).active)
    // A restart now would agree about the active slot.
    && EffectiveRecord(m).active == e.metadata.active
  }

  ghost predicate MachineOk(d: Machine) {
    && Startable(d.flash)
    && (d.Running? ==> SessionOk(d.flash, d.engine) && d.decision.BootSlot?)
  }

  // ---- Framing ----

  /** m and m' agree on both slots. */
  predicate SlotsSame(m: Memory, m': Memory) { Same(m, m', SLOT_A_START, METADATA_START) }

  /** m and m' agree on the metadata pages. */
  predicate RecordsSame(m: Memory, m': Memory) { Same(m, m', METADATA_START, FLASH_END) }

  lemma SlotFrame(m: Memory, m': Memory, s: u8)
    requires IsSlot(s) && Same(m, m', SlotStart(s), SlotStart(s) + SLOT_SIZE)
    ensures ImageOk(m, s) == ImageOk(m', s) && HeaderValid(m, s) == HeaderValid(m', s)
    ensures HeaderAt(m, s) == HeaderAt(m', s)
  {
    VerdictFrame(m, m', s);
  }

  lemma SlotsFrame(m: Memory, m': Memory)
    requires SlotsSame(m, m')
    ensures forall s: u8 :: IsSlot(s) ==> ImageOk(m, s) == ImageOk(m', s) && HeaderValid(m, s) == HeaderValid(m', s)
    ensures Reconstructed(m) == Reconstructed(m')
    ensures HeadersHonest(m) == HeadersHonest(m')
  {
    hide ImageOk, HeaderValid, FromImage;
    SlotFrame(m, m', SLOT_A);
    SlotFrame(m, m', SLOT_B);
  }

  lemma RecordsFrame(m: Memory, m': Memory)
    requires RecordsSame(m, m')
    ensures Selected(m) == Selected(m')
    ensures forall c: Copy :: RecordAt(m, c) == RecordAt(m', c)
  {
    hide RecordValid, Decode;
    CopyFrame(m, m', 0);
    CopyFrame(m, m', 1);
  }

  lemma CutSame(m: Memory, steps: seq<Step>, done: nat, torn: Option<seq<u8>>, lo: nat, hi: nat)
    requires done <= |steps| && hi <= FLASH_END && Avoids(steps, lo, hi)
    ensures Same(m, CutFlash(m, steps, done, torn), lo, hi)
  {
    ReplaySame(m, steps[..done], lo, hi);
    if done < |steps| { assert StepAvoids(steps[done], lo, hi); }
  }

  lemma CutConcat(m: Memory, a: seq<Step>, b: seq<Step>, done: nat, torn: Option<seq<u8>>)
    requires done <= |a| + |b|
    ensures done < |a| ==> CutFlash(m, a + b, done, torn) == CutFlash(m, a, done, torn)
    ensures done >= |a| ==> CutFlash(m, a + b, done, torn) == CutFlash(Replay(m, a), b, done - |a|, torn)
  {
    hide Replay, Overwritten;
    if done < |a| {
      assert (a + b)[..done] == a[..done];
    } else {
      assert (a + b)[..done] == a + b[..done - |a|];
      ReplayConcat(m, a, b[..done - |a|]);
    }
  }

  lemma CutAtEnd(m: Memory, steps: seq<Step>, torn: Option<seq<u8>>)
    ensures CutFlash(m, steps, |steps|, torn) == Replay(m, steps)
  {
    assert steps[..|steps|] == steps;
  }

  // ---- A commit under a power cut ----

  /** The flash contents a commit can leave behind, seen from outside its
      destination: nothing happened, the destination is invalid, or the commit
      is complete. */
  predicate CommitLeaves(m: Memory, m': Memory, dest: Copy, r: Record) {
    && SlotsSame(m, m')
    && RecordAt(m', OtherCopy(dest)) == RecordAt(m, OtherCopy(dest))
    && (m' == m || !CopyValid(m', dest) || RecordAt(m', dest) == Next(r))
  }

  lemma CommitCrash(m: Memory, dest: Copy, r: Record, done: nat, torn: Option<seq<u8>>)
    requires done <= 21
    requires torn.Some? ==> !CopyValid(CutFlash(m, CommitSteps(dest, r), done, torn), dest)
    ensures var m' := CutFlash(m, CommitSteps(dest, r), done, torn);
      && CommitLeaves(m, m', dest, r)
      && (done == 0 && torn.None? ==> m' == m)
      && (0 < done < 21 || torn.Some? ==> !CopyValid(m', dest))
      && (done == 21 ==> RecordAt(m', dest) == Next(r))
  {
    hide RecordValid, Decode, Encode, Next, Replay;
    var steps := CommitSteps(dest, r);
    var m' := CutFlash(m, steps, done, torn);
    var other := OtherCopy(dest);
    CommitAvoids(dest, r);
    CutSame(m, steps, done, torn, SLOT_A_START, METADATA_START);
    CutSame(m, steps, done, torn, CopyStart(other), CopyStart(other) + PAGE);
    CopyFrame(m, m', other);
    CommitCut(m, dest, r, done);
  }

  lemma CommitAvoids(dest: Copy, r: Record)
    ensures var other := OtherCopy(dest);
      && Avoids(CommitSteps(dest, r), 0, METADATA_START)
      && Avoids(CommitSteps(dest, r), SLOT_A_START, METADATA_START)
      && Avoids(CommitSteps(dest, r), CopyStart(other), CopyStart(other) + PAGE)
  {
    hide Encode, Next;
  }

  /** A commit away from a valid copy of the generation before: load finds the
      old record or that copy until the very end, then the new one. */
  lemma CommitSelects(m: Memory, m': Memory, c: Copy, r: Record)
    requires CommitLeaves(m, m', OtherCopy(c), r)
    requires CopyValid(m, c) && Sound(r) && r.generation == RecordAt(m, c).generation
    ensures m' == m
      || (Selected(m') == Some(c) && RecordAt(m', c) == RecordAt(m, c))
      || (Selected(m') == Some(OtherCopy(c)) && EffectiveRecord(m') == Next(r))
    ensures !CopyValid(m', OtherCopy(c)) ==> EffectiveRecord(m') == RecordAt(m, c)
    ensures RecordAt(m', OtherCopy(c)) == Next(r) ==> EffectiveRecord(m') == Next(r) && Selected(m').Some?
    ensures CopyValid(m', c) && RecordAt(m', c) == RecordAt(m, c)
  {
    hide Decode, Sound, RecordCrc;
    NextIsValid(r);
    SuccessorIsNewer(r.generation);
    hide RecordValid, Next;
  }

  /** Both together: what start-up finds after a power cut in a commit. Once
      the other copy is being erased, that is the record in copy c. */
  lemma CommitOutcome(m: Memory, c: Copy, r: Record, done: nat, torn: Option<seq<u8>>)
    requires CopyValid(m, c) && Sound(r) && r.generation == RecordAt(m, c).generation
    requires done <= 21
    requires torn.Some? ==> !CopyValid(CutFlash(m, CommitSteps(OtherCopy(c), r), done, torn), OtherCopy(c))
    ensures var m' := CutFlash(m, CommitSteps(OtherCopy(c), r), done, torn);
      && SlotsSame(m, m')
      && CopyValid(m', c) && RecordAt(m', c) == RecordAt(m, c)
      && EffectiveRecord(m') ==
           if done == 21 then Next(r) else if 0 < done || torn.Some? then RecordAt(m, c) else EffectiveRecord(m)
  {
    hide RecordValid, Decode, Next, Sound, Encode, CutFlash, EffectiveRecord, Selected, CommitSteps;
    var m' := CutFlash(m, CommitSteps(OtherCopy(c), r), done, torn);
    CommitCrash(m, OtherCopy(c), r, done, torn);
    CommitSelects(m, m', c, r);
  }

  /** A commit of the reconstructed record changes nothing that load sees. */
  lemma ReconstructionSelects(m: Memory, m': Memory)
    requires Selected(m) == None && CommitLeaves(m, m', 0, Reconstructed(m))
    ensures EffectiveRecord(m') == EffectiveRecord(m)
    ensures RecordAt(m', 0) == Next(Reconstructed(m)) ==> Selected(m') == Some(0)
  {
    hide RecordValid, Decode, Next, Reconstructed, Sound;
    ReconstructedSound(m);
    NextIsValid(Reconstructed(m));
    SlotsFrame(m, m');
  }

  lemma ReconstructedSound(m: Memory)
    ensures Sound(Reconstructed(m)) && Reconstructed(m).generation == 0
  {
    hide ImageOk, VersionOf, PayloadSize, PayloadCrc;
  }

  lemma SealKeeps(r: Record)
    ensures Next(r).active == r.active == Finalize(r).active
    ensures Finalize(r).generation == r.generation
    ensures Sound(r) ==> Sound(Finalize(r))
    ensures Next(r).slotA == r.slotA && Next(r).slotB == r.slotB && Next(r).pending == r.pending
    ensures Finalize(r).slotA == r.slotA && Finalize(r).slotB == r.slotB && Finalize(r).pending == r.pending
  {
    hide RecordCrc;
  }

  lemma EffectiveIsSound(m: Memory)
    ensures RecordValid(EffectiveRecord(m))
  {
    hide Decode, Next, Reconstructed, Sound, RecordCrc;
    ReconstructedSound(m);
    NextIsValid(Reconstructed(m));
  }

  /** After the load phase the working record sits in a valid copy. */
  lemma LoadPhase(m: Memory)
    ensures var m1, copy := Replay(m, LoadSteps(m)), EffectiveCopy(m);
      && SlotsSame(m, m1)
      && Selected(m1) == Some(copy) && CopyValid(m1, copy)
      && RecordAt(m1, copy) == EffectiveRecord(m) == EffectiveRecord(m1)
  {
    hide RecordValid, Decode, Next, Reconstructed, Sound, Encode;
    ReplayNone(m);
    if Selected(m).None? {
      var r := Reconstructed(m);
      CutAtEnd(m, CommitSteps(0, r), None);
      CommitCrash(m, 0, r, 21, None);
      ReconstructionSelects(m, Replay(m, CommitSteps(0, r)));
    }
  }

  /** The decision taken on a startable flash. */
  lemma VerdictSafe(m: Memory, c: Option<Confirmation>)
    requires Startable(m)
    ensures var o, r := BootOutcome(m, c), BootRecordOf(m, c);
      && o.decision.BootSlot? && IsSlot(o.decision.slot) && ImageOk(m, o.decision.slot)
      && IsSlot(r.active) && ImageOk(m, r.active) && Sound(r)
      && r.generation == EffectiveRecord(m).generation
      && (!o.commit ==> r == EffectiveRecord(m))
  {
    hide ImageOk, Decide, Sound, Finalize, EffectiveRecord;
    var e := EffectiveRecord(m);
    assert Sound(e) by { EffectiveIsSound(m); }
    DecideKeepsSound(e, c, Probe(m));
    DecideIsSafe(e, c, Probe(m));
    SealKeeps(BootOutcome(m, c).record);
  }

  /** Power cuts during start-up: the slots are untouched, and the next
      start-up finds the record this one found until the last flash step, and
      then the record this one committed. */
  lemma StartupCrash(m: Memory, c: Option<Confirmation>, done: nat, torn: Option<seq<u8>>)
    requires Startable(m) && done <= |StartupSteps(m, c)|
    requires torn.Some? ==>
      && done < |StartupSteps(m, c)| && StartupSteps(m, c)[done].EraseStep?
      && TornPageFails(CutFlash(m, StartupSteps(m, c), done, torn), StartupSteps(m, c)[done].page)
    ensures var m' := CutFlash(m, StartupSteps(m, c), done, torn);
      && SlotsSame(m, m') && Durable(m, m')
      && EffectiveRecord(m') ==
           if done == |StartupSteps(m, c)| && BootOutcome(m, c).commit
           then Next(BootRecordOf(m, c)) else EffectiveRecord(m)
  {
    hide *;
    var load, boot := LoadSteps(m), BootSteps(m, c);
    var m1 := Replay(m, load);
    var m' := CutFlash(m, StartupSteps(m, c), done, torn);
    StartupIs(m, c);
    CutConcat(m, load, boot, done, torn);
    LoadPhase(m);
    StartableFacts(m);
    VerdictSafe(m, c);
    BootStepCount(m, c);
    if done < |load| {
      LoadCrash(m, done, torn);
    } else {
      BootCrash(m, m1, c, done - |load|, torn);
    }
    SealKeeps(BootRecordOf(m, c));
    StillDurable(m, m', BootRecordOf(m, c));
  }

  lemma StartupIs(m: Memory, c: Option<Confirmation>)
    ensures StartupSteps(m, c) == LoadSteps(m) + BootSteps(m, c)
    ensures LoadSteps(m) == [] || (Selected(m) == None && |LoadSteps(m)| == 21)
  {
    hide BootSteps, Reconstructed, Selected;
  }

  lemma StartableFacts(m: Memory)
    requires Startable(m)
    ensures IsSlot(EffectiveRecord(m).active) && ImageOk(m, EffectiveRecord(m).active)
  {
    hide EffectiveRecord, ImageOk;
  }

  /** With the slots as they were and either record, the flash is durable. */
  lemma StillDurable(m: Memory, m': Memory, r: Record)
    requires SlotsSame(m, m')
    requires EffectiveRecord(m') == EffectiveRecord(m) || EffectiveRecord(m') == Next(r)
    requires IsSlot(EffectiveRecord(m).active) && ImageOk(m, EffectiveRecord(m).active)
    requires Next(r).active == r.active && IsSlot(r.active) && ImageOk(m, r.active)
    ensures Durable(m, m')
  {
    hide ImageOk, HeaderValid, EffectiveRecord, Next, Reconstructed, SlotsSame, HeadersHonest;
    SlotsFrame(m, m');
  }

  lemma LoadCrash(m: Memory, done: nat, torn: Option<seq<u8>>)
    requires Selected(m) == None && done <= 21
    requires torn.Some? ==>
      && done < 21 && LoadSteps(m)[done].EraseStep?
      && TornPageFails(CutFlash(m, LoadSteps(m), done, torn), LoadSteps(m)[done].page)
    ensures var m' := CutFlash(m, LoadSteps(m), done, torn);
      SlotsSame(m, m') && EffectiveRecord(m') == EffectiveRecord(m)
  {
    var r := Reconstructed(m);
    hide RecordValid, Decode, Next, Reconstructed, Sound, Encode, CutFlash;
    CommitCrash(m, 0, r, done, torn);
    ReconstructionSelects(m, CutFlash(m, LoadSteps(m), done, torn));
  }

  lemma BootCrash(m: Memory, m1: Memory, c: Option<Confirmation>, done: nat, torn: Option<seq<u8>>)
    requires Startable(m) && m1 == Replay(m, LoadSteps(m)) && done <= |BootSteps(m, c)|
    requires torn.Some? ==>
      && done < |BootSteps(m, c)| && BootSteps(m, c)[done].EraseStep?
      && TornPageFails(CutFlash(m1, BootSteps(m, c), done, torn), BootSteps(m, c)[done].page)
    ensures var m', copy := CutFlash(m1, BootSteps(m, c), done, torn), EffectiveCopy(m);
      && SlotsSame(m, m')
      && CopyValid(m', copy) && RecordAt(m', copy) == EffectiveRecord(m)
      && EffectiveRecord(m') ==
           if done == |BootSteps(m, c)| && BootOutcome(m, c).commit
           then Next(BootRecordOf(m, c)) else EffectiveRecord(m)
  {
    hide RecordValid, Decode, Next, Reconstructed, Sound, Encode, BootOutcome, EffectiveRecord, EffectiveCopy, Selected,
      LoadSteps, ImageOk, Finalize, CutFlash, CommitSteps, BootRecordOf;
    LoadPhase(m);
    VerdictSafe(m, c);
    var copy, r := EffectiveCopy(m), BootRecordOf(m, c);
    BootStepsAre(m, c);
    if BootOutcome(m, c).commit {
      if torn.Some? { TornRecord(m1, OtherCopy(copy), r, done, torn); }
      CommitOutcome(m1, copy, r, done, torn);
    } else {
      NoSteps(m1, torn);
    }
  }

  lemma BootStepsAre(m: Memory, c: Option<Confirmation>)
    ensures BootSteps(m, c) ==
      if BootOutcome(m, c).commit then CommitSteps(OtherCopy(EffectiveCopy(m)), BootRecordOf(m, c)) else []
  {
    hide BootOutcome, EffectiveCopy;
  }

  lemma BootStepCount(m: Memory, c: Option<Confirmation>)
    ensures BootOutcome(m, c).commit ==> |BootSteps(m, c)| == 21
  {
    hide BootOutcome, EffectiveCopy;
  }

  lemma NoSteps(m: Memory, torn: Option<seq<u8>>)
    ensures CutFlash(m, [], 0, torn) == m
  {
    ReplayNone(m);
  }

  lemma TornRecord(m: Memory, dest: Copy, r: Record, done: nat, torn: Option<seq<u8>>)
    requires done <= 21 && torn.Some?
    requires done < 21 && CommitSteps(dest, r)[done].EraseStep?
    requires TornPageFails(CutFlash(m, CommitSteps(dest, r), done, torn), CommitSteps(dest, r)[done].page)
    ensures !CopyValid(CutFlash(m, CommitSteps(dest, r), done, torn), dest)
  {
    hide RecordValid, Decode, Next, Encode, CutFlash;
  }

  /** A completed start-up opens a session. */
  lemma StartupOpens(m: Memory, c: Option<Confirmation>)
    requires Startable(m)
    ensures var m' := Replay(m, StartupSteps(m, c));
      && Durable(m, m') && SlotsSame(m, m')
      && SessionOk(m', Init(BootRecordOf(m, c), EffectiveCopy(m)))
      && EffectiveRecord(m') == (if BootOutcome(m, c).commit then Next(BootRecordOf(m, c)) else EffectiveRecord(m))
      && BootOutcome(m, c).decision.BootSlot? && ImageOk(m', BootOutcome(m, c).decision.slot)
  {
    hide *;
    var steps := StartupSteps(m, c);
    var m' := Replay(m, steps);
    var m1 := Replay(m, LoadSteps(m));
    StartupIs(m, c);
    CutAtEnd(m, steps, None);
    StartupCrash(m, c, |steps|, None);
    CutAtEnd(m1, BootSteps(m, c), None);
    ReplayConcat(m, LoadSteps(m), BootSteps(m, c));
    BootCrash(m, m1, c, |BootSteps(m, c)|, None);
    StartableFacts(m);
    VerdictSafe(m, c);
    SealKeeps(BootRecordOf(m, c));
    SlotsFrame(m, m');
    FreshSession(m', BootRecordOf(m, c), EffectiveCopy(m));
  }

  lemma FreshSession(m: Memory, r: Record, copy: Copy)
    requires IsSlot(r.active) && Sound(r) && ImageOk(m, r.active)
    requires CopyValid(m, copy) && RecordAt(m, copy).generation == r.generation && IsSlot(RecordAt(m, copy).active)
    requires EffectiveRecord(m).active == r.active
    ensures SessionOk(m, Init(r, copy))
  {
    hide ImageOk, RecordValid, Sound, EffectiveRecord, Decode;
  }

  // ---- Packets under a power cut ----

  /** Contents that agree with m on the active slot, and in which the other
      slot's header, if anything has changed, either does not validate or heads
      a valid image. */
  predicate TargetOnly(m: Memory, m': Memory, active: u8)
    requires IsSlot(active)
  {
    && Same(m, m', SlotStart(active), SlotStart(active) + SLOT_SIZE)
    && (m' == m || (HeaderValid(m', Other(active)) ==> ImageOk(m', Other(active))))
  }

  lemma TargetOnlyHonest(m: Memory, m': Memory, active: u8)
    requires IsSlot(active) && TargetOnly(m, m', active)
    ensures (HeadersHonest(m) ==> HeadersHonest(m')) && ImageOk(m', active) == ImageOk(m, active)
  {
    hide ImageOk, HeaderValid;
    SlotFrame(m, m', active);
    forall s: u8 | IsSlot(s) && HeaderValid(m', s) && HeadersHonest(m)
      ensures ImageOk(m', s)
    {
      if s != active { assert s == Other(active); }
    }
  }

  lemma SessionFacts(m: Memory, e: Engine)
    requires SessionOk(m, e)
    ensures IsSlot(e.metadata.active) && EngineOk(e) && LooseTransfer(e, m)
    ensures ImageOk(m, e.metadata.active)
    ensures CopyValid(m, e.copy) && RecordAt(m, e.copy).generation == e.metadata.generation
    ensures IsSlot(RecordAt(m, e.copy).active)
    ensures Selected(m).Some? && EffectiveRecord(m).active == e.metadata.active
  {
    hide RecordValid, Decode, ImageOk, LooseTransfer;
  }

  lemma SessionSurvives(m: Memory, m': Memory, e: Engine)
    requires Startable(m) && SessionOk(m, e)
    requires RecordsSame(m, m') && IsSlot(e.metadata.active) && TargetOnly(m, m', e.metadata.active)
    ensures Durable(m, m') && EffectiveRecord(m') == EffectiveRecord(m)
    ensures CopyValid(m', e.copy) && RecordAt(m', e.copy) == RecordAt(m, e.copy)
    ensures ImageOk(m', e.metadata.active)
  {
    hide ImageOk, HeaderValid, RecordValid, Decode, TargetOnly, SessionOk, RecordsSame, HeadersHonest;
    SessionFacts(m, e);
    RecordsFrame(m, m');
    TargetOnlyHonest(m, m', e.metadata.active);
  }

  lemma BlankHeaderFails(m: Memory, slot: u8)
    requires IsSlot(slot) && Blank(m, SlotStart(slot), PayloadStart(slot))
    ensures !HeaderValid(m, slot)
  {
    TornHeaderFails(m, slot);
  }

  lemma HarmlessSame(m: Memory, steps: seq<Step>, active: u8, done: nat, torn: Option<seq<u8>>)
    requires IsSlot(active) && Harmless(steps, active) && done <= |steps|
    ensures Same(m, CutFlash(m, steps, done, torn), SlotStart(active), SlotStart(active) + SLOT_SIZE)
  {
    CutSame(m, steps, done, torn, SlotStart(active), SlotStart(active) + SLOT_SIZE);
  }

  lemma StartStepsAre(e: Engine, q: Request)
    requires EngineOk(e)
    ensures var steps := HandleStart(e, q).steps;
      steps == [] || steps == [EraseStep(SlotStart(Other(e.metadata.active)))]
  {
    hide HeaderOk, Sound, RangeAllowed;
    if |q.payload| == HEADER_SIZE && HeaderOk(q.payload, Target(q.payload)) && Target(q.payload) != e.metadata.active {
      HeaderSize(q.payload, Target(q.payload));
      TargetOpens(Target(q.payload), e.metadata.active);
    }
  }

  lemma HeaderEraseCrash(m: Memory, t: u8, done: nat, torn: Option<seq<u8>>)
    requires IsSlot(t) && done <= 1
    requires torn.Some? ==> !HeaderValid(CutFlash(m, [EraseStep(SlotStart(t))], done, torn), t)
    ensures var m' := CutFlash(m, [EraseStep(SlotStart(t))], done, torn);
      && RecordsSame(m, m')
      && Same(m, m', SlotStart(Other(t)), SlotStart(Other(t)) + SLOT_SIZE)
      && (done == 0 && torn.None? ==> m' == m)
      && (done == 1 || torn.Some? ==> !HeaderValid(m', t))
  {
    hide HeaderOk;
    var steps := [EraseStep(SlotStart(t))];
    var m' := CutFlash(m, steps, done, torn);
    CutSame(m, steps, done, torn, METADATA_START, FLASH_END);
    CutSame(m, steps, done, torn, SlotStart(Other(t)), SlotStart(Other(t)) + SLOT_SIZE);
    if done == 1 {
      CutAtEnd(m, steps, torn);
      ReplayOne(m, EraseStep(SlotStart(t)));
      BlankHeaderFails(m', t);
    } else if torn.None? {
      ReplayNone(m);
    }
  }

  /** START: the header page is as before, torn, or erased. */
  lemma StartCrash(m: Memory, e: Engine, q: Request, done: nat, torn: Option<seq<u8>>)
    requires EngineOk(e)
    requires var steps := HandleStart(e, q).steps;
      && done <= |steps|
      && (torn.Some? ==> done < |steps| && TornPageFails(CutFlash(m, steps, done, torn), steps[done].page))
    ensures var m' := CutFlash(m, HandleStart(e, q).steps, done, torn);
      RecordsSame(m, m') && TargetOnly(m, m', e.metadata.active)
  {
    hide HandleStart, ImageOk, HeaderValid, CutFlash, Sound;
    StartStepsAre(e, q);
    var t := Other(e.metadata.active);
    if HandleStart(e, q).steps == [] {
      NoSteps(m, torn);
    } else {
      HeaderEraseCrash(m, t, done, torn);
    }
  }

  /** DATA: the header page of the other slot stays blank. */
  lemma DataCrash(m: Memory, e: Engine, q: Request, done: nat, torn: Option<seq<u8>>)
    requires EngineOk(e) && LooseTransfer(e, m) && q.command == DATA && !Strays(e, m, q)
    requires done <= |HandleData(e, m, q).steps|
    ensures var m' := CutFlash(m, HandleData(e, m, q).steps, done, torn);
      RecordsSame(m, m') && TargetOnly(m, m', e.metadata.active)
  {
    hide HandleData, ImageOk, HeaderValid, CutFlash, Sound, HeaderOk, PayloadSize, Avoids, Harmless, Strays, GoodTarget;
    var steps := HandleData(e, m, q).steps;
    var m' := CutFlash(m, steps, done, torn);
    DataAvoids(e, m, q);
    if steps == [] {
      NoSteps(m, torn);
    } else {
      var o := Other(e.metadata.active);
      HarmlessSame(m, steps, e.metadata.active, done, torn);
      CutSame(m, steps, done, torn, METADATA_START, FLASH_END);
      CutSame(m, steps, done, torn, SlotStart(o), PayloadStart(o));
      BlankHeaderFails(m', o);
    }
  }

  /** The header words of END: until the last one is written the header does
      not validate, and then the whole image does. */
  lemma HeaderCrash(m: Memory, e: Engine, done: nat)
    requires EngineOk(e) && GoodTarget(e) && done <= 8
    requires Blank(m, SlotStart(Target(e.header)), PayloadStart(Target(e.header)))
    requires e.received == PayloadSize(e.header) && PayloadVerified(e, m)
    ensures |HeaderSteps(e)| == 8
    ensures var m', t := Replay(m, HeaderSteps(e)[..done]), Target(e.header);
      && Same(m, m', PayloadStart(t), FLASH_END)
      && (done < 8 ==> !HeaderValid(m', t))
      && (done == 8 ==> HeaderAt(m', t) == e.header && ImageOk(m', t))
  {
    hide HeaderOk, Sound, Crc, PayloadSize, PayloadVerified, ImageOk, Replay, HeaderValid, GoodTarget;
    var t := Target(e.header);
    var start := SlotStart(t);
    assert Padded(e.header) == e.header by { WholeWords(e.header); }
    ProgramPrefix(m, start, e.header, done);
    var m' := Programmed(m, start, e.header[..4 * done]);
    if done < 8 {
      TornHeaderFails(m', t);
    } else {
      assert e.header[..32] == e.header;
      ProgramBlank(m, start, e.header);
      assert HeaderAt(m', t) == e.header;
      StoredImageOk(m, m', e);
    }
  }

  lemma StoredImageOk(m: Memory, m': Memory, e: Engine)
    requires GoodTarget(e) && e.received == PayloadSize(e.header) && PayloadVerified(e, m)
    requires HeaderAt(m', Target(e.header)) == e.header
    requires Same(m, m', PayloadStart(Target(e.header)), FLASH_END)
    ensures ImageOk(m', Target(e.header))
  {
    hide Crc, VectorVerdict, HeaderOk, PayloadSize, PayloadCrc, HeaderAt, VectorAt, PayloadAt, Read, GetU32, Same;
    HeaderSize(e.header, Target(e.header));
    PayloadReads(m, m', Target(e.header), PayloadSize(e.header));
  }

  /** What END checked about the payload area is what the validator will see. */
  lemma PayloadReads(m: Memory, m': Memory, t: u8, size: nat)
    requires IsSlot(t) && size <= PAYLOAD_MAX && Same(m, m', PayloadStart(t), FLASH_END)
    ensures PayloadAt(m', t, size) == Read(m, PayloadStart(t), size)
    ensures var vector := Read(m, PayloadStart(t), 8);
      VectorAt(m', t) == VectorVerdict(GetU32(vector, 0), GetU32(vector, 4), t)
  {
    hide VectorVerdict;
    var p := PayloadStart(t);
    var vector := Read(m, p, 8);
    assert GetU32(m', p) == GetU32(vector, 0) && GetU32(m', p + 4) == GetU32(vector, 4);
  }

  // ---- END: header, then record ----

  /** END stores something only from a verified transfer. */
  lemma EndStores(m: Memory, e: Engine)
    requires EngineOk(e) && LooseTransfer(e, m) && (e.state == Receiving ==> GoodTarget(e))
    ensures Published(EndError(e, m)) <==> EndError(e, m) == NoError
    ensures Published(EndError(e, m)) ==>
      && GoodTarget(e) && e.received == PayloadSize(e.header) && PayloadVerified(e, m)
      && Blank(m, SlotStart(Target(e.header)), PayloadStart(Target(e.header)))
      && Sound(PendingRecord(e))
  {
    hide *;
    EndChecks(m, e);
    if e.state == Receiving {
      LooseIsTransfer(e, m);
      GoodTargetFacts(e);
      PendingIsSound(e);
      TransferPage(m, e);
    }
  }

  /** The checks of END, by their outcome. */
  lemma EndChecks(m: Memory, e: Engine)
    ensures Published(EndError(e, m)) ==>
      e.state == Receiving && e.received == PayloadSize(e.header) && PayloadVerified(e, m)
    ensures Published(EndError(e, m)) && Sound(PendingRecord(e)) ==> EndError(e, m) == NoError
    ensures EndError(e, m) == NoError ==> Published(EndError(e, m))
  {
    hide PayloadVerified, PayloadSize, PendingRecord, Sound, HeaderOpen;
  }

  lemma TransferPage(m: Memory, e: Engine)
    requires TransferOk(e, m) && e.state == Receiving
    ensures Blank(m, SlotStart(Target(e.header)), PayloadStart(Target(e.header)))
  {
    hide GoodTarget, PayloadSize, Blank;
  }

  lemma NoEraseInHeader(m: Memory, e: Engine, done: nat, torn: Option<seq<u8>>)
    requires done < |HeaderSteps(e)|
    ensures EndSteps(e)[done].WordStep?
    ensures CutFlash(m, HeaderSteps(e), done, torn) == Replay(m, HeaderSteps(e)[..done])
  {
    hide CommitSteps, PendingRecord, Padded, Overwritten, Replay;
  }

  lemma HeaderHarmless(e: Engine)
    requires EngineOk(e) && GoodTarget(e)
    ensures Harmless(HeaderSteps(e), e.metadata.active)
  {
    GoodTargetFacts(e);
    ProgramHarmless(SlotStart(Target(e.header)), e.header, e.metadata.active);
  }

  /** The two slots after the header phase of END, and after any part of the
      commit that follows: both validate. */
  lemma HeaderPhase(m: Memory, e: Engine, done: nat)
    requires Startable(m) && SessionOk(m, e) && GoodTarget(e) && Published(EndError(e, m)) && done <= 8
    ensures |HeaderSteps(e)| == 8
    ensures var m' := Replay(m, HeaderSteps(e)[..done]);
      && RecordsSame(m, m') && TargetOnly(m, m', e.metadata.active)
      && (done < 8 ==> !HeaderValid(m', Target(e.header)))
      && (done == 8 ==> ImageOk(m', Target(e.header)) && HeaderAt(m', Target(e.header)) == e.header)
  {
    hide SessionOk, Published, EndError, HeaderOk, PayloadSize, PayloadVerified, PendingRecord, Sound, ImageOk,
      HeaderValid, Replay, HeaderSteps, Harmless, RecordValid, Decode, EffectiveRecord, LooseTransfer;
    SessionFacts(m, e);
    EndStores(m, e);
    GoodTargetFacts(e);
    HeaderCrash(m, e, done);
    HeaderHarmless(e);
    HarmlessSame(m, HeaderSteps(e), e.metadata.active, done, None);
  }

  /** The record the next start-up finds after a cut in END: as before until
      the erase of the other copy begins, then the record the session started
      from, and after the last of the 29 steps the new one. */
  function RecordAfterEnd(m: Memory, e: Engine, done: nat, torn: Option<seq<u8>>): Record {
    if done == 29 then Next(PendingRecord(e))
    else if 8 < done || torn.Some? then RecordAt(m, e.copy)
    else EffectiveRecord(m)
  }

  /** Power cuts during END: which record the next start-up finds; whichever it
      is, its active slot validates. */
  lemma EndCrash(m: Memory, e: Engine, done: nat, torn: Option<seq<u8>>)
    requires Startable(m) && SessionOk(m, e) && GoodTarget(e) && Published(EndError(e, m)) && done <= |EndSteps(e)|
    requires torn.Some? ==>
      && done < |EndSteps(e)| && EndSteps(e)[done].EraseStep?
      && TornPageFails(CutFlash(m, EndSteps(e), done, torn), EndSteps(e)[done].page)
    ensures var m' := CutFlash(m, EndSteps(e), done, torn);
      && |EndSteps(e)| == 29 && Durable(m, m')
      && EffectiveRecord(m') == RecordAfterEnd(m, e, done, torn)
      && (done == 29 ==> EffectiveRecord(m') == Next(PendingRecord(e)) && ImageOk(m', Target(e.header))
                         && HeaderAt(m', Target(e.header)) == e.header)
      && (done < 8 ==> !HeaderValid(m', Target(e.header)))
      && (done >= 8 ==> ImageOk(m', Target(e.header)))
  {
    hide SessionOk, Published, EndError, HeaderOk, PayloadSize, PayloadVerified, PendingRecord, Sound, ImageOk,
      HeaderValid, Replay, HeaderSteps, RecordValid, Decode, EffectiveRecord, LooseTransfer, CutFlash, CommitSteps,
      TargetOnly, RecordsSame, TornPageFails, HeadersHonest;
    var header, r := HeaderSteps(e), PendingRecord(e);
    var commit := CommitSteps(OtherCopy(e.copy), r);
    var m', m1 := CutFlash(m, EndSteps(e), done, torn), Replay(m, header);
    SessionFacts(m, e);
    CutConcat(m, header, commit, done, torn);
    if done < 8 {
      HeaderPhase(m, e, done);
      NoEraseInHeader(m, e, done, torn);
      SessionSurvives(m, m', e);
    } else {
      HeaderPhase(m, e, 8);
      assert header[..8] == header;
      SessionSurvives(m, m1, e);
      EndCommitCrash(m, m1, e, done - 8, torn);
    }
  }

  lemma EndCommitCrash(m: Memory, m1: Memory, e: Engine, done: nat, torn: Option<seq<u8>>)
    requires SessionOk(m, e) && GoodTarget(e) && Published(EndError(e, m)) && done <= 21
    requires Durable(m, m1) && EffectiveRecord(m1) == EffectiveRecord(m)
    requires CopyValid(m1, e.copy) && RecordAt(m1, e.copy) == RecordAt(m, e.copy)
    requires ImageOk(m1, e.metadata.active) && ImageOk(m1, Target(e.header))
    requires HeaderAt(m1, Target(e.header)) == e.header
    requires var steps := CommitSteps(OtherCopy(e.copy), PendingRecord(e));
      torn.Some? ==> done < 21 && steps[done].EraseStep?
                     && TornPageFails(CutFlash(m1, steps, done, torn), steps[done].page)
    ensures var m' := CutFlash(m1, CommitSteps(OtherCopy(e.copy), PendingRecord(e)), done, torn);
      && Durable(m, m')
      && EffectiveRecord(m') == RecordAfterEnd(m, e, done + 8, torn)
      && ImageOk(m', Target(e.header)) && HeaderAt(m', Target(e.header)) == e.header
  {
    hide SessionOk, Published, EndError, HeaderOk, PayloadSize, PayloadVerified, PendingRecord, Sound, ImageOk,
      HeaderValid, Replay, HeaderSteps, RecordValid, Decode, EffectiveRecord, LooseTransfer, CutFlash, CommitSteps,
      TornPageFails, HeadersHonest, Next;
    var t, r := Target(e.header), PendingRecord(e);
    var m' := CutFlash(m1, CommitSteps(OtherCopy(e.copy), r), done, torn);
    SessionFacts(m, e);
    EndStores(m, e);
    GoodTargetFacts(e);
    PendingKeepsActive(e);
    SealKeeps(r);
    if torn.Some? { TornRecord(m1, OtherCopy(e.copy), r, done, torn); }
    CommitOutcome(m1, e.copy, r, done, torn);
    SlotsFrame(m1, m');
    SlotHeaderFrame(m1, m', t);
  }

  lemma SlotHeaderFrame(m: Memory, m': Memory, s: u8)
    requires IsSlot(s) && SlotsSame(m, m')
    ensures HeaderAt(m', s) == HeaderAt(m, s)
  {
    SlotFrame(m, m', s);
  }

  // ---- Every event keeps the machine safe ----

  /** What a packet in a session does to the engine, by outcome. */
  lemma PacketEffect(m: Memory, e: Engine, q: Request)
    requires EngineOk(e) && LooseTransfer(e, m) && e.state != ReadyToBoot && !Strays(e, m, q)
    ensures var f := Handle(e, m, q);
      && (f.engine.state == ReadyToBoot <==> q.command == END_UPDATE && Published(EndError(e, m)))
      && (f.engine.state == ReadyToBoot ==> f.steps == EndSteps(e) && !f.reset)
      && (f.engine.state != ReadyToBoot ==> f.engine.metadata == e.metadata && f.engine.copy == e.copy)
      && (q.command == START_UPDATE ==> f.steps == HandleStart(e, q).steps)
      && (q.command == DATA ==> f.steps == HandleData(e, m, q).steps)
      && (f.engine.state != ReadyToBoot && q.command != START_UPDATE && q.command != DATA ==> f.steps == [])
  {
    hide HeaderOk, EndError, EndSteps, PendingRecord, Sound, Duplicate, InSequence, WriteSteps, WriteSucceeds,
      DataSteps, Crc, RangeAllowed, LooseTransfer;
    if !Misled(e) { EndStores(m, e); }
  }

  /** A power cut while a packet is handled. */
  lemma PacketCrash(m: Memory, e: Engine, q: Request, done: nat, torn: Option<seq<u8>>)
    requires Startable(m) && SessionOk(m, e) && !Strays(e, m, q)
    requires var steps := Handle(e, m, q).steps;
      && done <= |steps|
      && (torn.Some? ==> done < |steps| && steps[done].EraseStep?
                         && TornPageFails(CutFlash(m, steps, done, torn), steps[done].page))
    ensures var m' := CutFlash(m, Handle(e, m, q).steps, done, torn);
      && Durable(m, m')
      && EffectiveRecord(m') ==
           (if q.command == END_UPDATE && Published(EndError(e, m)) then RecordAfterEnd(m, e, done, torn)
            else EffectiveRecord(m))
      && (Handle(e, m, q).engine.state != ReadyToBoot ==>
            && EffectiveRecord(m') == EffectiveRecord(m) && ImageOk(m', e.metadata.active)
            && CopyValid(m', e.copy) && RecordAt(m', e.copy) == RecordAt(m, e.copy))
  {
    hide *;
    var f := Handle(e, m, q);
    var m' := CutFlash(m, f.steps, done, torn);
    NotReady(m, e);
    SessionFacts(m, e);
    PacketEffect(m, e, q);
    if f.engine.state == ReadyToBoot {
      PublishesGood(e, m, q);
      EndCrash(m, e, done, torn);
    } else if q.command == START_UPDATE {
      StartCrash(m, e, q, done, torn);
      SessionSurvives(m, m', e);
    } else if q.command == DATA {
      DataCrash(m, e, q, done, torn);
      SessionSurvives(m, m', e);
    } else {
      NoSteps(m, torn);
      DurableSelf(m);
    }
  }

  lemma NotReady(m: Memory, e: Engine)
    requires SessionOk(m, e)
    ensures e.state != ReadyToBoot
  {
  }

  lemma DurableSelf(m: Memory)
    requires Startable(m)
    ensures Durable(m, m)
  {
    hide Startable, HeadersHonest;
  }

  /** A packet handled completely. */
  lemma PacketKeepsSession(m: Memory, e: Engine, q: Request)
    requires Startable(m) && SessionOk(m, e) && !Strays(e, m, q)
    ensures var f := Handle(e, m, q);
      var m' := Replay(m, f.steps);
      && Durable(m, m')
      && (f.engine.state != ReadyToBoot ==> SessionOk(m', f.engine) && EffectiveRecord(m') == EffectiveRecord(m))
  {
    var f := Handle(e, m, q);
    assert e.state != ReadyToBoot;
    hide SessionOk, Handle, Published, EndError, EndSteps, PendingRecord, Sound, ImageOk,
      RecordValid, Decode, EffectiveRecord, LooseTransfer, CutFlash, HeadersHonest, Startable, Strays, Replay;
    SessionFacts(m, e);
    CutAtEnd(m, f.steps, None);
    PacketCrash(m, e, q, |f.steps|, None);
    HandleKeepsLoose(e, m, q);
    PacketEffect(m, e, q);
    if f.engine.state != ReadyToBoot {
      SessionFrom(Replay(m, f.steps), f.engine);
    }
  }

  lemma SessionFrom(m: Memory, e: Engine)
    requires EngineOk(e) && e.state != ReadyToBoot && LooseTransfer(e, m) && ImageOk(m, e.metadata.active)
    requires CopyValid(m, e.copy) && RecordAt(m, e.copy).generation == e.metadata.generation
    requires IsSlot(RecordAt(m, e.copy).active) && EffectiveRecord(m).active == e.metadata.active
    ensures SessionOk(m, e)
  {
  }

  lemma PollKeepsSession(m: Memory, e: Engine, now: u32)
    requires SessionOk(m, e)
    ensures SessionOk(m, Poll(e, now)) && SessionOk(m, e.(lastActivity := now))
  {
    hide ImageOk, RecordValid, Decode, EffectiveRecord, HeaderOk, Sound;
  }

  /** One event keeps the machine safe. */
  lemma EventKeepsSafe(d: Machine, e: Event)
    requires MachineOk(d) && Admissible(d, e)
    ensures MachineOk(AfterEvent(d, e)) && Durable(d.flash, AfterEvent(d, e).flash)
  {
    hide SessionOk, Handle, ImageOk, RecordValid, Decode, EffectiveRecord, CutFlash, HeadersHonest, Startable,
      Strays, StartupSteps, BootOutcome, BootRecordOf, EffectiveCopy, TornPageFails, Init, Posted, Consumed,
      Cleared, BoxValid, Replay, Poll;
    ReplayNone(d.flash);
    var steps := StepsOf(d, e.i);
    if e.Cut? {
      if e.i.PowerOn? && d.Off? {
        StartupCrash(d.flash, Message(d.box), e.done, e.torn);
      } else if e.i.Packet? && d.Running? {
        PacketCrash(d.flash, d.engine, e.i.q, e.done, e.torn);
      } else {
        NoSteps(d.flash, e.torn);
      }
    } else if e.i.PowerOn? && d.Off? {
      StartupOpens(d.flash, Message(d.box));
    } else if e.i.Packet? && d.Running? {
      PacketKeepsSession(d.flash, d.engine, e.i.q);
    } else if d.Running? && e.i.Tick? {
      PollKeepsSession(d.flash, d.engine, e.i.now);
    } else if d.Running? && e.i.Activity? {
      PollKeepsSession(d.flash, d.engine, e.i.now);
    }
  }

  // ---- The machine in numbers ----

  /** What a slot's record says about the image with this header. */
  predicate Describes(s: SlotRecord, h: Header, state: u8) {
    && s.state == state && s.reserved0 == [0, 0, 0] && s.reserved1 == 0 && s.bootCount == 0
    && s.version == Version(Le16(h[8], h[9]), Le16(h[10], h[11]), Le16(h[12], h[13]))
    && s.payloadSize == Le32(h[14], h[15], h[16], h[17])
    && s.payloadCrc == Le32(h[18], h[19], h[20], h[21])
  }

  predicate DescribesNothing(s: SlotRecord) {
    && s.state == 0 && s.reserved0 == [0, 0, 0] && s.reserved1 == 0 && s.bootCount == 0
    && s.version == Version(0, 0, 0) && s.payloadSize == 0 && s.payloadCrc == 0
  }

  /** The reconstructed record: A is ACTIVE (2) if its image validates; otherwise
      B is; B is VALID (1) beside an active A; a slot without an image is EMPTY;
      nothing is pending. */
  lemma ReconstructedExact(m: Memory)
    ensures var r := Reconstructed(m);
      && r.active == (if ImageOk(m, 0) then 0 else if ImageOk(m, 1) then 1 else 0xFF)
      && r == Record(0x4F54_414D, 1, 0, 0, r.slotA, r.slotB, r.active, 0xFF, 0, 0, seq(12, i => 0))
      && (ImageOk(m, 0) ==> Describes(r.slotA, m[0x8000..0x8020], 2))
      && (ImageOk(m, 1) ==> Describes(r.slotB, m[0x2_3C00..0x2_3C20], if ImageOk(m, 0) then 1 else 2))
      && (!ImageOk(m, 0) ==> DescribesNothing(r.slotA))
      && (!ImageOk(m, 1) ==> DescribesNothing(r.slotB))
  {
    assert seq(12, i => 0) == ZERO12;
    hide ImageOk, FromImage, Describes, DescribesNothing;
    assert HeaderAt(m, 0) == m[0x8000..0x8020] && HeaderAt(m, 1) == m[0x2_3C00..0x2_3C20];
    NothingDescribed();
    FromImageExact(m[0x8000..0x8020], 2);
    FromImageExact(m[0x2_3C00..0x2_3C20], 1);
    FromImageExact(m[0x2_3C00..0x2_3C20], 2);
  }

  lemma NothingDescribed()
    ensures DescribesNothing(EMPTY_SLOT)
  {
  }

  lemma FromImageExact(h: Header, state: u8)
    ensures Describes(FromImage(h, state), h, state)
  {
    FieldsExact(h);
    hide VersionOf, PayloadSize, PayloadCrc, Le16, Le32;
  }

  /** A start-up works with the selected record; without one it commits the
      reconstructed record to the page at 0x3F800 and works with that, in
      generation 1. It commits the decided record to the other page if the decision
      asks for that, and its engine is new. */
  lemma PowerOnExact(m: Memory, box: Box)
    ensures var d, r, c := Do(Off(m, box), PowerOn), EffectiveRecord(m), Message(box);
      var o := Decide(r, c, (slot: u8) => ImageOk(m, slot));
      && d.Running? && d.box == Consumed(box) && d.decision == o.decision
      && d.engine.state == Idle && d.engine.copy == (if Selected(m) == Some(1) then 1 else 0)
      && d.engine.metadata == (if o.commit then Finalize(o.record) else o.record)
      && StepsOf(Off(m, box), PowerOn)
         == (if Selected(m) == None then CommitSteps(0, Reconstructed(m)) else [])
            + (if o.commit then CommitSteps(if Selected(m) == Some(1) then 0 else 1, Finalize(o.record)) else [])
  {
    hide Decide, CommitSteps, Reconstructed, EffectiveRecord, Selected, Replay, Message, Consumed, RecordCrc;
    assert Probe(m) == ((slot: u8) => ImageOk(m, slot));
  }

  lemma EffectiveExact(m: Memory)
    ensures Selected(m) == Some(0) ==> EffectiveRecord(m) == Decode(m[0x3_F800..0x3_F850])
    ensures Selected(m) == Some(1) ==> EffectiveRecord(m) == Decode(m[0x3_FC00..0x3_FC50])
    ensures Selected(m) == None ==>
      EffectiveRecord(m) == Reconstructed(m).(generation := 1, crc := EffectiveRecord(m).crc)
  {
    hide *;
    if Selected(m) == None { FirstRecord(m); } else { StoredRecord(m); }
  }

  lemma StoredRecord(m: Memory)
    ensures Selected(m) == Some(0) ==> EffectiveRecord(m) == Decode(m[0x3_F800..0x3_F850])
    ensures Selected(m) == Some(1) ==> EffectiveRecord(m) == Decode(m[0x3_FC00..0x3_FC50])
  {
    hide Selected, Decode, Reconstructed, Next;
  }

  lemma FirstRecord(m: Memory)
    requires Selected(m) == None
    ensures EffectiveRecord(m) == Reconstructed(m).(generation := 1, crc := EffectiveRecord(m).crc)
  {
    ReconstructedSound(m);
    Resealed(Reconstructed(m));
    hide Selected, Decode, Reconstructed, Next, Sound;
  }

  lemma Resealed(r: Record)
    ensures r.generation == 0 ==> Next(r) == r.(generation := 1, crc := Next(r).crc)
  {
    hide RecordCrc;
  }

  /** A packet switches the bootloader off exactly if it is a RESET (8), or an END
      (4) that is acknowledged; the first leaves the mailbox as it is, the second
      fills it with 0xFF. */
  lemma PacketExact(d: Machine, q: Request)
    requires d.Running? && d.engine.state != ReadyToBoot
    ensures var d', f := Do(d, Packet(q)), Handle(d.engine, d.flash, q);
      && d'.flash == Replay(d.flash, f.steps)
      && (d'.Off? <==> q.command == 8 || (q.command == 4 && f.reply.Ack?))
      && (q.command == 8 ==> d' == Off(d.flash, d.box))
      && (q.command == 4 && f.reply.Ack? ==> d'.Off? && d'.box == Cleared())
      && (!d'.Off? ==> d' == d.(flash := d'.flash, engine := f.engine))
  {
    ReplayNone(d.flash);
    hide Handle, Replay, Cleared;
    PacketStates(d.engine, d.flash, q);
  }

  lemma PacketStates(e: Engine, m: Memory, q: Request)
    requires e.state != ReadyToBoot
    ensures var f := Handle(e, m, q);
      && (f.engine.state == ReadyToBoot <==> q.command == 4 && f.reply.Ack?)
      && (f.reset <==> q.command == 8)
      && (q.command == 8 ==> f.steps == [])
  {
    hide *;
    if q.command == 2 { StartState(e, m, q); }
    else if q.command == 3 { DataState(e, m, q); }
    else if q.command == 4 { EndState(e, m, q); }
    else { OtherState(e, m, q); }
  }

  lemma StartState(e: Engine, m: Memory, q: Request)
    requires q.command == 2
    ensures var f := Handle(e, m, q);
      !f.reset && (f.engine.state == e.state || f.engine.state == Receiving)
  {
    StartExact(e, m, q);
    hide HeaderFits, Handle;
  }

  lemma DataState(e: Engine, m: Memory, q: Request)
    requires q.command == 3
    ensures var f := Handle(e, m, q); !f.reset && f.engine.state == e.state
  {
    hide Crc, PayloadSize, WriteSucceeds, WriteSteps, DataSteps;
  }

  lemma EndState(e: Engine, m: Memory, q: Request)
    requires q.command == 4 && e.state != ReadyToBoot
    ensures var f := Handle(e, m, q); !f.reset && (f.engine.state == ReadyToBoot <==> f.reply.Ack?)
  {
    EndExact(e, m, q);
    hide Handle, Checks, PendingRecord, EndSteps, Sound;
  }

  lemma OtherState(e: Engine, m: Memory, q: Request)
    requires q.command != 2 && q.command != 3 && q.command != 4 && e.state != ReadyToBoot
    ensures var f := Handle(e, m, q); (f.reset <==> q.command == 8) && f.steps == [] && f.engine.state != ReadyToBoot
  {
  }

  /** The other inputs. The jump is taken exactly by an idle engine with a slot
      that has been decided for; the application confirms by posting its slot and
      version and resetting, unless it is confirmed already; and an input that the
      machine's state does not provide for changes nothing. */
  lemma OtherInputsExact(d: Machine, i: Input)
    requires !i.PowerOn? && !i.Packet?
    ensures var d' := Do(d, i);
      && (i.Jump? && d.Running? && d.engine.state == Idle && d.decision.BootSlot? ==>
            d' == App(d.flash, d.box, d.decision.slot))
      && (i.Tick? && d.Running? ==> d' == d.(engine := Poll(d.engine, i.now)))
      && (i.Activity? && d.Running? ==> d' == d.(engine := d.engine.(lastActivity := i.now)))
      && (i.Confirm? && d.App? && !AlreadyConfirmed(d.box, d.slot, i.version) ==>
            d' == Off(d.flash, Posted(d.slot, i.version)))
      && (i.AppReset? && d.App? ==> d' == Off(d.flash, i.box))
      && (d' != d ==>
            || (d.Running? && (i.Tick? || i.Activity?))
            || (d.Running? && i.Jump? && d.engine.state == Idle && d.decision.BootSlot?)
            || (d.App? && i.Confirm? && !AlreadyConfirmed(d.box, d.slot, i.version))
            || (d.App? && i.AppReset?))
  {
    ReplayNone(d.flash);
    hide Replay, Poll, Posted, AlreadyConfirmed, StartupSteps;
  }

  /** Power comes on only once, and packets are heard only by the bootloader. */
  lemma NothingOtherwise(d: Machine, q: Request)
    ensures !d.Off? ==> Do(d, PowerOn) == d
    ensures !d.Running? ==> Do(d, Packet(q)) == d
  {
    ReplayNone(d.flash);
    hide Replay, StartupSteps, Handle, BootOutcome, BootRecordOf, EffectiveCopy;
  }

  /** A run is carried out event by event; a cut event leaves the flash as its
      first steps leave it, with anything in the page that was being erased, and
      the machine off. */
  lemma {:induction false} RunConcat(d: Machine, a: seq<Event>, b: seq<Event>)
    requires AdmissibleRun(d, a) && AdmissibleRun(Run(d, a), b)
    ensures AdmissibleRun(d, a + b) && Run(d, a + b) == Run(Run(d, a), b)
    decreases |a|
  {
    hide AfterEvent, Admissible;
    if a == [] {
      assert a + b == b;
    } else {
      assert (a + b)[1..] == a[1..] + b;
      RunConcat(AfterEvent(d, a[0]), a[1..], b);
    }
  }

  lemma OneEvent(d: Machine, e: Event)
    requires Admissible(d, e)
    ensures AdmissibleRun(d, [e]) && Run(d, [e]) == AfterEvent(d, e)
    ensures e.Whole? ==> AfterEvent(d, e) == Do(d, e.i)
    ensures e.Cut? ==> AfterEvent(d, e) == Off(CutFlash(d.flash, StepsOf(d, e.i), e.done, e.torn), e.box)
  {
    hide Do, StepsOf, CutFlash, Strays;
    assert [e][1..] == [];
  }

  lemma CutExact(m: Memory, steps: seq<Step>, done: nat, torn: Option<seq<u8>>, i: nat)
    requires done <= |steps| && i < 0x4_0000
    ensures torn == None ==> CutFlash(m, steps, done, torn) == Replay(m, steps[..done])
    ensures torn.Some? && |torn.value| == 1024 && done < |steps| && steps[done].EraseStep? ==>
      var page := steps[done].page;
      CutFlash(m, steps, done, torn)[i]
      == if page <= i < page + 1024 then torn.value[i - page] else Replay(m, steps[..done])[i]
  {
    hide Replay;
  }
}
