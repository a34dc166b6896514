// tm4c123gxl/application/src/boot_confirm.c: the mailbox in retained memory
// through which an application confirms itself to the bootloader.

module Mailbox {
  import opened Bytes
  import opened Flash
  import opened Crc32
  import opened Image
  import opened Boot

  const CONFIRM_MAGIC: u32 := 0x434F_4E46
  const CONFIRMED_MAGIC: u32 := 0x434F_4E44
  const CONFIRM_SCHEMA: u16 := 1

  type Padding = p: seq<u8> | |p| == 44 witness seq(44, i => 0)

  /** boot_confirmation_mailbox_t. The structure is not packed: two alignment
      bytes precede the checksum. */
  datatype Box = Box(
    magic: u32, schema: u16, slot: u8, reserved: u8, version: Version, gap: u16, crc: u32, padding: Padding)

  function EncodeBox(b: Box): (bytes: seq<u8>)
    ensures |bytes| == 64
  {
    PutU32(b.magic) + PutU16(b.schema) + [b.slot, b.reserved]
    + PutU16(b.version.major) + PutU16(b.version.minor) + PutU16(b.version.patch)
    + PutU16(b.gap) + PutU32(b.crc) + b.padding
  }

  /** mailbox_crc. */
  function BoxCrc(b: Box): u32 { Crc(EncodeBox(b.(crc := 0))) }

  /** boot_confirmation_validate. */
  predicate BoxValid(b: Box) {
    && b.magic == CONFIRM_MAGIC && b.schema == CONFIRM_SCHEMA && b.reserved == 0 && b.slot <= SLOT_B
    && BoxCrc(b) == b.crc
  }

  /** memset(0xff). */
  function Cleared(): Box {
    Box(0xFFFF_FFFF, 0xFFFF, 0xFF, 0xFF, Version(0xFFFF, 0xFFFF, 0xFFFF), 0xFFFF, 0xFFFF_FFFF, seq(44, i => 0xFF))
  }

  function Posted(slot: u8, version: Version): Box {
    var b := Box(CONFIRM_MAGIC, CONFIRM_SCHEMA, slot, 0, version, 0, 0, seq(44, i => 0));
    b.(crc := BoxCrc(b))
  }

  /** What the bootloader reads from the box at start-up. */
  function Message(b: Box): Option<Confirmation> {
    if BoxValid(b) then Some(Confirmation(b.slot, b.version)) else None
  }

  /** What start-up leaves in it. */
  function Consumed(b: Box): Box {
    if BoxValid(b) then b.(magic := CONFIRMED_MAGIC, crc := 0)
    else if b.magic != CONFIRMED_MAGIC then Cleared()
    else b
  }

  /** The application has already been confirmed through this box. */
  predicate AlreadyConfirmed(b: Box, slot: u8, version: Version) {
    b.magic == CONFIRMED_MAGIC && b.slot == slot && b.version == version
  }

  class RetainedMailbox {
    var box: Box

    constructor (contents: Box)
      ensures box == contents
    {
      box := contents;
    }

    method Consume() returns (message: Option<Confirmation>)
      modifies this
      ensures message == Message(old(box)) && box == Consumed(old(box))
    {
      message := Message(box);
      if message.Some? {
        box := box.(magic := CONFIRMED_MAGIC);
        box := box.(crc := 0);
      } else if box.magic != CONFIRMED_MAGIC {
        box := Cleared();
      }
    }

    method Clear()
      modifies this
      ensures box == Cleared()
    {
      box := Cleared();
    }

    /** boot_confirm: whether it resets the processor. */
    method Confirm(slot: u8, version: Version) returns (reset: bool)
      modifies this
      ensures reset == !AlreadyConfirmed(old(box), slot, version)
      ensures box == if reset then Posted(slot, version) else old(box)
    {
      if box.magic == CONFIRMED_MAGIC && box.slot == slot && box.version == version {
        return false;
      }
      var m := Box(CONFIRM_MAGIC, CONFIRM_SCHEMA, slot, 0, version, 0, 0, seq(44, i => 0));
      m := m.(crc := BoxCrc(m));
      box := m;
      reset := true;
    }
  }

  /** A posted confirmation is read back once: consuming it yields exactly the
      slot and version, leaves nothing to read, and marks the application as
      confirmed, so that it does not post again. */
  lemma PostedOnce(slot: u8, version: Version)
    requires IsSlot(slot)
    ensures Message(Posted(slot, version)) == Some(Confirmation(slot, version))
    ensures var after := Consumed(Posted(slot, version));
      Message(after) == None && Consumed(after) == after && AlreadyConfirmed(after, slot, version)
  {
    var b := Box(CONFIRM_MAGIC, CONFIRM_SCHEMA, slot, 0, version, 0, 0, seq(44, i => 0));
    assert Posted(slot, version).(crc := 0) == b;
    hide Crc;
  }

  // ---- The box in numbers ----

  /** Where the fields of a box stand. */
  lemma BoxLayout(b: Box)
    ensures var e := EncodeBox(b);
      && Le32(e[0], e[1], e[2], e[3]) == b.magic && Le16(e[4], e[5]) == b.schema && e[6] == b.slot && e[7] == b.reserved
      && Le16(e[8], e[9]) == b.version.major && Le16(e[10], e[11]) == b.version.minor
      && Le16(e[12], e[13]) == b.version.patch && Le16(e[14], e[15]) == b.gap
      && Le32(e[16], e[17], e[18], e[19]) == b.crc && e[20..64] == b.padding
  {
    hide PutU16, PutU32, Le16, Le32;
    LittleEndian(b.magic, b.schema, [0, 0, 0, 0], 0);
    LittleEndian(b.crc, b.gap, [0, 0, 0, 0], 0);
    LittleEndian(0, b.version.major, [0, 0, 0, 0], 0);
    LittleEndian(0, b.version.minor, [0, 0, 0, 0], 0);
    LittleEndian(0, b.version.patch, [0, 0, 0, 0], 0);
  }

  /** The box with the bytes of its checksum cleared. */
  lemma BoxCleared(b: Box)
    ensures var e := EncodeBox(b); EncodeBox(b.(crc := 0)) == e[..16] + [0, 0, 0, 0] + e[20..]
  {
    assert PutU32(0) == [0, 0, 0, 0];
    hide PutU16, PutU32;
  }

  lemma FirstBytes(e: seq<u8>)
    requires |e| == 64
    ensures e[..6] == [0x46, 0x4E, 0x4F, 0x43, 1, 0] <==>
      Le32(e[0], e[1], e[2], e[3]) == CONFIRM_MAGIC && Le16(e[4], e[5]) == CONFIRM_SCHEMA
  {
    var c := e[..6];
    assert c[0] == e[0] && c[1] == e[1] && c[2] == e[2] && c[3] == e[3] && c[4] == e[4] && c[5] == e[5];
    ConfirmWord(e[0], e[1], e[2], e[3]);
  }

  lemma ConfirmWord(a: u8, b: u8, c: u8, d: u8)
    ensures Le32(a, b, c, d) == CONFIRM_MAGIC <==> a == 0x46 && b == 0x4E && c == 0x4F && d == 0x43
  {
  }

  /** A box speaks exactly if its 64 bytes begin with "FNOC" and schema 1, name
      slot 0 or 1, have a zero byte behind it, and the checksum, over all of them
      with its own four bytes cleared, is the one at byte 16; and then it says
      what stands in it. */
  lemma SpeaksExactly(b: Box)
    ensures var e := EncodeBox(b);
      && (Message(b) != None <==>
            && e[..6] == [0x46, 0x4E, 0x4F, 0x43, 1, 0] && e[6] <= 1 && e[7] == 0
            && Le32(e[16], e[17], e[18], e[19]) == Crc(e[..16] + [0, 0, 0, 0] + e[20..]))
      && (Message(b) != None ==> Message(b) == Some(Confirmation(b.slot, b.version)))
  {
    hide EncodeBox, Le16, Le32;
    BoxLayout(b);
    BoxCleared(b);
    FirstBytes(EncodeBox(b));
  }

  /** Damage to up to four consecutive bytes other than the checksum silences a
      box, and so does damage to the checksum alone. */
  lemma DamageSilences(b: Box, d: Box, before: seq<u8>, x: seq<u8>, y: seq<u8>, after: seq<u8>)
    requires Message(b) != None && b != d
    requires |x| == |y| <= 4
    requires EncodeBox(b.(crc := 0)) == before + x + after && EncodeBox(d.(crc := 0)) == before + y + after
    requires (x != y && b.crc == d.crc) || (x == y && b.crc != d.crc)
    ensures Message(d) == None
  {
    hide EncodeBox;
    if x != y { BurstDetected(before, x, y, after); }
  }

  /** Start-up marks a box that speaks as confirmed and clears its checksum; it
      leaves a confirmed box alone, and fills every other one with 0xFF. */
  lemma ConsumedExactly(b: Box, i: nat)
    requires i < 64
    ensures Message(b) != None ==> Consumed(b) == b.(magic := 0x434F_4E44, crc := 0)
    ensures Message(b) == None && b.magic == 0x434F_4E44 ==> Consumed(b) == b
    ensures Message(b) == None && b.magic != 0x434F_4E44 ==> EncodeBox(Consumed(b))[i] == 0xFF
  {
    hide BoxValid;
    if Message(b) == None && b.magic != 0x434F_4E44 { AllOnes(i); }
  }

  lemma AllOnes(i: nat)
    requires i < 64
    ensures EncodeBox(Cleared())[i] == 0xFF
  {
    assert PutU32(0xFFFF_FFFF) == [0xFF, 0xFF, 0xFF, 0xFF];
    assert PutU16(0xFFFF) == [0xFF, 0xFF];
  }

  /** What an application posts, and when it need not. */
  lemma PostedExactly(slot: u8, version: Version)
    ensures var e := EncodeBox(Posted(slot, version));
      && e[..8] == [0x46, 0x4E, 0x4F, 0x43, 1, 0, slot, 0]
      && Le16(e[8], e[9]) == version.major && Le16(e[10], e[11]) == version.minor
      && Le16(e[12], e[13]) == version.patch && e[14] == 0 && e[15] == 0
      && Le32(e[16], e[17], e[18], e[19]) == Crc(e[..16] + [0, 0, 0, 0] + e[20..])
      && forall i :: 20 <= i < 64 ==> e[i] == 0
  {
    var b := Posted(slot, version);
    var e := EncodeBox(b);
    hide EncodeBox, Le32, Crc;
    BoxLayout(b);
    BoxCleared(b);
    FirstBytes(e);
    assert b.(crc := 0) == b.(crc := 0).(crc := 0);
    assert e[..8] == e[..6] + [e[6], e[7]];
    forall i | 20 <= i < 64
      ensures e[i] == 0
    {
      assert e[20..64][i - 20] == b.padding[i - 20];
    }
  }

  lemma ConfirmedExactly(b: Box, slot: u8, version: Version)
    ensures AlreadyConfirmed(b, slot, version) <==> b == b.(magic := 0x434F_4E44, slot := slot, version := version)
  {
  }
}
