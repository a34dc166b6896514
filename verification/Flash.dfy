// The flash map (tm4c123gxl/common/inc/ota_config.h), the range guard and the
// driver (tm4c123gxl/bootloader/src/bl_hal_tm4c.c), and the elementary steps
// between which power may fail.

module Flash {
  import opened Bytes

  const PAGE: int := 1024
  const FLASH_END: int := 0x40000
  const SLOT_A_START: int := 0x8000
  const SLOT_B_START: int := 0x23C00
  const SLOT_SIZE: int := 111 * 1024
  const PAYLOAD_MAX: int := 110 * 1024
  const METADATA_START: int := 0x3F800
  const CHUNK_MAX: int := 256

  const SLOT_A: u8 := 0
  const SLOT_B: u8 := 1
  const SLOT_NONE: u8 := 0xFF

  type Memory = m: seq<u8> | |m| == FLASH_END witness seq(FLASH_END, i => 0xFF)

  /** Anything that is not slot A is addressed as slot B, as in the source. */
  function SlotStart(slot: u8): u32 { if slot == SLOT_A then SLOT_A_START else SLOT_B_START }

  function PayloadStart(slot: u8): u32 { SlotStart(slot) + PAGE }

  predicate IsSlot(slot: u8) { slot == SLOT_A || slot == SLOT_B }

  function Other(slot: u8): u8 { if slot == SLOT_A then SLOT_B else SLOT_A }

  /** Metadata copies are numbered 0 and 1. */
  type Copy = c: int | c == 0 || c == 1

  function CopyStart(copy: Copy): u32 { METADATA_START + copy * PAGE }

  // ---- The range guard ----

  datatype Operation = Erase | Program

  /** range: the overflow test comes before the sum is formed. */
  predicate InRange(start: u32, end: u32, address: u32, length: nat) {
    && length != 0
    && length <= U32_MAX
    && start <= address <= U32_MAX - length
    && Add32(address, length) <= end
  }

  /** bl_flash_range_allowed. */
  predicate RangeAllowed(address: u32, length: nat, active: u8, operation: Operation) {
    var target: u32 := if active == SLOT_A then SLOT_B_START else SLOT_A_START;
    && (operation == Erase ==> address % PAGE == 0 && length % PAGE == 0)
    && (InRange(target, target + SLOT_SIZE, address, length)
        || InRange(METADATA_START, FLASH_END, address, length))
  }

  /** bl_hal_flash_program_padded_length. */
  function PaddedLength(length: nat): nat {
    if length == 0 || length > U32_MAX - 3 then 0 else (length + 3) / 4 * 4
  }

  // ---- Elementary steps ----

  datatype Step =
    | EraseStep(page: nat)
    | WordStep(address: nat, word: seq<u8>)

  function Apply(m: Memory, s: Step): Memory {
    match s
    case EraseStep(page) =>
      seq(FLASH_END, i requires 0 <= i < FLASH_END =>
        if page <= i < page + PAGE then 0xFF else m[i])
    case WordStep(address, word) =>
      Programmed(m, address, word)
  }

  /** The contents after programming data at address: bits are only cleared. */
  function Programmed(m: Memory, address: nat, data: seq<u8>): Memory {
    seq(FLASH_END, i requires 0 <= i < FLASH_END =>
      if address <= i < address + |data| then And8(m[i], data[i - address]) else m[i])
  }

  function Replay(m: Memory, steps: seq<Step>): Memory {
    if steps == [] then m
    else Apply(Replay(m, steps[..|steps| - 1]), steps[|steps| - 1])
  }

  lemma {:induction false} ReplayConcat(m: Memory, a: seq<Step>, b: seq<Step>)
    ensures Replay(m, a + b) == Replay(Replay(m, a), b)
  {
    if b == [] {
      assert a + b == a;
    } else {
      ReplayConcat(m, a, b[..|b| - 1]);
      assert (a + b)[..|a + b| - 1] == a + b[..|b| - 1];
    }
  }

  lemma ReplayNext(m: Memory, steps: seq<Step>, n: nat)
    requires n < |steps|
    ensures Replay(m, steps[..n + 1]) == Apply(Replay(m, steps[..n]), steps[n])
    ensures steps[..n + 1] == steps[..n] + [steps[n]]
  {
    assert steps[..n + 1][..n] == steps[..n];
  }

  lemma ReplayNone(m: Memory)
    ensures Replay(m, []) == m
  {
  }

  lemma ReplayOne(m: Memory, s: Step)
    ensures Replay(m, [s]) == Apply(m, s)
  {
    assert [s][..0] == [];
  }

  /** The words of a padded write, in address order. */
  function ProgramSteps(address: nat, data: seq<u8>): (steps: seq<Step>)
    ensures |steps| == |data| / 4
    ensures forall k :: 0 <= k < |steps| ==> steps[k] == WordStep(address + 4 * k, data[4 * k..4 * k + 4])
  {
    seq(|data| / 4, k requires 0 <= k < |data| / 4 => WordStep(address + 4 * k, data[4 * k..4 * k + 4]))
  }

  /** The pages of an erase, in address order. */
  function EraseSteps(address: nat, length: nat): (steps: seq<Step>)
    ensures |steps| == length / PAGE
    ensures forall k :: 0 <= k < |steps| ==> steps[k] == EraseStep(address + PAGE * k)
  {
    seq(length / PAGE, k requires 0 <= k < length / PAGE => EraseStep(address + PAGE * k))
  }

  function Padded(data: seq<u8>): (p: seq<u8>)
    ensures |data| <= |p|
    ensures p[..|data|] == data
    ensures 0 < |data| <= CHUNK_MAX ==> |p| == PaddedLength(|data|)
    ensures |p| % 4 == 0 && |p| < |data| + 4
    ensures forall i :: |data| <= i < |p| ==> p[i] == 0xFF
  {
    data + seq((|data| + 3) / 4 * 4 - |data|, i => 0xFF)
  }

  lemma ProgramMore(m: Memory, address: nat, data: seq<u8>, i: nat, j: nat)
    requires i <= j <= |data|
    ensures Programmed(Programmed(m, address, data[..i]), address + i, data[i..j]) == Programmed(m, address, data[..j])
  {
    hide And8;
  }

  /** A write cut after k words has programmed exactly its first 4k bytes. */
  lemma {:induction false} ProgramPrefix(m: Memory, address: nat, data: seq<u8>, k: nat)
    requires k <= |data| / 4
    ensures Replay(m, ProgramSteps(address, data)[..k]) == Programmed(m, address, data[..4 * k])
  {
    var steps := ProgramSteps(address, data);
    if k == 0 {
      assert Programmed(m, address, []) == m;
    } else {
      hide Programmed;
      ProgramPrefix(m, address, data, k - 1);
      ReplayNext(m, steps, k - 1);
      ProgramMore(m, address, data, 4 * (k - 1), 4 * k);
    }
  }

  lemma ProgramAll(m: Memory, address: nat, data: seq<u8>)
    requires |data| % 4 == 0
    ensures Replay(m, ProgramSteps(address, data)) == Programmed(m, address, data)
  {
    ProgramPrefix(m, address, data, |data| / 4);
    assert ProgramSteps(address, data)[..|data| / 4] == ProgramSteps(address, data);
    assert data[..4 * (|data| / 4)] == data;
  }

  // ---- Regions ----

  /** m and m' hold the same bytes in [lo, hi). */
  predicate Same(m: Memory, m': Memory, lo: nat, hi: nat)
    requires hi <= FLASH_END
  {
    forall i :: lo <= i < hi ==> m[i] == m'[i]
  }

  /** Every byte of [lo, hi) is erased. */
  predicate Blank(m: Memory, lo: nat, hi: nat)
    requires hi <= FLASH_END
  {
    forall i :: lo <= i < hi ==> m[i] == 0xFF
  }

  predicate StepAvoids(s: Step, lo: nat, hi: nat) {
    match s
    case EraseStep(page) => page + PAGE <= lo || hi <= page
    case WordStep(address, word) => address + |word| <= lo || hi <= address
  }

  predicate Avoids(steps: seq<Step>, lo: nat, hi: nat) {
    forall k :: 0 <= k < |steps| ==> StepAvoids(steps[k], lo, hi)
  }

  lemma {:induction false} ReplaySame(m: Memory, steps: seq<Step>, lo: nat, hi: nat)
    requires hi <= FLASH_END && Avoids(steps, lo, hi)
    ensures Same(m, Replay(m, steps), lo, hi)
  {
    if steps != [] {
      ReplaySame(m, steps[..|steps| - 1], lo, hi);
      assert StepAvoids(steps[|steps| - 1], lo, hi);
    }
  }

  lemma SameSlice(m: Memory, m': Memory, lo: nat, hi: nat, a: nat, b: nat)
    requires hi <= FLASH_END && Same(m, m', lo, hi) && lo <= a <= b <= hi
    ensures m[a..b] == m'[a..b]
  {
  }

  /** Programming over erased bytes stores exactly the data. */
  lemma ProgramBlank(m: Memory, address: nat, data: seq<u8>)
    requires address + |data| <= FLASH_END && Blank(m, address, address + |data|)
    ensures Programmed(m, address, data)[address..address + |data|] == data
  {
    forall k | 0 <= k < |data|
      ensures Programmed(m, address, data)[address + k] == data[k]
    {
      And8Erased(data[k]);
    }
  }

  // ---- The driver ----

  /** The flash controller as the update engine sees it. The trace records the
      elementary steps it has performed. */
  class FlashDriver {
    var mem: Memory
    ghost var trace: seq<Step>

    constructor (contents: Memory)
      ensures mem == contents && trace == []
    {
      mem := contents;
      trace := [];
    }

    /** bl_hal_flash_erase: refused by the guard, or page after page. */
    method ErasePages(address: u32, length: nat, active: u8) returns (ok: bool)
      modifies this
      ensures ok == RangeAllowed(address, length, active, Erase)
      ensures ok ==> trace == old(trace) + EraseSteps(address, length)
      ensures ok ==> mem == Replay(old(mem), EraseSteps(address, length))
      ensures !ok ==> trace == old(trace) && mem == old(mem)
    {
      ok := RangeAllowed(address, length, active, Erase);
      if ok {
        ReplayNone(mem);
        hide Apply, Replay;
        ghost var steps := EraseSteps(address, length);
        var n := 0;
        assert steps[..0] == [];
        while n * PAGE < length
          invariant 0 <= n <= |steps|
          invariant trace == old(trace) + steps[..n]
          invariant mem == Replay(old(mem), steps[..n])
        {
          ReplayNext(old(mem), steps, n);
          mem := Apply(mem, EraseStep(address + PAGE * n));
          trace := trace + [EraseStep(address + PAGE * n)];
          n := n + 1;
        }
        assert steps[..n] == steps;
      }
    }

    /** bl_hal_flash_program: the data is padded with 0xFF to whole words, the
        padded range is checked, and the words are written in order. */
    method ProgramBytes(address: u32, data: seq<u8>, active: u8) returns (ok: bool)
      modifies this
      ensures ok == ProgramAllowed(address, |data|, active)
      ensures ok ==> trace == old(trace) + ProgramSteps(address, Padded(data))
      ensures ok ==> mem == Replay(old(mem), ProgramSteps(address, Padded(data)))
      ensures !ok ==> trace == old(trace) && mem == old(mem)
    {
      var padded := PaddedLength(|data|);
      ok := padded != 0 && padded <= CHUNK_MAX && RangeAllowed(address, padded, active, Program);
      if ok {
        ReplayNone(mem);
        hide Apply, Replay, RangeAllowed;
        var words := Padded(data);
        ghost var steps := ProgramSteps(address, words);
        var n := 0;
        assert steps[..0] == [];
        while n < |words| / 4
          invariant 0 <= n <= |steps|
          invariant trace == old(trace) + steps[..n]
          invariant mem == Replay(old(mem), steps[..n])
        {
          ReplayNext(old(mem), steps, n);
          mem := Apply(mem, WordStep(address + 4 * n, words[4 * n..4 * n + 4]));
          trace := trace + [WordStep(address + 4 * n, words[4 * n..4 * n + 4])];
          n := n + 1;
        }
        assert steps[..n] == steps;
      }
    }

    /** bl_hal_flash_read. */
    method ReadBytes(address: nat, length: nat) returns (data: seq<u8>)
      ensures data == Read(mem, address, length)
    {
      data := Read(mem, address, length);
    }
  }

  predicate ProgramAllowed(address: u32, length: nat, active: u8) {
    && 0 < PaddedLength(length) <= CHUNK_MAX
    && RangeAllowed(address, PaddedLength(length), active, Program)
  }

  function Read(m: Memory, address: nat, length: nat): (data: seq<u8>)
    ensures |data| == length
    ensures address + length <= FLASH_END ==> data == m[address..address + length]
  {
    seq(length, i requires 0 <= i < length => if address + i < FLASH_END then m[address + i] else 0xFF)
  }

  // ---- What the guard protects ----

  /** The guard never wraps around: in unbounded arithmetic it opens exactly
      the non-empty ranges inside the inactive slot or the metadata pages. */
  lemma GuardExact(address: u32, length: nat, active: u8, operation: Operation)
    ensures RangeAllowed(address, length, active, operation) <==>
      && length > 0
      && (operation == Erase ==> address % PAGE == 0 && length % PAGE == 0)
      && var target := if active == SLOT_A then SLOT_B_START else SLOT_A_START;
         (target <= address && address + length <= target + SLOT_SIZE)
         || (METADATA_START <= address && address + length <= FLASH_END)
  {
    if length != 0 && length <= U32_MAX && address <= U32_MAX - length {
      assert Add32(address, length) == address + length;
    }
  }

  /** A range that the guard lets through touches neither the bootloader nor
      the active slot, and stays inside the flash. */
  lemma GuardProtects(address: u32, length: nat, active: u8, operation: Operation)
    requires RangeAllowed(address, length, active, operation)
    ensures address >= SLOT_A_START && address + length <= FLASH_END
    ensures active == SLOT_A ==> address >= SLOT_A_START + SLOT_SIZE
    ensures active == SLOT_B ==> address + length <= SLOT_B_START || address >= SLOT_B_START + SLOT_SIZE
  {
  }

  // ---- The map and the effects in numbers ----

  /** The flash map: what may be erased and programmed is slot B from 0x23C00 on
      while slot A is active, slot A from 0x8000 on otherwise, each of 111 KiB,
      and the two pages from 0x3F800 on. */
  lemma GuardInNumbers(address: u32, length: nat, active: u8, operation: Operation)
    ensures RangeAllowed(address, length, active, operation) <==>
      && length > 0
      && (operation == Erase ==> address % 1024 == 0 && length % 1024 == 0)
      && (|| (active == 0 && 0x2_3C00 <= address && address + length <= 0x3_F800)
          || (active != 0 && 0x8000 <= address && address + length <= 0x2_3C00)
          || (0x3_F800 <= address && address + length <= 0x4_0000))
  {
    GuardExact(address, length, active, operation);
  }

  /** A write takes 1 to 256 bytes, and its range is checked up to the end of the
      last word. */
  lemma WriteInNumbers(address: u32, length: nat, active: u8, words: nat)
    requires 4 * words - 4 < length <= 4 * words
    ensures ProgramAllowed(address, length, active) <==>
      1 <= length <= 256 && RangeAllowed(address, 4 * words, active, Program)
  {
    if 1 <= length <= 256 { assert (length + 3) / 4 == words; }
  }

  /** An erase sets the bytes of its pages and no others. */
  lemma {:induction false} ErasedExactly(m: Memory, address: nat, pages: nat, i: nat)
    requires i < 0x4_0000
    ensures Replay(m, EraseSteps(address, 1024 * pages))[i]
         == if address <= i < address + 1024 * pages then 0xFF else m[i]
    decreases pages
  {
    var steps := EraseSteps(address, 1024 * pages);
    if pages == 0 {
      assert steps == [];
    } else {
      ErasedExactly(m, address, pages - 1, i);
      assert EraseSteps(address, 1024 * (pages - 1)) == steps[..pages - 1];
    }
  }

  /** A write clears the bits that are clear in its data, and changes no byte
      outside it. */
  lemma WrittenExactly(m: Memory, address: nat, data: seq<u8>, i: nat)
    requires i < 0x4_0000
    ensures Replay(m, ProgramSteps(address, Padded(data)))[i]
         == if address <= i < address + |data| then And8(m[i], data[i - address]) else m[i]
  {
    hide And8, Replay;
    ProgramAll(m, address, Padded(data));
    And8Erased(m[i]);
  }
}
