/** The physical memory manager (kernal/mem/phymem.c): a bitmap of 2^20 blocks of 4 KiB in 32-bit
    words, a set bit meaning the block is in use. */
module PhysicalMemory {
  import opened Bitwise
  import opened Widths

  // Addresses are 32-bit numbers and their arithmetic wraps at 2^32.

  const WORDS := 0x8000
  const BLOCKS := 0x10_0000
  const BLOCK_SIZE := 4096
  const ALL_ONES := 0xffff_ffff
  const KERNEL_P := 0x10_0000
  const KERNEL_MAPPED_SIZE := 0x40_0000

  type Word = w: nat | w < UINT32

  type Words = ws: seq<Word> | |ws| == WORDS witness seq(WORDS, _ => 0)

  /** One E820 entry as the boot loader left it (ACPI specification, section 15.1); the ACPI 3.0
      attributes are never read. */
  datatype Entry = Entry(startLow: Word, startHigh: Word, sizeLow: Word, sizeHigh: Word, kind: Word)

  // ---------------------------------------------------------------- bits and blocks

  predicate Used(ws: Words, b: nat)
    requires b < BLOCKS
  {
    Bit(ws[b / 32], b % 32)
  }

  function XorWord(w: Word, mask: Word): Word {
    Powers();
    XorBound(w, mask, 32);
    Xor(w, mask)
  }

  /** 1ul << k. */
  function Shifted(k: nat): Word
    requires k < 32
  {
    Powers();
    Pow2Monotone(k, 31);
    Pow2(k)
  }

  /** pmmngr_toggle_block. */
  function ToggleBlock(ws: Words, b: nat): Words
    requires b < BLOCKS
  {
    ws[b / 32 := XorWord(ws[b / 32], Shifted(b % 32))]
  }

  /** The word-wide path of pmmngr_toggle_range. */
  function ToggleWord(ws: Words, i: nat): Words
    requires i < WORDS
  {
    ws[i := XorWord(ws[i], ALL_ONES)]
  }

  lemma FlipOne(w: Word, k: nat, j: nat)
    requires k < 32 && j < 32
    ensures Bit(XorWord(w, Shifted(k)), j) == (Bit(w, j) != (j == k))
  {
    XorBit(w, Shifted(k), j);
    Pow2Bit(k, j);
  }

  lemma FlipAll(w: Word, j: nat)
    requires j < 32
    ensures Bit(XorWord(w, ALL_ONES), j) == !Bit(w, j)
  {
    XorBit(w, ALL_ONES, j);
    Powers();
    OnesBit(32, j);
  }

  lemma ToggleBlockFlips(ws: Words, b: nat, c: nat)
    requires b < BLOCKS && c < BLOCKS
    ensures Used(ToggleBlock(ws, b), c) == (Used(ws, c) != (c == b))
  {
    if c / 32 == b / 32 {
      FlipOne(ws[b / 32], b % 32, c % 32);
    }
  }

  lemma ToggleWordFlips(ws: Words, i: nat, c: nat)
    requires i < WORDS && c < BLOCKS
    ensures Used(ToggleWord(ws, i), c) == (Used(ws, c) != (c / 32 == i))
  {
    if c / 32 == i {
      FlipAll(ws[i], c % 32);
    }
  }

  // ---------------------------------------------------------------- pmmngr_toggle_range

  function Wrap(x: int): nat {
    x % UINT32
  }

  /** The first block of a range: the start is rounded down. */
  function FirstBlock(start: nat): (a: nat)
    requires start < UINT32
    ensures a < BLOCKS
  {
    start / BLOCK_SIZE
  }

  function RoundUp(end: nat): nat
    requires end < UINT32
  {
    if end % BLOCK_SIZE != 0 then Wrap(end + (BLOCK_SIZE - end % BLOCK_SIZE)) else end
  }

  function RoundDown(start: nat): nat
    requires start < UINT32
  {
    start - start % BLOCK_SIZE
  }

  /** The blocks from the rounded start to the rounded end, going round at 4 GiB. */
  function BlockCount(start: nat, end: nat): (n: nat)
    requires start < UINT32 && end < UINT32
    ensures n < BLOCKS
  {
    Wrap(RoundUp(end) - RoundDown(start)) / BLOCK_SIZE
  }

  /** What the loop does from block a on with n blocks to go: a whole word, whichever block of
      it a is, while 32 blocks remain, then block by block. */
  function Toggle(ws: Words, a: nat, n: nat): Words
    requires a < BLOCKS
    decreases n
  {
    if n == 0 then ws
    else if n >= 32 then Toggle(ToggleWord(ws, a / 32), (a + 32) % BLOCKS, n - 32)
    else Toggle(ToggleBlock(ws, a), (a + 1) % BLOCKS, n - 1)
  }

  /** How far block b lies behind block a, going round. */
  function Behind(a: nat, b: nat): nat {
    (b - a) % BLOCKS
  }

  /** Block b is one of the n blocks from a on. */
  predicate InRange(a: nat, n: nat, b: nat) {
    Behind(a, b) < n
  }

  /** Block b is in one of the words that are toggled whole. */
  predicate InWords(a: nat, n: nat, b: nat) {
    (b / 32 - a / 32) % WORDS < n / 32
  }

  /** Block b is toggled on its own. */
  predicate InTail(a: nat, n: nat, b: nat) {
    Behind(a + n / 32 * 32, b) < n % 32
  }

  /** The exact effect on block b. */
  predicate Flips(a: nat, n: nat, b: nat) {
    InWords(a, n, b) != InTail(a, n, b)
  }

  /** Whatever the start, the loop flips whole words from the start's word on and then the
      last few blocks; a block that falls under both is flipped back. */
  lemma {:induction false} ToggleFlips(ws: Words, a: nat, n: nat, b: nat)
    requires a < BLOCKS && n < BLOCKS && b < BLOCKS
    ensures Used(Toggle(ws, a, n), b) == (Used(ws, b) != Flips(a, n, b))
    decreases n
  {
    if n >= 32 {
      ToggleWordFlips(ws, a / 32, b);
      ToggleFlips(ToggleWord(ws, a / 32), (a + 32) % BLOCKS, n - 32, b);
      assert Toggle(ws, a, n) == Toggle(ToggleWord(ws, a / 32), (a + 32) % BLOCKS, n - 32);
      WordStep(a, n, b);
    } else if n > 0 {
      ToggleBlockFlips(ws, a, b);
      ToggleFlips(ToggleBlock(ws, a), (a + 1) % BLOCKS, n - 1, b);
      assert Toggle(ws, a, n) == Toggle(ToggleBlock(ws, a), (a + 1) % BLOCKS, n - 1);
      TailStep(a, n, b);
    }
  }

  lemma WordStep(a: nat, n: nat, b: nat)
    requires a < BLOCKS && 32 <= n < BLOCKS && b < BLOCKS
    ensures Flips(a, n, b) == (Flips((a + 32) % BLOCKS, n - 32, b) != (b / 32 == a / 32))
  {
    assert (n - 32) / 32 == n / 32 - 1 && (n - 32) % 32 == n % 32;
    SameTail(a, n, b);
    assert (a + 32) % BLOCKS / 32 == (a / 32 + 1) % WORDS;
    OneWordFewer(a / 32, b / 32, n / 32);
  }

  lemma OneWordFewer(i: nat, j: nat, k: nat)
    requires i < WORDS && j < WORDS && 0 < k < WORDS
    ensures (j - i) % WORDS < k <==> (j - (i + 1) % WORDS) % WORDS < k - 1 || j == i
    ensures j == i ==> (j - (i + 1) % WORDS) % WORDS >= k - 1
  {
  }

  lemma SameTail(a: nat, n: nat, b: nat)
    requires a < BLOCKS && 32 <= n < BLOCKS && b < BLOCKS
    ensures InTail(a, n, b) <==> InTail((a + 32) % BLOCKS, n - 32, b)
  {
    var c := (a + 32) % BLOCKS;
    var x, y := a + n / 32 * 32, c + (n - 32) / 32 * 32;
    assert x == y || x == y + BLOCKS;
    assert Behind(x, b) == Behind(y, b);
  }

  lemma TailStep(a: nat, n: nat, b: nat)
    requires a < BLOCKS && 0 < n < 32 && b < BLOCKS
    ensures Flips(a, n, b) == (Flips((a + 1) % BLOCKS, n - 1, b) != (b == a))
  {
    assert n / 32 == (n - 1) / 32 == 0;
    NextBehind(a, b);
  }

  lemma NextBehind(a: nat, b: nat)
    requires a < BLOCKS && b < BLOCKS
    ensures Behind((a + 1) % BLOCKS, b) == if b == a then BLOCKS - 1 else Behind(a, b) - 1
  {
    assert (a + 1) % BLOCKS == if a + 1 == BLOCKS then 0 else a + 1;
  }

  lemma WordsBehind(a: nat, b: nat)
    requires a < BLOCKS && b < BLOCKS && a % 32 == 0
    ensures (b / 32 - a / 32) % WORDS == Behind(a, b) / 32
  {
    assert Behind(a, b) == if b >= a then b - a else b - a + BLOCKS;
  }

  lemma FurtherBehind(a: nat, k: nat, b: nat)
    requires a < BLOCKS && b < BLOCKS && k < BLOCKS
    ensures Behind(a + k, b) == if Behind(a, b) >= k then Behind(a, b) - k else Behind(a, b) - k + BLOCKS
  {
    assert Behind(a, b) == if b >= a then b - a else b - a + BLOCKS;
  }

  /** From a start on a 128 KiB boundary, or for fewer than 32 blocks, the effect is exactly
      the rounded range. */
  lemma AlignedIsExact(a: nat, n: nat, b: nat)
    requires a < BLOCKS && n < BLOCKS && b < BLOCKS && (a % 32 == 0 || n < 32)
    ensures Flips(a, n, b) <==> InRange(a, n, b)
  {
    if a % 32 == 0 {
      var o, k := Behind(a, b), n / 32 * 32;
      WordsBehind(a, b);
      assert InWords(a, n, b) <==> o < k;
      FurtherBehind(a, k, b);
      assert InTail(a, n, b) <==> k <= o < n;
    }
  }

  /** From any other start the first block of the start's word comes out wrong. */
  lemma UnalignedIsWrong(a: nat, n: nat)
    requires a < BLOCKS && 32 <= n < BLOCKS && a % 32 != 0
    ensures var b := a / 32 * 32; Flips(a, n, b) != InRange(a, n, b)
  {
    var b, k := a / 32 * 32, n / 32 * 32;
    assert Behind(a, b) == BLOCKS - a % 32;
    assert Behind(a + k, b) == BLOCKS - a % 32 - k;
  }

  /** pmmngr_toggle_range flips exactly the blocks of the outward-rounded range if and only if
      the start's block is the first of its word or fewer than 32 blocks are concerned. */
  lemma ExactIffAlignedOrShort(start: nat, end: nat)
    requires start < UINT32 && end < UINT32
    ensures var a, n := FirstBlock(start), BlockCount(start, end);
            (forall b: nat :: b < BLOCKS ==> (Flips(a, n, b) <==> InRange(a, n, b))) <==> (a % 32 == 0 || n < 32)
  {
    var a, n := FirstBlock(start), BlockCount(start, end);
    if a % 32 == 0 || n < 32 {
      forall b: nat | b < BLOCKS
        ensures Flips(a, n, b) <==> InRange(a, n, b)
      {
        AlignedIsExact(a, n, b);
      }
    } else {
      UnalignedIsWrong(a, n);
      var b := a / 32 * 32;
      assert b < BLOCKS && !(Flips(a, n, b) <==> InRange(a, n, b));
    }
  }

  /** A range that stays below 4 GiB, or ends there, is what it looks like. */
  lemma RangeWithoutWrap(start: nat, size: nat, b: nat)
    requires start < UINT32 && start + size <= UINT32 && b < BLOCKS && start >= KERNEL_P
    ensures InRange(FirstBlock(start), BlockCount(start, Wrap(start + size)), b)
       <==> start / BLOCK_SIZE <= b < (start + size + (BLOCK_SIZE - 1)) / BLOCK_SIZE
  {
    var a := FirstBlock(start);
    CountWithoutWrap(start, size);
    assert Behind(a, b) == if b >= a then b - a else b - a + BLOCKS;
  }

  lemma CountWithoutWrap(start: nat, size: nat)
    requires KERNEL_P <= start < UINT32 && start + size <= UINT32
    ensures BlockCount(start, Wrap(start + size)) == (start + size + (BLOCK_SIZE - 1)) / BLOCK_SIZE - start / BLOCK_SIZE
  {
    var end := Wrap(start + size);
    var up: int, down: int := RoundUp(end), RoundDown(start);
    var top := (start + size + (BLOCK_SIZE - 1)) / BLOCK_SIZE;
    assert down == start / BLOCK_SIZE * BLOCK_SIZE;
    assert up == Wrap(top * BLOCK_SIZE);
    assert up == (if top == BLOCKS then 0 else top * BLOCK_SIZE);
    assert Wrap(up - down) == (top - start / BLOCK_SIZE) * BLOCK_SIZE;
  }

  // ---------------------------------------------------------------- pmmngr_init

  /** Entries that describe usable memory from 1 MiB on, with a zero high half. */
  predicate Accepted(e: Entry) {
    e.kind == 1 && e.startLow >= KERNEL_P && e.startHigh == 0
  }

  function EndOf(e: Entry): nat {
    Wrap(e.startLow + e.sizeLow)
  }

  function ToggleRange(ws: Words, start: nat, end: nat): Words
    requires start < UINT32 && end < UINT32
  {
    Toggle(ws, FirstBlock(start), BlockCount(start, end))
  }

  function ToggleEntry(ws: Words, e: Entry): Words {
    if Accepted(e) then ToggleRange(ws, e.startLow, EndOf(e)) else ws
  }

  function ToggleEntries(ws: Words, entries: seq<Entry>): Words
    decreases |entries|
  {
    if entries == [] then ws else ToggleEntries(ToggleEntry(ws, entries[0]), entries[1..])
  }

  function AllUsed(): Words {
    seq(WORDS, _ => ALL_ONES)
  }

  /** The bitmap that pmmngr_init leaves. */
  function InitialBitmap(entries: seq<Entry>): Words
  {
    ToggleRange(ToggleEntries(AllUsed(), entries), KERNEL_P, KERNEL_P + KERNEL_MAPPED_SIZE)
  }

  predicate EntryFlips(e: Entry, b: nat)
  {
    Accepted(e) && Flips(FirstBlock(e.startLow), BlockCount(e.startLow, EndOf(e)), b)
  }

  /** How many entries flip block b. */
  function FlipCount(entries: seq<Entry>, b: nat): nat
  {
    if entries == [] then 0 else (if EntryFlips(entries[0], b) then 1 else 0) + FlipCount(entries[1..], b)
  }

  lemma {:induction false} ToggleEntriesFlips(ws: Words, entries: seq<Entry>, b: nat)
    requires b < BLOCKS
    ensures Used(ToggleEntries(ws, entries), b) == (Used(ws, b) != (FlipCount(entries, b) % 2 == 1))
    decreases |entries|
  {
    if entries != [] {
      ToggleEntryFlips(ws, entries[0], b);
      ToggleEntriesFlips(ToggleEntry(ws, entries[0]), entries[1..], b);
      FirstEntry(entries, b);
    }
  }

  lemma FirstEntry(entries: seq<Entry>, b: nat)
    requires entries != []
    ensures FlipCount(entries, b) % 2 == 1 <==> EntryFlips(entries[0], b) != (FlipCount(entries[1..], b) % 2 == 1)
  {
    OneMore(FlipCount(entries, b), FlipCount(entries[1..], b), EntryFlips(entries[0], b));
  }

  lemma OneMore(count: nat, rest: nat, more: bool)
    requires count == (if more then 1 else 0) + rest
    ensures count % 2 == 1 <==> more != (rest % 2 == 1)
  {
  }

  lemma ToggleEntryFlips(ws: Words, e: Entry, b: nat)
    requires b < BLOCKS
    ensures Used(ToggleEntry(ws, e), b) == (Used(ws, b) != EntryFlips(e, b))
  {
    if Accepted(e) {
      ToggleFlips(ws, FirstBlock(e.startLow), BlockCount(e.startLow, EndOf(e)), b);
    }
  }

  lemma KernelRange(b: nat)
    requires b < BLOCKS
    ensures Flips(FirstBlock(KERNEL_P), BlockCount(KERNEL_P, KERNEL_P + KERNEL_MAPPED_SIZE), b) <==> KernelBlock(b)
  {
  }

  lemma ToggleKernelFlips(ws: Words, b: nat)
    requires b < BLOCKS
    ensures Used(ToggleRange(ws, KERNEL_P, KERNEL_P + KERNEL_MAPPED_SIZE), b) == (Used(ws, b) != KernelBlock(b))
  {
    KernelRange(b);
    ToggleFlips(ws, FirstBlock(KERNEL_P), BlockCount(KERNEL_P, KERNEL_P + KERNEL_MAPPED_SIZE), b);
  }

  lemma AllUsedIsUsed(b: nat)
    requires b < BLOCKS
    ensures Used(AllUsed(), b)
  {
    Powers();
    OnesBit(32, b % 32);
  }

  predicate KernelBlock(b: nat) {
    KERNEL_P / BLOCK_SIZE <= b < (KERNEL_P + KERNEL_MAPPED_SIZE) / BLOCK_SIZE
  }

  /** Whatever the map: a block is free after pmmngr_init if and only if the entries and the
      kernel range together flip it an odd number of times. */
  lemma InitParity(entries: seq<Entry>, b: nat)
    requires b < BLOCKS
    ensures !Used(InitialBitmap(entries), b) <==> (FlipCount(entries, b) % 2 == 1) != KernelBlock(b)
  {
    ToggleEntriesFlips(AllUsed(), entries, b);
    AllUsedIsUsed(b);
    ToggleKernelFlips(ToggleEntries(AllUsed(), entries), b);
  }

  /** The blocks an accepted entry stands for: its bytes, rounded outward to blocks. */
  predicate Offers(e: Entry, b: nat) {
    Accepted(e) && e.startLow / BLOCK_SIZE <= b < (e.startLow + e.sizeLow + (BLOCK_SIZE - 1)) / BLOCK_SIZE
  }

  /** A map the manager can use: every accepted entry ends by 4 GiB and starts on a 128 KiB
      boundary or spans fewer than 32 blocks, and no two offer the same block. */
  predicate Usable(e: Entry) {
    Accepted(e) ==>
      && e.startLow + e.sizeLow <= UINT32
      && (FirstBlock(e.startLow) % 32 == 0 || BlockCount(e.startLow, EndOf(e)) < 32)
  }

  ghost predicate UsableMap(entries: seq<Entry>) {
    && (forall e :: e in entries ==> Usable(e))
    && forall i, j, b: nat :: 0 <= i < j < |entries| && Offers(entries[i], b) ==> !Offers(entries[j], b)
  }

  ghost predicate Offered(entries: seq<Entry>, b: nat) {
    exists i :: 0 <= i < |entries| && Offers(entries[i], b)
  }

  lemma UsableFlips(e: Entry, b: nat)
    requires Usable(e) && b < BLOCKS
    ensures EntryFlips(e, b) <==> Offers(e, b)
  {
    if Accepted(e) {
      AlignedIsExact(FirstBlock(e.startLow), BlockCount(e.startLow, EndOf(e)), b);
      RangeWithoutWrap(e.startLow, e.sizeLow, b);
    }
  }

  lemma {:induction false} DisjointCount(entries: seq<Entry>, b: nat)
    requires UsableMap(entries) && b < BLOCKS
    ensures FlipCount(entries, b) == if Offered(entries, b) then 1 else 0
    decreases |entries|
  {
    if entries != [] {
      var rest := entries[1..];
      assert forall i :: 0 <= i < |rest| ==> rest[i] == entries[i + 1];
      assert UsableMap(rest);
      DisjointCount(rest, b);
      UsableFlips(entries[0], b);
      if Offers(entries[0], b) {
        assert !Offered(rest, b);
      } else if Offered(rest, b) {
        var i :| 0 <= i < |rest| && Offers(rest[i], b);
        assert Offers(entries[i + 1], b);
      }
    }
  }

  /** On a usable map the free blocks after pmmngr_init are those offered or the kernel's, but
      not both. */
  lemma InitOnUsableMap(entries: seq<Entry>, b: nat)
    requires UsableMap(entries) && b < BLOCKS
    ensures !Used(InitialBitmap(entries), b) <==> Offered(entries, b) != KernelBlock(b)
  {
    DisjointCount(entries, b);
    InitParity(entries, b);
  }

  /** So the free blocks are the offered ones less the kernel's 4 MiB if and only if the map
      offers all of those. */
  lemma InitFreesExactlyIffKernelOffered(entries: seq<Entry>)
    requires UsableMap(entries)
    ensures (forall b: nat :: b < BLOCKS ==> (!Used(InitialBitmap(entries), b) <==> Offered(entries, b) && !KernelBlock(b)))
       <==> (forall b: nat :: KernelBlock(b) ==> Offered(entries, b))
  {
    forall b: nat | b < BLOCKS
      ensures !Used(InitialBitmap(entries), b) <==> Offered(entries, b) != KernelBlock(b)
    {
      InitOnUsableMap(entries, b);
    }
    if forall b: nat :: b < BLOCKS ==> (!Used(InitialBitmap(entries), b) <==> Offered(entries, b) && !KernelBlock(b)) {
      forall b: nat | KernelBlock(b)
        ensures Offered(entries, b)
      {
        assert b < BLOCKS;
      }
    }
  }

  predicate Covers(e: Entry, b: nat) {
    e.startLow / BLOCK_SIZE <= b < (e.startLow + e.sizeLow + (BLOCK_SIZE - 1)) / BLOCK_SIZE
  }

  /** In the fields of the entries: if those of type 1 that start at 1 MiB or above, below 4 GiB, end
      by 4 GiB, start on a 128 KiB boundary or span fewer than 32 blocks, and do not meet, then a block
      outside the kernel's 4 MiB is free if and only if one of them covers it.  Entries of other types
      may lie anywhere. */
  lemma FreeIffUsableMemory(entries: seq<Entry>, b: nat)
    requires b < 0x100 || 0x500 <= b < BLOCKS
    requires forall e :: e in entries && e.kind == 1 && e.startHigh == 0 && e.startLow >= 0x10_0000 ==>
      && e.startLow + e.sizeLow <= 0x1_0000_0000
      && (e.startLow / BLOCK_SIZE % 32 == 0
          || (e.startLow + e.sizeLow + (BLOCK_SIZE - 1)) / BLOCK_SIZE - e.startLow / BLOCK_SIZE < 32)
    requires forall i, j, c: nat ::
      && 0 <= i < j < |entries| && Covers(entries[i], c) && Covers(entries[j], c)
      && entries[i].kind == 1 && entries[i].startHigh == 0 && entries[i].startLow >= 0x10_0000
      && entries[j].kind == 1 && entries[j].startHigh == 0
      ==> entries[j].startLow < 0x10_0000
    ensures !Used(InitialBitmap(entries), b) <==>
      exists e :: e in entries && e.kind == 1 && e.startHigh == 0 && e.startLow >= 0x10_0000 && Covers(e, b)
  {
    forall e | e in entries
      ensures Usable(e)
    {
      if Accepted(e) {
        CountWithoutWrap(e.startLow, e.sizeLow);
      }
    }
    assert forall e, c: nat :: Offers(e, c) ==> Accepted(e) && Covers(e, c);
    InitOnUsableMap(entries, b);
    if e :| e in entries && e.kind == 1 && e.startHigh == 0 && e.startLow >= 0x10_0000 && Covers(e, b) {
      var i :| 0 <= i < |entries| && entries[i] == e;
      assert Offers(entries[i], b);
    }
  }

  /** Whatever the map, if no entry is of type 1 nothing outside the kernel's 4 MiB is freed. */
  lemma OtherTypesStayUsed(entries: seq<Entry>, b: nat)
    requires b < 0x100 || 0x500 <= b < BLOCKS
    requires forall e :: e in entries ==> e.kind != 1
    ensures Used(InitialBitmap(entries), b)
  {
    FreeIffUsableMemory(entries, b);
  }

  /** An input that misses it: an empty map is usable and offers nothing, and leaves the kernel's
      own first block free. */
  lemma EmptyMapFreesKernel()
    ensures UsableMap([]) && KernelBlock(0x100) && !Offered([], 0x100) && !Used(InitialBitmap([]), 0x100)
  {
    InitOnUsableMap([], 0x100);
  }

  // ---------------------------------------------------------------- below 1 MiB

  /** No accepted range goes round past 4 GiB. */
  predicate StaysBelowTop(e: Entry) {
    Accepted(e) ==> e.startLow + e.sizeLow <= UINT32
  }

  lemma LowBlocksNotFlipped(e: Entry, b: nat)
    requires StaysBelowTop(e) && b < KERNEL_P / BLOCK_SIZE
    ensures !EntryFlips(e, b)
  {
    if Accepted(e) {
      var a, n := FirstBlock(e.startLow), BlockCount(e.startLow, EndOf(e));
      CountWithoutWrap(e.startLow, e.sizeLow);
      assert a + n <= BLOCKS && a >= 256;
      assert Behind(a + n / 32 * 32, b) == b - (a + n / 32 * 32) + BLOCKS;
      assert (b / 32 - a / 32) % WORDS == b / 32 - a / 32 + WORDS;
    }
  }

  lemma {:induction false} LowBlocksCount(entries: seq<Entry>, b: nat)
    requires (forall e :: e in entries ==> StaysBelowTop(e)) && b < KERNEL_P / BLOCK_SIZE
    ensures FlipCount(entries, b) == 0
    decreases |entries|
  {
    if entries != [] {
      LowBlocksNotFlipped(entries[0], b);
      LowBlocksCount(entries[1..], b);
    }
  }

  /** Everything below 1 MiB stays in use, aligned entries or not, as long as none goes round. */
  lemma LowMemoryStaysUsed(entries: seq<Entry>, b: nat)
    requires (forall e :: e in entries ==> StaysBelowTop(e)) && b < KERNEL_P / BLOCK_SIZE
    ensures Used(InitialBitmap(entries), b)
  {
    LowBlocksCount(entries, b);
    InitParity(entries, b);
  }

  // ---------------------------------------------------------------- allocation

  /** The first free block from b on, or BLOCKS. */
  function FirstFree(ws: Words, b: nat): (f: nat)
    requires b <= BLOCKS
    ensures b <= f <= BLOCKS
    decreases BLOCKS - b
  {
    if b == BLOCKS || !Used(ws, b) then b else FirstFree(ws, b + 1)
  }

  lemma {:induction false} FirstFreeIs(ws: Words, b: nat, f: nat)
    requires b <= f <= BLOCKS
    requires forall c: nat :: b <= c < f ==> Used(ws, c)
    requires f < BLOCKS ==> !Used(ws, f)
    ensures FirstFree(ws, b) == f
    decreases f - b
  {
    if b < f {
      FirstFreeIs(ws, b + 1, f);
    }
  }

  lemma {:induction false} FirstFreeFinds(ws: Words, b: nat)
    requires b <= BLOCKS
    ensures forall c: nat :: b <= c < FirstFree(ws, b) ==> Used(ws, c)
    ensures FirstFree(ws, b) < BLOCKS ==> !Used(ws, FirstFree(ws, b))
    decreases BLOCKS - b
  {
    if !(b == BLOCKS || !Used(ws, b)) {
      FirstFreeFinds(ws, b + 1);
    }
  }

  /** pmmngr_allocate_block: the bitmap afterwards and the address, 0 for none. */
  function Allocate(ws: Words): (Words, nat) {
    var b := FirstFree(ws, 0);
    if b == BLOCKS then (ws, 0) else (ToggleBlock(ws, b), b * BLOCK_SIZE)
  }

  /** pmmngr_free_block: the bitmap afterwards and whether the block was taken back. */
  function Free(ws: Words, address: Word): (Words, bool) {
    if address % BLOCK_SIZE != 0 || !Used(ws, address / BLOCK_SIZE) then (ws, false)
    else (ToggleBlock(ws, address / BLOCK_SIZE), true)
  }

  function FreeBlocks(ws: Words): set<nat> {
    set b: nat | b < BLOCKS && !Used(ws, b)
  }

  lemma ToggledFree(ws: Words, b: nat)
    requires b < BLOCKS
    ensures FreeBlocks(ToggleBlock(ws, b)) == if Used(ws, b) then FreeBlocks(ws) + {b} else FreeBlocks(ws) - {b}
  {
    forall c: nat | c < BLOCKS
      ensures Used(ToggleBlock(ws, b), c) == (Used(ws, c) != (c == b))
    {
      ToggleBlockFlips(ws, b, c);
    }
  }

  /** With block 0 in use, an allocation takes the lowest free block, and fails exactly when
      nothing is free. */
  lemma AllocateTakesLowest(ws: Words)
    requires Used(ws, 0)
    ensures var (after, address) := Allocate(ws);
            if FreeBlocks(ws) == {} then after == ws && address == 0
            else
              && address != 0 && address % BLOCK_SIZE == 0 && address < UINT32
              && address / BLOCK_SIZE in FreeBlocks(ws)
              && (forall b :: b in FreeBlocks(ws) ==> address / BLOCK_SIZE <= b)
              && FreeBlocks(after) == FreeBlocks(ws) - {address / BLOCK_SIZE}
  {
    FirstFreeFinds(ws, 0);
    var b := FirstFree(ws, 0);
    if b < BLOCKS {
      assert b in FreeBlocks(ws);
      ToggledFree(ws, b);
    }
  }

  /** A block comes back exactly if the address is its first and it was in use; any other call
      changes nothing. */
  lemma FreeGivesBack(ws: Words, address: Word)
    ensures var (after, ok) := Free(ws, address); var b := address / BLOCK_SIZE;
            && (ok <==> address % BLOCK_SIZE == 0 && b !in FreeBlocks(ws))
            && (ok ==> FreeBlocks(after) == FreeBlocks(ws) + {b})
            && (!ok ==> after == ws)
  {
    ToggledFree(ws, address / BLOCK_SIZE);
  }

  // ---------------------------------------------------------------- runs of the allocator

  datatype Op = Alloc | Release(block: nat)

  /** The bitmap and the blocks handed out and not yet taken back. */
  datatype Heap = Heap(ws: Words, outstanding: set<nat>)

  predicate Legal(h: Heap, op: Op) {
    op.Release? ==> op.block in h.outstanding && op.block < BLOCKS
  }

  function Perform(h: Heap, op: Op): Heap
    requires Legal(h, op)
  {
    match op
    case Alloc =>
      var (ws, address) := Allocate(h.ws);
      Heap(ws, if address == 0 then h.outstanding else h.outstanding + {address / BLOCK_SIZE})
    case Release(b) => Heap(Free(h.ws, b * BLOCK_SIZE).0, h.outstanding - {b})
  }

  /** Free and outstanding blocks make up what was free at the start; the rest is reserved. */
  ghost predicate Partition(h: Heap, start: set<nat>) {
    && 0 !in start
    && FreeBlocks(h.ws) !! h.outstanding
    && FreeBlocks(h.ws) + h.outstanding == start
  }

  ghost predicate AllocatorRun(r: seq<Heap>, ops: seq<Op>) {
    |r| == |ops| + 1 && forall i :: 0 <= i < |ops| ==> AllocatorStep(r, ops, i)
  }

  ghost predicate AllocatorStep(r: seq<Heap>, ops: seq<Op>, i: int)
    requires 0 <= i < |ops| && |r| == |ops| + 1
  {
    Legal(r[i], ops[i]) && r[i + 1] == Perform(r[i], ops[i])
  }

  lemma PartitionStep(h: Heap, op: Op, start: set<nat>)
    requires Partition(h, start) && Legal(h, op)
    ensures Partition(Perform(h, op), start)
  {
    assert 0 !in FreeBlocks(h.ws);
    match op
    case Alloc => AllocateTakesLowest(h.ws);
    case Release(b) => FreeGivesBack(h.ws, b * BLOCK_SIZE);
  }

  /** Over any run of allocations and releases of outstanding blocks, reserved, outstanding and
      free blocks partition memory, with the reserved ones the same throughout. */
  lemma {:induction false} AllocatorRefinesSet(r: seq<Heap>, ops: seq<Op>, i: nat)
    requires AllocatorRun(r, ops) && i < |r| && Used(r[0].ws, 0) && r[0].outstanding == {}
    ensures Partition(r[i], FreeBlocks(r[0].ws))
  {
    if i > 0 {
      AllocatorRefinesSet(r, ops, i - 1);
      assert AllocatorStep(r, ops, i - 1);
      PartitionStep(r[i - 1], ops[i - 1], FreeBlocks(r[0].ws));
    }
  }

  /** So an allocation in any run returns the lowest block that is neither reserved nor
      outstanding, or nothing exactly when there is none. */
  lemma NeverHandedOutTwice(r: seq<Heap>, ops: seq<Op>, i: nat)
    requires AllocatorRun(r, ops) && i < |ops| && ops[i] == Alloc && Used(r[0].ws, 0) && r[0].outstanding == {}
    ensures var address := Allocate(r[i].ws).1; var start := FreeBlocks(r[0].ws);
            && (address == 0 <==> r[i].outstanding == start)
            && (address != 0 ==>
                  && address / BLOCK_SIZE in start - r[i].outstanding
                  && forall b :: b in start - r[i].outstanding ==> address / BLOCK_SIZE <= b)
  {
    AllocatorRefinesSet(r, ops, i);
    var start := FreeBlocks(r[0].ws);
    assert FreeBlocks(r[i].ws) == start - r[i].outstanding;
    assert 0 !in FreeBlocks(r[i].ws);
    AllocateTakesLowest(r[i].ws);
  }

  // ---------------------------------------------------------------- the bitmap, in place

  class Manager {
    const bitmap: array<Word>

    ghost predicate Valid()
      reads this
    {
      bitmap.Length == WORDS
    }

    ghost function Contents(): Words
      requires Valid()
      reads this, bitmap
    {
      bitmap[..]
    }

    constructor ()
      ensures Valid() && fresh(bitmap)
    {
      bitmap := new Word[WORDS](_ => 0);
    }

    static method GetLowestBit(hexinp: Word) returns (bit: nat)
      ensures bit < 32 ==> !Bit(hexinp, bit)
      ensures forall j :: 0 <= j < bit && j < 32 ==> Bit(hexinp, j)
      ensures bit < 32 || bit == 0xff
    {
      var h := hexinp;
      var i := 0;
      while i < 32
        invariant 0 <= i <= 32
        invariant forall j :: 0 <= j < i ==> Bit(hexinp, j)
        invariant forall j: nat :: Bit(h, j) <==> Bit(hexinp, i + j)
      {
        assert Bit(h, 0) <==> Bit(hexinp, i + 0);
        if h % 2 == 0 {
          return i;
        }
        forall j: nat
          ensures Bit(h / 2, j) <==> Bit(hexinp, i + 1 + j)
        {
          assert Bit(h, j + 1) <==> Bit(hexinp, i + (j + 1));
        }
        h := h / 2;
        i := i + 1;
      }
      return 0xff;
    }

    static method ExtractBit(hexinp: Word, bitnumber: nat) returns (bit: nat)
      requires bitnumber < 32
      ensures bit == if Bit(hexinp, bitnumber) then 1 else 0
    {
      ShiftedDigit(hexinp, bitnumber);
      bit := And(ShiftRight(hexinp, bitnumber), 1);
    }

    method ToggleOne(block: nat)
      requires Valid() && block < BLOCKS
      modifies bitmap
      ensures Contents() == ToggleBlock(old(Contents()), block)
    {
      bitmap[block / 32] := XorWord(bitmap[block / 32], Shifted(block % 32));
    }

    method ToggleWhole(word: nat)
      requires Valid() && word < WORDS
      modifies bitmap
      ensures Contents() == ToggleWord(old(Contents()), word)
    {
      bitmap[word] := XorWord(bitmap[word], ALL_ONES);
    }

    /** pmmngr_toggle_range. */
    method ToggleBetween(start: Word, end: Word)
      requires Valid()
      modifies bitmap
      ensures Contents() == ToggleRange(old(Contents()), start, end)
    {
      var from: nat, to: nat := start, end;
      if from % BLOCK_SIZE != 0 {
        from := from - from % BLOCK_SIZE;
      }
      if to % BLOCK_SIZE != 0 {
        to := Wrap(to + (BLOCK_SIZE - to % BLOCK_SIZE));
      }
      RestInitially(Contents(), start, end);
      while Wrap(to - from) > 0
        invariant OnBlock(from) && OnBlock(to)
        invariant Rest(Contents(), from, to) == ToggleRange(old(Contents()), start, end)
        decreases Wrap(to - from)
      {
        if Wrap(to - from) >= 32 * BLOCK_SIZE {
          RestWord(Contents(), from, to);
          ToggleWhole(from / BLOCK_SIZE / 32);
          from := Wrap(from + BLOCK_SIZE * 32);
        } else {
          RestBlock(Contents(), from, to);
          ToggleOne(from / BLOCK_SIZE);
          from := Wrap(from + BLOCK_SIZE);
        }
      }
      RestDone(Contents(), from, to);
    }

    method MarkAllUsed()
      requires Valid()
      modifies bitmap
      ensures Contents() == AllUsed()
    {
      var i := 0;
      while i < WORDS
        invariant 0 <= i <= WORDS
        invariant forall j :: 0 <= j < i ==> bitmap[j] == ALL_ONES
      {
        bitmap[i] := ALL_ONES;
        i := i + 1;
      }
    }

    method ToggleAccepted(entries: seq<Entry>)
      requires Valid()
      modifies bitmap
      ensures Contents() == ToggleEntries(old(Contents()), entries)
    {
      var i := 0;
      while i < |entries|
        invariant 0 <= i <= |entries|
        invariant ToggleEntries(Contents(), entries[i..]) == ToggleEntries(old(Contents()), entries)
      {
        var e := entries[i];
        assert entries[i..][1..] == entries[i + 1..];
        if e.kind == 1 && e.startLow >= KERNEL_P && e.startHigh == 0 {
          ToggleBetween(e.startLow, Wrap(e.startLow + e.sizeLow));
        }
        i := i + 1;
      }
    }

    /** pmmngr_init. */
    method Init(entries: seq<Entry>)
      requires Valid()
      modifies bitmap
      ensures Contents() == InitialBitmap(entries)
    {
      MarkAllUsed();
      ToggleAccepted(entries);
      ToggleBetween(KERNEL_P, KERNEL_P + KERNEL_MAPPED_SIZE);
    }

    /** pmmngr_allocate_block: its search stops at the first word that is not all ones. */
    method AllocateBlock() returns (address: nat)
      requires Valid()
      modifies bitmap
      ensures (Contents(), address) == Allocate(old(Contents()))
    {
      var i := 0;
      while i < WORDS
        invariant 0 <= i <= WORDS
        invariant Contents() == old(Contents())
        invariant forall c: nat :: c < i * 32 ==> Used(Contents(), c)
      {
        if bitmap[i] < ALL_ONES {
          ghost var ws := Contents();
          Powers();
          ghost var zero := ZeroDigit(bitmap[i], 32);
          var bit := GetLowestBit(bitmap[i]);
          FirstInWord(ws, i, bit);
          address := i * 0x2_0000 + bit * 0x1000;
          ToggleOne(address / BLOCK_SIZE);
          return;
        }
        FullWord(Contents(), i);
        i := i + 1;
      }
      FirstFreeIs(Contents(), 0, BLOCKS);
      return 0;
    }

    /** pmmngr_free_block. */
    method FreeBlock(address: Word) returns (ok: bool)
      requires Valid()
      modifies bitmap
      ensures (Contents(), ok) == Free(old(Contents()), address)
    {
      if address % BLOCK_SIZE != 0 {
        return false;
      }
      var block := address / BLOCK_SIZE;
      var bit := ExtractBit(bitmap[block / 32], block % 32);
      if bit == 0 {
        return false;
      }
      ToggleOne(block);
      return true;
    }
  }

  predicate OnBlock(address: nat) {
    address < UINT32 && address % BLOCK_SIZE == 0
  }

  /** What is left to toggle between two addresses. */
  function Rest(ws: Words, from: nat, to: nat): Words
    requires OnBlock(from)
  {
    Toggle(ws, from / BLOCK_SIZE, Wrap(to - from) / BLOCK_SIZE)
  }

  lemma RestInitially(ws: Words, start: Word, end: Word)
    ensures OnBlock(RoundDown(start)) && OnBlock(RoundUp(end))
    ensures Rest(ws, RoundDown(start), RoundUp(end)) == ToggleRange(ws, start, end)
  {
  }

  lemma RestDone(ws: Words, from: nat, to: nat)
    requires OnBlock(from) && Wrap(to - from) == 0
    ensures Rest(ws, from, to) == ws
  {
  }

  lemma RestWord(ws: Words, from: nat, to: nat)
    requires OnBlock(from) && OnBlock(to) && Wrap(to - from) >= 32 * BLOCK_SIZE
    ensures from / BLOCK_SIZE / 32 < WORDS && OnBlock(Wrap(from + BLOCK_SIZE * 32))
    ensures Rest(ws, from, to) == Rest(ToggleWord(ws, from / BLOCK_SIZE / 32), Wrap(from + BLOCK_SIZE * 32), to)
    ensures Wrap(to - Wrap(from + BLOCK_SIZE * 32)) < Wrap(to - from)
  {
    Advance(from, to, 32);
  }

  lemma RestBlock(ws: Words, from: nat, to: nat)
    requires OnBlock(from) && OnBlock(to) && 0 < Wrap(to - from) < 32 * BLOCK_SIZE
    ensures from / BLOCK_SIZE < BLOCKS && OnBlock(Wrap(from + BLOCK_SIZE))
    ensures Rest(ws, from, to) == Rest(ToggleBlock(ws, from / BLOCK_SIZE), Wrap(from + BLOCK_SIZE), to)
    ensures Wrap(to - Wrap(from + BLOCK_SIZE)) < Wrap(to - from)
  {
    Advance(from, to, 1);
  }

  lemma Advance(from: nat, to: nat, k: nat)
    requires OnBlock(from) && OnBlock(to) && 0 < k <= 32 && k * BLOCK_SIZE <= Wrap(to - from)
    ensures var next := Wrap(from + BLOCK_SIZE * k);
            && OnBlock(next)
            && next / BLOCK_SIZE == (from / BLOCK_SIZE + k) % BLOCKS
            && Wrap(to - next) == Wrap(to - from) - BLOCK_SIZE * k
            && Wrap(to - next) / BLOCK_SIZE == Wrap(to - from) / BLOCK_SIZE - k
  {
    var next := Wrap(from + BLOCK_SIZE * k);
    assert next == from + BLOCK_SIZE * k || next + UINT32 == from + BLOCK_SIZE * k;
    assert Wrap(to - from) == if from <= to then to - from else to - from + UINT32;
    assert Wrap(to - next) == Wrap(to - from) - BLOCK_SIZE * k;
  }

  lemma FirstInWord(ws: Words, i: nat, bit: nat)
    requires i < WORDS && bit < 32 && !Bit(ws[i], bit)
    requires forall c: nat :: c < i * 32 ==> Used(ws, c)
    requires forall j :: 0 <= j < bit ==> Bit(ws[i], j)
    ensures var address := i * 0x2_0000 + bit * 0x1000;
            address / BLOCK_SIZE < BLOCKS && Allocate(ws) == (ToggleBlock(ws, address / BLOCK_SIZE), address)
  {
    forall c: nat | c < i * 32 + bit
      ensures Used(ws, c)
    {
      if c >= i * 32 {
        assert c / 32 == i && c % 32 == c - i * 32;
      }
    }
    FirstFreeIs(ws, 0, i * 32 + bit);
    assert i * 0x2_0000 + bit * 0x1000 == (i * 32 + bit) * BLOCK_SIZE;
  }

  lemma FullWord(ws: Words, i: nat)
    requires i < WORDS && ws[i] == ALL_ONES && forall c: nat :: c < i * 32 ==> Used(ws, c)
    ensures forall c: nat :: c < (i + 1) * 32 ==> Used(ws, c)
  {
    Powers();
    forall c: nat | c < (i + 1) * 32
      ensures Used(ws, c)
    {
      if c >= i * 32 {
        OnesBit(32, c % 32);
      }
    }
  }
}
