/** The address space that vmmngr_init (kernal/mem/virtmem.c) makes of the tables the boot code
    leaves, and of whatever else memory happens to hold: when the tables are safe, what is mapped
    where, and an input on which a page comes out mapped that nobody asked for. */
module KernelBoot {
  import opened PhysicalMemory
  import opened VirtualMemory

  // ---------------------------------------------------------------- vmmngr_init from the boot tables

  const KERNEL_SLOT := 0x300
  const STACK_SLOT := 0x3fe

  /** The tables the boot code leaves: an identity map and a kernel map.  It writes no other
      entry of the directory, and does not clear them. */
  ghost predicate BootTables(m: Memory) {
    && m.dir == 0x9c
    && Pde(m, 0) == 0x9_d003 && Pde(m, KERNEL_SLOT) == 0x9_e003
    && (forall i: nat :: i < ENTRIES ==> m.ram[0x9d][i] == i * BLOCK_SIZE + 3)
    && (forall i: nat :: i < ENTRIES ==> m.ram[0x9e][i] == KERNEL_P + i * BLOCK_SIZE + 3)
  }

  /** The three boot tables and block 0 are marked in use. */
  predicate BootBlocksUsed(ws: Words) {
    Used(ws, 0) && Used(ws, 0x9c) && Used(ws, 0x9d) && Used(ws, 0x9e)
  }

  predicate BootFrame(f: FrameNumber) {
    f == 0x9c || f == 0x9d || f == 0x9e
  }

  predicate OtherSlot(s: nat) {
    s < SELF && s != 0 && s != KERNEL_SLOT
  }

  /** Directory entries the boot code did not write are harmless if those that happen to be
      present name frames in use, not block 0, not the boot tables and no frame twice. */
  ghost predicate OthersFit(m: Memory, used: Words) {
    && (forall s: nat :: OtherSlot(s) && Table(m, s) ==>
          TableFrame(m, s) != 0 && Used(used, TableFrame(m, s)) && !BootFrame(TableFrame(m, s)))
    && (forall s: nat, t: nat :: OtherSlot(s) && OtherSlot(t) && s < t && Table(m, s) && Table(m, t) ==>
          TableFrame(m, s) != TableFrame(m, t))
  }

  lemma InitMarksBootBlocks(entries: seq<Entry>)
    requires forall e :: e in entries ==> StaysBelowTop(e)
    ensures BootBlocksUsed(InitialBitmap(entries))
  {
    LowMemoryStaysUsed(entries, 0);
    LowMemoryStaysUsed(entries, 0x9c);
    LowMemoryStaysUsed(entries, 0x9d);
    LowMemoryStaysUsed(entries, 0x9e);
  }

  lemma BootSlot(m: Memory, s: nat)
    requires BootTables(m) && s < ENTRIES
    ensures var r := SetRecursiveMap(m);
            && r.dir == 0x9c
            && Table(r, s) == (s == SELF || Table(m, s))
            && TableFrame(r, s) == (if s == SELF then 0x9c else TableFrame(m, s))
            && (s == 0 ==> Table(r, s) && TableFrame(r, s) == 0x9d)
            && (s == KERNEL_SLOT ==> Table(r, s) && TableFrame(r, s) == 0x9e)
            && r.ram[0x9d] == m.ram[0x9d] && r.ram[0x9e] == m.ram[0x9e]
  {
    var r := SetRecursiveMap(m);
    assert Pde(r, s) == if s == SELF then TableEntry(Pde(m, SELF), 0x9c) else Pde(m, s);
  }

  /** From the boot tables set_recursive_map makes the tables safe if and only if the entries
      the boot code did not write are harmless. */
  lemma RecursiveMapIsSoundIff(m: Memory)
    requires BootTables(m) && BootBlocksUsed(m.used)
    ensures Sound(SetRecursiveMap(m)) <==> OthersFit(m, m.used)
  {
    if OthersFit(m, m.used) {
      SoundIfOthersFit(m);
    }
    if Sound(SetRecursiveMap(m)) {
      OthersFitIfSound(m);
    }
  }

  lemma SoundIfOthersFit(m: Memory)
    requires BootTables(m) && BootBlocksUsed(m.used) && OthersFit(m, m.used)
    ensures Sound(SetRecursiveMap(m))
  {
    var r := SetRecursiveMap(m);
    BootSlot(m, SELF);
    forall s: nat | s < ENTRIES && Table(r, s)
      ensures TableFrame(r, s) != 0 && Used(r.used, TableFrame(r, s))
    {
      BootSlot(m, s);
      assert OtherSlot(s) ==> Table(m, s);
    }
    forall s: nat, t: nat | s < t < ENTRIES && Table(r, s) && Table(r, t)
      ensures TableFrame(r, s) != TableFrame(r, t)
    {
      BootSlot(m, s);
      BootSlot(m, t);
      assert OtherSlot(s) ==> Table(m, s);
      assert OtherSlot(t) ==> Table(m, t);
    }
  }

  lemma OthersFitIfSound(m: Memory)
    requires BootTables(m) && Sound(SetRecursiveMap(m))
    ensures OthersFit(m, m.used)
  {
    var r := SetRecursiveMap(m);
    BootSlot(m, 0);
    BootSlot(m, KERNEL_SLOT);
    BootSlot(m, SELF);
    forall s: nat | OtherSlot(s) && Table(m, s)
      ensures TableFrame(m, s) != 0 && Used(m.used, TableFrame(m, s)) && !BootFrame(TableFrame(m, s))
    {
      BootSlot(m, s);
      assert Table(r, s) && (0 < s < SELF) && (s < KERNEL_SLOT || KERNEL_SLOT < s);
    }
    forall s: nat, t: nat | OtherSlot(s) && OtherSlot(t) && s < t && Table(m, s) && Table(m, t)
      ensures TableFrame(m, s) != TableFrame(m, t)
    {
      BootSlot(m, s);
      BootSlot(m, t);
      assert Table(r, s) && Table(r, t);
    }
  }

  lemma RecursiveMapKeepsLow(m: Memory, i: nat)
    requires BootTables(m) && i < ENTRIES
    ensures Translate(SetRecursiveMap(m), i) == Some(i)
  {
    BootSlot(m, 0);
    BootEntry(i, m.ram[0x9d][i]);
  }

  lemma BootEntry(f: nat, w: Word)
    requires w == f * BLOCK_SIZE + 3
    ensures Present(w) && FrameOf(w) == f
  {
    assert w == 2 * (2048 * f + 1) + 1;
  }

  lemma RecursiveMapKeepsKernel(m: Memory, i: nat)
    requires BootTables(m) && i < ENTRIES
    ensures Translate(SetRecursiveMap(m), KERNEL_SLOT * ENTRIES + i) == Some(KERNEL_P / BLOCK_SIZE + i)
  {
    BootSlot(m, KERNEL_SLOT);
    BootEntry(KERNEL_P / BLOCK_SIZE + i, m.ram[0x9e][i]);
    PageOfSlot(KERNEL_SLOT, i);
  }

  /** vmmngr_init; the linker puts the VGA page right behind the kernel. */
  function Initialise(m: Memory, vga: nat): (Memory, bool)
    requires vga < BLOCKS
  {
    MapVgaAndStack(SetRecursiveMap(m), vga)
  }

  function MapVgaAndStack(m: Memory, vga: nat): (Memory, bool)
    requires vga < BLOCKS
  {
    var (a, ok) := MapPage(m, vga, VGA_TEXT / BLOCK_SIZE);
    if !ok then (a, false) else (MapPage(a, STACK / BLOCK_SIZE - 1, STACK_PHY / BLOCK_SIZE - 1).0, true)
  }

  predicate KernelPage(page: nat) {
    page / ENTRIES == KERNEL_SLOT
  }

  /** What vmmngr_init leaves below slot 0x301, in terms of what the recursive map left. */
  lemma InitialiseKeeps(m: Memory, vga: nat, page: nat)
    requires BootTables(m) && BootBlocksUsed(m.used) && OthersFit(m, m.used)
    requires KernelPage(vga) && page < (KERNEL_SLOT + 1) * ENTRIES
    ensures var (k, ok) := Initialise(m, vga);
            && ok && Sound(k)
            && Translate(k, page) == (if page == vga then Some(VGA_TEXT / BLOCK_SIZE) else Translate(SetRecursiveMap(m), page))
  {
    var r, f := SetRecursiveMap(m), VGA_TEXT / BLOCK_SIZE;
    RecursiveMapIsSoundIff(m);
    BootSlot(m, KERNEL_SLOT);
    MapKeepsSoundIff(r, vga, f);
    MapPageTranslates(r, vga, f);
    if page != vga {
      MapPageKeepsOthers(r, vga, f, page);
    }
    StackPage(MapPage(r, vga, f).0, page);
  }

  /** Mapping the VGA page leaves the bitmap, the directory and every block that is not a table. */
  lemma VgaPage(m: Memory, vga: nat)
    requires BootTables(m) && BootBlocksUsed(m.used) && OthersFit(m, m.used) && KernelPage(vga)
    ensures var (a, ok) := MapPage(SetRecursiveMap(m), vga, VGA_TEXT / BLOCK_SIZE);
            && ok && Sound(a) && a.used == m.used
            && Pde(a, STACK_SLOT) == Pde(m, STACK_SLOT)
            && (forall b: FrameNumber :: b != 0x9c && b != 0x9e ==> a.ram[b] == m.ram[b])
  {
    var r, f := SetRecursiveMap(m), VGA_TEXT / BLOCK_SIZE;
    RecursiveMapIsSoundIff(m);
    BootSlot(m, KERNEL_SLOT);
    BootSlot(m, STACK_SLOT);
    MapKeepsSoundIff(r, vga, f);
    MapPageTranslates(r, vga, f);
  }

  /** The stack page is mapped if and only if its table is there or a block is free for it. */
  lemma InitialiseMapsStack(m: Memory, vga: nat)
    requires BootTables(m) && BootBlocksUsed(m.used) && OthersFit(m, m.used) && KernelPage(vga)
    ensures Translate(Initialise(m, vga).0, STACK / BLOCK_SIZE - 1)
            == if !Table(m, STACK_SLOT) && FreeBlocks(m.used) == {} then None else Some(STACK_PHY / BLOCK_SIZE - 1)
  {
    VgaPage(m, vga);
    StackPage(MapPage(SetRecursiveMap(m), vga, VGA_TEXT / BLOCK_SIZE).0, 0);
  }

  lemma StackPage(a: Memory, page: nat)
    requires Sound(a) && page < (KERNEL_SLOT + 1) * ENTRIES
    ensures var (k, ok) := MapPage(a, STACK / BLOCK_SIZE - 1, STACK_PHY / BLOCK_SIZE - 1);
            && Sound(k)
            && Translate(k, page) == Translate(a, page)
            && (ok ==> Translate(k, STACK / BLOCK_SIZE - 1) == Some(STACK_PHY / BLOCK_SIZE - 1))
            && (!ok ==> k == a)
            && (ok <==> Table(a, STACK_SLOT) || FreeBlocks(a.used) != {})
  {
    var stack, f := STACK / BLOCK_SIZE - 1, STACK_PHY / BLOCK_SIZE - 1;
    assert stack / ENTRIES == STACK_SLOT;
    MapKeepsSoundIff(a, stack, f);
    MapPageTranslates(a, stack, f);
    if Table(a, STACK_SLOT) {
      MapPageKeepsOthers(a, stack, f, page);
    } else {
      MapPageWithFreshTable(a, stack, f, page);
    }
  }

  /** The address space the kernel starts in, from the boot tables and the memory map, if the
      other directory entries are harmless: low memory identity mapped, the kernel's 4 MiB at
      0xc0000000 with the VGA text page among them, the stack page mapped if and only if its
      table was there or a block free for it, and the tables safe. */
  lemma KernelAddressSpace(m: Memory, entries: seq<Entry>, vga: nat, i: nat)
    requires BootTables(m) && (forall e :: e in entries ==> StaysBelowTop(e)) && KernelPage(vga) && i < ENTRIES
    ensures var used := InitialBitmap(entries);
            var (k, ok) := Initialise(m.(used := used), vga);
            var page := KERNEL_SLOT * ENTRIES + i;
            OthersFit(m, used) ==>
              && ok && Sound(k)
              && Translate(k, i) == Some(i)
              && Translate(k, page) == Some(if page == vga then VGA_TEXT / BLOCK_SIZE else KERNEL_P / BLOCK_SIZE + i)
              && Translate(k, STACK / BLOCK_SIZE - 1)
                 == (if !Table(m, STACK_SLOT) && FreeBlocks(used) == {} then None else Some(STACK_PHY / BLOCK_SIZE - 1))
  {
    var used := InitialBitmap(entries);
    InitMarksBootBlocks(entries);
    if OthersFit(m, used) {
      BitmapOnly(m, used);
      AddressSpaceFromBootBlocks(m.(used := used), vga, i);
    }
  }

  lemma BitmapOnly(m: Memory, used: Words)
    requires BootTables(m) && OthersFit(m, used)
    ensures BootTables(m.(used := used)) && OthersFit(m.(used := used), used)
  {
    var b := m.(used := used);
    forall s: nat | s < ENTRIES
      ensures Table(b, s) == Table(m, s) && TableFrame(b, s) == TableFrame(m, s)
    {
    }
  }

  lemma AddressSpaceFromBootBlocks(m: Memory, vga: nat, i: nat)
    requires BootTables(m) && BootBlocksUsed(m.used) && OthersFit(m, m.used)
    requires KernelPage(vga) && i < ENTRIES
    ensures var (k, ok) := Initialise(m, vga);
            var page := KERNEL_SLOT * ENTRIES + i;
            && ok && Sound(k)
            && Translate(k, i) == Some(i)
            && Translate(k, page) == Some(if page == vga then VGA_TEXT / BLOCK_SIZE else KERNEL_P / BLOCK_SIZE + i)
            && Translate(k, STACK / BLOCK_SIZE - 1)
               == (if !Table(m, STACK_SLOT) && FreeBlocks(m.used) == {} then None else Some(STACK_PHY / BLOCK_SIZE - 1))
  {
    var page := KERNEL_SLOT * ENTRIES + i;
    RecursiveMapKeepsLow(m, i);
    RecursiveMapKeepsKernel(m, i);
    InitialiseKeeps(m, vga, i);
    InitialiseKeeps(m, vga, page);
    InitialiseMapsStack(m, vga);
  }

  // ---------------------------------------------------------------- a stale word shows

  /** The rest of the stack page's 4 MiB after vmmngr_init is what the first free block happened
      to hold. */
  lemma StackSlotShowsBlock(m: Memory, vga: nat, i: nat)
    requires BootTables(m) && BootBlocksUsed(m.used) && OthersFit(m, m.used) && KernelPage(vga)
    requires !Table(m, STACK_SLOT) && FreeBlocks(m.used) != {} && i < SELF
    ensures Translate(SetRecursiveMap(m), STACK_SLOT * ENTRIES + i) == None
    ensures Translate(Initialise(m, vga).0, STACK_SLOT * ENTRIES + i) == AsTable(m, NextBlock(m), i)
  {
    StackSlotAbsent(m, i);
    VgaPage(m, vga);
    StackTable(MapPage(SetRecursiveMap(m), vga, VGA_TEXT / BLOCK_SIZE).0, i);
    NextBlockIsNoBootFrame(m);
  }

  lemma StackSlotAbsent(m: Memory, i: nat)
    requires BootTables(m) && !Table(m, STACK_SLOT) && i < SELF
    ensures Translate(SetRecursiveMap(m), STACK_SLOT * ENTRIES + i) == None
  {
    PageOfSlot(STACK_SLOT, i);
    BootSlot(m, STACK_SLOT);
  }

  lemma NextBlockIsNoBootFrame(m: Memory)
    requires BootBlocksUsed(m.used) && FreeBlocks(m.used) != {}
    ensures !BootFrame(NextBlock(m))
  {
    AllocateMarks(m.used);
  }

  lemma StackTable(a: Memory, i: nat)
    requires Sound(a) && !Table(a, STACK_SLOT) && FreeBlocks(a.used) != {} && i < SELF
    ensures Translate(MapPage(a, STACK / BLOCK_SIZE - 1, STACK_PHY / BLOCK_SIZE - 1).0, STACK_SLOT * ENTRIES + i)
         == AsTable(a, NextBlock(a), i)
  {
    var stack, f := STACK / BLOCK_SIZE - 1, STACK_PHY / BLOCK_SIZE - 1;
    assert stack / ENTRIES == STACK_SLOT && stack % ENTRIES == SELF;
    PageOfSlot(STACK_SLOT, i);
    MapPageTranslates(a, stack, f);
    MapPageWithFreshTable(a, stack, f, STACK_SLOT * ENTRIES + i);
  }

  /** Memory as the boot code writes it, zero elsewhere. */
  function BootContents(f: FrameNumber): Frame {
    if f == 0x9c then seq(ENTRIES, s => if s == 0 then 0x9_d003 else if s == KERNEL_SLOT then 0x9_e003 else 0)
    else if f == 0x9d then seq(ENTRIES, i requires 0 <= i < ENTRIES => i * BLOCK_SIZE + 3)
    else if f == 0x9e then seq(ENTRIES, i requires 0 <= i < ENTRIES => KERNEL_P + i * BLOCK_SIZE + 3)
    else Zeros()
  }

  function BootRam(): Ram {
    seq<Frame>(BLOCKS, f requires 0 <= f < BLOCKS => BootContents(f))
  }

  /** Sixteen megabytes: one entry from 1 MiB on. */
  const BANK := Entry(KERNEL_P, 0, 0xf0_0000, 0, 1)

  /** The boot memory but for one stale word, at the start of block 0x500. */
  function StaleMemory(used: Words): Memory {
    Put(Memory(BootRam(), 0x9c, used), 0x500, 0, PTE_PRESENT)
  }

  ghost predicate FreeFrom500(used: Words) {
    BootBlocksUsed(used) && FreeBlocks(used) != {} && Allocate(used).1 == 0x500 * BLOCK_SIZE
  }

  /** What pmmngr_init makes of that map. */
  lemma BankFreesFrom500(entries: seq<Entry>)
    requires entries == [BANK]
    ensures FreeFrom500(InitialBitmap(entries))
  {
    InitMarksBootBlocks(entries);
    forall b: nat | b < BLOCKS
      ensures !Used(InitialBitmap(entries), b) <==> 0x500 <= b < 0x1000
    {
      BankIsFree(entries, b);
    }
    LowestIs500(InitialBitmap(entries));
  }

  lemma LowestIs500(used: Words)
    requires BootBlocksUsed(used) && forall b: nat :: b < BLOCKS ==> (!Used(used, b) <==> 0x500 <= b < 0x1000)
    ensures FreeFrom500(used)
  {
    assert 0x500 in FreeBlocks(used);
    AllocateTakesLowest(used);
    assert Allocate(used).1 / BLOCK_SIZE in FreeBlocks(used);
  }

  lemma BankIsFree(entries: seq<Entry>, b: nat)
    requires entries == [BANK] && b < BLOCKS
    ensures !Used(InitialBitmap(entries), b) <==> 0x500 <= b < 0x1000
  {
    BankOffers(entries, b);
    InitOnUsableMap(entries, b);
  }

  lemma BankOffers(entries: seq<Entry>, b: nat)
    requires entries == [BANK]
    ensures UsableMap(entries) && (Offered(entries, b) <==> 0x100 <= b < 0x1000)
  {
    assert entries[0] == BANK && Usable(BANK);
    assert Offers(entries[0], b) <==> 0x100 <= b < 0x1000;
  }

  lemma StaleMemoryIsBooted(used: Words)
    ensures var m := StaleMemory(used);
            BootTables(m) && OthersFit(m, used) && !Table(m, STACK_SLOT) && m.used == used && m.ram[0x500][0] == PTE_PRESENT
  {
    var m := StaleMemory(used);
    assert m.ram[0x9c] == BootContents(0x9c) && m.ram[0x9d] == BootContents(0x9d) && m.ram[0x9e] == BootContents(0x9e);
    forall s: nat | OtherSlot(s)
      ensures !Table(m, s)
    {
      assert Pde(m, s) == 0;
    }
  }

  /** An input that shows it: on a machine of 16 MiB with one stale word in block 0x500,
      vmmngr_init maps the page at 0xff800000, which nobody asked for, to block 0. */
  lemma StaleWordIsMapped(entries: seq<Entry>, vga: nat)
    requires entries == [BANK] && KernelPage(vga)
    ensures var m := StaleMemory(InitialBitmap(entries));
            && Translate(SetRecursiveMap(m), STACK_SLOT * ENTRIES) == None
            && Translate(Initialise(m, vga).0, STACK_SLOT * ENTRIES) == Some(0)
  {
    BankFreesFrom500(entries);
    StaleWordShows(InitialBitmap(entries), vga);
  }

  lemma StaleWordShows(used: Words, vga: nat)
    requires FreeFrom500(used) && KernelPage(vga)
    ensures var m := StaleMemory(used);
            && Translate(SetRecursiveMap(m), STACK_SLOT * ENTRIES) == None
            && Translate(Initialise(m, vga).0, STACK_SLOT * ENTRIES) == Some(0)
  {
    StaleMemoryIsBooted(used);
    StackSlotShowsBlock(StaleMemory(used), vga, 0);
  }
}
