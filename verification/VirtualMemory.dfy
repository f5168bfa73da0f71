/** The virtual memory manager (kernal/mem/virtmem.c): two-level page tables edited through the
    recursive window. */
module VirtualMemory {
  import opened Bitwise
  import opened Widths
  import opened PhysicalMemory

  // The judge is the page walk of the processor: 32-bit paging, section 4.3 of the Intel SDM,
  // volume 3A, with CR4.PSE = 0 and CR0.WP = 0, which is how the kernel leaves them.

  const ENTRIES := 1024
  const SELF := 1023
  const SLOT_SIZE := 0x40_0000
  const PTE_FRAME := 0xffff_f000
  const PTE_PRESENT := 1
  const PTE_WRITABLE := 2
  const PAGE_TABLE := 0xffc0_0000
  const PAGE_DIRECTORY := 0xffff_f000
  const BOOT_DIRECTORY := 0x9_c000
  const STACK := 0xffc0_0000
  const STACK_PHY := 0x9_0000
  const VGA_TEXT := 0xb_8000

  type Frame = f: seq<Word> | |f| == ENTRIES witness seq(ENTRIES, _ => 0)

  function Zeros(): Frame {
    seq(ENTRIES, _ => 0)
  }

  type Ram = r: seq<Frame> | |r| == BLOCKS witness seq<Frame>(BLOCKS, _ => Zeros())

  type FrameNumber = f: nat | f < BLOCKS

  /** Physical memory, the frame CR3 names, and the block bitmap. */
  datatype Memory = Memory(ram: Ram, dir: FrameNumber, used: Words)

  /** A word of physical memory. */
  datatype Place = Place(frame: FrameNumber, index: nat)

  datatype Option<T> = None | Some(value: T)

  // ---------------------------------------------------------------- entries, as the processor reads them

  predicate Present(w: Word) {
    w % 2 == 1
  }

  predicate Writable(w: Word) {
    w / 2 % 2 == 1
  }

  function FrameOf(w: Word): FrameNumber {
    w / BLOCK_SIZE
  }

  function Pde(m: Memory, slot: nat): Word
    requires slot < ENTRIES
  {
    m.ram[m.dir][slot]
  }

  /** The entry for a page number, once its directory entry is present. */
  function Pte(m: Memory, page: nat): Word
    requires page < BLOCKS
  {
    m.ram[FrameOf(Pde(m, page / ENTRIES))][page % ENTRIES]
  }

  /** The page walk: the frame a page number translates to, None for a page fault. */
  function Translate(m: Memory, page: nat): Option<FrameNumber>
    requires page < BLOCKS
  {
    if !Present(Pde(m, page / ENTRIES)) || !Present(Pte(m, page)) then None
    else Some(FrameOf(Pte(m, page)))
  }

  /** The word of physical memory behind an aligned virtual address. */
  function Where(m: Memory, address: Word): Option<Place> {
    match Translate(m, address / BLOCK_SIZE)
    case None => None
    case Some(f) => Some(Place(f, address % BLOCK_SIZE / 4))
  }

  predicate Mapped(m: Memory, address: Word) {
    Translate(m, address / BLOCK_SIZE).Some?
  }

  function Read(m: Memory, address: Word): Word
    requires Mapped(m, address)
  {
    var at := Where(m, address).value;
    m.ram[at.frame][at.index]
  }

  function Put(m: Memory, f: FrameNumber, i: nat, w: Word): Memory
    requires i < ENTRIES
  {
    m.(ram := m.ram[f := m.ram[f][i := w]])
  }

  function Write(m: Memory, address: Word, w: Word): Memory
    requires Mapped(m, address)
  {
    var at := Where(m, address).value;
    Put(m, at.frame, at.index, w)
  }

  // ---------------------------------------------------------------- what the entry helpers compute

  /** The frame replaced, the attributes kept. */
  function Framed(w: Word, f: FrameNumber): (r: Word)
    ensures FrameOf(r) == f && r % BLOCK_SIZE == w % BLOCK_SIZE
  {
    f * BLOCK_SIZE + w % BLOCK_SIZE
  }

  function WithPresent(w: Word): (r: Word)
    ensures Present(r) && FrameOf(r) == FrameOf(w) && r / 2 == w / 2
  {
    w - w % 2 + 1
  }

  function WithoutPresent(w: Word): (r: Word)
    ensures !Present(r) && FrameOf(r) == FrameOf(w) && r / 2 == w / 2
  {
    w - w % 2
  }

  function WithWritable(w: Word): (r: Word)
    ensures Writable(r) && FrameOf(r) == FrameOf(w) && Present(r) == Present(w) && r / 4 == w / 4
  {
    LowTwo(w / 4, w % 4);
    LowTwo(w / 4, w % 2 + 2);
    w - w / 2 % 2 * 2 + 2
  }

  /** A word whose lowest two digits are d. */
  lemma LowTwo(q: nat, d: nat)
    requires d < 4
    ensures var w := 4 * q + d; w % 2 == d % 2 && w / 2 % 2 == d / 2 && w / 4 == q && w / BLOCK_SIZE == q / ENTRIES
  {
    var w := 4 * q + d;
    var e := d / 2;
    assert w / 2 == 2 * q + e && e < 2;
    assert (2 * q + e) % 2 == e;
    var a, b := q / ENTRIES, q % ENTRIES;
    assert w == BLOCK_SIZE * a + (4 * b + d) && 4 * b + d < BLOCK_SIZE;
  }

  function EntryIsPresent(entry: Word): (r: bool)
    ensures r <==> Present(entry)
  {
    LowDigits(entry);
    And(entry, PTE_PRESENT) != 0
  }

  function EntryIsWritable(entry: Word): (r: bool)
    ensures r <==> Writable(entry)
  {
    LowDigits(entry);
    And(entry, PTE_WRITABLE) != 0
  }

  lemma FrameMask(a: Word)
    ensures And(a, PTE_FRAME) == a - a % BLOCK_SIZE
    ensures And(a, ALL_ONES - PTE_FRAME) == a % BLOCK_SIZE
  {
    Powers();
    AndHigh(a, 12, 32);
    AndLow(a, 12);
  }

  function EntryPhysical(entry: Word): (r: Word)
    ensures r == FrameOf(entry) * BLOCK_SIZE
  {
    FrameMask(entry);
    And(entry, PTE_FRAME)
  }

  lemma SettingTheFrame(w: Word, physical: Word)
    ensures Or(And(physical, PTE_FRAME), And(w, ALL_ONES - PTE_FRAME)) == Framed(w, FrameOf(physical))
  {
    var f := FrameOf(physical);
    FrameMask(physical);
    FrameMask(w);
    assert physical - physical % BLOCK_SIZE == f * BLOCK_SIZE;
    FrameAndFlags(f, w % BLOCK_SIZE);
  }

  lemma FrameAndFlags(f: nat, flags: nat)
    requires flags < BLOCK_SIZE
    ensures Or(f * BLOCK_SIZE, flags) == f * BLOCK_SIZE + flags
  {
    Powers();
    assert f * BLOCK_SIZE % BLOCK_SIZE == 0;
    OrDisjoint(f * BLOCK_SIZE, flags, 12);
  }

  lemma SettingPresent(w: Word)
    ensures Or(w, PTE_PRESENT) == WithPresent(w)
  {
    LowDigits(w);
  }

  lemma SettingWritable(w: Word)
    ensures Or(w, PTE_WRITABLE) == WithWritable(w)
  {
    LowDigits(w);
  }

  lemma ClearingPresent(w: Word)
    ensures And(w, ALL_ONES - PTE_PRESENT) == WithoutPresent(w)
  {
    Powers();
    assert Pow2(1) == 2;
    AndHigh(w, 1, 32);
  }

  // ---------------------------------------------------------------- what the manager computes

  function TableEntry(w: Word, f: FrameNumber): (r: Word)
    ensures FrameOf(r) == f && Present(r) && Writable(r)
  {
    WithWritable(WithPresent(Framed(w, f)))
  }

  /** The flags above the lowest two are left alone. */
  lemma TableEntryKeepsFlags(w: Word, f: FrameNumber)
    ensures TableEntry(w, f) / 4 % ENTRIES == w / 4 % ENTRIES
  {
    var a := Framed(w, f);
    var b := WithPresent(a);
    assert b / 4 == a / 4;
    FlagsOf(a);
    FlagsOf(w);
  }

  lemma FlagsOf(w: Word)
    ensures w / 4 % ENTRIES == w % BLOCK_SIZE / 4
  {
  }

  /** alloc_page on an entry held in frame f. */
  function AllocPage(m: Memory, f: FrameNumber, i: nat): (Memory, bool)
    requires i < ENTRIES
  {
    var (used, address) := Allocate(m.used);
    if address == 0 then (m, false)
    else (Put(m, f, i, WithPresent(Framed(m.ram[f][i], address / BLOCK_SIZE))).(used := used), true)
  }

  /** free_page. */
  function FreePage(m: Memory, f: FrameNumber, i: nat): Memory
    requires i < ENTRIES
  {
    var w := m.ram[f][i];
    if !Present(w) then m
    else Put(m, f, i, WithoutPresent(w)).(used := Free(m.used, FrameOf(w) * BLOCK_SIZE).0)
  }

  /** The directory entry of slot made present, by a fresh table if it was not. */
  function EnsureTable(m: Memory, slot: nat): (Memory, bool)
    requires slot < ENTRIES
  {
    if Present(Pde(m, slot)) then (m, true) else AllocPage(m, m.dir, slot)
  }

  /** map_page. */
  function MapPage(m: Memory, page: nat, f: FrameNumber): (Memory, bool)
    requires page < BLOCKS
  {
    var (t, ok) := EnsureTable(m, page / ENTRIES);
    if !ok then (t, false)
    else (Put(t, FrameOf(Pde(t, page / ENTRIES)), page % ENTRIES, TableEntry(Pte(t, page), f)), true)
  }

  /** remove_identity_map. */
  function RemoveIdentityMap(m: Memory): Memory {
    if Present(Pde(m, 0)) then Put(m, m.dir, 0, 0) else m
  }

  /** set_recursive_map. */
  function SetRecursiveMap(m: Memory): Memory {
    Put(m, m.dir, SELF, TableEntry(Pde(m, SELF), m.dir))
  }

  // ---------------------------------------------------------------- the invariant

  /** The last directory entry names the directory. */
  predicate Recursive(m: Memory) {
    Present(Pde(m, SELF)) && FrameOf(Pde(m, SELF)) == m.dir
  }

  predicate Table(m: Memory, slot: nat)
    requires slot < ENTRIES
  {
    Present(Pde(m, slot))
  }

  function TableFrame(m: Memory, slot: nat): FrameNumber
    requires slot < ENTRIES
  {
    FrameOf(Pde(m, slot))
  }

  /** No two present directory entries name the same frame; the directory is one of them. */
  ghost predicate TablesDistinct(m: Memory) {
    forall s: nat, t: nat :: s < t < ENTRIES && Table(m, s) && Table(m, t) ==> TableFrame(m, s) != TableFrame(m, t)
  }

  ghost predicate TablesInUse(m: Memory) {
    forall s: nat :: s < ENTRIES && Table(m, s) ==> TableFrame(m, s) != 0 && Used(m.used, TableFrame(m, s))
  }

  ghost predicate Sound(m: Memory) {
    Recursive(m) && TablesDistinct(m) && TablesInUse(m) && Used(m.used, 0)
  }

  ghost predicate IsTable(m: Memory, f: FrameNumber) {
    exists s: nat :: s < ENTRIES && Table(m, s) && TableFrame(m, s) == f
  }

  // ---------------------------------------------------------------- one step keeps the invariant

  /** What the bitmap must still hold when slot s no longer counts. */
  ghost predicate KeepsUsed(m: Memory, used: Words, s: nat) {
    Used(used, 0) && forall t: nat :: t < ENTRIES && t != s && Table(m, t) ==> Used(used, TableFrame(m, t))
  }

  lemma SoundOutside(m: Memory, f: FrameNumber, i: nat, w: Word, used: Words)
    requires Sound(m) && f != m.dir && i < ENTRIES && KeepsUsed(m, used, ENTRIES)
    ensures Sound(Put(m, f, i, w).(used := used))
  {
    var after := Put(m, f, i, w).(used := used);
    assert after.ram[m.dir] == m.ram[m.dir];
    forall s: nat | s < ENTRIES
      ensures Table(after, s) == Table(m, s) && TableFrame(after, s) == TableFrame(m, s)
    {
    }
  }

  /** A new directory entry may be absent or name a frame in use that no other entry names. */
  ghost predicate Fits(m: Memory, s: nat, w: Word, used: Words) {
    Present(w) ==>
      && FrameOf(w) != 0 && Used(used, FrameOf(w))
      && forall t: nat :: t < ENTRIES && t != s && Table(m, t) ==> TableFrame(m, t) != FrameOf(w)
  }

  lemma SoundInDirectory(m: Memory, s: nat, w: Word, used: Words)
    requires Sound(m) && s < SELF && KeepsUsed(m, used, s) && Fits(m, s, w, used)
    ensures Sound(Put(m, m.dir, s, w).(used := used))
  {
    var after := Put(m, m.dir, s, w).(used := used);
    forall t: nat | t < ENTRIES
      ensures Table(after, t) == if t == s then Present(w) else Table(m, t)
      ensures TableFrame(after, t) == if t == s then FrameOf(w) else TableFrame(m, t)
    {
    }
  }

  lemma AllocateMarks(ws: Words)
    requires Used(ws, 0)
    ensures var (after, address) := Allocate(ws);
            if address == 0 then after == ws && FreeBlocks(ws) == {}
            else
              var b := address / BLOCK_SIZE;
              && 0 < b < BLOCKS && b * BLOCK_SIZE == address && !Used(ws, b)
              && forall c: nat :: c < BLOCKS ==> Used(after, c) == (Used(ws, c) || c == b)
  {
    var b := FirstFree(ws, 0);
    FirstFreeFinds(ws, 0);
    AllocateTakesLowest(ws);
    if b < BLOCKS {
      forall c: nat | c < BLOCKS
        ensures Used(ToggleBlock(ws, b), c) == (Used(ws, c) || c == b)
      {
        ToggleBlockFlips(ws, b, c);
      }
    }
  }

  lemma FreeUnmarks(ws: Words, b: nat)
    requires b < BLOCKS
    ensures forall c: nat :: c < BLOCKS ==> Used(Free(ws, b * BLOCK_SIZE).0, c) == (Used(ws, c) && c != b)
  {
    forall c: nat | c < BLOCKS
      ensures Used(Free(ws, b * BLOCK_SIZE).0, c) == (Used(ws, c) && c != b)
    {
      ToggleBlockFlips(ws, b, c);
    }
  }

  /** An entry the manager may be handed: any entry of a present table, or of the directory
      except the last. */
  predicate IsEntry(m: Memory, slot: nat, i: nat) {
    slot < ENTRIES && i < ENTRIES && Table(m, slot) && !(slot == SELF && i == SELF)
  }

  lemma OtherTables(m: Memory, slot: nat)
    requires Sound(m) && slot < ENTRIES && Table(m, slot)
    ensures TableFrame(m, slot) == m.dir <==> slot == SELF
  {
    if slot != SELF {
      assert slot < SELF && Table(m, SELF);
    }
  }

  lemma AllocKeepsSound(m: Memory, slot: nat, i: nat)
    requires Sound(m) && IsEntry(m, slot, i)
    ensures Sound(AllocPage(m, TableFrame(m, slot), i).0)
  {
    AllocateMarks(m.used);
    OtherTables(m, slot);
    var (used, address) := Allocate(m.used);
    if address != 0 {
      var f := TableFrame(m, slot);
      var w := WithPresent(Framed(m.ram[f][i], address / BLOCK_SIZE));
      assert KeepsUsed(m, used, ENTRIES);
      if slot == SELF {
        SoundInDirectory(m, i, w, used);
      } else {
        SoundOutside(m, f, i, w, used);
      }
    }
  }

  /** Freeing an entry is harmless if it is absent, or stands in the directory, or names a frame
      that holds no table (and is not block 0, which the allocator never gives out). */
  ghost predicate Freeable(m: Memory, slot: nat, i: nat)
    requires IsEntry(m, slot, i)
  {
    var w := m.ram[TableFrame(m, slot)][i];
    Present(w) && slot != SELF ==> FrameOf(w) != 0 && !IsTable(m, FrameOf(w))
  }

  lemma FreeKeepsSound(m: Memory, slot: nat, i: nat)
    requires Sound(m) && IsEntry(m, slot, i) && Freeable(m, slot, i)
    ensures Sound(FreePage(m, TableFrame(m, slot), i))
  {
    OtherTables(m, slot);
    var f := TableFrame(m, slot);
    var w := m.ram[f][i];
    if Present(w) {
      var b := FrameOf(w);
      FreeUnmarks(m.used, b);
      var used := Free(m.used, b * BLOCK_SIZE).0;
      if slot == SELF {
        assert Table(m, i) && TableFrame(m, i) == b;
        forall t: nat | t < ENTRIES && t != i && Table(m, t)
          ensures TableFrame(m, t) != b
        {
          assert t < i || i < t;
        }
        assert KeepsUsed(m, used, i);
        SoundInDirectory(m, i, WithoutPresent(w), used);
      } else {
        forall t: nat | t < ENTRIES && Table(m, t)
          ensures TableFrame(m, t) != b
        {
          assert !IsTable(m, b);
        }
        assert KeepsUsed(m, used, ENTRIES);
        SoundOutside(m, f, i, WithoutPresent(w), used);
      }
    }
  }

  lemma EnsureTableKeepsSound(m: Memory, slot: nat)
    requires Sound(m) && slot < SELF
    ensures var (t, ok) := EnsureTable(m, slot);
            Sound(t) && t.dir == m.dir && (ok ==> Table(t, slot)) && (!ok ==> t == m && FreeBlocks(m.used) == {})
  {
    if !Table(m, slot) {
      AllocateMarks(m.used);
      AllocKeepsSound(m, SELF, slot);
    }
  }

  lemma RemoveKeepsSound(m: Memory)
    requires Sound(m)
    ensures Sound(RemoveIdentityMap(m))
  {
    if Table(m, 0) {
      SoundInDirectory(m, 0, 0, m.used);
    }
  }

  // ---------------------------------------------------------------- runs

  /** A page below the top 4 MiB. */
  predicate Ordinary(page: nat) {
    page < BLOCKS && page / ENTRIES < SELF
  }

  /** What the kernel may ask for, in any order: the calls of this manager, and the block
      allocator called directly. */
  datatype Call =
    | Map(page: nat, frame: FrameNumber)
    | AllocEntry(slot: nat, entry: nat)
    | FreeEntry(slot: nat, entry: nat)
    | DropIdentity
    | TakeBlock
    | GiveBlock(data: FrameNumber)

  ghost predicate Permitted(m: Memory, c: Call) {
    match c
    case Map(page, f) => Ordinary(page)
    case AllocEntry(slot, i) => IsEntry(m, slot, i)
    case FreeEntry(slot, i) => IsEntry(m, slot, i) && Freeable(m, slot, i)
    case DropIdentity => true
    case TakeBlock => true
    case GiveBlock(b) => b != 0 && !IsTable(m, b)
  }

  ghost function Apply(m: Memory, c: Call): Memory
    requires Permitted(m, c)
  {
    match c
    case Map(page, f) => MapPage(m, page, f).0
    case AllocEntry(slot, i) => AllocPage(m, TableFrame(m, slot), i).0
    case FreeEntry(slot, i) => FreePage(m, TableFrame(m, slot), i)
    case DropIdentity => RemoveIdentityMap(m)
    case TakeBlock => m.(used := Allocate(m.used).0)
    case GiveBlock(b) => m.(used := Free(m.used, b * BLOCK_SIZE).0)
  }

  lemma ApplyKeepsSound(m: Memory, c: Call)
    requires Sound(m) && Permitted(m, c)
    ensures Sound(Apply(m, c)) && Apply(m, c).dir == m.dir
  {
    match c
    case Map(page, f) =>
      MapKeepsSoundIff(m, page, f);
      EnsureTableKeepsSound(m, page / ENTRIES);
    case AllocEntry(slot, i) => AllocKeepsSound(m, slot, i);
    case FreeEntry(slot, i) => FreeKeepsSound(m, slot, i);
    case DropIdentity => RemoveKeepsSound(m);
    case TakeBlock =>
      AllocateMarks(m.used);
      SoundBitmap(m, Allocate(m.used).0);
    case GiveBlock(b) =>
      FreeUnmarks(m.used, b);
      forall t: nat | t < ENTRIES && Table(m, t)
        ensures TableFrame(m, t) != b
      {
        assert !IsTable(m, b);
      }
      SoundBitmap(m, Free(m.used, b * BLOCK_SIZE).0);
  }

  lemma SoundBitmap(m: Memory, used: Words)
    requires Sound(m) && KeepsUsed(m, used, ENTRIES)
    ensures Sound(m.(used := used))
  {
    var after := m.(used := used);
    forall s: nat | s < ENTRIES
      ensures Table(after, s) == Table(m, s) && TableFrame(after, s) == TableFrame(m, s)
    {
    }
  }

  ghost predicate SystemRun(r: seq<Memory>, calls: seq<Call>) {
    |r| == |calls| + 1 && forall i :: 0 <= i < |calls| ==> SystemStep(r, calls, i)
  }

  ghost predicate SystemStep(r: seq<Memory>, calls: seq<Call>, i: int)
    requires 0 <= i < |calls| && |r| == |calls| + 1
  {
    Permitted(r[i], calls[i]) && r[i + 1] == Apply(r[i], calls[i])
  }

  /** Through any run the frames of the present directory entries, the directory's own among
      them, stay pairwise distinct and marked in use. */
  lemma {:induction false} TablesStaySafe(r: seq<Memory>, calls: seq<Call>, i: nat)
    requires SystemRun(r, calls) && i < |r| && Sound(r[0])
    ensures Sound(r[i]) && r[i].dir == r[0].dir
  {
    if i > 0 {
      TablesStaySafe(r, calls, i - 1);
      assert SystemStep(r, calls, i - 1);
      ApplyKeepsSound(r[i - 1], calls[i - 1]);
    }
  }

  /** So the allocator never hands out a block that holds a page table or the directory. */
  lemma TablesNeverHandedOut(r: seq<Memory>, calls: seq<Call>, i: nat)
    requires SystemRun(r, calls) && i < |r| && Sound(r[0])
    ensures var address := Allocate(r[i].used).1;
            address != 0 ==> address < UINT32 && !IsTable(r[i], address / BLOCK_SIZE)
  {
    TablesStaySafe(r, calls, i);
    AllocateMarks(r[i].used);
  }

  // ---------------------------------------------------------------- map_page against the walk

  function WindowPage(slot: nat): nat {
    SELF * ENTRIES + slot
  }

  /** The recursive window shows the table of each slot as a page. */
  lemma WindowTranslates(m: Memory, slot: nat)
    requires Recursive(m) && slot < ENTRIES
    ensures Translate(m, WindowPage(slot)) == if Table(m, slot) then Some(TableFrame(m, slot)) else None
  {
  }

  /** The block the next allocation hands out, 0 if there is none. */
  function NextBlock(m: Memory): FrameNumber {
    Allocate(m.used).1 / BLOCK_SIZE
  }

  lemma EnsureTableFrame(m: Memory, slot: nat)
    requires Sound(m) && slot < SELF
    ensures var (t, ok) := EnsureTable(m, slot);
            && (ok <==> Table(m, slot) || FreeBlocks(m.used) != {})
            && (ok && !Table(m, slot) ==>
                  && TableFrame(t, slot) == NextBlock(m)
                  && !Used(m.used, TableFrame(t, slot)))
            && (ok ==> forall f: FrameNumber, i: nat :: i < ENTRIES && !(f == m.dir && i == slot) ==> t.ram[f][i] == m.ram[f][i])
  {
    AllocateMarks(m.used);
    AllocateTakesLowest(m.used);
  }

  /** map_page succeeds exactly if the table exists or a block is free; then the page translates
      to the requested frame and is writable, and otherwise nothing changes. */
  lemma MapPageTranslates(m: Memory, page: nat, f: FrameNumber)
    requires Sound(m) && Ordinary(page)
    ensures var (after, ok) := MapPage(m, page, f);
            && (ok <==> Table(m, page / ENTRIES) || FreeBlocks(m.used) != {})
            && (ok ==> Translate(after, page) == Some(f) && Writable(Pte(after, page)))
            && (!ok ==> after == m)
  {
    var slot := page / ENTRIES;
    var (t, ok) := EnsureTable(m, slot);
    EnsureTableFrame(m, slot);
    EnsureTableKeepsSound(m, slot);
    if ok {
      OtherTables(t, slot);
    }
  }

  /** Where the table was there, no other page is affected. */
  lemma MapPageKeepsOthers(m: Memory, page: nat, f: FrameNumber, other: nat)
    requires Sound(m) && Ordinary(page) && other < BLOCKS && other != page && Table(m, page / ENTRIES)
    ensures Translate(MapPage(m, page, f).0, other) == Translate(m, other)
  {
    var after := MapPage(m, page, f).0;
    var slot, s := page / ENTRIES, other / ENTRIES;
    OtherTables(m, slot);
    assert Pde(after, s) == Pde(m, s);
    if Table(m, s) && s != slot {
      assert TableFrame(m, s) != TableFrame(m, slot) by {
        assert s < slot || slot < s;
      }
    }
  }

  /** What the words of a block would mean as a table. */
  function AsTable(m: Memory, f: FrameNumber, i: nat): Option<FrameNumber>
    requires i < ENTRIES
  {
    if Present(m.ram[f][i]) then Some(FrameOf(m.ram[f][i])) else None
  }

  /** Where a table had to be allocated, pages of other slots keep their translation, except
      the window page of the slot, which now shows the new table; the other pages of the slot
      read the block as it was, for it is not cleared. */
  lemma MapPageWithFreshTable(m: Memory, page: nat, f: FrameNumber, other: nat)
    requires Sound(m) && Ordinary(page) && other < BLOCKS && other != page
    requires !Table(m, page / ENTRIES)
    ensures MapPage(m, page, f).1 ==>
              Translate(MapPage(m, page, f).0, other)
              == if other == WindowPage(page / ENTRIES) then Some(NextBlock(m))
                 else if other / ENTRIES == page / ENTRIES then AsTable(m, NextBlock(m), other % ENTRIES)
                 else Translate(m, other)
  {
    var slot := page / ENTRIES;
    var (t, ok) := EnsureTable(m, slot);
    if ok {
      EnsureTableKeepsSound(m, slot);
      FreshTableTranslates(m, slot, other);
      MapPageKeepsOthers(t, page, f, other);
      assert MapPage(t, page, f).0 == MapPage(m, page, f).0;
    }
  }

  /** No other page of the slot is mapped. */
  ghost predicate AloneInSlot(m: Memory, page: nat)
    requires page < BLOCKS
  {
    forall other: nat :: other < BLOCKS && other / ENTRIES == page / ENTRIES && other != page ==> Translate(m, other) == None
  }

  /** No word of block f but the i-th would be read as a present entry. */
  ghost predicate NoStaleEntry(m: Memory, f: FrameNumber, i: nat) {
    forall j: nat :: j < ENTRIES && j != i ==> AsTable(m, f, j) == None
  }

  /** So with a fresh table map_page maps the page it was asked for and no other of its 4 MiB if
      and only if the block it was given holds no stale word with the present bit set. */
  lemma FreshTableIsCleanIff(m: Memory, page: nat, f: FrameNumber)
    requires Sound(m) && Ordinary(page) && !Table(m, page / ENTRIES)
    ensures MapPage(m, page, f).1 ==>
              (AloneInSlot(MapPage(m, page, f).0, page) <==> NoStaleEntry(m, NextBlock(m), page % ENTRIES))
  {
    var (after, ok) := MapPage(m, page, f);
    if ok {
      forall other: nat | other < BLOCKS && other / ENTRIES == page / ENTRIES && other != page
        ensures Translate(after, other) == AsTable(m, NextBlock(m), other % ENTRIES) && other % ENTRIES != page % ENTRIES
      {
        MapPageWithFreshTable(m, page, f, other);
      }
      forall j: nat | j < ENTRIES && j != page % ENTRIES && AloneInSlot(after, page)
        ensures AsTable(m, NextBlock(m), j) == None
      {
        PageOfSlot(page / ENTRIES, j);
        assert Translate(after, page / ENTRIES * ENTRIES + j) == None;
      }
    }
  }

  lemma PageOfSlot(slot: nat, j: nat)
    requires slot < ENTRIES && j < ENTRIES
    ensures var page := slot * ENTRIES + j; page < BLOCKS && page / ENTRIES == slot && page % ENTRIES == j
  {
  }

  lemma FreshTableTranslates(m: Memory, slot: nat, other: nat)
    requires Sound(m) && slot < SELF && other < BLOCKS && !Table(m, slot)
    ensures EnsureTable(m, slot).1 ==>
              Translate(EnsureTable(m, slot).0, other)
              == if other == WindowPage(slot) then Some(NextBlock(m))
                 else if other / ENTRIES == slot then AsTable(m, NextBlock(m), other % ENTRIES)
                 else Translate(m, other)
  {
    var s, t := other / ENTRIES, EnsureTable(m, slot).0;
    EnsureTableFrame(m, slot);
    EnsureTableKeepsSound(m, slot);
    if s == SELF {
      assert other == WindowPage(other % ENTRIES);
      WindowTranslates(t, other % ENTRIES);
      WindowTranslates(m, other % ENTRIES);
    } else if s == slot {
      if Table(t, slot) {
        OtherTables(t, slot);
      }
    } else if Table(m, s) {
      OtherTables(m, s);
    }
  }

  /** The directory entry of a fresh table keeps its other flags: the branch that would make it
      writable is never reached. */
  lemma FreshTableKeepsWritable(m: Memory, slot: nat)
    requires slot < SELF && !Table(m, slot) && EnsureTable(m, slot).1
    ensures Writable(Pde(EnsureTable(m, slot).0, slot)) == Writable(Pde(m, slot))
  {
    var w := Pde(m, slot);
    var a := Framed(w, NextBlock(m));
    WritableFlag(a);
    WritableFlag(w);
    assert Pde(EnsureTable(m, slot).0, slot) == WithPresent(a);
  }

  lemma WritableFlag(w: Word)
    ensures Writable(w) <==> w % BLOCK_SIZE / 2 % 2 == 1
  {
  }

  /** In the top 4 MiB a page is a slot: its frame must fit as the table, and the last must stay
      the directory. */
  ghost predicate FitsInWindow(m: Memory, page: nat, f: FrameNumber)
    requires page < BLOCKS
  {
    if page == WindowPage(SELF) then f == m.dir
    else Fits(m, page % ENTRIES, TableEntry(Pte(m, page), f), m.used)
  }

  /** The caller's obligation, exactly: a page of the top 4 MiB rewrites the directory, and
      the tables stay safe only if the frame given can stand as that slot's table. */
  lemma MapKeepsSoundIff(m: Memory, page: nat, f: FrameNumber)
    requires Sound(m) && page < BLOCKS
    ensures Sound(MapPage(m, page, f).0) <==> Ordinary(page) || FitsInWindow(m, page, f)
  {
    if Ordinary(page) {
      var slot := page / ENTRIES;
      EnsureTableKeepsSound(m, slot);
      var (t, ok) := EnsureTable(m, slot);
      if ok {
        OtherTables(t, slot);
        SoundOutside(t, TableFrame(t, slot), page % ENTRIES, TableEntry(Pte(t, page), f), t.used);
      }
    } else {
      var k, w := page % ENTRIES, TableEntry(Pte(m, page), f);
      var after := MapPage(m, page, f).0;
      assert page / ENTRIES == SELF;
      assert after == Put(m, m.dir, k, w);
      forall t: nat | t < ENTRIES
        ensures Table(after, t) == if t == k then Present(w) else Table(m, t)
        ensures TableFrame(after, t) == if t == k then FrameOf(w) else TableFrame(m, t)
      {
      }
      if k < SELF {
        if Fits(m, k, w, m.used) {
          SoundInDirectory(m, k, w, m.used);
        }
        if Sound(after) {
          FitsIfSound(m, k, w);
        }
      } else {
        assert page == WindowPage(SELF);
        assert Recursive(after) <==> f == m.dir;
        if f == m.dir {
          forall t: nat | t < ENTRIES
            ensures Table(after, t) == Table(m, t) && TableFrame(after, t) == TableFrame(m, t)
          {
          }
        }
      }
    }
  }

  lemma FitsIfSound(m: Memory, k: nat, w: Word)
    requires k < SELF && Sound(Put(m, m.dir, k, w))
    ensures Fits(m, k, w, m.used)
  {
    var after := Put(m, m.dir, k, w);
    assert Table(after, k) == Present(w) && TableFrame(after, k) == FrameOf(w);
    forall t: nat | Present(w) && t < ENTRIES && t != k && Table(m, t)
      ensures TableFrame(m, t) != FrameOf(w)
    {
      assert Table(after, t) && TableFrame(after, t) == TableFrame(m, t);
      assert t < k || k < t;
    }
  }

  lemma RemoveIdentityMapUnmaps(m: Memory, page: nat)
    requires Sound(m) && page < BLOCKS
    ensures Translate(RemoveIdentityMap(m), page)
            == if page / ENTRIES == 0 || page == WindowPage(0) then None else Translate(m, page)
  {
    var after := RemoveIdentityMap(m);
    RemoveKeepsSound(m);
    var s := page / ENTRIES;
    if s == SELF {
      assert page == WindowPage(page % ENTRIES);
      WindowTranslates(after, page % ENTRIES);
      WindowTranslates(m, page % ENTRIES);
    } else if Table(m, s) {
      OtherTables(m, s);
    }
  }

  // ---------------------------------------------------------------- alloc_page and free_page

  lemma ToggleTwice(ws: Words, b: nat)
    requires b < BLOCKS
    ensures ToggleBlock(ToggleBlock(ws, b), b) == ws
  {
    XorTwice(ws[b / 32], Shifted(b % 32));
  }

  /** alloc_page fails and changes nothing exactly when no block is free; otherwise the entry names
      the lowest free block, is present and keeps its other flags, and no other word changes. */
  lemma AllocPageTakesLowest(m: Memory, f: FrameNumber, i: nat)
    requires i < ENTRIES && Used(m.used, 0)
    ensures var (after, ok) := AllocPage(m, f, i); var w := after.ram[f][i];
            if FreeBlocks(m.used) == {} then !ok && after == m
            else
              && ok && after == Put(m, f, i, w).(used := after.used)
              && Present(w) && w % BLOCK_SIZE / 2 == m.ram[f][i] % BLOCK_SIZE / 2
              && FrameOf(w) in FreeBlocks(m.used) && (forall b :: b in FreeBlocks(m.used) ==> FrameOf(w) <= b)
              && FreeBlocks(after.used) == FreeBlocks(m.used) - {FrameOf(w)}
  {
    AllocateTakesLowest(m.used);
    if FreeBlocks(m.used) != {} {
      var b := Allocate(m.used).1 / BLOCK_SIZE;
      FlagsKept(m.ram[f][i], b);
      assert AllocPage(m, f, i).0.ram[f][i] == WithPresent(Framed(m.ram[f][i], b));
    }
  }

  lemma FlagsKept(w: Word, b: FrameNumber)
    ensures WithPresent(Framed(w, b)) % BLOCK_SIZE / 2 == w % BLOCK_SIZE / 2
  {
    var flags := w % BLOCK_SIZE;
    assert WithPresent(Framed(w, b)) == b * BLOCK_SIZE + (flags - flags % 2 + 1) by {
      assert Framed(w, b) % 2 == flags % 2;
    }
  }

  /** free_page leaves an absent entry alone, and makes a present one absent, its frame and its other
      flags kept and its block free. */
  lemma FreePageGivesBack(m: Memory, f: FrameNumber, i: nat)
    requires i < ENTRIES
    ensures var after := FreePage(m, f, i); var w, v := m.ram[f][i], after.ram[f][i];
            if !Present(w) then after == m
            else
              && after == Put(m, f, i, v).(used := after.used)
              && !Present(v) && v / 2 == w / 2
              && FreeBlocks(after.used) == FreeBlocks(m.used) + {FrameOf(w)}
  {
    var w := m.ram[f][i];
    if Present(w) {
      assert FrameOf(w) * BLOCK_SIZE % BLOCK_SIZE == 0;
      FreeGivesBack(m.used, FrameOf(w) * BLOCK_SIZE);
      assert FreePage(m, f, i).ram[f][i] == WithoutPresent(w);
      assert FrameOf(w) * BLOCK_SIZE / BLOCK_SIZE == FrameOf(w);
    }
  }

  /** free_page gives back what alloc_page took, for any entry: the bitmap is what it was, the
      entry is absent, and no other word has changed. */
  lemma FreeUndoesAlloc(m: Memory, f: FrameNumber, i: nat)
    requires i < ENTRIES && Used(m.used, 0) && AllocPage(m, f, i).1
    ensures var back := FreePage(AllocPage(m, f, i).0, f, i);
            && back.used == m.used
            && !Present(back.ram[f][i])
            && back == Put(m, f, i, back.ram[f][i])
  {
    var b := NextBlock(m);
    AllocateMarks(m.used);
    ToggleTwice(m.used, b);
    var taken := AllocPage(m, f, i).0;
    assert taken.used == ToggleBlock(m.used, b) && Used(taken.used, b);
    var back := FreePage(taken, f, i);
    assert back.ram[f] == m.ram[f][i := back.ram[f][i]];
    assert back.ram == m.ram[f := back.ram[f]];
  }

  /** So every translation is restored if the entry was absent before. */
  lemma FreeUndoesTranslation(m: Memory, f: FrameNumber, i: nat, page: nat)
    requires i < ENTRIES && Used(m.used, 0) && AllocPage(m, f, i).1 && page < BLOCKS && !Present(m.ram[f][i])
    ensures Translate(FreePage(AllocPage(m, f, i).0, f, i), page) == Translate(m, page)
  {
  }

  /** And lost if it was present: the frame it named is forgotten. */
  lemma FreeAfterAllocUnmaps(m: Memory, page: nat)
    requires Sound(m) && Ordinary(page) && Translate(m, page).Some?
    requires AllocPage(m, TableFrame(m, page / ENTRIES), page % ENTRIES).1
    ensures var f, i := TableFrame(m, page / ENTRIES), page % ENTRIES;
            Translate(FreePage(AllocPage(m, f, i).0, f, i), page) == None
  {
  }
}
