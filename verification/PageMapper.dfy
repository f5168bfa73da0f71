/** The mapper as the kernel runs it (kernal/mem/virtmem.c): every access goes through a virtual pointer,
    which the recursive window takes to a table entry; each method is tied to the function on memory
    that it performs. */
module PageMapper {
  import opened Bitwise
  import opened PhysicalMemory
  import opened VirtualMemory
  import opened KernelBoot

  /** A write through this address does not move the address itself. */
  ghost predicate Steady(m: Memory, address: Word) {
    && Mapped(m, address)
    && var at := Where(m, address).value;
       var page := address / BLOCK_SIZE;
       at != Place(m.dir, page / ENTRIES) && at != Place(FrameOf(Pde(m, page / ENTRIES)), page % ENTRIES)
  }

  lemma WriteTwice(m: Memory, address: Word, w: Word, x: Word)
    requires Steady(m, address)
    ensures Mapped(Write(m, address, w), address)
    ensures Write(Write(m, address, w), address, x) == Write(m, address, x)
  {
    var at := Where(m, address).value;
    assert m.ram[at.frame][at.index := w][at.index := x] == m.ram[at.frame][at.index := x];
    assert Write(Write(m, address, w), address, x).ram == Write(m, address, x).ram;
  }

  /** The pointer the code forms for entry i of slot's table. */
  function WindowAddress(slot: nat, i: nat): Word
    requires slot < ENTRIES && i < ENTRIES
  {
    PAGE_TABLE + slot * BLOCK_SIZE + i * 4
  }

  lemma WindowPlaces(m: Memory, slot: nat, i: nat)
    requires Recursive(m) && slot < ENTRIES && i < ENTRIES && Table(m, slot)
    ensures Where(m, WindowAddress(slot, i)) == Some(Place(TableFrame(m, slot), i))
  {
    var page := WindowAddress(slot, i) / BLOCK_SIZE;
    assert page == WindowPage(slot);
    assert page / ENTRIES == SELF && page % ENTRIES == slot;
    assert WindowAddress(slot, i) % BLOCK_SIZE / 4 == i;
    WindowTranslates(m, slot);
  }

  /** Through the window a pointer reaches exactly entry i of the table that slot names. */
  lemma WindowReaches(m: Memory, slot: nat, i: nat)
    requires Sound(m) && IsEntry(m, slot, i)
    ensures Where(m, WindowAddress(slot, i)) == Some(Place(TableFrame(m, slot), i))
    ensures Steady(m, WindowAddress(slot, i))
  {
    WindowPlaces(m, slot, i);
    OtherTables(m, slot);
    var page := WindowAddress(slot, i) / BLOCK_SIZE;
    assert page / ENTRIES == SELF && page % ENTRIES == slot;
  }

  /** Before that, the boot directory is reached through the identity map. */
  lemma BootDirectoryReached(m: Memory)
    requires BootTables(m)
    ensures Where(m, BOOT_DIRECTORY + SELF * 4) == Some(Place(m.dir, SELF)) && Steady(m, BOOT_DIRECTORY + SELF * 4)
  {
  }

  function TableIndex(virtual: Word): (i: nat)
    ensures i == virtual / BLOCK_SIZE % ENTRIES
  {
    Powers();
    AndLow(virtual / BLOCK_SIZE, 10);
    And(virtual / BLOCK_SIZE, 0x3ff)
  }

  lemma WindowPointer(slot: nat, i: nat)
    requires slot < ENTRIES && i < ENTRIES
    ensures Or(PAGE_TABLE, slot * BLOCK_SIZE) + i * 4 == WindowAddress(slot, i)
  {
    Powers();
    OrDisjoint(PAGE_TABLE, slot * BLOCK_SIZE, 22);
  }

  class Mapper {
    var ram: Ram
    const dir: FrameNumber
    var pageDirectory: Word
    const blocks: Manager

    ghost predicate Valid()
      reads this, blocks
    {
      blocks.Valid()
    }

    ghost function State(): Memory
      requires Valid()
      reads this, blocks, blocks.bitmap
    {
      Memory(ram, dir, blocks.Contents())
    }

    /** The kernel finds memory and its boot tables as they are. */
    constructor (ram: Ram, dir: FrameNumber, blocks: Manager)
      requires blocks.Valid()
      ensures Valid() && this.blocks == blocks && pageDirectory == BOOT_DIRECTORY
      ensures State() == Memory(ram, dir, blocks.Contents())
    {
      this.ram, this.dir, this.blocks := ram, dir, blocks;
      pageDirectory := BOOT_DIRECTORY;
    }

    method Load(address: Word) returns (w: Word)
      requires Valid() && Mapped(State(), address)
      ensures w == Read(State(), address)
    {
      var page := address / BLOCK_SIZE;
      var pde := ram[dir][page / ENTRIES];
      var pte := ram[pde / BLOCK_SIZE][page % ENTRIES];
      w := ram[pte / BLOCK_SIZE][address % BLOCK_SIZE / 4];
    }

    method Store(address: Word, w: Word)
      requires Valid() && Mapped(State(), address)
      modifies this`ram
      ensures State() == Write(old(State()), address, w)
    {
      var page := address / BLOCK_SIZE;
      var pde := ram[dir][page / ENTRIES];
      var pte := ram[pde / BLOCK_SIZE][page % ENTRIES];
      var f := pte / BLOCK_SIZE;
      ram := ram[f := ram[f][address % BLOCK_SIZE / 4 := w]];
    }

    method EntrySetPresent(entry: Word)
      requires Valid() && Steady(State(), entry)
      modifies this`ram
      ensures State() == Write(old(State()), entry, WithPresent(Read(old(State()), entry)))
    {
      var w := Load(entry);
      SettingPresent(w);
      Store(entry, Or(w, PTE_PRESENT));
    }

    method EntrySetWritable(entry: Word)
      requires Valid() && Steady(State(), entry)
      modifies this`ram
      ensures State() == Write(old(State()), entry, WithWritable(Read(old(State()), entry)))
    {
      var w := Load(entry);
      SettingWritable(w);
      Store(entry, Or(w, PTE_WRITABLE));
    }

    method EntryClearPresent(entry: Word)
      requires Valid() && Steady(State(), entry)
      modifies this`ram
      ensures State() == Write(old(State()), entry, WithoutPresent(Read(old(State()), entry)))
    {
      var w := Load(entry);
      ClearingPresent(w);
      Store(entry, And(w, ALL_ONES - PTE_PRESENT));
    }

    method EntrySetFrame(entry: Word, physical: Word)
      requires Valid() && Steady(State(), entry)
      modifies this`ram
      ensures State() == Write(old(State()), entry, Framed(Read(old(State()), entry), FrameOf(physical)))
    {
      var w := Load(entry);
      SettingTheFrame(w, physical);
      Store(entry, Or(And(physical, PTE_FRAME), And(w, ALL_ONES - PTE_FRAME)));
    }

    /** The sequence map_page and set_recursive_map share: frame, then the two flags if unset. */
    method SetEntry(entry: Word, physical: Word)
      requires Valid() && Steady(State(), entry)
      modifies this`ram
      ensures State() == Write(old(State()), entry, TableEntry(Read(old(State()), entry), FrameOf(physical)))
    {
      ghost var m := State();
      ghost var a := Framed(Read(m, entry), FrameOf(physical));
      EntrySetFrame(entry, physical);
      var w := Load(entry);
      if !EntryIsPresent(w) {
        EntrySetPresent(entry);
        WriteTwice(m, entry, a, WithPresent(a));
      }
      w := Load(entry);
      if !EntryIsWritable(w) {
        EntrySetWritable(entry);
        WriteTwice(m, entry, WithPresent(a), WithWritable(WithPresent(a)));
      }
    }

    method AllocatePage(entry: Word) returns (ok: bool)
      requires Valid() && Steady(State(), entry) && Used(State().used, 0)
      modifies this`ram, blocks.bitmap
      ensures var at := Where(old(State()), entry).value; (State(), ok) == AllocPage(old(State()), at.frame, at.index)
    {
      ghost var m := State();
      var physical := blocks.AllocateBlock();
      AllocateMarks(m.used);
      if physical == 0 {
        return false;
      }
      ghost var n := State();
      assert Steady(n, entry) && Where(n, entry) == Where(m, entry);
      ghost var a := Framed(Read(m, entry), FrameOf(physical));
      EntrySetFrame(entry, physical);
      var w := Load(entry);
      if !EntryIsPresent(w) {
        EntrySetPresent(entry);
        WriteTwice(n, entry, a, WithPresent(a));
      }
      return true;
    }

    method ReleasePage(entry: Word)
      requires Valid() && Steady(State(), entry)
      modifies this`ram, blocks.bitmap
      ensures var at := Where(old(State()), entry).value; State() == FreePage(old(State()), at.frame, at.index)
    {
      var w := Load(entry);
      if !EntryIsPresent(w) {
        return;
      }
      ghost var m := State();
      var _ := blocks.FreeBlock(EntryPhysical(w));
      assert Steady(State(), entry) && Where(State(), entry) == Where(m, entry);
      EntryClearPresent(entry);
    }

    method SetUpRecursiveMap()
      requires Valid() && BootTables(State()) && pageDirectory == BOOT_DIRECTORY
      modifies this`ram, this`pageDirectory
      ensures State() == SetRecursiveMap(old(State())) && pageDirectory == PAGE_DIRECTORY
    {
      BootDirectoryReached(State());
      SetEntry(pageDirectory + SELF * 4, dir * BLOCK_SIZE);
      pageDirectory := PAGE_DIRECTORY;
    }

    /** The first half of map_page: a table for the slot. */
    method MakeTable(slot: nat) returns (ok: bool)
      requires Valid() && Sound(State()) && pageDirectory == PAGE_DIRECTORY && slot < ENTRIES
      modifies this`ram, blocks.bitmap
      ensures (State(), ok) == EnsureTable(old(State()), slot)
    {
      ghost var m := State();
      var entry := pageDirectory + slot * 4;
      assert entry == WindowAddress(SELF, slot);
      WindowPlaces(m, SELF, slot);
      var pde := Load(entry);
      if EntryIsPresent(pde) {
        return true;
      }
      WindowReaches(m, SELF, slot);
      EnsureTableKeepsSound(m, slot);
      ok := AllocatePage(entry);
      if ok {
        pde := Load(entry);
        // Where the source would now set PDE_WRITABLE.
        if !EntryIsPresent(pde) {
          assert false;
        }
      }
    }

    /** The second half: the entry, through the window. */
    method FillEntry(slot: nat, i: nat, physical: Word)
      requires Valid() && Sound(State()) && IsEntry(State(), slot, i)
      modifies this`ram
      ensures var m := old(State()); var f := TableFrame(m, slot);
              State() == Put(m, f, i, TableEntry(m.ram[f][i], FrameOf(physical)))
    {
      WindowReaches(State(), slot, i);
      WindowPointer(slot, i);
      var table := Or(PAGE_TABLE, slot * BLOCK_SIZE);
      SetEntry(table + i * 4, physical);
    }

    /** map_page, for every address but the last page's: there the first write takes away the
        window through which the others would go. */
    method MapOne(virtual: Word, physical: Word) returns (ok: bool)
      requires Valid() && Sound(State()) && pageDirectory == PAGE_DIRECTORY && virtual < PAGE_DIRECTORY
      modifies this`ram, blocks.bitmap
      ensures (State(), ok) == MapPage(old(State()), virtual / BLOCK_SIZE, physical / BLOCK_SIZE)
    {
      var v, p := virtual, physical;
      if v % BLOCK_SIZE != 0 {
        v := v - v % BLOCK_SIZE;
      }
      if p % BLOCK_SIZE != 0 {
        p := p - p % BLOCK_SIZE;
      }
      RoundingKeepsPage(virtual);
      RoundingKeepsPage(physical);
      var slot, i := v / SLOT_SIZE, TableIndex(v);
      SlotOf(v);
      TableForEntry(State(), slot, i);
      ghost var (t, made) := EnsureTable(State(), slot);
      ok := MakeTable(slot);
      assert State() == t && ok == made;
      if ok {
        FillEntry(slot, i, p);
      }
    }

    method DropIdentityMap()
      requires Valid() && Sound(State()) && pageDirectory == PAGE_DIRECTORY
      modifies this`ram
      ensures State() == RemoveIdentityMap(old(State()))
    {
      WindowReaches(State(), SELF, 0);
      var pde := Load(pageDirectory);
      if EntryIsPresent(pde) {
        Store(pageDirectory, 0);
      }
    }

    /** vmmngr_init, where a failing first map hangs the kernel. */
    method Init(vga: Word) returns (ok: bool)
      requires Valid() && BootTables(State()) && BootBlocksUsed(State().used) && OthersFit(State(), State().used)
      requires pageDirectory == BOOT_DIRECTORY && vga < PAGE_TABLE
      modifies this`ram, this`pageDirectory, blocks.bitmap
      ensures (State(), ok) == Initialise(old(State()), vga / BLOCK_SIZE)
    {
      RecursiveMapIsSoundIff(State());
      SetUpRecursiveMap();
      ok := MapBoth(vga);
    }

    method MapBoth(vga: Word) returns (ok: bool)
      requires Valid() && Sound(State()) && pageDirectory == PAGE_DIRECTORY && vga < PAGE_TABLE
      modifies this`ram, blocks.bitmap
      ensures (State(), ok) == MapVgaAndStack(old(State()), vga / BLOCK_SIZE)
    {
      MapKeepsSoundIff(State(), vga / BLOCK_SIZE, VGA_TEXT / BLOCK_SIZE);
      ghost var (after, mapped) := MapPage(State(), vga / BLOCK_SIZE, VGA_TEXT / BLOCK_SIZE);
      ok := MapOne(vga, VGA_TEXT);
      assert State() == after && ok == mapped;
      if ok {
        MapStack();
      }
    }

    method MapStack()
      requires Valid() && Sound(State()) && pageDirectory == PAGE_DIRECTORY
      modifies this`ram, blocks.bitmap
      ensures State() == MapPage(old(State()), STACK / BLOCK_SIZE - 1, STACK_PHY / BLOCK_SIZE - 1).0
    {
      var stack := MapOne(STACK - BLOCK_SIZE, STACK_PHY - BLOCK_SIZE);
    }
  }

  lemma RoundingKeepsPage(address: Word)
    ensures (address - address % BLOCK_SIZE) / BLOCK_SIZE == address / BLOCK_SIZE
  {
  }

  /** The shift by 22 picks the slot of the page. */
  lemma SlotOf(virtual: Word)
    requires virtual < PAGE_DIRECTORY
    ensures virtual / SLOT_SIZE == virtual / BLOCK_SIZE / ENTRIES < ENTRIES
    ensures !(virtual / SLOT_SIZE == SELF && virtual / BLOCK_SIZE % ENTRIES == SELF)
  {
  }

  lemma TableForEntry(m: Memory, slot: nat, i: nat)
    requires Sound(m) && slot < ENTRIES && i < ENTRIES && !(slot == SELF && i == SELF)
    ensures var (t, ok) := EnsureTable(m, slot); ok ==> Sound(t) && IsEntry(t, slot, i)
  {
    if slot < SELF {
      EnsureTableKeepsSound(m, slot);
    }
  }
}
