/** Page replacement (kernal/include/PageReplacementAlgorithms.h) over the memory frames,
    the disk and the clock hand that survives from call to call. */
module PageReplacement {
  import opened Seqs
  import opened Processes

  datatype Algorithm = FIFO | LRU | CLOCK

  /** What a call did: returned false, returned true, or ended the program because the
      wanted page was on neither list. */
  datatype Outcome = Skipped | Loaded | NotFound

  datatype Store = Store(memory: seq<Page>, disk: seq<Page>, hand: nat)

  // ---------------------------------------------------------------- specification

  /** The first position of a key, or the length of the list. */
  function FindPage(q: seq<Page>, key: (nat, nat)): (i: nat)
    ensures i <= |q|
    ensures forall j :: 0 <= j < i ==> q[j].Key() != key
    ensures i < |q| ==> q[i].Key() == key
  {
    if q == [] || q[0].Key() == key then 0 else 1 + FindPage(q[1..], key)
  }

  function LoadedFifo(p: Page, now: int): Page {
    p.(touched := now)
  }

  function LoadedLru(p: Page, now: int): Page {
    p.(lastTimeUsed := now, touched := now)
  }

  function LoadedClock(p: Page, now: int): Page {
    p.(referenced := true, touched := now)
  }

  /** What a hit does to the frame. */
  function Hit(p: Page, now: int): Page {
    p.(lastTimeUsed := now + 1, referenced := true, touched := now)
  }

  /** The frame v is a legitimate LRU victim: its stamp is minimal, and among equals it is
      frame 0 if that one qualifies and otherwise the last one. */
  ghost predicate IsLruVictim(memory: seq<Page>, v: nat) {
    && v < |memory|
    && (forall j :: 0 <= j < |memory| ==> memory[v].lastTimeUsed <= memory[j].lastTimeUsed)
    && (v != 0 ==> memory[v].lastTimeUsed < memory[0].lastTimeUsed)
    && (v != 0 ==> forall j :: v < j < |memory| ==> memory[v].lastTimeUsed < memory[j].lastTimeUsed)
  }

  lemma LruVictimUnique(memory: seq<Page>, v: nat, w: nat)
    requires IsLruVictim(memory, v) && IsLruVictim(memory, w)
    ensures v == w
  {
  }

  /** The victim, found by the downward scan over positions below j. */
  function LruScan(memory: seq<Page>, j: nat, best: nat): (v: nat)
    requires j <= |memory| && best < |memory|
    requires forall k :: j <= k < |memory| ==> memory[best].lastTimeUsed <= memory[k].lastTimeUsed
    requires memory[best].lastTimeUsed <= memory[0].lastTimeUsed
    requires best != 0 ==> best >= j && memory[best].lastTimeUsed < memory[0].lastTimeUsed
    requires best != 0 ==> forall k :: best < k < |memory| ==> memory[best].lastTimeUsed < memory[k].lastTimeUsed
    ensures IsLruVictim(memory, v)
  {
    if j == 0 then best
    else if memory[j - 1].lastTimeUsed < memory[best].lastTimeUsed then LruScan(memory, j - 1, j - 1)
    else LruScan(memory, j - 1, best)
  }

  function LruVictim(memory: seq<Page>): (v: nat)
    requires memory != []
    ensures IsLruVictim(memory, v)
  {
    LruScan(memory, |memory|, 0)
  }

  /** The hand before its first step: past the last frame it starts over. */
  function Normalised(hand: nat, n: nat): nat {
    if hand >= n then 0 else hand
  }

  /** The frame d steps after h on a clock of n frames. */
  function Around(h: nat, d: nat, n: nat): (i: nat)
    requires h < n && d <= n
    ensures i < n
  {
    if h + d < n then h + d else h + d - n
  }

  /** The first d frames from h on are all referenced. */
  predicate AllReferenced(memory: seq<Page>, h: nat, d: nat)
    requires h < |memory| && d <= |memory|
  {
    forall i :: 0 <= i < |memory| && Passed(i, h, d, |memory|) ==> memory[i].referenced
  }

  /** How many referenced frames the hand passes, d of them already passed. */
  function ClockSteps(memory: seq<Page>, h: nat, d: nat): (steps: nat)
    requires h < |memory| && d <= |memory|
    ensures d <= steps <= |memory|
    decreases |memory| - d
  {
    if d == |memory| || !memory[Around(h, d, |memory|)].referenced then d
    else ClockSteps(memory, h, d + 1)
  }

  /** Frame i is one of the first d frames from h. */
  predicate Passed(i: nat, h: nat, d: nat, n: nat)
    requires i < n && h < n && d <= n
  {
    if i >= h then i - h < d else i + n - h < d
  }

  function ClearPassed(memory: seq<Page>, h: nat, d: nat): (m: seq<Page>)
    requires h < |memory| && d <= |memory|
    ensures |m| == |memory|
    ensures forall i :: 0 <= i < |m| ==> m[i] == ClearIf(Passed(i, h, d, |memory|), memory[i])
  {
    seq(|memory|, i requires 0 <= i < |memory| => ClearIf(Passed(i, h, d, |memory|), memory[i]))
  }

  function ClearIf(passed: bool, p: Page): Page {
    if passed then p.(referenced := false) else p
  }

  function Fifo(n: nat, s: Store, i: nat, now: int): Store
    requires 1 <= n && i < |s.disk|
  {
    var p := LoadedFifo(s.disk[i], now);
    if |s.memory| >= n then
      s.(memory := s.memory[1..] + [p], disk := RemoveAt(s.disk + [s.memory[0]], i))
    else
      s.(memory := s.memory + [p], disk := RemoveAt(s.disk, i))
  }

  function Lru(n: nat, s: Store, i: nat, now: int): Store
    requires 1 <= n && i < |s.disk|
  {
    var p := LoadedLru(s.disk[i], now);
    if |s.memory| >= n then
      var v := LruVictim(s.memory);
      s.(memory := s.memory[v := p], disk := RemoveAt(s.disk + [s.memory[v]], i))
    else
      s.(memory := s.memory + [p], disk := RemoveAt(s.disk, i))
  }

  function SweepStart(n: nat, s: Store): (h: nat)
    requires 1 <= n
    ensures h < n
  {
    Normalised(s.hand, n)
  }

  function SweepSteps(n: nat, s: Store): (d: nat)
    requires 1 <= n == |s.memory|
    ensures d <= n
  {
    ClockSteps(s.memory, SweepStart(n, s), 0)
  }

  /** The frame CLOCK evicts from a full memory of n frames. */
  function ClockVictim(n: nat, s: Store): (v: nat)
    requires 1 <= n == |s.memory|
    ensures v < n
  {
    Around(SweepStart(n, s), SweepSteps(n, s), n)
  }

  function Clock(n: nat, s: Store, i: nat, now: int): Store
    requires 1 <= n && i < |s.disk| && |s.memory| <= n
  {
    var p := LoadedClock(s.disk[i], now);
    if |s.memory| < n then
      s.(memory := s.memory + [p], disk := RemoveAt(s.disk, i))
    else
      var cleared := ClearPassed(s.memory, SweepStart(n, s), SweepSteps(n, s));
      var v := ClockVictim(n, s);
      Store(cleared[v := p], RemoveAt(s.disk + [cleared[v]], i), v + 1)
  }

  function Replace(alg: Algorithm, n: nat, s: Store, page: Page, now: int): (Store, Outcome)
    requires 1 <= n && |s.memory| <= n
  {
    if s.disk == [] || page.lifeTime == 0 then (s, Skipped)
    else
      var i := FindPage(s.disk, page.Key());
      if i == |s.disk| then (s, NotFound)
      else (match alg
            case FIFO => Fifo(n, s, i, now)
            case LRU => Lru(n, s, i, now)
            case CLOCK => Clock(n, s, i, now), Loaded)
  }

  // ---------------------------------------------------------------- the two lists, updated in place

  class Frames {
    var memory: seq<Page>
    var disk: seq<Page>
    var hand: nat
    const n: nat

    constructor (n: nat)
      ensures this.n == n && Contents() == Store([], [], 0)
    {
      this.n := n;
      memory, disk, hand := [], [], 0;
    }

    ghost function Contents(): Store
      reads this
    {
      Store(memory, disk, hand)
    }

    /** The search all three algorithms start with. */
    method Search(key: (nat, nat)) returns (i: nat)
      ensures i == FindPage(disk, key)
    {
      i := 0;
      while i < |disk| && disk[i].Key() != key
        invariant 0 <= i <= |disk|
        invariant forall j :: 0 <= j < i ==> disk[j].Key() != key
      {
        i := i + 1;
      }
    }

    method RunFifo(page: Page, now: int) returns (outcome: Outcome)
      requires 1 <= n && |memory| <= n
      modifies this
      ensures (Contents(), outcome) == Replace(FIFO, n, old(Contents()), page, now)
    {
      if disk == [] || page.lifeTime == 0 {
        return Skipped;
      }
      var i := Search(page.Key());
      if i >= |disk| {
        return NotFound;
      }
      if |memory| >= n {
        disk := disk + [memory[0]];
        memory := memory[1..];
      }
      memory := memory + [LoadedFifo(disk[i], now)];
      disk := RemoveAt(disk, i);
      return Loaded;
    }

    method RunLru(page: Page, now: int) returns (outcome: Outcome)
      requires 1 <= n && |memory| <= n
      modifies this
      ensures (Contents(), outcome) == Replace(LRU, n, old(Contents()), page, now)
    {
      if disk == [] || page.lifeTime == 0 {
        return Skipped;
      }
      var i := Search(page.Key());
      if i >= |disk| {
        return NotFound;
      }
      if |memory| >= n {
        var lru, j := 0, |memory|;
        while j > 0
          invariant 0 <= j <= |memory| && lru < |memory|
          invariant forall k :: j <= k < |memory| ==> memory[lru].lastTimeUsed <= memory[k].lastTimeUsed
          invariant memory[lru].lastTimeUsed <= memory[0].lastTimeUsed
          invariant lru != 0 ==> lru >= j && memory[lru].lastTimeUsed < memory[0].lastTimeUsed
          invariant lru != 0 ==> forall k :: lru < k < |memory| ==> memory[lru].lastTimeUsed < memory[k].lastTimeUsed
        {
          j := j - 1;
          if memory[j].lastTimeUsed < memory[lru].lastTimeUsed {
            lru := j;
          }
        }
        LruVictimUnique(memory, lru, LruVictim(memory));
        disk := disk + [memory[lru]];
        memory := memory[lru := LoadedLru(disk[i], now)];
      } else {
        memory := memory + [LoadedLru(disk[i], now)];
      }
      disk := RemoveAt(disk, i);
      return Loaded;
    }

    /** The endless loop of CLOCK up to its break: terminates because the hand passes a frame
        at most once before the bits it cleared stop it. */
    method Sweep()
      requires 1 <= n == |memory|
      modifies `memory, `hand
      ensures var h, steps := SweepStart(n, old(Contents())), SweepSteps(n, old(Contents()));
              hand == ClockVictim(n, old(Contents())) && memory == ClearPassed(old(memory), h, steps)
    {
      ghost var before, h, d := memory, Normalised(hand, n), 0;
      while true
        invariant 0 <= d <= n && |memory| == n
        invariant Normalised(hand, n) == Around(h, d, n)
        invariant AllReferenced(before, h, d)
        invariant memory == ClearPassed(before, h, d)
        decreases n - d
      {
        if hand >= n {
          hand := 0;
        }
        if memory[hand].referenced {
          memory := memory[hand := memory[hand].(referenced := false)];
          hand := hand + 1;
          d := d + 1;
        } else {
          ClockStepsUnique(before, h, d);
          break;
        }
      }
    }

    method RunClock(page: Page, now: int) returns (outcome: Outcome)
      requires 1 <= n && |memory| <= n
      modifies this
      ensures (Contents(), outcome) == Replace(CLOCK, n, old(Contents()), page, now)
    {
      if disk == [] || page.lifeTime == 0 {
        return Skipped;
      }
      var i := Search(page.Key());
      if i >= |disk| {
        return NotFound;
      }
      if |memory| < n {
        memory := memory + [LoadedClock(disk[i], now)];
      } else {
        Sweep();
        disk := disk + [memory[hand]];
        memory := memory[hand := LoadedClock(disk[i], now)];
        hand := hand + 1;
      }
      disk := RemoveAt(disk, i);
      return Loaded;
    }

    method Run(alg: Algorithm, page: Page, now: int) returns (outcome: Outcome)
      requires 1 <= n && |memory| <= n
      modifies this
      ensures (Contents(), outcome) == Replace(alg, n, old(Contents()), page, now)
    {
      match alg {
        case FIFO => outcome := RunFifo(page, now);
        case LRU => outcome := RunLru(page, now);
        case CLOCK => outcome := RunClock(page, now);
      }
    }
  }

  // ---------------------------------------------------------------- the clock sweep

  lemma {:induction false} ClockStepsSpec(memory: seq<Page>, h: nat, d: nat)
    requires h < |memory| && d <= |memory| && AllReferenced(memory, h, d)
    ensures var steps := ClockSteps(memory, h, d);
            && AllReferenced(memory, h, steps)
            && (steps < |memory| ==> !memory[Around(h, steps, |memory|)].referenced)
    decreases |memory| - d
  {
    if d < |memory| && memory[Around(h, d, |memory|)].referenced {
      ClockStepsSpec(memory, h, d + 1);
    }
  }

  lemma ClockStepsUnique(memory: seq<Page>, h: nat, d: nat)
    requires h < |memory| && d <= |memory| && AllReferenced(memory, h, d)
    requires d < |memory| ==> !memory[Around(h, d, |memory|)].referenced
    ensures d == ClockSteps(memory, h, 0)
  {
    ClockStepsSpec(memory, h, 0);
    var e := ClockSteps(memory, h, 0);
    assert d < e ==> Passed(Around(h, d, |memory|), h, e, |memory|);
    assert e < d ==> Passed(Around(h, e, |memory|), h, d, |memory|);
  }

  /** CLOCK on a full memory: the hand passes at most n frames, evicts the first unreferenced
      frame from the normalised hand on (the frame under it if all are referenced), and
      clears exactly the bits of the frames it passed. */
  lemma ClockEvictsFirstUnreferenced(n: nat, s: Store, i: nat, now: int)
    requires 1 <= n == |s.memory| && i < |s.disk|
    ensures var h, steps, v := Normalised(s.hand, n), SweepSteps(n, s), ClockVictim(n, s);
            var r := Clock(n, s, i, now);
            && r.hand == v + 1
            && AllReferenced(s.memory, h, steps)
            && (if steps < n then v == Around(h, steps, n) && !s.memory[v].referenced else v == h)
            && (forall k :: 0 <= k < n && k != v ==> r.memory[k] == ClearIf(Passed(k, h, steps, n), s.memory[k]))
            && r.memory[v] == LoadedClock(s.disk[i], now)
  {
    ClockStepsSpec(s.memory, SweepStart(n, s), 0);
  }

  // ---------------------------------------------------------------- what replacement keeps

  function IdentityList(q: seq<Page>): (r: seq<(nat, nat, nat, nat)>)
    ensures |r| == |q| && forall i :: 0 <= i < |q| ==> r[i] == q[i].Identity()
  {
    seq(|q|, i requires 0 <= i < |q| => q[i].Identity())
  }

  /** The pages of a list, told apart by identity and counted. */
  function Identities(q: seq<Page>): multiset<(nat, nat, nat, nat)> {
    multiset(IdentityList(q))
  }

  lemma IdentitiesAppend(a: seq<Page>, b: seq<Page>)
    ensures Identities(a + b) == Identities(a) + Identities(b)
  {
    assert IdentityList(a + b) == IdentityList(a) + IdentityList(b);
  }

  lemma IdentitiesRemove(q: seq<Page>, i: nat)
    requires i < |q|
    ensures Identities(RemoveAt(q, i)) + multiset{q[i].Identity()} == Identities(q)
  {
    assert IdentityList(RemoveAt(q, i)) == RemoveAt(IdentityList(q), i);
    RemoveAtMultiset(IdentityList(q), i);
  }

  lemma IdentitiesUpdate(q: seq<Page>, i: nat, p: Page)
    requires i < |q|
    ensures Identities(q[i := p]) + multiset{q[i].Identity()} == Identities(q) + multiset{p.Identity()}
  {
    assert IdentityList(q[i := p]) == IdentityList(q)[i := p.Identity()];
  }

  lemma IdentitiesMove(memory: seq<Page>, disk: seq<Page>, i: nat, p: Page)
    requires i < |disk| && p.Identity() == disk[i].Identity()
    ensures Identities(memory + [p]) + Identities(RemoveAt(disk, i)) == Identities(memory) + Identities(disk)
  {
    IdentitiesAppend(memory, [p]);
    IdentitiesRemove(disk, i);
    assert IdentityList([p]) == [p.Identity()];
  }

  lemma IdentitiesSwap(memory: seq<Page>, disk: seq<Page>, v: nat, i: nat, p: Page)
    requires v < |memory| && i < |disk| && p.Identity() == disk[i].Identity()
    ensures Identities(memory[v := p]) + Identities(RemoveAt(disk + [memory[v]], i)) == Identities(memory) + Identities(disk)
  {
    IdentitiesUpdate(memory, v, p);
    IdentitiesRemove(disk + [memory[v]], i);
    IdentitiesAppend(disk, [memory[v]]);
    assert IdentityList([memory[v]]) == [memory[v].Identity()];
    assert (disk + [memory[v]])[i] == disk[i];
    var x, y := multiset{memory[v].Identity()}, multiset{p.Identity()};
    var a, b := Identities(memory[v := p]), Identities(RemoveAt(disk + [memory[v]], i));
    forall e
      ensures (a + b)[e] == (Identities(memory) + Identities(disk))[e]
    {
      assert (a + x)[e] == (Identities(memory) + y)[e] && (b + y)[e] == (Identities(disk) + x)[e];
    }
  }

  lemma IdentitiesRotate(memory: seq<Page>, disk: seq<Page>, i: nat, p: Page)
    requires memory != [] && i < |disk| && p.Identity() == disk[i].Identity()
    ensures Identities(memory[1..] + [p]) + Identities(RemoveAt(disk + [memory[0]], i)) == Identities(memory) + Identities(disk)
  {
    IdentitiesMove(memory[1..], disk + [memory[0]], i, p);
    IdentitiesAppend(disk, [memory[0]]);
    IdentitiesAppend([memory[0]], memory[1..]);
    assert [memory[0]] + memory[1..] == memory;
  }

  /** Each replacement moves pages between the two lists and loses, invents or renames none. */
  lemma ReplaceConservesPages(alg: Algorithm, n: nat, s: Store, page: Page, now: int)
    requires 1 <= n && |s.memory| <= n
    ensures var r := Replace(alg, n, s, page, now).0;
            && Identities(r.memory) + Identities(r.disk) == Identities(s.memory) + Identities(s.disk)
            && |r.memory| <= n
  {
    if Replace(alg, n, s, page, now).1 == Loaded {
      var i := FindPage(s.disk, page.Key());
      match alg
      case FIFO =>
        if |s.memory| >= n {
          IdentitiesRotate(s.memory, s.disk, i, LoadedFifo(s.disk[i], now));
        } else {
          IdentitiesMove(s.memory, s.disk, i, LoadedFifo(s.disk[i], now));
        }
      case LRU =>
        if |s.memory| >= n {
          IdentitiesSwap(s.memory, s.disk, LruVictim(s.memory), i, LoadedLru(s.disk[i], now));
        } else {
          IdentitiesMove(s.memory, s.disk, i, LoadedLru(s.disk[i], now));
        }
      case CLOCK =>
        if |s.memory| >= n {
          var cleared := ClearPassed(s.memory, SweepStart(n, s), SweepSteps(n, s));
          assert IdentityList(s.memory) == IdentityList(cleared);
          IdentitiesSwap(cleared, s.disk, ClockVictim(n, s), i, LoadedClock(s.disk[i], now));
        } else {
          IdentitiesMove(s.memory, s.disk, i, LoadedClock(s.disk[i], now));
        }
    }
  }

  /** A page that was loaded under this algorithm at this time. */
  predicate IsLoaded(alg: Algorithm, f: Page, page: Page, now: int) {
    && f.value == page.value && f.pid == page.pid
    && (alg == LRU ==> f.lastTimeUsed == now) && (alg == CLOCK ==> f.referenced)
  }

  /** A page that is wanted and on disk is found and put into memory, with its stamp under LRU and its
      reference bit under CLOCK; a page without life is never loaded. */
  lemma ReplaceFinds(alg: Algorithm, n: nat, s: Store, page: Page, now: int)
    requires 1 <= n && |s.memory| <= n
    requires exists i :: 0 <= i < |s.disk| && s.disk[i].Key() == page.Key()
    ensures var (r, outcome) := Replace(alg, n, s, page, now);
            if page.lifeTime == 0 then outcome == Skipped && r == s
            else outcome == Loaded && exists i :: 0 <= i < |r.memory| && IsLoaded(alg, r.memory[i], page, now)
  {
    var i := FindPage(s.disk, page.Key());
    assert i < |s.disk|;
    if page.lifeTime > 0 {
      var r := Replace(alg, n, s, page, now).0;
      if |s.memory| < n {
        assert IsLoaded(alg, r.memory[|s.memory|], page, now);
      } else {
        match alg
        case FIFO => assert IsLoaded(alg, r.memory[|r.memory| - 1], page, now);
        case LRU => assert IsLoaded(alg, r.memory[LruVictim(s.memory)], page, now);
        case CLOCK => assert IsLoaded(alg, r.memory[ClockVictim(n, s)], page, now);
      }
    }
  }

  /** Where a loaded page goes: behind the others while there is room, and under LRU and CLOCK to the
      place of the frame it replaces, the others staying where they are. */
  lemma ReplacePlaces(alg: Algorithm, n: nat, s: Store, page: Page, now: int)
    requires 1 <= n && |s.memory| <= n && Replace(alg, n, s, page, now).1 == Loaded
    ensures var m := Replace(alg, n, s, page, now).0.memory;
            if |s.memory| < n then |m| == |s.memory| + 1 && s.memory <= m && m[|s.memory|].Key() == page.Key()
            else
              && |m| == n
              && (alg == LRU ==>
                    forall j, v :: 0 <= j < n && IsLruVictim(s.memory, v) ==>
                      if j == v then m[j].Key() == page.Key() else m[j] == s.memory[j])
              && (alg == CLOCK ==>
                    exists v :: 0 <= v < n && m[v].Key() == page.Key() &&
                      forall j :: 0 <= j < n && j != v ==> m[j].Identity() == s.memory[j].Identity())
  {
    if |s.memory| == n {
      if alg == LRU {
        forall v | IsLruVictim(s.memory, v)
          ensures v == LruVictim(s.memory)
        {
          LruVictimUnique(s.memory, v, LruVictim(s.memory));
        }
      } else if alg == CLOCK {
        assert Replace(alg, n, s, page, now).0.memory[ClockVictim(n, s)].Key() == page.Key();
      }
    }
  }

  // ---------------------------------------------------------------- FIFO over hits and loads

  /** What happens to memory between two removals. */
  datatype FrameOp = HitAt(frame: nat, now: int) | LoadOf(page: Page, now: int)

  function Keys(q: seq<Page>): (r: seq<(nat, nat)>)
    ensures |r| == |q| && forall i :: 0 <= i < |q| ==> r[i] == q[i].Key()
  {
    seq(|q|, i requires 0 <= i < |q| => q[i].Key())
  }

  predicate Possible(n: nat, s: Store, op: FrameOp)
    requires 1 <= n && |s.memory| <= n
  {
    match op
    case HitAt(i, now) => i < |s.memory|
    case LoadOf(page, now) => Replace(FIFO, n, s, page, now).1 == Loaded
  }

  function AfterOp(n: nat, s: Store, op: FrameOp): (r: Store)
    requires 1 <= n && |s.memory| <= n && Possible(n, s, op)
    ensures |r.memory| <= n
  {
    match op
    case HitAt(i, now) => s.(memory := s.memory[i := Hit(s.memory[i], now)])
    case LoadOf(page, now) =>
      ReplaceConservesPages(FIFO, n, s, page, now);
      Replace(FIFO, n, s, page, now).0
  }

  predicate AllPossible(n: nat, s: Store, ops: seq<FrameOp>)
    requires 1 <= n && |s.memory| <= n
    decreases |ops|
  {
    ops != [] ==> Possible(n, s, ops[0]) && AllPossible(n, AfterOp(n, s, ops[0]), ops[1..])
  }

  function AfterOps(n: nat, s: Store, ops: seq<FrameOp>): Store
    requires 1 <= n && |s.memory| <= n && AllPossible(n, s, ops)
    decreases |ops|
  {
    if ops == [] then s else AfterOps(n, AfterOp(n, s, ops[0]), ops[1..])
  }

  function LoadedKeys(ops: seq<FrameOp>): seq<(nat, nat)> {
    if ops == [] then []
    else if ops[0].LoadOf? then [ops[0].page.Key()] + LoadedKeys(ops[1..])
    else LoadedKeys(ops[1..])
  }

  /** FIFO on a full memory: whatever hits come between them, k loads evict the k frames that
      have been there longest, and the loaded pages stand behind the rest in the order of their
      loads.  Memory is a window of n keys that moves on by one for every load. */
  lemma {:induction false} FifoEvictsInLoadOrder(n: nat, s: Store, ops: seq<FrameOp>)
    requires 1 <= n == |s.memory| && AllPossible(n, s, ops)
    ensures Keys(AfterOps(n, s, ops).memory) == (Keys(s.memory) + LoadedKeys(ops))[|LoadedKeys(ops)|..]
    decreases |ops|
  {
    if ops == [] {
      assert Keys(s.memory) + [] == Keys(s.memory);
    } else {
      OneOp(n, s, ops[0]);
      FifoEvictsInLoadOrder(n, AfterOp(n, s, ops[0]), ops[1..]);
      if ops[0].LoadOf? {
        WindowMoves(Keys(s.memory), ops[0].page.Key(), LoadedKeys(ops[1..]));
      }
    }
  }

  lemma WindowMoves<T>(q: seq<T>, x: T, rest: seq<T>)
    requires q != []
    ensures ((q[1..] + [x]) + rest)[|rest|..] == (q + ([x] + rest))[|[x] + rest|..]
  {
    assert (q[1..] + [x]) + rest == (q + ([x] + rest))[1..];
  }

  lemma OneOp(n: nat, s: Store, op: FrameOp)
    requires 1 <= n == |s.memory| && Possible(n, s, op)
    ensures |AfterOp(n, s, op).memory| == n
    ensures Keys(AfterOp(n, s, op).memory)
            == if op.LoadOf? then Keys(s.memory)[1..] + [op.page.Key()] else Keys(s.memory)
  {
  }
}
