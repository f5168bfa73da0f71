/** Short-term scheduling (kernal/include/ProcessSchedulingAlgorithms.h): each policy moves
    one process from the ready queue to the running list and sets the quantum. */
module SchedulingPolicies {
  import opened Seqs
  import opened Processes
  import opened Widths

  const INT_MAX := 0x7fff_ffff

  datatype CpuState = CpuState(ready: seq<Process>, running: seq<Process>, quantum: int)

  /** HRRN and FEEDBACK are kept as a policy that may pick any process and set any quantum. */
  datatype Policy = RR | PRIORITY | SD | LOTTERY | OTHER

  // ---------------------------------------------------------------- specification

  function Started(p: Process, now: int): Process {
    if p.response == -1 then p.(response := now - p.submission) else p
  }

  predicate SameJobs(a: seq<Process>, b: seq<Process>) {
    |a| == |b| && forall i :: 0 <= i < |a| ==> a[i].SameJob(b[i])
  }

  /** The response times of those that stay are left alone; that of the one that moves is the time
      since its submission stamp, set the first time it gets the processor. */
  ghost predicate TimesResponse(c: CpuState, d: CpuState, k: nat, now: int)
    requires k < |c.ready| && |d.running| == 1
  {
    && d.running[0].response == (if c.ready[k].response == -1 then now - c.ready[k].submission else c.ready[k].response)
    && forall i :: 0 <= i < |d.ready| && i < |c.ready| - 1 ==> d.ready[i].response == RemoveAt(c.ready, k)[i].response
  }

  /** All that the simulator relies on: exactly one process moves, into an empty running list. */
  ghost predicate MovesOne(c: CpuState, d: CpuState, k: nat, now: int) {
    && k < |c.ready|
    && |d.running| == 1 && c.ready[k].SameJob(d.running[0])
    && SameJobs(RemoveAt(c.ready, k), d.ready)
    && TimesResponse(c, d, k, now)
  }

  /** A work-conserving policy: it fails only on an empty ready queue, and then changes nothing. */
  ghost predicate WorkConserving(c: CpuState, d: CpuState, ok: bool, now: int) {
    if c.ready == [] then !ok && d == c
    else ok && exists k :: MovesOne(c, d, k, now)
  }

  function Moved(c: CpuState, k: nat, quantum: int, now: int): CpuState
    requires k < |c.ready|
  {
    CpuState(RemoveAt(c.ready, k), c.running + [Started(c.ready[k], now)], quantum)
  }

  lemma MovedMovesOne(c: CpuState, k: nat, quantum: int, now: int)
    requires k < |c.ready| && c.running == []
    ensures MovesOne(c, Moved(c, k, quantum, now), k, now)
  {
  }

  /** k holds the highest priority and is the first to do so. */
  ghost predicate IsFirstMaximum(q: seq<Process>, k: nat) {
    && k < |q|
    && (forall j :: 0 <= j < |q| ==> q[j].priority <= q[k].priority)
    && (forall j :: 0 <= j < k ==> q[j].priority < q[k].priority)
  }

  /** Round robin: with a process running (never so in the simulator) it would swap. */
  function RoundRobin(c: CpuState, now: int): CpuState
    requires c.ready != []
  {
    if c.running == [] then Moved(c, 0, 2, now)
    else CpuState(c.ready[1..] + [c.running[0]], c.running[0 := Started(c.ready[0], now)], 2)
  }

  // ---------------------------------------------------------------- the lottery

  /** The tickets of a queue whose first ticket is `count`, in 32-bit arithmetic. */
  function Ticketed(q: seq<Process>, count: nat): (r: seq<Process>)
    ensures |r| == |q|
  {
    if q == [] then []
    else [q[0].(firstTicket := count, lastTicket := NextTicket(q[0], count))] + Ticketed(q[1..], NextTicket(q[0], count))
  }

  function NextTicket(p: Process, count: nat): nat {
    (count + (p.priority + 1) * 10) % UINT32
  }

  lemma {:induction false} TicketsOnly(q: seq<Process>, count: nat, i: nat)
    requires i < |q|
    ensures q[i].SameJob(Ticketed(q, count)[i]) && q[i].response == Ticketed(q, count)[i].response
  {
    if i > 0 {
      TicketsOnly(q[1..], NextTicket(q[0], count), i - 1);
    }
  }

  predicate Holds(p: Process, draw: nat) {
    p.firstTicket <= draw <= p.lastTicket
  }

  /** The first process that holds the drawn ticket, or the length of the queue. */
  function FirstHolder(q: seq<Process>, draw: nat): (k: nat)
    ensures k <= |q|
    ensures forall j :: 0 <= j < k ==> !Holds(q[j], draw)
    ensures k < |q| ==> Holds(q[k], draw)
  {
    if q == [] || Holds(q[0], draw) then 0 else 1 + FirstHolder(q[1..], draw)
  }

  /** The winner; process 0 if nobody holds the drawn ticket. */
  function Winner(q: seq<Process>, draw: nat): (k: nat)
    requires q != []
    ensures k < |q|
  {
    if FirstHolder(q, draw) < |q| then FirstHolder(q, draw) else 0
  }

  /** The tickets a queue is worth when nothing wraps. */
  function TicketCount(q: seq<Process>): int {
    if q == [] then 0 else (q[0].priority + 1) * 10 + TicketCount(q[1..])
  }

  predicate NonNegative(q: seq<Process>) {
    forall i :: 0 <= i < |q| ==> q[i].priority >= 0
  }

  /** Where process k's tickets start. */
  function FirstOf(q: seq<Process>, k: nat): int
    requires k <= |q|
  {
    TicketCount(q[..k])
  }

  lemma {:induction false} FirstOfStep(q: seq<Process>, k: nat)
    requires k < |q|
    ensures FirstOf(q, k + 1) == FirstOf(q, k) + (q[k].priority + 1) * 10
  {
    if k > 0 {
      assert q[..k + 1][1..] == q[1..][..k] && q[..k][1..] == q[1..][..k - 1];
      FirstOfStep(q[1..], k - 1);
    } else {
      assert q[..1] == [q[0]] && q[..1][1..] == [];
    }
  }

  lemma FirstOfTail(q: seq<Process>, k: nat)
    requires k < |q|
    ensures FirstOf(q, k + 1) == (q[0].priority + 1) * 10 + FirstOf(q[1..], k)
  {
    assert q[..k + 1][1..] == q[1..][..k];
  }

  lemma {:induction false} TicketCountPositive(q: seq<Process>)
    requires NonNegative(q)
    ensures TicketCount(q) >= 10 * |q|
  {
    if q != [] {
      assert forall i :: 0 <= i < |q[1..]| ==> q[1..][i] == q[i + 1];
      TicketCountPositive(q[1..]);
    }
  }

  lemma {:induction false} TicketsDoNotWrap(q: seq<Process>, count: nat, k: nat)
    requires NonNegative(q) && count + TicketCount(q) < UINT32 && k < |q|
    ensures Ticketed(q, count)[k].firstTicket == count + FirstOf(q, k)
    ensures Ticketed(q, count)[k].lastTicket == count + FirstOf(q, k + 1)
  {
    var next := NextTicket(q[0], count);
    assert NonNegative(q[1..]);
    TicketCountPositive(q[1..]);
    assert next == count + (q[0].priority + 1) * 10;
    FirstOfTail(q, k);
    if k == 0 {
      assert FirstOf(q, 0) == 0 && FirstOf(q[1..], 0) == 0;
    } else {
      FirstOfTail(q, k - 1);
      TicketsDoNotWrap(q[1..], next, k - 1);
      assert Ticketed(q, count)[k] == Ticketed(q[1..], next)[k - 1];
    }
  }

  lemma {:induction false} FirstOfMonotone(q: seq<Process>, i: nat, k: nat)
    requires NonNegative(q) && i <= k <= |q|
    ensures FirstOf(q, i) + 10 * (k - i) <= FirstOf(q, k)
    decreases k - i
  {
    if i < k {
      FirstOfStep(q, i);
      FirstOfMonotone(q, i + 1, k);
    }
  }

  /** The draws that process k wins: its own ten per priority level, plus draw 0 for the first. */
  function WinningDraws(q: seq<Process>, k: nat): (nat, nat)
    requires k < |q| && NonNegative(q)
  {
    FirstOfMonotone(q, 0, k);
    FirstOfMonotone(q, 0, k + 1);
    (if k == 0 then 0 else FirstOf(q, k) + 1, FirstOf(q, k + 1))
  }

  /** Draw d selects process k exactly when d lies in k's interval. */
  lemma LotteryWinner(q: seq<Process>, k: nat, draw: nat)
    requires NonNegative(q) && TicketCount(q) < UINT32 && k < |q| && draw <= TicketCount(q)
    ensures Winner(Ticketed(q, 0), draw) == k <==> WinningDraws(q, k).0 <= draw <= WinningDraws(q, k).1
    ensures FirstHolder(Ticketed(q, 0), draw) < |q|
  {
    var t := Ticketed(q, 0);
    forall i | 0 <= i < |q|
      ensures Holds(t[i], draw) <==> FirstOf(q, i) <= draw <= FirstOf(q, i + 1)
    {
      TicketsDoNotWrap(q, 0, i);
    }
    var w := FirstHolder(t, draw);
    if w == |q| {
      assert q[..|q|] == q;
      SomeoneHolds(q, draw, |q|);
      assert false;
    }
    FirstOfMonotone(q, 0, w);
    if w > 0 {
      FirstOfMonotone(q, w - 1, w);
      assert !Holds(t[w - 1], draw);
      LosersBefore(q, t, draw, w - 1);
    }
    if k < w {
      FirstOfMonotone(q, k + 1, w);
    } else if w < k {
      FirstOfMonotone(q, w + 1, k);
    }
  }

  lemma {:induction false} SomeoneHolds(q: seq<Process>, draw: nat, k: nat)
    requires NonNegative(q) && k <= |q| && draw <= FirstOf(q, k) && q != []
    ensures exists i :: 0 <= i < |q| && FirstOf(q, i) <= draw <= FirstOf(q, i + 1)
  {
    if k == 0 || draw >= FirstOf(q, k - 1) {
      var i := if k == 0 then 0 else k - 1;
      FirstOfMonotone(q, i, i + 1);
      assert FirstOf(q, i) <= draw <= FirstOf(q, i + 1);
    } else {
      SomeoneHolds(q, draw, k - 1);
    }
  }

  /** If no process up to i holds the draw, it lies beyond them all. */
  lemma {:induction false} LosersBefore(q: seq<Process>, t: seq<Process>, draw: nat, i: nat)
    requires i < |q| == |t| && NonNegative(q)
    requires forall j :: 0 <= j <= i ==> !(FirstOf(q, j) <= draw <= FirstOf(q, j + 1))
    ensures draw > FirstOf(q, i + 1)
  {
    if i > 0 {
      LosersBefore(q, t, draw, i - 1);
    }
    assert !(FirstOf(q, i) <= draw <= FirstOf(q, i + 1));
  }

  function Interval(lo: nat, hi: nat): (s: set<nat>)
    ensures forall d :: d in s <==> lo <= d <= hi
    ensures |s| == if lo <= hi then hi - lo + 1 else 0
    decreases hi - lo
  {
    if lo > hi then {} else if lo == hi then {hi} else Interval(lo, hi - 1) + {hi}
  }

  /** Process k wins 10 * (priority + 1) of the TicketCount + 1 draws; the first process wins one
      more.  The bound is the source's: it draws a random number modulo the count plus one,
      computed as an int, which from INT_MAX tickets on is not that number. */
  lemma LotteryProportional(q: seq<Process>, k: nat)
    requires NonNegative(q) && TicketCount(q) < INT_MAX && k < |q|
    ensures var wins := set d: nat | d <= TicketCount(q) && Winner(Ticketed(q, 0), d) == k;
            |wins| == 10 * (q[k].priority + 1) + if k == 0 then 1 else 0
  {
    var (lo, hi) := WinningDraws(q, k);
    FirstOfStep(q, k);
    WinsAreInterval(q, k);
    assert |Interval(lo, hi)| == hi - lo + 1;
  }

  lemma WinsAreInterval(q: seq<Process>, k: nat)
    requires NonNegative(q) && TicketCount(q) < UINT32 && k < |q|
    ensures (set d: nat | d <= TicketCount(q) && Winner(Ticketed(q, 0), d) == k)
         == Interval(WinningDraws(q, k).0, WinningDraws(q, k).1)
  {
    var (lo, hi) := WinningDraws(q, k);
    forall d: nat
      ensures d <= TicketCount(q) && Winner(Ticketed(q, 0), d) == k <==> d in Interval(lo, hi)
    {
      WinsInInterval(q, k, d);
    }
  }

  lemma WinsInInterval(q: seq<Process>, k: nat, draw: nat)
    requires NonNegative(q) && TicketCount(q) < UINT32 && k < |q|
    ensures draw <= TicketCount(q) && Winner(Ticketed(q, 0), draw) == k <==> WinningDraws(q, k).0 <= draw <= WinningDraws(q, k).1
  {
    FirstOfMonotone(q, k + 1, |q|);
    assert q[..|q|] == q;
    if draw <= TicketCount(q) {
      LotteryWinner(q, k, draw);
    }
  }

  // ---------------------------------------------------------------- the queues, updated in place

  class Cpu {
    var ready: seq<Process>
    var running: seq<Process>
    var quantum: int

    constructor ()
      ensures Contents() == CpuState([], [], 0)
    {
      ready, running, quantum := [], [], 0;
    }

    ghost function Contents(): CpuState
      reads this
    {
      CpuState(ready, running, quantum)
    }

    /** The common end of every policy but RR. */
    method Move(k: nat, q: int, now: int)
      requires k < |ready|
      modifies this
      ensures Contents() == Moved(old(Contents()), k, q, now)
    {
      quantum := q;
      if ready[k].response == -1 {
        ready := ready[k := ready[k].(response := now - ready[k].submission)];
      }
      running := running + [ready[k]];
      ready := RemoveAt(ready, k);
      assert ready == RemoveAt(old(ready), k);
    }

    method RunRR(now: int) returns (ok: bool)
      modifies this
      ensures ok == (old(ready) != [])
      ensures Contents() == if ok then RoundRobin(old(Contents()), now) else old(Contents())
    {
      if ready == [] {
        return false;
      }
      quantum := 2;
      if ready[0].response == -1 {
        ready := ready[0 := ready[0].(response := now - ready[0].submission)];
      }
      if running != [] {
        ready := ready + [running[0]];
        running := running[0 := ready[0]];
      } else {
        running := running + [ready[0]];
      }
      ready := RemoveAt(ready, 0);
      return true;
    }

    method RunPriority(now: int) returns (ok: bool)
      modifies this
      ensures ok == (old(ready) != [])
      ensures if ok then exists k :: IsFirstMaximum(old(ready), k) && Contents() == Moved(old(Contents()), k, INT_MAX, now)
              else Contents() == old(Contents())
    {
      if ready == [] {
        return false;
      }
      var priority, max, i := ready[0].priority, 0, 0;
      while i < |ready|
        invariant 0 <= i <= |ready| && max < |ready| && (i > 0 ==> max < i) && (i == 0 ==> max == 0)
        invariant priority == ready[max].priority
        invariant forall j :: 0 <= j < i ==> ready[j].priority <= priority
        invariant forall j :: 0 <= j < max ==> ready[j].priority < priority
      {
        if ready[i].priority > priority {
          priority := ready[i].priority;
          max := i;
        }
        i := i + 1;
      }
      assert IsFirstMaximum(ready, max);
      Move(max, INT_MAX, now);
      return true;
    }

    /** `most` is the policy's own copy of the multiprogramming limit. */
    method RunSD(most: nat, now: int) returns (ok: bool)
      modifies this
      ensures ok == (old(ready) != [])
      ensures Contents() == if ok then Moved(old(Contents()), 0, most / |old(ready)|, now) else old(Contents())
    {
      if ready == [] {
        return false;
      }
      Move(0, most / |ready|, now);
      return true;
    }

    method DealTickets()
      modifies `ready
      ensures ready == Ticketed(old(ready), 0)
    {
      ghost var q := ready;
      var count, i := 0, 0;
      while i < |ready|
        invariant 0 <= i <= |ready| == |q| && count >= 0
        invariant ready[i..] == q[i..]
        invariant ready[..i] + Ticketed(q[i..], count) == Ticketed(q, 0)
      {
        var next := NextTicket(ready[i], count);
        var p := ready[i].(firstTicket := count, lastTicket := next);
        assert ready[i] == ready[i..][0] == q[i] && q[i..][1..] == q[i + 1..];
        assert Ticketed(q[i..], count) == [p] + Ticketed(q[i + 1..], next);
        ready := ready[i := p];
        assert ready[..i + 1] == ready[..i] + [p];
        count := next;
        i := i + 1;
      }
    }

    method RunLottery(draw: nat, now: int) returns (ok: bool)
      modifies this
      ensures ok == (old(ready) != [])
      ensures if !ok then Contents() == old(Contents())
              else var t := Ticketed(old(ready), 0);
                   Contents() == Moved(old(Contents()).(ready := t), Winner(t, draw), 2, now)
    {
      if ready == [] {
        return false;
      }
      DealTickets();
      var winner, idx := 0, 0;
      while idx < |ready|
        invariant 0 <= idx <= |ready|
        invariant forall j :: 0 <= j < idx ==> !Holds(ready[j], draw)
        invariant winner == 0
      {
        if Holds(ready[idx], draw) {
          winner := idx;
          break;
        }
        idx := idx + 1;
      }
      assert winner == Winner(ready, draw);
      Move(winner, 2, now);
      return true;
    }

    /** Any other policy: some index, some quantum. */
    method RunOther(pick: nat, q: int, now: int) returns (ok: bool)
      modifies this
      ensures ok == (old(ready) != [])
      ensures Contents() == if ok then Moved(old(Contents()), pick % |old(ready)|, q, now) else old(Contents())
    {
      if ready == [] {
        return false;
      }
      Move(pick % |ready|, q, now);
      return true;
    }

    /** The policy the simulation was started with, on an idle processor.  `draw` stands for
        the random number of LOTTERY and the choice of OTHER. */
    method Run(policy: Policy, most: nat, draw: nat, q: int, now: int) returns (ok: bool)
      requires running == []
      modifies this
      ensures WorkConserving(old(Contents()), Contents(), ok, now)
      ensures policy == RR && ok ==> Contents() == Moved(old(Contents()), 0, 2, now)
      ensures policy == PRIORITY && ok ==>
                exists k :: IsFirstMaximum(old(ready), k) && Contents() == Moved(old(Contents()), k, INT_MAX, now)
      ensures policy == SD && ok ==> Contents() == Moved(old(Contents()), 0, most / |old(ready)|, now)
      ensures policy == LOTTERY && ok ==>
                var t := Ticketed(old(ready), 0); Contents() == Moved(old(Contents()).(ready := t), Winner(t, draw), 2, now)
    {
      ghost var c := Contents();
      match policy {
        case RR =>
          ok := RunRR(now);
          if ok { MovedMovesOne(c, 0, 2, now); }
        case PRIORITY =>
          ok := RunPriority(now);
          if ok {
            ghost var k :| IsFirstMaximum(c.ready, k) && Contents() == Moved(c, k, INT_MAX, now);
            MovedMovesOne(c, k, INT_MAX, now);
          }
        case SD =>
          ok := RunSD(most, now);
          if ok { MovedMovesOne(c, 0, most / |c.ready|, now); }
        case LOTTERY =>
          ok := RunLottery(draw, now);
          if ok {
            ghost var t := Ticketed(c.ready, 0);
            MovedMovesOne(c.(ready := t), Winner(t, draw), 2, now);
            TicketsKeepJobs(c, Contents(), Winner(t, draw), now);
          }
        case OTHER =>
          ok := RunOther(draw, q, now);
          if ok { MovedMovesOne(c, draw % |c.ready|, q, now); }
      }
    }
  }

  /** Handing out tickets does not change the jobs that are moved. */
  lemma TicketsKeepJobs(c: CpuState, d: CpuState, k: nat, now: int)
    requires MovesOne(c.(ready := Ticketed(c.ready, 0)), d, k, now)
    ensures MovesOne(c, d, k, now)
  {
    var t := Ticketed(c.ready, 0);
    forall i | 0 <= i < |d.ready|
      ensures RemoveAt(c.ready, k)[i].SameJob(d.ready[i]) && d.ready[i].response == RemoveAt(c.ready, k)[i].response
    {
      assert RemoveAt(t, k)[i].SameJob(d.ready[i]) && d.ready[i].response == RemoveAt(t, k)[i].response;
      TicketsOnly(c.ready, 0, if i < k then i else i + 1);
    }
    TicketsOnly(c.ready, 0, k);
    assert t[k].submission == c.ready[k].submission;
  }
}
