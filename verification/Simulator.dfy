/** The simulator itself (kernal/Process_scheduling/Simulate.cpp): its vectors and counters,
    edited in place, each method tied to the step of SimState that it performs. */
module Simulation {
  import opened Seqs
  import opened Processes
  import opened PageReplacement
  import opened SchedulingPolicies
  import opened SimState
  import opened SimInvariants
  import opened SimTermination
  import opened SimAccounting
  import opened SimPaging

  class Simulator {
    const max: int
    const alg: Algorithm
    const policy: Policy
    const most: nat
    const cpu: Cpu
    const frames: Frames

    var incoming: seq<Process>
    var waiting: seq<Process>
    var blocked: seq<Process>
    var blockedSuspended: seq<Process>
    var readySuspended: seq<Process>
    var elapsed: int
    var idle: bool
    var idleTime: int
    var created: nat
    var stats: Statistics
    var hits: nat
    var misses: nat
    var exited: bool
    ghost var terminated: seq<Process>
    ghost var misjudged: bool

    ghost function Snapshot(): State
      reads this, cpu, frames
    {
      State(max, frames.n, alg, incoming, waiting, cpu.Contents(), blocked, blockedSuspended, readySuspended,
            frames.Contents(), elapsed, idle, idleTime, created, stats, hits, misses, terminated, exited,
            misjudged)
    }

    ghost predicate Valid()
      reads this, cpu, frames
    {
      FramesOK(Snapshot())
    }

    /** `frameCount` is numberOfMemoryFrames, `most` the copy of the limit that SD divides. */
    constructor (max: int, frameCount: nat, alg: Algorithm, policy: Policy, most: nat)
      requires frameCount >= 1
      ensures Valid() && fresh(cpu) && fresh(frames) && this.policy == policy
      ensures Snapshot() == Initial(max, frameCount, alg)
    {
      this.max, this.alg, this.policy, this.most := max, alg, policy, most;
      cpu := new Cpu();
      frames := new Frames(frameCount);
      incoming, waiting, blocked, blockedSuspended, readySuspended := [], [], [], [], [];
      elapsed, idle, idleTime, created := 0, true, 0, 0;
      stats := Statistics(0, 0, 0, 0);
      hits, misses, exited, terminated, misjudged := 0, 0, false, [], false;
    }

    method IsSysFull() returns (full: bool)
      ensures full == Snapshot().SysFull()
    {
      var level := |cpu.running| + |cpu.ready| + |blocked|;
      full := (max - level) % SIZE_T <= 0;
    }

    method EmptyQueue() returns (empty: bool)
      ensures empty == Snapshot().Finished()
    {
      empty := incoming == [] && waiting == [] && readySuspended == [] && cpu.ready == []
               && blocked == [] && blockedSuspended == [] && idle;
    }

    method PushPages(pages: seq<Page>)
      modifies frames`disk
      ensures frames.disk == old(frames.disk) + pages
    {
      var i := 0;
      while i < |pages|
        invariant 0 <= i <= |pages|
        invariant frames.disk == old(frames.disk) + pages[..i]
      {
        frames.disk := frames.disk + [pages[i]];
        i := i + 1;
      }
    }

    method StartProcess(j: Job)
      requires Valid()
      modifies this, cpu, frames
      ensures Valid() && Snapshot() == SimState.StartProcess(old(Snapshot()), j)
    {
      var p := Create(j);
      if p.submission == 0 {
        var full := IsSysFull();
        if !full {
          cpu.ready := cpu.ready + [p];
        } else {
          waiting := waiting + [p];
        }
        PushPages(p.pages);
      } else {
        incoming := incoming + [p];
      }
      created := created + 1;
    }

    method CheckIncomingQueue()
      requires Valid()
      modifies this`incoming, this`waiting, frames`disk
      ensures Valid() && Snapshot() == Arrive(old(Snapshot()))
    {
      ghost var q := incoming;
      DrainIncoming();
      assert q[0..] == q;
    }

    /** The loop of CheckIncomingQueue. */
    method DrainIncoming()
      modifies this`incoming, this`waiting, frames`disk
      ensures Drained(DueBy(elapsed), old(incoming), 0, old(waiting), old(frames.disk), incoming, waiting, frames.disk)
    {
      ghost var q, w, disk, due := incoming, waiting, frames.disk, DueBy(elapsed);
      var i := |incoming|;
      while i > 0
        invariant 0 <= i <= |q|
        invariant Drained(due, q, i, w, disk, incoming, waiting, frames.disk)
      {
        i := i - 1;
        DrainStep(due, q, i, w, disk, incoming, waiting, frames.disk);
        if incoming[i].submission - elapsed <= 0 {
          PushPages(incoming[i].pages);
          waiting := waiting + [incoming[i]];
          incoming := RemoveAt(incoming, i);
        }
      }
    }

    /** The admission loop of StartSimulation. */
    method AdmitWaiting()
      requires Valid()
      modifies this, cpu, frames
      ensures Valid() && Snapshot() == Admit(old(Snapshot()))
    {
      var full := IsSysFull();
      while !full
        invariant Valid()
        invariant full == Snapshot().SysFull()
        invariant Admit(Snapshot()) == Admit(old(Snapshot()))
        decreases |waiting|, !full
      {
        if waiting == [] {
          break;
        }
        AdmitFirst();
        full := IsSysFull();
      }
    }

    method AdmitFirst()
      requires Valid() && waiting != []
      modifies this, cpu, frames
      ensures Valid() && Snapshot() == AdmitOne(old(Snapshot()))
    {
      waiting := waiting[0 := waiting[0].Stamp(elapsed)];
      cpu.ready := cpu.ready + [waiting[0]];
      waiting := waiting[1..];
      var page := if cpu.ready[|cpu.ready| - 1].pages == [] then NO_PAGE else cpu.ready[|cpu.ready| - 1].pages[0];
      LoadPage(page);
    }

    method LoadPage(page: Page)
      requires Valid()
      modifies this, frames
      ensures Snapshot() == Load(old(Snapshot()), page) && Valid()
    {
      ReplaceConservesPages(alg, frames.n, frames.Contents(), page, elapsed);
      ghost var s := Snapshot();
      var outcome := frames.Run(alg, page, elapsed);
      misjudged := misjudged || EvictsFresh(s, outcome);
      if outcome == NotFound {
        exited := true;
      }
    }

    method CheckBlockedQueue()
      requires Valid()
      modifies this, cpu
      ensures Valid() && Snapshot() == CheckBlocked(old(Snapshot()))
    {
      CheckBlockedOnly();
      CheckBlockedSuspended();
    }

    /** The first loop of CheckBlockedQueue. */
    method CheckBlockedOnly()
      modifies this`blocked, cpu`ready
      ensures blocked == Kept(OverIf(waiting == []), DecrementAll(old(blocked)))
      ensures cpu.ready == old(cpu.ready) + Taken(OverIf(waiting == []), DecrementAll(old(blocked)))
    {
      ghost var q, ready, over := blocked, cpu.ready, OverIf(waiting == []);
      var i := |blocked|;
      while i > 0
        invariant 0 <= i <= |q|
        invariant Walked(over, q, i, ready, blocked, cpu.ready)
      {
        i := i - 1;
        WalkStep(over, q, i, ready, blocked, cpu.ready);
        if blocked[i].block > 0 {
          blocked := blocked[i := blocked[i].DecrementBlockTime()];
        }
        if blocked[i].block <= 0 && waiting == [] {
          cpu.ready := cpu.ready + [blocked[i]];
          blocked := RemoveAt(blocked, i);
        }
      }
    }

    /** The second loop of CheckBlockedQueue. */
    method CheckBlockedSuspended()
      modifies this`blockedSuspended, this`readySuspended
      ensures blockedSuspended == Kept(OverIf(true), DecrementAll(old(blockedSuspended)))
      ensures readySuspended == old(readySuspended) + Taken(OverIf(true), DecrementAll(old(blockedSuspended)))
    {
      ghost var q, ready, over := blockedSuspended, readySuspended, OverIf(true);
      var i := |blockedSuspended|;
      while i > 0
        invariant 0 <= i <= |q|
        invariant Walked(over, q, i, ready, blockedSuspended, readySuspended)
      {
        i := i - 1;
        WalkStep(over, q, i, ready, blockedSuspended, readySuspended);
        if blockedSuspended[i].block > 0 {
          blockedSuspended := blockedSuspended[i := blockedSuspended[i].DecrementBlockTime()];
        }
        if blockedSuspended[i].block <= 0 {
          readySuspended := readySuspended + [blockedSuspended[i]];
          blockedSuspended := RemoveAt(blockedSuspended, i);
        }
      }
    }

    method CheckReadySuspendedQueue()
      requires Valid()
      modifies this, cpu
      ensures Valid() && Snapshot() == Readmit(old(Snapshot()))
    {
      var full := IsSysFull();
      while waiting == [] && readySuspended != [] && !full
        invariant Valid()
        invariant full == Snapshot().SysFull()
        invariant Readmit(Snapshot()) == Readmit(old(Snapshot()))
        decreases |readySuspended|
      {
        readySuspended := readySuspended[0 := readySuspended[0].Stamp(elapsed).(readmitted := true)];
        cpu.ready := cpu.ready + [readySuspended[0]];
        readySuspended := readySuspended[1..];
        full := IsSysFull();
      }
    }

    method RemovePages(pid: nat)
      modifies frames`memory
      ensures frames.memory == Kept(OwnedBy(pid), old(frames.memory))
    {
      ghost var q, mine := frames.memory, OwnedBy(pid);
      var i := |frames.memory|;
      while i > 0
        invariant 0 <= i <= |q|
        invariant frames.memory == q[..i] + Kept(mine, q[i..])
      {
        i := i - 1;
        EraseStep(mine, q, i, frames.memory);
        if frames.memory[i].pid == pid {
          frames.memory := RemoveAt(frames.memory, i);
        }
      }
      assert q[0..] == q;
    }

    method TerminateProcess(p: Process)
      modifies this`stats, this`terminated
      ensures stats == Record(old(stats), p, elapsed) && terminated == old(terminated) + [p]
    {
      stats := Statistics(stats.waiting + p.waiting, stats.response + p.response,
                          stats.service + (elapsed - p.submission - p.waiting), stats.turnaround + p.turnaround);
      terminated := terminated + [p];
    }

    method CheckRunningProcess()
      requires Valid()
      modifies this, cpu, frames
      ensures Valid() && Snapshot() == CheckRunning(old(Snapshot()))
    {
      if cpu.running != [] {
        cpu.running := cpu.running[0 := cpu.running[0].RunTick()];
        if cpu.running[0].remaining < 1 {
          EndTurn();
        } else if cpu.quantum < 1 {
          cpu.ready := cpu.ready + [cpu.running[0]];
          cpu.running := cpu.running[1..];
        }
      }
    }

    /** The branch for a process with no time left. */
    method EndTurn()
      requires Valid() && cpu.running != []
      modifies this, cpu, frames
      ensures Valid() && Snapshot() == SimState.EndTurn(old(Snapshot()))
    {
      if cpu.running[0].block > 0 {
        var full := IsSysFull();
        if waiting != [] && full {
          blockedSuspended := blockedSuspended + [cpu.running[0]];
        } else {
          blocked := blocked + [cpu.running[0]];
        }
        LeaveProcessor();
      } else {
        cpu.running := cpu.running[0 := cpu.running[0].Finish(elapsed)];
        TerminateProcess(cpu.running[0]);
        LeaveProcessor();
      }
    }

    /** RemovePages and the erasure that every departure from the processor ends with. */
    method LeaveProcessor()
      requires cpu.running != []
      modifies cpu`running, frames`memory
      ensures cpu.running == old(cpu.running)[1..]
      ensures frames.memory == Kept(OwnedBy(old(cpu.running[0]).pid), old(frames.memory))
    {
      RemovePages(cpu.running[0].pid);
      cpu.running := cpu.running[1..];
    }

    /** One call of getPage on the running process. */
    method GetPage() returns (page: Page)
      requires cpu.running != []
      modifies cpu`running
      ensures cpu.running == old(cpu.running)[0 := old(cpu.running[0]).GetPage().0]
      ensures page == old(cpu.running[0]).GetPage().1
    {
      var r := cpu.running[0].GetPage();
      cpu.running := cpu.running[0 := r.0];
      page := r.1;
    }

    method PageInMemory() returns (found: bool)
      requires Valid()
      modifies this, cpu, frames
      ensures Valid() && (Snapshot(), found) == Lookup(old(Snapshot()))
    {
      if cpu.running == [] {
        return true;
      }
      GetPageOnceMore(cpu.running[0]);
      var first := GetPage();
      if first.lifeTime == 0 {
        return true;
      }
      ghost var v := Snapshot();
      var i := FindFrame();
      if i < |frames.memory| {
        frames.memory := frames.memory[i := Hit(frames.memory[i], elapsed)];
        hits := hits + 1;
        assert Snapshot() == v.(store := v.store.(memory := v.store.memory[i := Hit(v.store.memory[i], v.elapsed)]), hits := v.hits + 1);
        return true;
      }
      misses := misses + 1;
      assert Snapshot() == v.(misses := v.misses + 1);
      return false;
    }

    /** The loop of PageInMemory, with its calls of getPage. */
    method FindFrame() returns (i: nat)
      requires cpu.running != [] && cpu.running[0].GetPage().0 == cpu.running[0]
      modifies cpu`running
      ensures cpu.running == old(cpu.running)
      ensures i == FindPage(frames.memory, old(cpu.running[0]).GetPage().1.Key())
    {
      ghost var key := cpu.running[0].GetPage().1.Key();
      i := 0;
      while i < |frames.memory|
        invariant 0 <= i <= |frames.memory|
        invariant cpu.running == old(cpu.running)
        invariant forall j :: 0 <= j < i ==> frames.memory[j].Key() != key
      {
        var page := GetPage();
        if frames.memory[i].Key() == page.Key() {
          return i;
        }
        i := i + 1;
      }
    }

    /** The last part of a tick before the counters move. */
    method TouchPages()
      requires Valid()
      modifies this, cpu, frames
      ensures Valid() && Snapshot() == Touch(old(Snapshot()))
    {
      if !idle && cpu.running != [] && cpu.running[0].remaining > 0 {
        GetPageOnceMore(cpu.running[0]);
        var found := PageInMemory();
        if !found {
          var page := GetPage();
          LoadPage(page);
        }
      }
    }

    /** The sub-steps of a tick before the short-term scheduler. */
    method CheckQueues()
      requires Valid()
      modifies this, cpu, frames
      ensures Valid() && Snapshot() == BeforeDispatch(old(Snapshot()))
    {
      CheckIncomingQueue();
      AdmitWaiting();
      CheckBlockedQueue();
      CheckReadySuspendedQueue();
      CheckRunningProcess();
    }

    method Schedule(draw: nat, q: int)
      requires Valid()
      modifies this`idle, cpu
      ensures Valid() && Dispatch(old(Snapshot()), Snapshot())
      ensures policy == RR ==> DispatchRR(old(Snapshot()), Snapshot())
    {
      ghost var t := Snapshot();
      if |cpu.running| < 1 {
        var ok := cpu.Run(policy, most, draw, q, elapsed);
        idle := !ok;
        assert Snapshot() == t.(cpu := Snapshot().cpu, idle := !ok);
      }
    }

    method Advance()
      requires Valid()
      modifies this, cpu, frames
      ensures Valid() && Snapshot() == AfterDispatch(old(Snapshot()))
    {
      TouchPages();
      elapsed := elapsed + 1;
      cpu.quantum := cpu.quantum - 1;
      if idle && |cpu.running| < 1 {
        idleTime := idleTime + 1;
      }
    }

    /** One pass of the main loop.  `draw` and `q` stand for what the policy draws or computes
        beyond the queue. */
    method Tick(draw: nat, q: int)
      requires Valid()
      modifies this, cpu, frames
      ensures Valid() && SimState.Tick(old(Snapshot()), Snapshot())
      ensures policy == RR ==> TickRR(old(Snapshot()), Snapshot())
    {
      CheckQueues();
      Schedule(draw, q);
      assert Dispatch(BeforeDispatch(old(Snapshot())), Snapshot());
      Advance();
    }

    /** The loop over StartProcess. */
    method StartProcesses(jobs: seq<Job>)
      requires Valid()
      modifies this, cpu, frames
      ensures Valid() && Snapshot() == StartAll(old(Snapshot()), jobs)
    {
      var k := 0;
      while k < |jobs|
        invariant 0 <= k <= |jobs| && Valid()
        invariant StartAll(Snapshot(), jobs[k..]) == StartAll(old(Snapshot()), jobs)
      {
        assert jobs[k..][1..] == jobs[k + 1..];
        StartProcess(jobs[k]);
        k := k + 1;
      }
    }

    /** The main loop, from a state that cannot wedge.  It ends: no bound is put on it. */
    method Loop(draws: nat -> nat, quanta: nat -> int) returns (ghost r: seq<State>)
      requires Valid() && Sound(Snapshot()) && CannotWedge(Snapshot())
      modifies this, cpu, frames
      ensures Valid() && Run(r) && r[0] == old(Snapshot()) && r[|r| - 1] == Snapshot()
      ensures Snapshot().Finished() && elapsed < old(elapsed) + Measure(old(Snapshot()))
    {
      ghost var first := Snapshot();
      r := [first];
      var n: nat := 0;
      MeasureAtLeast(first);
      var empty := EmptyQueue();
      while !empty
        invariant Valid() && empty == Snapshot().Finished()
        invariant Underway(r, first, Snapshot())
        decreases Measure(Snapshot())
      {
        ghost var s := Snapshot();
        Tick(draws(n), quanta(n));
        n := n + 1;
        StaysUnderway(r, first, s, Snapshot());
        r := r + [Snapshot()];
        empty := EmptyQueue();
      }
    }

    /** StartSimulation up to its statistics, on input that cannot wedge: every job is
        submitted at time 0, or there are no more jobs than the limit, or fewer that block.  The
        loop ends, no page is ever missing, and the processor time is what the jobs ask for. */
    method StartSimulation(jobs: seq<Job>, draws: nat -> nat, quanta: nat -> int)
      requires Valid() && Snapshot() == Initial(max, frames.n, alg) && WellFormed(jobs)
      requires SafeInput(jobs, max)
      modifies this, cpu, frames
      ensures Valid() && Snapshot().Finished() && !exited
      ensures elapsed - idleTime == SumOf(CostOf(), jobs)
      ensures stats.service == SumOf(OfJob(TotalTime()), jobs) && stats.turnaround == stats.waiting + stats.service
      ensures elapsed < Measure(StartAll(old(Snapshot()), jobs))
    {
      StartProcesses(jobs);
      StartsSafely([Snapshot()], max, frames.n, alg, jobs);
      ghost var r := Loop(draws, quanta);
      EndsWell(r, Snapshot(), max, frames.n, alg, jobs);
    }

    /** StartSimulation on any input, for as many passes of its endless loop as one cares to
        watch: they are a run of the specification, and once there have been enough of them the
        simulation has ended or is wedged for good. */
    method Watch(jobs: seq<Job>, passes: nat, draws: nat -> nat, quanta: nat -> int) returns (ghost r: seq<State>)
      requires Valid() && Snapshot() == Initial(max, frames.n, alg)
      modifies this, cpu, frames
      ensures Valid() && Simulates(r, max, frames.n, alg, jobs) && r[|r| - 1] == Snapshot()
      ensures Snapshot().Finished() || |r| == passes + 1
      ensures passes >= Measure(r[0]) ==> Snapshot().Finished() || Wedged(Snapshot())
    {
      StartProcesses(jobs);
      ghost var first := Snapshot();
      r := [first];
      var n: nat := 0;
      var empty := EmptyQueue();
      while !empty && n < passes
        invariant Valid() && empty == Snapshot().Finished() && n <= passes
        invariant |r| == n + 1 && Watched(r, first, Snapshot())
        decreases passes - n
      {
        ghost var s := Snapshot();
        Tick(draws(n), quanta(n));
        n := n + 1;
        RunExtends(r, Snapshot());
        r := r + [Snapshot()];
        empty := EmptyQueue();
      }
      assert Simulates(r, max, frames.n, alg, jobs);
      StartsSound(r, max, frames.n, alg, jobs);
      if passes >= Measure(r[0]) {
        EndsOrWedged(r);
      }
    }
  }

  /** A run from one state to another. */
  ghost predicate Watched(r: seq<State>, first: State, last: State) {
    Run(r) && r[0] == first && r[|r| - 1] == last
  }

  /** The loop invariant: r is the run so far, and the ticks taken are paid for. */
  ghost predicate Underway(r: seq<State>, first: State, s: State) {
    && Watched(r, first, s)
    && Sound(s) && CannotWedge(s)
    && 0 < Measure(s) && s.elapsed + Measure(s) <= first.elapsed + Measure(first)
  }

  lemma StaysUnderway(r: seq<State>, first: State, s: State, s': State)
    requires Underway(r, first, s) && !s.Finished() && SimState.Tick(s, s')
    ensures Underway(r + [s'], first, s') && Measure(s') < Measure(s)
  {
    CannotWedgeTick(s, s');
    ProgressTick(s, s');
    ElapsedTick(s, s');
    MeasureAtLeast(s');
    RunExtends(r, s');
  }

  lemma EndsWell(r: seq<State>, s: State, max: int, n: nat, alg: Algorithm, jobs: seq<Job>)
    requires Simulates(r, max, n, alg, jobs) && WellFormed(jobs) && r[|r| - 1] == s && s.Finished()
    ensures s.elapsed - s.idleTime == SumOf(CostOf(), jobs) && !s.exited
    ensures s.stats.service == SumOf(OfJob(TotalTime()), jobs) && s.stats.turnaround == s.stats.waiting + s.stats.service
  {
    ProcessorTimeAccounted(r, max, n, alg, jobs);
    ServiceIsExecution(r, max, n, alg, jobs);
    NeverExits(r, max, n, alg, jobs);
  }

  lemma NeverExits(r: seq<State>, max: int, n: nat, alg: Algorithm, jobs: seq<Job>)
    requires Simulates(r, max, n, alg, jobs) && WellFormed(jobs)
    ensures !r[|r| - 1].exited
  {
    PagesAlwaysFound(r, |r| - 1, max, n, alg, jobs);
  }

  lemma ElapsedTick(s: State, s': State)
    requires SimState.Tick(s, s')
    ensures s'.elapsed == s.elapsed + 1
  {
    IncomingAfter(s, Through(s, s'), s');
  }

  lemma EraseStep(mine: Page -> bool, q: seq<Page>, i: nat, memory: seq<Page>)
    requires i < |q| && memory == q[..i + 1] + Kept(mine, q[i + 1..])
    ensures memory[i] == q[i]
    ensures (if mine(q[i]) then RemoveAt(memory, i) else memory) == q[..i] + Kept(mine, q[i..])
  {
  }

  /** The downward loops of CheckBlockedQueue with positions from i on done: block times
      counted down, and those that are over moved out. */
  ghost predicate Walked(over: Process -> bool, q: seq<Process>, i: nat, out: seq<Process>,
                         blocked: seq<Process>, moved: seq<Process>)
    requires i <= |q|
  {
    && blocked == q[..i] + Kept(over, DecrementAll(q)[i..])
    && moved == out + Taken(over, DecrementAll(q)[i..])
  }

  lemma WalkStep(over: Process -> bool, q: seq<Process>, i: nat, out: seq<Process>, blocked: seq<Process>, moved: seq<Process>)
    requires i < |q| && Walked(over, q, i + 1, out, blocked, moved)
    ensures i < |blocked| && blocked[i] == q[i]
    ensures var p := q[i].DecrementBlockTime();
            if over(p) then Walked(over, q, i, out, RemoveAt(blocked[i := p], i), moved + [p])
            else Walked(over, q, i, out, blocked[i := p], moved)
  {
    var d := DecrementAll(q);
    var kept, taken := Kept(over, d[i + 1..]), Taken(over, d[i + 1..]);
    DecrementAt(q, i);
    DownEdit(q, kept, i, d[i]);
    assert out + taken + [d[i]] == out + (taken + [d[i]]);
  }

  /** The downward loop of CheckIncomingQueue with positions from i on done. */
  ghost predicate Drained(due: Process -> bool, q: seq<Process>, i: nat, w: seq<Process>, disk: seq<Page>,
                          incoming: seq<Process>, waiting: seq<Process>, pages: seq<Page>)
    requires i <= |q|
  {
    && incoming == q[..i] + Kept(due, q[i..])
    && waiting == w + Taken(due, q[i..])
    && pages == disk + PagesOf(Taken(due, q[i..]))
  }

  lemma DrainStep(due: Process -> bool, q: seq<Process>, i: nat, w: seq<Process>, disk: seq<Page>,
                  incoming: seq<Process>, waiting: seq<Process>, pages: seq<Page>)
    requires i < |q| && Drained(due, q, i + 1, w, disk, incoming, waiting, pages)
    ensures i < |incoming| && incoming[i] == q[i]
    ensures if due(q[i]) then Drained(due, q, i, w, disk, RemoveAt(incoming, i), waiting + [q[i]], pages + q[i].pages)
            else Drained(due, q, i, w, disk, incoming, waiting, pages)
  {
    if due(q[i]) {
      DrainedMore(w, Taken(due, q[i + 1..]), disk, q[i]);
    }
  }

  lemma DrainedMore(w: seq<Process>, moved: seq<Process>, disk: seq<Page>, p: Process)
    ensures disk + PagesOf(moved) + p.pages == disk + PagesOf(moved + [p])
    ensures w + moved + [p] == w + (moved + [p])
  {
    PagesOfAppend(moved, p);
  }

  lemma PagesOfAppend(q: seq<Process>, p: Process)
    ensures PagesOf(q + [p]) == PagesOf(q) + p.pages
  {
    if q == [] {
      assert [p][1..] == [];
    } else {
      assert (q + [p])[1..] == q[1..] + [p];
      PagesOfAppend(q[1..], p);
    }
  }

  lemma GetPageOnceMore(p: Process)
    ensures p.GetPage().1.lifeTime > 0 ==> p.GetPage().0.GetPage().0 == p.GetPage().0
  {
  }
}
