/** When the simulation ends whatever the times: the condition on the input, and that it is exact. */
module SimWedge {
  import opened Seqs
  import opened Processes
  import opened PageReplacement
  import opened SchedulingPolicies
  import opened SimState
  import opened SimFlow
  import opened SimInvariants
  import opened SimTermination
  import opened SimAccounting
  import opened SimPaging
  import opened SimRoundRobin

  // The input that wedges a limit of m processes: m jobs that run for one tick and then block
  // for long, and behind them jobs that arrive when all of the first are blocked.  The system is
  // full, so nobody is admitted; somebody waits, so nobody leaves the blocked queue.

  // ---------------------------------------------------------------- the runs of round robin

  /** The tick that round robin makes. */
  function RRStep(s: State): State
    requires FramesOK(s)
  {
    FramesBefore(s);
    AfterDispatch(Dispatched(BeforeDispatch(s)))
  }

  function Dispatched(t: State): (u: State)
    ensures u.store == t.store && u.frames == t.frames
  {
    if t.cpu.running != [] then t
    else if t.cpu.ready == [] then t.(idle := true)
    else t.(cpu := Moved(t.cpu, 0, 2, t.elapsed), idle := false)
  }

  lemma RRStepTicks(s: State)
    requires FramesOK(s)
    ensures TickRR(s, RRStep(s)) && Tick(s, RRStep(s))
  {
    var t := BeforeDispatch(s);
    FramesBefore(s);
    var u := Dispatched(t);
    assert DispatchRR(t, u) && FramesOK(u);
    TickRRIsTick(s, RRStep(s));
  }

  lemma RRStepSound(s: State)
    requires Sound(s)
    ensures Sound(RRStep(s)) && RRStep(s).max == s.max
  {
    RRStepTicks(s);
    SoundTick(s, Through(s, RRStep(s)), RRStep(s));
  }

  // ---------------------------------------------------------------- the jobs

  function OnlyPage(pid: nat): Page {
    Page(0, 0, 0, pid, 0, false, 0)
  }

  /** The first m of the jobs are early; the first b of them block. */
  function WedgeJob(m: nat, b: nat, i: nat): Job {
    Job(i, if i < m then 0 else m + 1, 0, 1, if i < b then m + 3 else 0, [OnlyPage(i)])
  }

  function WedgeJobs(m: nat, b: nat, i: nat, n: nat): (jobs: seq<Job>)
    requires i <= n
    ensures |jobs| == n - i && forall k :: 0 <= k < n - i ==> jobs[k] == WedgeJob(m, b, i + k)
    decreases n - i
  {
    if i == n then [] else [WedgeJob(m, b, i)] + WedgeJobs(m, b, i + 1, n)
  }

  lemma {:induction false} WedgeJobsBlock(m: nat, b: nat, i: nat, n: nat)
    requires i <= n && b <= n
    ensures SumOf(BlockOf(), WedgeJobs(m, b, i, n)) == if i < b then b - i else 0
    decreases n - i
  {
    if i < n {
      WedgeJobsBlock(m, b, i + 1, n);
    }
  }

  lemma WedgeJobsWellFormed(m: nat, b: nat, n: nat)
    ensures WellFormed(WedgeJobs(m, b, 0, n))
  {
    var jobs := WedgeJobs(m, b, 0, n);
    forall i | 0 <= i < |jobs|
      ensures Fresh(Create(jobs[i]))
    {
      assert jobs[i] == WedgeJob(m, b, i);
    }
  }

  // ---------------------------------------------------------------- the way to the wedge

  /** A process that will run for one tick and then block beyond the arrival of the others. */
  predicate Early(m: nat, p: Process) {
    p.remaining == 1 && p.block == m + 3
  }

  /** A process whose block outlasts tick m + 1, t ticks into the simulation. */
  predicate Stuck(m: nat, t: nat, p: Process) {
    p.block > m + 1 - t
  }

  /** t ticks in: one early process runs, those before it are blocked, those after it are ready,
      and the others are still to come. */
  ghost predicate OnTheWay(m: nat, t: nat, s: State) {
    && Sound(s) && s.Capacity() == m && s.elapsed == t
    && s.waiting == [] && s.blockedSuspended == [] && s.readySuspended == []
    && s.incoming != [] && (forall p :: p in s.incoming ==> p.submission == m + 1)
    && |s.cpu.ready| == (if t <= m then m - t else 0)
    && |s.cpu.running| == (if 0 < t <= m then 1 else 0)
    && |s.blocked| == (if t == 0 then 0 else if t <= m then t - 1 else m)
    && (forall p :: p in s.cpu.ready || p in s.cpu.running ==> Early(m, p))
    && (forall p :: p in s.blocked ==> Stuck(m, t, p))
  }

  lemma {:induction false} StuckLonger(m: nat, t: nat, q: seq<Process>)
    requires forall p :: p in q ==> Stuck(m, t, p)
    ensures forall p :: p in DecrementAll(q) ==> Stuck(m, t + 1, p)
  {
    if q != [] {
      assert q[0] in q && forall p :: p in q[1..] ==> p in q;
      StuckLonger(m, t, q[1..]);
    }
  }

  /** Up to the running process nothing moves: nobody is due, nobody waits, no block is over. */
  lemma QueuesStay(m: nat, t: nat, s: State)
    requires OnTheWay(m, t, s) && t <= m
    ensures Readmit(CheckBlocked(Queued(s))) == s.(blocked := DecrementAll(s.blocked))
    ensures forall p :: p in DecrementAll(s.blocked) ==> Stuck(m, t + 1, p)
  {
    NothingTaken(DueBy(t), s.incoming);
    assert Arrive(s) == s;
    StuckLonger(m, t, s.blocked);
    NothingTaken(OverIf(true), DecrementAll(s.blocked));
  }

  /** What the policy finds: the process that was running has joined the blocked. */
  ghost predicate Departed(m: nat, t: nat, s: State, x: State) {
    && x.cpu.running == [] && x.cpu.ready == s.cpu.ready && x.waiting == [] && x.incoming == s.incoming
    && x.blockedSuspended == [] && x.readySuspended == []
    && |x.blocked| == t && forall p :: p in x.blocked ==> Stuck(m, t + 1, p)
  }

  lemma RunningDeparts(m: nat, t: nat, s: State)
    requires OnTheWay(m, t, s) && t <= m
    ensures Departed(m, t, s, BeforeDispatch(s))
  {
    QueuesStay(m, t, s);
    var d := s.(blocked := DecrementAll(s.blocked));
    if t > 0 {
      assert s.cpu.running[0] in s.cpu.running;
      Blocks(m, t, d);
    }
  }

  lemma Blocks(m: nat, t: nat, d: State)
    requires |d.cpu.running| == 1 && Early(m, d.cpu.running[0]) && d.waiting == []
    ensures var x := CheckRunning(d);
            && x == d.(cpu := d.cpu.(running := []), blocked := x.blocked, store := x.store)
            && |x.blocked| == |d.blocked| + 1
            && forall p :: p in x.blocked ==> p in d.blocked || Stuck(m, t + 1, p)
  {
    assert d.cpu.running[1..] == [];
  }

  /** The next of the early processes gets the processor, if there is one. */
  lemma NextRuns(m: nat, x: State)
    requires FramesOK(x) && x.cpu.running == [] && forall p :: p in x.cpu.ready ==> Early(m, p)
    ensures var v := AfterDispatch(Dispatched(x));
            && |v.cpu.ready| == (if x.cpu.ready == [] then 0 else |x.cpu.ready| - 1)
            && |v.cpu.running| == (if x.cpu.ready == [] then 0 else 1)
            && (forall p :: p in v.cpu.ready || p in v.cpu.running ==> Early(m, p))
            && v.waiting == x.waiting && v.incoming == x.incoming && v.blocked == x.blocked
            && v.blockedSuspended == x.blockedSuspended && v.readySuspended == x.readySuspended && v.elapsed == x.elapsed + 1
  {
    var u := Dispatched(x);
    AfterFrame(u);
    AfterTurn(u);
    if x.cpu.ready != [] {
      assert x.cpu.ready[0] in x.cpu.ready;
    }
  }

  lemma OneTickOn(m: nat, t: nat, s: State)
    requires OnTheWay(m, t, s) && t <= m
    ensures OnTheWay(m, t + 1, RRStep(s))
  {
    RRStepSound(s);
    RunningDeparts(m, t, s);
    FramesBefore(s);
    BeforeDispatchFrame(s);
    NextRuns(m, BeforeDispatch(s));
  }

  /** When all of the first are blocked the others arrive, and the system is wedged. */
  lemma ThenItWedges(m: nat, s: State)
    requires OnTheWay(m, m + 1, s)
    ensures Wedged(RRStep(s))
  {
    RRStepSound(s);
    OthersArrive(m, s);
    FramesBefore(s);
    NextRuns(m, BeforeDispatch(s));
  }

  lemma OthersArrive(m: nat, s: State)
    requires OnTheWay(m, m + 1, s)
    ensures var x := BeforeDispatch(s);
            x.cpu.running == [] && x.cpu.ready == [] && x.waiting != [] && |x.blocked| == m
  {
    EverybodyDue(m, s.incoming);
    NobodyMoves(Arrive(s));
  }

  lemma NobodyMoves(a: State)
    requires FramesOK(a) && a.waiting != [] && a.cpu.running == [] && a.cpu.ready == []
    requires |a.blocked| == a.Capacity()
    ensures var x := CheckRunning(Readmit(CheckBlocked(Admit(a))));
            x.waiting == a.waiting && x.cpu.running == [] && x.cpu.ready == [] && |x.blocked| == |a.blocked|
  {
    FullMeansEqual(a.max, a.Level());
    assert Admit(a) == a;
    NothingTaken(OverIf(false), DecrementAll(a.blocked));
    var c := CheckBlocked(a);
    assert c.waiting == a.waiting && c.cpu.ready == [] && c.cpu.running == [];
    assert Readmit(c) == c && CheckRunning(c) == c;
  }

  lemma {:induction false} EverybodyDue(m: nat, q: seq<Process>)
    requires forall p :: p in q ==> p.submission == m + 1
    ensures Kept(DueBy(m + 1), q) == [] && |Taken(DueBy(m + 1), q)| == |q|
  {
    if q != [] {
      assert q[0] in q && forall p :: p in q[1..] ==> p in q;
      EverybodyDue(m, q[1..]);
    }
  }

  // ---------------------------------------------------------------- the start

  /** The first i jobs have been started. */
  ghost predicate Starting(m: nat, i: nat, s: State) {
    && Sound(s) && s.Capacity() == m && s.elapsed == 0
    && s.waiting == [] && s.blockedSuspended == [] && s.readySuspended == [] && s.blocked == [] && s.cpu.running == []
    && |s.cpu.ready| == (if i < m then i else m) && |s.incoming| == (if i < m then 0 else i - m)
    && (forall p :: p in s.cpu.ready ==> Early(m, p))
    && (forall p :: p in s.incoming ==> p.submission == m + 1)
  }

  lemma StartNext(m: nat, b: nat, i: nat, s: State)
    requires Starting(m, i, s) && m <= b
    ensures Starting(m, i + 1, StartProcess(s, WedgeJob(m, b, i)))
  {
    StartSound(s, WedgeJob(m, b, i));
    FullMeansEqual(s.max, s.Level());
  }

  lemma {:induction false} StartRest(m: nat, b: nat, i: nat, n: nat, s: State)
    requires Starting(m, i, s) && m <= b && i <= n
    ensures Starting(m, n, StartAll(s, WedgeJobs(m, b, i, n)))
    decreases n - i
  {
    if i < n {
      StartNext(m, b, i, s);
      StartRest(m, b, i + 1, n, StartProcess(s, WedgeJob(m, b, i)));
      assert WedgeJobs(m, b, i, n)[1..] == WedgeJobs(m, b, i + 1, n);
    }
  }

  function WedgeStart(m: nat, b: nat, n: nat, max: int, frames: nat, alg: Algorithm): State {
    StartAll(Initial(max, frames, alg), WedgeJobs(m, b, 0, n))
  }

  lemma StartsOnTheWay(m: nat, b: nat, n: nat, max: int, frames: nat, alg: Algorithm)
    requires m <= b <= n && m < n && max % SIZE_T == m && frames >= 1
    ensures OnTheWay(m, 0, WedgeStart(m, b, n, max, frames, alg))
  {
    StartRest(m, b, 0, n, Initial(max, frames, alg));
  }

  // ---------------------------------------------------------------- the run

  /** On the way up to tick m + 1, wedged from then on. */
  ghost predicate Doomed(m: nat, t: nat, s: State) {
    if t <= m + 1 then OnTheWay(m, t, s) else Sound(s) && Wedged(s)
  }

  lemma DoomedStep(m: nat, t: nat, s: State)
    requires Doomed(m, t, s)
    ensures Sound(s) && !s.Finished() && Doomed(m, t + 1, RRStep(s))
  {
    if t <= m {
      OneTickOn(m, t, s);
    } else if t == m + 1 {
      RRStepSound(s);
      ThenItWedges(m, s);
    } else {
      RRStepTicks(s);
      WedgedForever(s, RRStep(s));
      WedgedNotFinished(s);
    }
  }

  lemma DoomedGoesOn(m: nat, q: seq<State>) returns (r: seq<State>)
    requires Run(q) && RunRR(q) && Doomed(m, |q| - 1, q[|q| - 1])
    ensures Run(r) && RunRR(r) && r[0] == q[0] && |r| == |q| + 1 && Doomed(m, |q|, r[|q|])
  {
    var s := q[|q| - 1];
    DoomedStep(m, |q| - 1, s);
    RRStepTicks(s);
    RunExtends(q, RRStep(s));
    RunRRExtends(q, RRStep(s));
    r := q + [RRStep(s)];
  }

  lemma RunRRExtends(r: seq<State>, s': State)
    requires RunRR(r) && TickRR(r[|r| - 1], s')
    ensures RunRR(r + [s'])
  {
    var q := r + [s'];
    forall i | 0 <= i < |q| - 1
      ensures NextRR(q, i)
    {
      if i < |r| - 1 {
        assert NextRR(r, i) && q[i] == r[i] && q[i + 1] == r[i + 1];
      }
    }
  }

  /** A run of any length from a doomed start. */
  lemma {:induction false} DoomedRun(m: nat, s: State, k: nat) returns (r: seq<State>)
    requires Doomed(m, 0, s)
    ensures Run(r) && RunRR(r) && r[0] == s && |r| == k + 1 && Doomed(m, k, r[k])
  {
    if k == 0 {
      r := [s];
    } else {
      var q := DoomedRun(m, s, k - 1);
      r := DoomedGoesOn(m, q);
    }
  }

  // ---------------------------------------------------------------- the exact condition

  /** Whatever the names, times, pages and blocks of n jobs of which b block, and whatever a
      work-conserving policy does: a run that has had the time has emptied its queues. */
  ghost predicate AlwaysEnds(n: nat, b: nat, max: int, frames: nat, alg: Algorithm) {
    forall r: seq<State>, jobs: seq<Job> ::
      Simulates(r, max, frames, alg, jobs) && |jobs| == n && SumOf(BlockOf(), jobs) == b && |r| >= Measure(r[0])
      ==> r[|r| - 1].Finished()
  }

  /** Under a limit of m, n jobs of which b block always end if and only if fewer than m block
      or there are no more than m of them. */
  lemma EndsIffFewBlockOrFewJobs(m: nat, n: nat, b: nat, max: int, frames: nat, alg: Algorithm)
    requires max % SIZE_T == m && b <= n && frames >= 1
    ensures AlwaysEnds(n, b, max, frames, alg) <==> b < m || n <= m
  {
    if b < m || n <= m {
      forall r: seq<State>, jobs: seq<Job> | Simulates(r, max, frames, alg, jobs)
                       && |jobs| == n && SumOf(BlockOf(), jobs) == b && |r| >= Measure(r[0])
        ensures r[|r| - 1].Finished()
      {
        FewBlockOrFewJobsEnd(r, max, frames, alg, jobs);
      }
    } else {
      ManyBlockersWedge(m, n, b, max, frames, alg);
      var r, jobs :| Simulates(r, max, frames, alg, jobs) && SimulatesRR(r, max, frames, alg, jobs) && WellFormed(jobs)
                     && |jobs| == n && SumOf(BlockOf(), jobs) == b && |r| >= Measure(r[0]) && Wedged(r[|r| - 1]);
      WedgedNotFinished(r[|r| - 1]);
    }
  }

  lemma {:induction false} SumOfBlockers(jobs: seq<Job>)
    ensures SumOf(BlockOf(), jobs) >= 0
  {
    if jobs != [] {
      SumOfBlockers(jobs[1..]);
    }
  }

  lemma {:induction false} FewBlockOrFewJobsEnd(r: seq<State>, max: int, frames: nat, alg: Algorithm, jobs: seq<Job>)
    requires Simulates(r, max, frames, alg, jobs) && |r| >= Measure(r[0])
    requires SumOf(BlockOf(), jobs) < max % SIZE_T || |jobs| <= max % SIZE_T
    ensures r[|r| - 1].Finished()
  {
    if jobs == [] {
      FinishedIsLast(r, 0);
    } else {
      SumOfBlockers(jobs);
      StartsSafely(r, max, frames, alg, jobs);
      CannotWedgeEnds(r);
    }
  }

  /** Otherwise some such jobs wedge, under round robin, every limit and every page replacement
      algorithm. */
  lemma ManyBlockersWedge(m: nat, n: nat, b: nat, max: int, frames: nat, alg: Algorithm)
    requires m <= b <= n && m < n && max % SIZE_T == m && frames >= 1
    ensures exists r, jobs ::
      && Simulates(r, max, frames, alg, jobs) && SimulatesRR(r, max, frames, alg, jobs) && WellFormed(jobs)
      && |jobs| == n && SumOf(BlockOf(), jobs) == b && |r| >= Measure(r[0]) && Wedged(r[|r| - 1])
  {
    var jobs, s := WedgeJobs(m, b, 0, n), WedgeStart(m, b, n, max, frames, alg);
    StartsOnTheWay(m, b, n, max, frames, alg);
    WedgeJobsWellFormed(m, b, n);
    WedgeJobsBlock(m, b, 0, n);
    MeasureAtLeast(s);
    var k := Measure(s) + m + 2;
    var r := DoomedRun(m, s, k);
    assert Simulates(r, max, frames, alg, jobs) && SimulatesRR(r, max, frames, alg, jobs);
    assert |r| >= Measure(r[0]) && Wedged(r[|r| - 1]);
  }
}
