/** Where the ticks of a simulation go, and what its statistics add up to. */
module SimAccounting {
  import opened Processes
  import opened PageReplacement
  import opened SimState
  import opened SimFlow
  import opened SimInvariants
  import opened SimTermination

  // ---------------------------------------------------------------- processor time

  function Sign(up: bool, n: int): int {
    if up then n else -n
  }

  /** The processor ticks a process still needs, or their negation: a blocked process has used
      all but the one tick after its block. */
  function Need(at: Place, p: Process): int {
    match at
    case Blocked => Max(p.remaining, 1)
    case BlockedSuspended => Max(p.remaining, 1)
    case Done => 0
    case _ => Work(p)
  }

  ghost function Needs(up: bool): Weight {
    (at: Place, p: Process) => Sign(up, Need(at, p))
  }

  lemma RunNeeds(p: Process)
    ensures var q := p.RunTick();
            if q.remaining >= 1 then Work(q) == Work(p) - 1
            else if q.block > 0 then Max(q.remaining, 1) == Work(p) - 1
            else 0 == Work(p) - 1
  {
  }

  lemma NeedsRules(up: bool, now: int)
    ensures Rules(Needs(up), now, Sign(up, 1), false)
  {
    NeedsRunRule(up, now);
    NeedsQueueRules(up, now);
  }

  lemma NeedsRunRule(up: bool, now: int)
    ensures RunRule(Needs(up), Needs(up), now, Sign(up, 1))
  {
    forall p: Process
      ensures var q := p.RunTick();
              if q.remaining >= 1 then Work(q) == Work(p) - 1
              else if q.block > 0 then Max(q.remaining, 1) == Work(p) - 1
              else 0 == Work(p) - 1
    {
      RunNeeds(p);
    }
  }

  lemma NeedsQueueRules(up: bool, now: int)
    ensures ArriveRule(Needs(up), 0) && AdmitRule(Needs(up), now) && BlockedRule(Needs(up), 0) && SuspendedRule(Needs(up), 0)
    ensures ReadmitRule(Needs(up), now) && DispatchRule(Needs(up)) && TouchRule(Needs(up))
  {
    NeedsBlockedRules(up);
  }

  lemma NeedsBlockedRules(up: bool)
    ensures BlockedRule(Needs(up), 0) && SuspendedRule(Needs(up), 0)
  {
  }

  lemma {:induction false} SumSigned(at: Place, q: seq<Process>)
    ensures Sum(Needs(false), at, q) == -Sum(Needs(true), at, q)
  {
    if q != [] {
      SumSigned(at, q[1..]);
    }
  }

  /** The processor ticks still to be spent on everybody. */
  ghost function Outstanding(s: State): int {
    Total(Needs(true), s)
  }

  lemma OutstandingSigned(s: State)
    ensures Total(Needs(false), s) == -Outstanding(s)
  {
    SumSigned(Incoming, s.incoming);
    SumSigned(Waiting, s.waiting);
    SumSigned(Ready, s.cpu.ready);
    SumSigned(Running, s.cpu.running);
    SumSigned(Blocked, s.blocked);
    SumSigned(BlockedSuspended, s.blockedSuspended);
    SumSigned(ReadySuspended, s.readySuspended);
    SumSigned(Done, s.terminated);
  }

  /** A tick that starts with a process running takes exactly one from what is outstanding;
      any other takes nothing. */
  lemma OutstandingTick(s: State, u: State, s': State)
    requires Via(s, u, s')
    ensures Outstanding(s') == Outstanding(s) - if s.cpu.running != [] then 1 else 0
  {
    NeedsRules(true, s.elapsed);
    FlowTick(Needs(true), s, u, s', 1, false);
    NeedsRules(false, s.elapsed);
    FlowTick(Needs(false), s, u, s', -1, false);
    OutstandingSigned(s);
    OutstandingSigned(s');
  }

  /** Ticks so far that were not idle, the one just dispatched not yet worked off, plus the
      ticks outstanding: the same number all along. */
  ghost function Account(s: State): int {
    s.elapsed - s.idleTime + Outstanding(s) - |s.cpu.running|
  }

  lemma CountersAfter(s: State, u: State, s': State)
    requires Via(s, u, s') && Sound(s)
    ensures s'.elapsed == s.elapsed + 1
    ensures s'.idleTime == s.idleTime + if s'.cpu.running == [] then 1 else 0
    ensures |s'.cpu.running| <= 1
  {
    BeforeDispatchFrame(s);
    DispatchFrame(BeforeDispatch(s), u);
    AfterFrame(u);
    SoundTick(s, u, s');
  }

  lemma {:induction false} AccountRun(r: seq<State>, i: nat)
    requires Run(r) && Sound(r[0]) && i < |r|
    ensures Account(r[i]) == Account(r[0])
  {
    if i > 0 {
      AccountRun(r, i - 1);
      AccountStep(r, i - 1);
    }
  }

  lemma AccountStep(r: seq<State>, i: nat)
    requires Run(r) && Sound(r[0]) && i + 1 < |r|
    ensures Account(r[i + 1]) == Account(r[i])
  {
    SoundRun(r, i);
    RunStep(r, i);
    var u := Through(r[i], r[i + 1]);
    OutstandingTick(r[i], u, r[i + 1]);
    CountersAfter(r[i], u, r[i + 1]);
  }

  lemma {:induction false} DoneNeedsNothing(q: seq<Process>)
    ensures Sum(Needs(true), Done, q) == 0
  {
    if q != [] {
      DoneNeedsNothing(q[1..]);
    }
  }

  // ---------------------------------------------------------------- the start

  /** What a job costs the processor: its execution time, one tick at least, and one more if
      it blocks. */
  function JobCost(j: Job): int {
    Max(j.execution, 1) + if j.block > 0 then 1 else 0
  }

  function SumOf(f: Job -> int, jobs: seq<Job>): int {
    if jobs == [] then 0 else f(jobs[0]) + SumOf(f, jobs[1..])
  }

  function OfJob(f: (nat, int) -> int): Job -> int {
    (j: Job) => f(j.pid, j.execution)
  }

  /** The jobs that block. */
  function BlockOf(): Job -> int {
    (j: Job) => if j.block > 0 then 1 else 0
  }

  function CostOf(): Job -> int {
    (j: Job) => JobCost(j)
  }

  lemma StartSound(s: State, j: Job)
    requires Sound(s)
    ensures var t := StartProcess(s, j);
            Sound(t) && t.elapsed == s.elapsed && t.idleTime == s.idleTime && t.max == s.max && t.idle == s.idle
  {
    FullMeansEqual(s.max, s.Level());
  }

  lemma StartTotal(w: Weight, s: State, j: Job)
    requires w(Incoming, Create(j)) == w(Waiting, Create(j)) == w(Ready, Create(j))
    ensures Total(w, StartProcess(s, j)) == Total(w, s) + w(Ready, Create(j))
  {
    var p := Create(j);
    if j.submission != 0 {
      SumOne(w, Incoming, s.incoming, p);
    } else if s.SysFull() {
      SumOne(w, Waiting, s.waiting, p);
    } else {
      SumOne(w, Ready, s.cpu.ready, p);
    }
  }

  lemma {:induction false} StartAllSound(s: State, jobs: seq<Job>)
    requires Sound(s)
    ensures var t := StartAll(s, jobs);
            Sound(t) && t.elapsed == s.elapsed && t.idleTime == s.idleTime && t.max == s.max && t.cpu.running == s.cpu.running
    decreases |jobs|
  {
    if jobs != [] {
      StartSound(s, jobs[0]);
      StartAllSound(StartProcess(s, jobs[0]), jobs[1..]);
    }
  }

  lemma {:induction false} StartAllOutstanding(s: State, jobs: seq<Job>)
    ensures Outstanding(StartAll(s, jobs)) == Outstanding(s) + SumOf(CostOf(), jobs)
    decreases |jobs|
  {
    if jobs != [] {
      StartTotal(Needs(true), s, jobs[0]);
      StartAllOutstanding(StartProcess(s, jobs[0]), jobs[1..]);
    }
  }

  lemma {:induction false} StartAllBlockers(s: State, jobs: seq<Job>)
    ensures Blockers(StartAll(s, jobs)) == Blockers(s) + SumOf(BlockOf(), jobs)
    decreases |jobs|
  {
    if jobs != [] {
      StartTotal(Blocking(), s, jobs[0]);
      StartAllBlockers(StartProcess(s, jobs[0]), jobs[1..]);
    }
  }

  lemma {:induction false} StartAllIdentities(f: (nat, int) -> int, s: State, jobs: seq<Job>)
    ensures Total(ByIdentity(f), StartAll(s, jobs)) == Total(ByIdentity(f), s) + SumOf(OfJob(f), jobs)
    decreases |jobs|
  {
    if jobs != [] {
      StartTotal(ByIdentity(f), s, jobs[0]);
      StartAllIdentities(f, StartProcess(s, jobs[0]), jobs[1..]);
    }
  }

  /** A run of the simulator on a list of jobs. */
  ghost predicate Simulates(r: seq<State>, max: int, frames: nat, alg: Algorithm, jobs: seq<Job>) {
    frames >= 1 && Run(r) && r[0] == StartAll(Initial(max, frames, alg), jobs)
  }

  lemma StartsSound(r: seq<State>, max: int, frames: nat, alg: Algorithm, jobs: seq<Job>)
    requires Simulates(r, max, frames, alg, jobs)
    ensures Sound(r[0]) && r[0].elapsed == 0 && r[0].idleTime == 0 && r[0].max == max && r[0].cpu.running == []
  {
    StartAllSound(Initial(max, frames, alg), jobs);
  }

  lemma {:induction false} CountsOnce(x: nat, jobs: seq<Job>)
    requires forall i, j :: 0 <= i < j < |jobs| ==> jobs[i].pid != jobs[j].pid
    ensures SumOf(OfJob(Named(x)), jobs) == if exists i :: 0 <= i < |jobs| && jobs[i].pid == x then 1 else 0
  {
    if jobs != [] {
      var rest := jobs[1..];
      assert forall i :: 0 <= i < |rest| ==> rest[i] == jobs[i + 1];
      CountsOnce(x, rest);
      if jobs[0].pid == x {
        assert forall i :: 0 <= i < |rest| ==> rest[i].pid != x;
        assert jobs[0].pid == x;
      } else if exists i :: 0 <= i < |rest| && rest[i].pid == x {
        var i :| 0 <= i < |rest| && rest[i].pid == x;
        assert jobs[i + 1].pid == x;
      }
    }
  }

  /** Jobs with distinct names: throughout every run, each is in exactly one position of
      exactly one of the seven queues or among the terminated, and nobody else is anywhere. */
  lemma EveryJobInOnePlace(r: seq<State>, i: nat, x: nat, max: int, frames: nat, alg: Algorithm, jobs: seq<Job>)
    requires Simulates(r, max, frames, alg, jobs) && i < |r|
    requires forall i, j :: 0 <= i < j < |jobs| ==> jobs[i].pid != jobs[j].pid
    ensures (exists at, k :: IsAt(r[i], x, at, k)) <==> exists j :: 0 <= j < |jobs| && jobs[j].pid == x
    ensures forall at, k, bt, l :: IsAt(r[i], x, at, k) && IsAt(r[i], x, bt, l) ==> at == bt && k == l
  {
    CountOf(r, i, x, max, frames, alg, jobs);
    CountsOnce(x, jobs);
    if exists j :: 0 <= j < |jobs| && jobs[j].pid == x {
      ExactlyOnePlace(x, r[i]);
    } else {
      NotAnywhere(x, r[i]);
    }
  }

  lemma CountOf(r: seq<State>, i: nat, x: nat, max: int, frames: nat, alg: Algorithm, jobs: seq<Job>)
    requires Simulates(r, max, frames, alg, jobs) && i < |r|
    ensures Count(x, r[i]) == SumOf(OfJob(Named(x)), jobs)
  {
    StartAllIdentities(Named(x), Initial(max, frames, alg), jobs);
    ProcessesConservedRun(Named(x), r, i);
  }

  lemma NotAnywhere(x: nat, s: State)
    requires Count(x, s) == 0
    ensures forall at, k :: !IsAt(s, x, at, k)
  {
    CountsAdd(x, s);
    forall at, k
      ensures !IsAt(s, x, at, k)
    {
      CountNonNegative(x, at, Queue(s, at));
    }
  }

  /** When the simulation ends, the ticks that were not idle are the execution times of the
      jobs (one tick for a job without any) plus one per job that blocked. */
  lemma ProcessorTimeAccounted(r: seq<State>, max: int, frames: nat, alg: Algorithm, jobs: seq<Job>)
    requires Simulates(r, max, frames, alg, jobs) && r[|r| - 1].Finished()
    ensures r[|r| - 1].elapsed - r[|r| - 1].idleTime == SumOf(CostOf(), jobs)
  {
    StartsSound(r, max, frames, alg, jobs);
    AccountAtStart(max, frames, alg, jobs);
    AccountAtEnd(r);
  }

  lemma AccountAtStart(max: int, frames: nat, alg: Algorithm, jobs: seq<Job>)
    requires frames >= 1
    ensures Account(StartAll(Initial(max, frames, alg), jobs)) == SumOf(CostOf(), jobs)
  {
    StartAllSound(Initial(max, frames, alg), jobs);
    StartAllOutstanding(Initial(max, frames, alg), jobs);
  }

  lemma AccountAtEnd(r: seq<State>)
    requires Run(r) && Sound(r[0]) && r[|r| - 1].Finished()
    ensures r[|r| - 1].elapsed - r[|r| - 1].idleTime == Account(r[0])
  {
    var s := r[|r| - 1];
    AccountRun(r, |r| - 1);
    SoundRun(r, |r| - 1);
    DoneNeedsNothing(s.terminated);
    assert s.cpu.running == [];
  }

  // ---------------------------------------------------------------- input that cannot wedge

  /** What a caller may look at: under a positive limit every job is submitted at time 0, or
      there are no more jobs than the limit, or fewer jobs than the limit block. */
  predicate SafeInput(jobs: seq<Job>, max: int) {
    && max % SIZE_T != 0
    && ((forall i :: 0 <= i < |jobs| ==> jobs[i].submission == 0) || |jobs| <= max % SIZE_T
        || SumOf(BlockOf(), jobs) < max % SIZE_T)
  }

  /** The first state of a simulation on input that cannot wedge. */
  lemma StartsSafely(r: seq<State>, max: int, n: nat, alg: Algorithm, jobs: seq<Job>)
    requires Simulates(r, max, n, alg, jobs) && SafeInput(jobs, max)
    ensures Sound(r[0]) && CannotWedge(r[0]) && r[0].elapsed == 0 && Measure(r[0]) >= 0
  {
    StartsSound(r, max, n, alg, jobs);
    MeasureAtLeast(r[0]);
    var s := Initial(max, n, alg);
    if forall i :: 0 <= i < |jobs| ==> jobs[i].submission == 0 {
      AllSubmittedAtOnce(s, jobs);
    } else if |jobs| <= max % SIZE_T {
      StartAllIdentities(One(), s, jobs);
      SumOfOnes(jobs);
    } else {
      StartAllBlockers(s, jobs);
    }
  }

  lemma {:induction false} SumOfOnes(jobs: seq<Job>)
    ensures SumOf(OfJob(One()), jobs) == |jobs|
  {
    if jobs != [] {
      SumOfOnes(jobs[1..]);
    }
  }

  lemma {:induction false} AllSubmittedAtOnce(s: State, jobs: seq<Job>)
    requires s.incoming == [] && s.blocked == [] && forall i :: 0 <= i < |jobs| ==> jobs[i].submission == 0
    ensures StartAll(s, jobs).incoming == [] && StartAll(s, jobs).blocked == []
    decreases |jobs|
  {
    if jobs != [] {
      assert jobs[0].submission == 0 && forall i :: 0 <= i < |jobs[1..]| ==> jobs[1..][i] == jobs[i + 1];
      AllSubmittedAtOnce(StartProcess(s, jobs[0]), jobs[1..]);
    }
  }

  // ---------------------------------------------------------------- statistics

  function TotalTime(): (nat, int) -> int {
    (pid: nat, total: int) => total
  }

  /** Turnaround is waiting plus service, and service is the execution time of those who
      have terminated. */
  ghost predicate StatisticsAddUp(s: State) {
    && s.stats.turnaround == s.stats.waiting + s.stats.service
    && s.stats.service == Sum(ByIdentity(TotalTime()), Done, s.terminated)
  }

  lemma StatisticsRunning(d: State)
    requires StatisticsAddUp(d)
    ensures StatisticsAddUp(CheckRunning(d))
  {
    if d.cpu.running != [] {
      var q := d.cpu.running[0].RunTick();
      if q.remaining >= 1 {
        TurnStays(d);
      } else {
        TurnLeaves(d);
        StatisticsGoes(Without(d), CheckRunning(d), q);
      }
    }
  }

  lemma StatisticsGoes(t: State, v: State, q: Process)
    requires StatisticsAddUp(t) && GoesTo(t, v, q)
    ensures StatisticsAddUp(v)
  {
    SumOne(ByIdentity(TotalTime()), Done, t.terminated, q.Finish(t.elapsed));
  }

  lemma StatisticsTick(s: State, s': State)
    requires Tick(s, s') && StatisticsAddUp(s)
    ensures StatisticsAddUp(s')
  {
    var u := Through(s, s');
    QueuesFrame(s);
    StatisticsRunning(Readmit(CheckBlocked(Queued(s))));
    DispatchFrame(BeforeDispatch(s), u);
    AfterFrame(u);
  }

  lemma {:induction false} StatisticsRun(r: seq<State>, i: nat)
    requires Run(r) && StatisticsAddUp(r[0]) && i < |r|
    ensures StatisticsAddUp(r[i])
  {
    if i > 0 {
      StatisticsRun(r, i - 1);
      StatisticsStep(r, i - 1);
    }
  }

  lemma StatisticsStep(r: seq<State>, i: nat)
    requires Run(r) && i + 1 < |r| && StatisticsAddUp(r[i])
    ensures StatisticsAddUp(r[i + 1])
  {
    RunStep(r, i);
    StatisticsTick(r[i], r[i + 1]);
  }

  lemma {:induction false} StartAllStatistics(s: State, jobs: seq<Job>)
    ensures StartAll(s, jobs).stats == s.stats && StartAll(s, jobs).terminated == s.terminated
    decreases |jobs|
  {
    if jobs != [] {
      StartAllStatistics(StartProcess(s, jobs[0]), jobs[1..]);
    }
  }

  /** At the end of a simulation the accumulated service time is the execution time of all
      jobs, and turnaround exceeds waiting by just that. */
  lemma ServiceIsExecution(r: seq<State>, max: int, frames: nat, alg: Algorithm, jobs: seq<Job>)
    requires Simulates(r, max, frames, alg, jobs) && r[|r| - 1].Finished()
    ensures var t := r[|r| - 1].stats;
            t.service == SumOf(OfJob(TotalTime()), jobs) && t.turnaround == t.waiting + t.service
  {
    StatisticsAtStart(max, frames, alg, jobs);
    StartsSound(r, max, frames, alg, jobs);
    StatisticsAtEnd(r);
  }

  lemma StatisticsAtEnd(r: seq<State>)
    requires Run(r) && Sound(r[0]) && StatisticsAddUp(r[0]) && r[|r| - 1].Finished()
    ensures var t := r[|r| - 1].stats;
            t.service == Total(ByIdentity(TotalTime()), r[0]) && t.turnaround == t.waiting + t.service
  {
    StatisticsRun(r, |r| - 1);
    ProcessesConservedRun(TotalTime(), r, |r| - 1);
    SoundRun(r, |r| - 1);
  }

  lemma StatisticsAtStart(max: int, frames: nat, alg: Algorithm, jobs: seq<Job>)
    ensures var s := StartAll(Initial(max, frames, alg), jobs);
            StatisticsAddUp(s) && Total(ByIdentity(TotalTime()), s) == SumOf(OfJob(TotalTime()), jobs)
  {
    StartAllStatistics(Initial(max, frames, alg), jobs);
    StartAllIdentities(TotalTime(), Initial(max, frames, alg), jobs);
  }

  // ---------------------------------------------------------------- waiting times

  /** A process that was never re-stamped has run for no longer than since its submission stamp. */
  predicate RanWithin(p: Process, now: int) {
    p.readmitted || p.total - p.remaining <= now - p.submission
  }

  /** 1 for a process that breaks the rule of its place, 0 otherwise; a running process is
      judged at `ran`. */
  function Fault(now: int, ran: int, at: Place, p: Process): int {
    match at
    case Incoming => if p.remaining == p.total then 0 else 1
    case Waiting => if p.remaining == p.total then 0 else 1
    case Running => if RanWithin(p, ran) then 0 else 1
    case Done => if p.readmitted || p.waiting >= 0 then 0 else 1
    case _ => if RanWithin(p, now) then 0 else 1
  }

  ghost function Faults(now: int, ran: int): Weight {
    (at: Place, p: Process) => Fault(now, ran, at, p)
  }

  lemma FaultRules(now: int)
    ensures RulesBetween(Faults(now, now - 1), Faults(now, now), now, 0, false)
  {
    FaultQueueRules(now);
    FaultsRelax(now);
    FaultRunRule(now);
  }

  lemma FaultRunRule(now: int)
    ensures RunRule(Faults(now, now - 1), Faults(now, now), now, 0)
  {
  }

  lemma FaultQueueRules(now: int)
    ensures QueueRules(Faults(now, now - 1), now, false)
  {
    FaultStampRules(Faults(now, now - 1), now);
    FaultBlockRules(Faults(now, now - 1), now);
  }

  lemma FaultStampRules(w: Weight, now: int)
    requires w == Faults(now, now - 1)
    ensures ArriveRule(w, 0) && AdmitRule(w, now) && ReadmitRule(w, now)
  {
  }

  lemma FaultBlockRules(w: Weight, now: int)
    requires w == Faults(now, now - 1)
    ensures BlockedRule(w, 0) && SuspendedRule(w, 0)
  {
  }

  lemma FaultsRelax(now: int)
    ensures Relaxes(Faults(now, now - 1), Faults(now, now))
  {
  }

  lemma {:induction false} SumFaultsLater(now: int, at: Place, q: seq<Process>)
    ensures 0 <= Sum(Faults(now + 1, now), at, q) <= Sum(Faults(now, now), at, q)
    ensures Sum(Faults(now + 1, now), at, q) == 0 ==> forall p :: p in q ==> Fault(now + 1, now, at, p) == 0
  {
    if q != [] {
      SumFaultsLater(now, at, q[1..]);
      assert forall p :: p in q ==> p == q[0] || p in q[1..];
    }
  }

  /** No process breaks the rule of its place. */
  ghost predicate NoFaults(s: State) {
    Total(Faults(s.elapsed, s.elapsed - 1), s) == 0
  }

  lemma TotalFaultsLater(now: int, s: State)
    ensures 0 <= Total(Faults(now + 1, now), s) <= Total(Faults(now, now), s)
  {
    SumFaultsLater(now, Incoming, s.incoming);
    SumFaultsLater(now, Waiting, s.waiting);
    SumFaultsLater(now, Ready, s.cpu.ready);
    SumFaultsLater(now, Running, s.cpu.running);
    SumFaultsLater(now, Blocked, s.blocked);
    SumFaultsLater(now, BlockedSuspended, s.blockedSuspended);
    SumFaultsLater(now, ReadySuspended, s.readySuspended);
    SumFaultsLater(now, Done, s.terminated);
  }

  lemma NoFaultsTick(s: State, s': State)
    requires Tick(s, s') && NoFaults(s)
    ensures NoFaults(s')
  {
    var u := Through(s, s');
    FaultsFlow(Faults(s.elapsed, s.elapsed - 1), Faults(s.elapsed, s.elapsed), s, u, s');
    IncomingAfter(s, u, s');
    TotalFaultsLater(s.elapsed, s');
  }

  lemma FaultsFlow(w: Weight, v: Weight, s: State, u: State, s': State)
    requires Via(s, u, s')
    requires w == Faults(s.elapsed, s.elapsed - 1) && v == Faults(s.elapsed, s.elapsed)
    ensures Total(v, s') <= Total(w, s)
  {
    FaultRules(s.elapsed);
    FlowTickKeeps(w, v, s, u, s');
  }

  lemma {:induction false} NoFaultsRun(r: seq<State>, i: nat)
    requires Run(r) && NoFaults(r[0]) && i < |r|
    ensures NoFaults(r[i])
  {
    if i > 0 {
      NoFaultsRun(r, i - 1);
      NoFaultsStep(r, i - 1);
      assert r[i - 1 + 1] == r[i];
    }
  }

  lemma NoFaultsStep(r: seq<State>, i: nat)
    requires Run(r) && i + 1 < |r| && NoFaults(r[i])
    ensures NoFaults(r[i + 1])
  {
    RunStep(r, i);
    NoFaultsTick(r[i], r[i + 1]);
  }

  lemma {:induction false} StartAllNoFaults(s: State, jobs: seq<Job>)
    requires s.elapsed == 0 && NoFaults(s)
    ensures NoFaults(StartAll(s, jobs)) && StartAll(s, jobs).elapsed == 0
    decreases |jobs|
  {
    if jobs != [] {
      StartNoFaults(s, jobs[0]);
      StartAllNoFaults(StartProcess(s, jobs[0]), jobs[1..]);
    }
  }

  lemma StartNoFaults(s: State, j: Job)
    requires s.elapsed == 0 && NoFaults(s)
    ensures NoFaults(StartProcess(s, j)) && StartProcess(s, j).elapsed == 0
  {
    var p := Create(j);
    if j.submission != 0 {
      SumOne(Faults(0, -1), Incoming, s.incoming, p);
    } else if s.SysFull() {
      SumOne(Faults(0, -1), Waiting, s.waiting, p);
    } else {
      SumOne(Faults(0, -1), Ready, s.cpu.ready, p);
    }
  }

  /** A process that terminates without ever having been suspended has a waiting time of
      zero or more. */
  lemma WaitingTimeNonNegative(r: seq<State>, i: nat, max: int, frames: nat, alg: Algorithm, jobs: seq<Job>)
    requires Simulates(r, max, frames, alg, jobs) && i < |r|
    ensures forall p :: p in r[i].terminated && !p.readmitted ==> p.waiting >= 0
  {
    StartAllNoFaults(Initial(max, frames, alg), jobs);
    NoFaultsRun(r, i);
    var s := r[i];
    NoFaultsMeans(s);
  }

  lemma NoFaultsMeans(s: State)
    requires NoFaults(s)
    ensures forall p :: p in s.terminated && !p.readmitted ==> p.waiting >= 0
  {
    var now := s.elapsed - 1;
    SumFaultsLater(now, Incoming, s.incoming);
    SumFaultsLater(now, Waiting, s.waiting);
    SumFaultsLater(now, Ready, s.cpu.ready);
    SumFaultsLater(now, Running, s.cpu.running);
    SumFaultsLater(now, Blocked, s.blocked);
    SumFaultsLater(now, BlockedSuspended, s.blockedSuspended);
    SumFaultsLater(now, ReadySuspended, s.readySuspended);
    SumFaultsLater(now, Done, s.terminated);
    assert forall p :: p in s.terminated ==> Fault(now + 1, now, Done, p) == 0;
  }
}
