/** Response times, and the sums that the statistics keep. */
module SimResponse {
  import opened Seqs
  import opened Processes
  import opened PageReplacement
  import opened SchedulingPolicies
  import opened SimState
  import opened SimFlow
  import opened SimInvariants
  import opened SimAccounting
  import opened SimPaging
  import opened SimTimes

  // ---------------------------------------------------------------- when a process first got the processor

  predicate Runs(s: State, x: nat) {
    s.cpu.running != [] && s.cpu.running[0].pid == x
  }

  /** The ticks from x's last entry into the ready queue to its first turn, or -1 before that turn. */
  ghost function ResponseDue(r: seq<State>, i: nat, x: nat): int
    requires i < |r|
  {
    if i == 0 then -1
    else
      var before := ResponseDue(r, i - 1, x);
      if before == -1 && Runs(r[i], x) then r[i - 1].elapsed - LastEntry(r, i, x) else before
  }

  ghost function DueOf(r: seq<State>, i: nat): nat -> int
    requires i < |r|
  {
    (x: nat) => ResponseDue(r, i, x)
  }

  /** 1 for a process whose response time is not the one that is due. */
  ghost function Misanswered(f: nat -> int): Weight {
    (at: Place, p: Process) => if p.response == f(p.pid) then 0 else 1
  }

  ghost predicate Answered(s: State, f: nat -> int) {
    forall at: Place, p: Process :: p in Queue(s, at) ==> p.response == f(p.pid)
  }

  lemma AnsweredIsWeightless(s: State, f: nat -> int)
    ensures Answered(s, f) <==> Weightless(Misanswered(f), s)
  {
    var w := Misanswered(f);
    if Weightless(w, s) {
      forall at: Place, p: Process | p in Queue(s, at)
        ensures p.response == f(p.pid)
      {
        assert w(at, p) == 0;
      }
    }
  }

  lemma MisansweredQueueRules(w: Weight, f: nat -> int, now: int)
    requires w == Misanswered(f)
    ensures QueueRules(w, now, false)
  {
    MisansweredBlockedRules(w, f);
  }

  lemma MisansweredBlockedRules(w: Weight, f: nat -> int)
    requires w == Misanswered(f)
    ensures BlockedRule(w, 0) && SuspendedRule(w, 0)
  {
  }

  lemma MisansweredTurnRules(w: Weight, f: nat -> int, now: int)
    requires w == Misanswered(f)
    ensures RunRule(w, w, now, 0) && Relaxes(w, w) && Measures(w)
  {
  }

  lemma AnsweredBefore(s: State, f: nat -> int)
    requires FramesOK(s) && Answered(s, f)
    ensures Answered(BeforeDispatch(s), f)
  {
    var w, d := Misanswered(f), Readmit(CheckBlocked(Queued(s)));
    MisansweredQueueRules(w, f, s.elapsed);
    MisansweredTurnRules(w, f, s.elapsed);
    AnsweredIsWeightless(s, f);
    WeightlessAtTurn(w, s);
    ZeroTotal(w, d);
    QueuesFrame(s);
    FlowRunning(w, w, d, 0);
    ZeroTotal(w, CheckRunning(d));
    AnsweredIsWeightless(BeforeDispatch(s), f);
  }

  /** What a tick makes of the response times: those of a process that has just got the processor
      for the first time are set. */
  function Answer(f: nat -> int, dispatched: bool, now: int, p: Process): int {
    if dispatched && f(p.pid) == -1 then now - p.submission else f(p.pid)
  }

  ghost predicate AnsweredNow(u: State, f: nat -> int, dispatched: bool, now: int) {
    && (forall p :: p in u.cpu.running ==> p.response == Answer(f, dispatched, now, p))
    && forall at: Place, p: Process :: at != Running && p in Queue(u, at) ==> p.response == f(p.pid)
  }

  lemma AnsweredDispatch(t: State, u: State, f: nat -> int)
    requires Dispatch(t, u) && Answered(t, f)
    ensures AnsweredNow(u, f, t.cpu.running == [], t.elapsed)
  {
    DispatchFrame(t, u);
    assert forall p :: p in Queue(t, Running) ==> p.response == f(p.pid);
    assert forall p :: p in Queue(t, Ready) ==> p.response == f(p.pid);
    if t.cpu.running == [] && t.cpu.ready != [] {
      var k: nat :| MovesOne(t.cpu, u.cpu, k, t.elapsed);
      assert t.cpu.ready[k] in t.cpu.ready;
      forall p | p in u.cpu.ready
        ensures p.response == f(p.pid)
      {
        StayersAnswered(t.cpu, u.cpu, k, t.elapsed, f, p);
      }
    }
    forall at: Place, p: Process | at != Running && p in Queue(u, at)
      ensures p.response == f(p.pid)
    {
      assert at != Ready ==> Queue(u, at) == Queue(t, at);
    }
  }

  lemma StayersAnswered(c: CpuState, d: CpuState, k: nat, now: int, f: nat -> int, p: Process)
    requires MovesOne(c, d, k, now) && p in d.ready && forall q :: q in c.ready ==> q.response == f(q.pid)
    ensures p.response == f(p.pid)
  {
    var i :| 0 <= i < |d.ready| && d.ready[i] == p;
    var q := RemoveAt(c.ready, k)[i];
    assert q.SameJob(d.ready[i]) && q in c.ready;
  }

  /** Paging leaves the processes as they are, but for the page list of the one that runs. */
  lemma OnlyPages(u: State)
    requires FramesOK(u)
    ensures var v := AfterDispatch(u);
            && |v.cpu.running| == |u.cpu.running|
            && forall i :: 0 <= i < |v.cpu.running| ==> v.cpu.running[i] == u.cpu.running[i].(pages := v.cpu.running[i].pages)
  {
  }

  lemma AnsweredAfter(u: State, f: nat -> int, dispatched: bool, now: int)
    requires FramesOK(u) && AnsweredNow(u, f, dispatched, now)
    ensures AnsweredNow(AfterDispatch(u), f, dispatched, now)
  {
    var v := AfterDispatch(u);
    AfterFrame(u);
    OnlyPages(u);
    forall p | p in v.cpu.running
      ensures p.response == Answer(f, dispatched, now, p)
    {
      var i :| 0 <= i < |v.cpu.running| && v.cpu.running[i] == p;
      assert u.cpu.running[i] in u.cpu.running;
    }
    forall at: Place, p: Process | at != Running && p in Queue(v, at)
      ensures p.response == f(p.pid)
    {
      assert Queue(v, at) == Queue(u, at);
    }
  }

  lemma AnsweredTick(s: State, u: State, s': State, f: nat -> int)
    requires Via(s, u, s') && Sound(s) && Answered(s, f)
    ensures AnsweredNow(s', f, BeforeDispatch(s).cpu.running == [], s.elapsed)
  {
    AnsweredBefore(s, f);
    BeforeDispatchFrame(s);
    AnsweredDispatch(BeforeDispatch(s), u, f);
    AnsweredAfter(u, f, BeforeDispatch(s).cpu.running == [], s.elapsed);
  }

  // ---------------------------------------------------------------- over whole runs

  lemma {:induction false} EntryBound(r: seq<State>, i: nat, x: nat)
    requires Run(r) && r[0].elapsed == 0 && i < |r|
    ensures 0 <= LastEntry(r, i, x) && (i > 0 ==> LastEntry(r, i, x) < i)
    decreases i
  {
    if i > 0 {
      EntryBound(r, i - 1, x);
      ClockRuns(r, i - 1);
    }
  }

  /** Whoever has run has a response time, which is never negative. */
  lemma {:induction false} ResponseOnce(r: seq<State>, i: nat, x: nat)
    requires Run(r) && r[0].elapsed == 0 && r[0].cpu.running == [] && i < |r|
    ensures ResponseDue(r, i, x) >= -1 && (Runs(r[i], x) ==> ResponseDue(r, i, x) >= 0)
    decreases i
  {
    if i > 0 {
      ResponseOnce(r, i - 1, x);
      EntryBound(r, i, x);
      ClockRuns(r, i - 1);
    }
  }

  /** A process that is not taken off the processor was on it before. */
  lemma StaysRunning(s: State)
    requires Sound(s) && BeforeDispatch(s).cpu.running != []
    ensures s.cpu.running != [] && BeforeDispatch(s).cpu.running[0].pid == s.cpu.running[0].pid
  {
    CpuBefore(s);
  }

  lemma ResponseStep(r: seq<State>, i: nat)
    requires Run(r) && i + 1 < |r| && Sound(r[i]) && Sound(r[i + 1]) && Distinct(r[i + 1])
    requires r[0].elapsed == 0 && r[0].cpu.running == []
    requires Dated(r[i + 1], EntryOf(r, i + 1)) && Answered(r[i], DueOf(r, i))
    ensures Answered(r[i + 1], DueOf(r, i + 1))
  {
    RunStep(r, i);
    var s', f, g := r[i + 1], DueOf(r, i), DueOf(r, i + 1);
    var dispatched := BeforeDispatch(r[i]).cpu.running == [];
    AnsweredTick(r[i], Through(r[i], s'), s', f);
    forall p | p in s'.cpu.running
      ensures Answer(f, dispatched, r[i].elapsed, p) == g(p.pid)
    {
      RunnerAnswered(r, i, p, dispatched);
    }
    forall at: Place, p: Process | at != Running && p in Queue(s', at)
      ensures f(p.pid) == g(p.pid)
    {
      OtherAnswered(r, i, at, p);
    }
    AnsweredAnew(s', f, g, dispatched, r[i].elapsed);
  }

  lemma AnsweredAnew(s: State, f: nat -> int, g: nat -> int, dispatched: bool, now: int)
    requires AnsweredNow(s, f, dispatched, now)
    requires forall p :: p in s.cpu.running ==> Answer(f, dispatched, now, p) == g(p.pid)
    requires forall at: Place, p: Process :: at != Running && p in Queue(s, at) ==> f(p.pid) == g(p.pid)
    ensures Answered(s, g)
  {
  }

  lemma RunnerAnswered(r: seq<State>, i: nat, p: Process, dispatched: bool)
    requires Run(r) && i + 1 < |r| && Sound(r[i]) && Sound(r[i + 1]) && p in r[i + 1].cpu.running
    requires r[0].elapsed == 0 && r[0].cpu.running == []
    requires Dated(r[i + 1], EntryOf(r, i + 1))
    requires dispatched <==> BeforeDispatch(r[i]).cpu.running == []
    ensures Answer(DueOf(r, i), dispatched, r[i].elapsed, p) == DueOf(r, i + 1)(p.pid)
  {
    assert p in r[i + 1].cpu.running && p.submission == EntryOf(r, i + 1)(p.pid);
    if !dispatched {
      RunStep(r, i);
      KeptRunning(r[i], Through(r[i], r[i + 1]), r[i + 1]);
      ResponseOnce(r, i, p.pid);
    }
  }

  lemma OtherAnswered(r: seq<State>, i: nat, at: Place, p: Process)
    requires i + 1 < |r| && Distinct(r[i + 1]) && at != Running && p in Queue(r[i + 1], at)
    ensures DueOf(r, i)(p.pid) == DueOf(r, i + 1)(p.pid)
  {
    if r[i + 1].cpu.running != [] {
      DifferentNames(r[i + 1], at, p, Running, r[i + 1].cpu.running[0]);
    }
  }

  lemma KeptRunning(s: State, u: State, s': State)
    requires Via(s, u, s') && Sound(s) && BeforeDispatch(s).cpu.running != []
    ensures s.cpu.running != [] && |s'.cpu.running| == 1 && s'.cpu.running[0].pid == s.cpu.running[0].pid
  {
    BeforeDispatchFrame(s);
    StaysRunning(s);
    OnlyPages(u);
  }

  lemma {:induction false} ResponseRun(r: seq<State>, i: nat)
    requires Run(r) && Sound(r[0]) && Distinct(r[0]) && r[0].elapsed == 0 && r[0].cpu.running == [] && i < |r|
    requires Dated(r[0], EntryOf(r, 0)) && Answered(r[0], DueOf(r, 0))
    ensures Answered(r[i], DueOf(r, i))
  {
    if i > 0 {
      ResponseRun(r, i - 1);
      SoundRun(r, i - 1);
      SoundRun(r, i);
      EntriesRun(r, i);
      ResponseStep(r, i - 1);
    }
  }

  lemma {:induction false} StartAllAnswered(s: State, jobs: seq<Job>)
    requires forall at: Place, p: Process :: p in Queue(s, at) ==> p.response == -1
    ensures forall at: Place, p: Process :: p in Queue(StartAll(s, jobs), at) ==> p.response == -1
    decreases |jobs|
  {
    if jobs != [] {
      StartAnswered(s, jobs[0]);
      StartAllAnswered(StartProcess(s, jobs[0]), jobs[1..]);
    }
  }

  lemma StartAnswered(s: State, j: Job)
    requires forall at: Place, p: Process :: p in Queue(s, at) ==> p.response == -1
    ensures forall at: Place, p: Process :: p in Queue(StartProcess(s, j), at) ==> p.response == -1
  {
    var t := StartProcess(s, j);
    forall at: Place, p: Process | p in Queue(t, at)
      ensures p.response == -1
    {
      if p != Create(j) {
        assert p in Queue(s, at);
      }
    }
  }

  /** In every state of every simulation, under every policy, the response time of a process,
      wherever it is, is the time from its last entry into the ready queue before its first turn to that
      turn, and -1 if it has not had one. */
  lemma ResponseIsToFirstTurn(r: seq<State>, i: nat, max: int, frames: nat, alg: Algorithm, jobs: seq<Job>)
    requires Simulates(r, max, frames, alg, jobs) && i < |r|
    requires forall j, k :: 0 <= j < k < |jobs| ==> jobs[j].pid != jobs[k].pid
    ensures forall at: Place, p: Process :: p in Queue(r[i], at) ==> p.response == ResponseDue(r, i, p.pid)
  {
    StartsDistinct(r, max, frames, alg, jobs);
    StartsSound(r, max, frames, alg, jobs);
    StartAllDated(Initial(max, frames, alg), jobs);
    StartAllAnswered(Initial(max, frames, alg), jobs);
    ResponseRun(r, i);
    forall at: Place, p: Process | p in Queue(r[i], at)
      ensures p.response == ResponseDue(r, i, p.pid)
    {
      assert p.response == DueOf(r, i)(p.pid);
    }
  }

  // ---------------------------------------------------------------- the accumulated times

  function WaitingOf(q: seq<Process>): int {
    if q == [] then 0 else WaitingOf(q[..|q| - 1]) + q[|q| - 1].waiting
  }

  function ResponseOf(q: seq<Process>): int {
    if q == [] then 0 else ResponseOf(q[..|q| - 1]) + q[|q| - 1].response
  }

  function TurnaroundOf(q: seq<Process>): int {
    if q == [] then 0 else TurnaroundOf(q[..|q| - 1]) + q[|q| - 1].turnaround
  }

  /** The three accumulated times are the sums over those that have terminated. */
  ghost predicate Accumulated(s: State) {
    && s.stats.waiting == WaitingOf(s.terminated) && s.stats.response == ResponseOf(s.terminated)
    && s.stats.turnaround == TurnaroundOf(s.terminated)
  }

  lemma AccumulatedGoes(t: State, v: State, q: Process)
    requires Accumulated(t) && GoesTo(t, v, q)
    ensures Accumulated(v)
  {
    if q.block <= 0 {
      assert v.terminated[..|v.terminated| - 1] == t.terminated;
    }
  }

  lemma AccumulatedTick(s: State, s': State)
    requires Tick(s, s') && Accumulated(s)
    ensures Accumulated(s')
  {
    var u := Through(s, s');
    QueuesFrame(s);
    AccumulatedTurn(Readmit(CheckBlocked(Queued(s))));
    DispatchFrame(BeforeDispatch(s), u);
    AfterFrame(u);
  }

  lemma AccumulatedTurn(d: State)
    requires Accumulated(d)
    ensures Accumulated(CheckRunning(d))
  {
    if d.cpu.running != [] {
      if d.cpu.running[0].RunTick().remaining >= 1 {
        TurnStays(d);
      } else {
        TurnLeaves(d);
        AccumulatedGoes(Without(d), CheckRunning(d), d.cpu.running[0].RunTick());
      }
    }
  }

  lemma AccumulatedStep(r: seq<State>, i: nat)
    requires Run(r) && i + 1 < |r| && Accumulated(r[i])
    ensures Accumulated(r[i + 1])
  {
    RunStep(r, i);
    AccumulatedTick(r[i], r[i + 1]);
  }

  lemma {:induction false} AccumulatedRun(r: seq<State>, i: nat)
    requires Run(r) && Accumulated(r[0]) && i < |r|
    ensures Accumulated(r[i])
  {
    if i > 0 {
      AccumulatedRun(r, i - 1);
      AccumulatedStep(r, i - 1);
    }
  }

  /** In every state of every simulation the statistics are the sums of the times of the terminated. */
  lemma StatisticsAreSums(r: seq<State>, i: nat, max: int, frames: nat, alg: Algorithm, jobs: seq<Job>)
    requires Simulates(r, max, frames, alg, jobs) && i < |r|
    ensures r[i].stats.waiting == WaitingOf(r[i].terminated) && r[i].stats.response == ResponseOf(r[i].terminated)
    ensures r[i].stats.turnaround == TurnaroundOf(r[i].terminated)
  {
    StartAllStatistics(Initial(max, frames, alg), jobs);
    AccumulatedRun(r, i);
  }
}
