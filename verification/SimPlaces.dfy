/** Where a process goes and when: at the start, on arrival, and out of its block. */
module SimPlaces {
  import opened Seqs
  import opened Processes
  import opened PageReplacement
  import opened SimState
  import opened SimFlow
  import opened SimInvariants
  import opened SimAccounting
  import opened SimTimes

  // ---------------------------------------------------------------- the start

  /** The jobs that are submitted at time 0, or those that are not, in the order of the input. */
  function Submitted(jobs: seq<Job>, atOnce: bool): seq<Job> {
    if jobs == [] then []
    else (if (jobs[0].submission == 0) == atOnce then [jobs[0]] else []) + Submitted(jobs[1..], atOnce)
  }

  /** The process of a job: its fields, nothing run and nothing timed yet. */
  predicate IsProcessOf(p: Process, j: Job) {
    && p.pid == j.pid && p.submission == j.submission && p.priority == j.priority && p.block == j.block
    && p.remaining == p.total == j.execution && p.pages == j.pages
    && p.response == -1 && !p.readmitted
  }

  predicate AreProcessesOf(q: seq<Process>, jobs: seq<Job>) {
    |q| == |jobs| && forall i :: 0 <= i < |q| ==> IsProcessOf(q[i], jobs[i])
  }

  function AllPages(jobs: seq<Job>): seq<Page> {
    if jobs == [] then [] else jobs[0].pages + AllPages(jobs[1..])
  }

  /** The first jobs of `now` that fit are ready, the others of them wait, `later` are still to come,
      and the pages of all of `now` are on disk. */
  ghost predicate Placed(s: State, now: seq<Job>, later: seq<Job>) {
    && s.Level() == |s.cpu.ready| == Least(s.Capacity(), |now|)
    && AreProcessesOf(s.cpu.ready + s.waiting, now) && AreProcessesOf(s.incoming, later)
    && s.store.disk == AllPages(now) && s.created == |now| + |later|
  }

  lemma AppendedProcesses(q: seq<Process>, jobs: seq<Job>, p: Process, j: Job)
    requires AreProcessesOf(q, jobs) && IsProcessOf(p, j)
    ensures AreProcessesOf(q + [p], jobs + [j])
  {
  }

  lemma {:induction false} AllPagesAppend(jobs: seq<Job>, j: Job)
    ensures AllPages(jobs + [j]) == AllPages(jobs) + j.pages
  {
    if jobs == [] {
      assert [j][1..] == [];
    } else {
      assert (jobs + [j])[1..] == jobs[1..] + [j];
      AllPagesAppend(jobs[1..], j);
    }
  }

  lemma OnePlaced(s: State, now: seq<Job>, later: seq<Job>, j: Job)
    requires Placed(s, now, later)
    ensures Placed(StartProcess(s, j), if j.submission == 0 then now + [j] else now, if j.submission == 0 then later else later + [j])
  {
    FullMeansEqual(s.max, s.Level());
    var t := StartProcess(s, j);
    if j.submission == 0 {
      AllPagesAppend(now, j);
      AppendedProcesses(s.cpu.ready + s.waiting, now, Create(j), j);
      if s.SysFull() {
        assert t.cpu.ready + t.waiting == s.cpu.ready + s.waiting + [Create(j)];
      } else {
        assert s.waiting == [];
        assert t.cpu.ready + t.waiting == s.cpu.ready + s.waiting + [Create(j)];
      }
    } else {
      AppendedProcesses(s.incoming, later, Create(j), j);
    }
  }

  lemma {:induction false} AllPlaced(s: State, now: seq<Job>, later: seq<Job>, jobs: seq<Job>)
    requires Placed(s, now, later)
    ensures Placed(StartAll(s, jobs), now + Submitted(jobs, true), later + Submitted(jobs, false))
    decreases |jobs|
  {
    if jobs == [] {
      assert now + [] == now && later + [] == later;
    } else {
      var j := jobs[0];
      OnePlaced(s, now, later, j);
      AllPlaced(StartProcess(s, j), if j.submission == 0 then now + [j] else now,
                if j.submission == 0 then later else later + [j], jobs[1..]);
      OneSubmitted(now, jobs, true);
      OneSubmitted(later, jobs, false);
    }
  }

  lemma OneSubmitted(q: seq<Job>, jobs: seq<Job>, atOnce: bool)
    requires jobs != []
    ensures q + Submitted(jobs, atOnce)
         == (if (jobs[0].submission == 0) == atOnce then q + [jobs[0]] else q) + Submitted(jobs[1..], atOnce)
  {
  }

  /** The start of a simulation, in full: of the jobs submitted at time 0 as many as the limit allows
      are ready and the others wait, in input order, with all their pages on disk; the others are still
      to come; and every process has the fields of its job. */
  lemma StartPlaces(max: int, frames: nat, alg: Algorithm, jobs: seq<Job>)
    ensures var s := StartAll(Initial(max, frames, alg), jobs); var now := Submitted(jobs, true);
            && |s.cpu.ready| == Least(s.Capacity(), |now|)
            && AreProcessesOf(s.cpu.ready + s.waiting, now) && AreProcessesOf(s.incoming, Submitted(jobs, false))
            && s.store.disk == AllPages(now) && s.created == |now| + |Submitted(jobs, false)|
  {
    var now, later := Submitted(jobs, true), Submitted(jobs, false);
    AllPlaced(Initial(max, frames, alg), [], [], jobs);
    assert [] + now == now && [] + later == later;
  }

  // ---------------------------------------------------------------- arrival

  /** A process arrives in the first tick that is not before its submission time: nobody is early and
      nobody due stays behind. */
  lemma ArrivesWhenDue(s: State)
    ensures var t := Arrive(s);
            && s.waiting <= t.waiting && |t.waiting| + |t.incoming| == |s.waiting| + |s.incoming|
            && (forall p :: p in t.incoming <==> p in s.incoming && p.submission > s.elapsed)
            && (forall p :: p in t.waiting[|s.waiting|..] <==> p in s.incoming && p.submission <= s.elapsed)
  {
    KeptMembers(DueBy(s.elapsed), s.incoming);
    TakenKeptCount(DueBy(s.elapsed), s.incoming);
    assert Arrive(s).waiting[|s.waiting|..] == Taken(DueBy(s.elapsed), s.incoming);
  }

  // ---------------------------------------------------------------- blocks

  function CountedDown(p: Process): Process {
    if p.block > 0 then p.(block := p.block - 1) else p
  }

  lemma {:induction false} DecrementMembers(q: seq<Process>, x: Process)
    ensures x in DecrementAll(q) <==> exists p :: p in q && x == CountedDown(p)
  {
    if q != [] {
      DecrementMembers(q[1..], x);
      assert q == [q[0]] + q[1..];
      assert DecrementAll(q) == [CountedDown(q[0])] + DecrementAll(q[1..]);
      if x in DecrementAll(q[1..]) {
        var p :| p in q[1..] && x == CountedDown(p);
        assert p in q;
      }
    }
  }

  /** Block times count down by one.  A blocked process whose block is over becomes ready if nobody
      waits, and otherwise stays; a suspended one becomes ready-suspended in any case. */
  lemma BlocksCountDown(s: State, p: Process)
    ensures var t := CheckBlocked(s); var q := CountedDown(p);
            && (p in s.blocked ==> if q.block > 0 || s.waiting != [] then q in t.blocked else q in t.cpu.ready)
            && (p in s.blockedSuspended ==> if q.block > 0 then q in t.blockedSuspended else q in t.readySuspended)
  {
    var over := OverIf(s.waiting == []);
    DecrementMembers(s.blocked, CountedDown(p));
    DecrementMembers(s.blockedSuspended, CountedDown(p));
    KeptMembers(over, DecrementAll(s.blocked));
    KeptMembers(OverIf(true), DecrementAll(s.blockedSuspended));
  }

  /** And nobody else leaves or joins them there. */
  lemma OnlyBlocksCountDown(s: State, q: Process)
    ensures var t := CheckBlocked(s);
            && (q in t.blocked ==> (q.block > 0 || s.waiting != []) && exists p :: p in s.blocked && q == CountedDown(p))
            && (q in t.blockedSuspended ==> q.block > 0 && exists p :: p in s.blockedSuspended && q == CountedDown(p))
            && (q in t.cpu.ready ==> q in s.cpu.ready || exists p :: p in s.blocked && q == CountedDown(p) && q.block <= 0)
            && (q in t.readySuspended ==>
                  q in s.readySuspended || exists p :: p in s.blockedSuspended && q == CountedDown(p) && q.block <= 0)
  {
    var over := OverIf(s.waiting == []);
    DecrementMembers(s.blocked, q);
    DecrementMembers(s.blockedSuspended, q);
    KeptMembers(over, DecrementAll(s.blocked));
    KeptMembers(OverIf(true), DecrementAll(s.blockedSuspended));
  }

  // ---------------------------------------------------------------- what a process keeps

  ghost predicate IsJob(jobs: seq<Job>, pid: nat, priority: int, total: int) {
    exists i :: 0 <= i < |jobs| && jobs[i].pid == pid && jobs[i].priority == priority && jobs[i].execution == total
  }

  /** 1 for a process that is nobody's. */
  ghost function Strays(jobs: seq<Job>): Weight {
    (at: Place, p: Process) => if IsJob(jobs, p.pid, p.priority, p.total) then 0 else 1
  }

  lemma StrayRules(w: Weight, jobs: seq<Job>, now: int)
    requires w == Strays(jobs)
    ensures Rules(w, now, 0, false) && Measures(w)
  {
    StrayBlockedRules(w, jobs);
    StrayTurnRules(w, jobs, now);
    assert ArriveRule(w, 0) && AdmitRule(w, now) && ReadmitRule(w, now);
  }

  lemma StrayTurnRules(w: Weight, jobs: seq<Job>, now: int)
    requires w == Strays(jobs)
    ensures RunRule(w, w, now, 0) && DispatchRule(w) && TouchRule(w)
  {
  }

  lemma StrayBlockedRules(w: Weight, jobs: seq<Job>)
    requires w == Strays(jobs)
    ensures BlockedRule(w, 0) && SuspendedRule(w, 0)
  {
  }

  lemma {:induction false} NoStraysRun(r: seq<State>, i: nat, jobs: seq<Job>)
    requires Run(r) && Weightless(Strays(jobs), r[0]) && i < |r|
    ensures Weightless(Strays(jobs), r[i])
  {
    if i > 0 {
      NoStraysRun(r, i - 1, jobs);
      NoStraysStep(r, i - 1, jobs);
    }
  }

  lemma NoStraysStep(r: seq<State>, i: nat, jobs: seq<Job>)
    requires Run(r) && i + 1 < |r| && Weightless(Strays(jobs), r[i])
    ensures Weightless(Strays(jobs), r[i + 1])
  {
    RunStep(r, i);
    var w := Strays(jobs);
    StrayRules(w, jobs, r[i].elapsed);
    ZeroTotal(w, r[i]);
    FlowTick(w, r[i], Through(r[i], r[i + 1]), r[i + 1], 0, false);
    ZeroTotal(w, r[i + 1]);
  }

  lemma {:induction false} StartsWithoutStrays(s: State, jobs: seq<Job>, rest: seq<Job>)
    requires Weightless(Strays(jobs), s) && forall j :: j in rest ==> j in jobs
    ensures Weightless(Strays(jobs), StartAll(s, rest))
    decreases |rest|
  {
    if rest != [] {
      assert rest[0] in rest;
      var i :| 0 <= i < |jobs| && jobs[i] == rest[0];
      var w, p := Strays(jobs), Create(rest[0]);
      assert IsJob(jobs, p.pid, p.priority, p.total);
      StrayRules(w, jobs, 0);
      ZeroTotal(w, s);
      StartTotal(w, s, rest[0]);
      ZeroTotal(w, StartProcess(s, rest[0]));
      StartsWithoutStrays(StartProcess(s, rest[0]), jobs, rest[1..]);
    }
  }

  /** In every state of every simulation each process, wherever it is, has the name, the priority and
      the execution time of one of the jobs. */
  lemma EveryProcessIsAJob(r: seq<State>, i: nat, at: Place, p: Process, max: int, frames: nat, alg: Algorithm, jobs: seq<Job>)
    requires Simulates(r, max, frames, alg, jobs) && i < |r| && p in Queue(r[i], at)
    ensures exists j :: 0 <= j < |jobs| && jobs[j].pid == p.pid && jobs[j].priority == p.priority && jobs[j].execution == p.total
  {
    StartsWithoutStrays(Initial(max, frames, alg), jobs, jobs);
    NoStraysRun(r, i, jobs);
    assert Strays(jobs)(at, p) == 0;
  }
}
