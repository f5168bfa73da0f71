/** Whose pages memory holds: RemovePages leaves nothing behind. */
module SimFrames {
  import opened Seqs
  import opened Processes
  import opened PageReplacement
  import opened SchedulingPolicies
  import opened SimState
  import opened SimFlow
  import opened SimInvariants
  import opened SimAccounting
  import opened SimPaging
  import SimRoundRobin

  /** Somebody ready or running has this name. */
  ghost predicate Live(s: State, pid: nat) {
    exists p :: (p in s.cpu.ready || p in s.cpu.running) && p.pid == pid
  }

  ghost predicate Housed(s: State) {
    forall f :: f in s.store.memory ==> Live(s, f.pid)
  }

  lemma HousedLoad(s: State, page: Page)
    requires FramesOK(s) && Housed(s) && (page.lifeTime == 0 || Live(s, page.pid))
    ensures Housed(Load(s, page))
  {
    var t := Load(s, page);
    forall f | f in t.store.memory
      ensures Live(t, f.pid)
    {
      ReplaceOwners(s.alg, s.frames, s.store, page, s.elapsed, f);
      assert Live(s, f.pid);
    }
  }

  lemma {:induction false} HousedAdmit(s: State)
    requires Paged(s) && Distinct(s) && Housed(s)
    ensures Housed(Admit(s))
    decreases |s.waiting|
  {
    if !(s.SysFull() || s.waiting == []) {
      var first := s.waiting[0];
      var p := first.Stamp(s.elapsed);
      var t := s.WithCpu(s.cpu.ready + [p], s.cpu.running).(waiting := s.waiting[1..]);
      assert first in s.waiting && p in t.cpu.ready;
      forall f | f in t.store.memory
        ensures Live(t, f.pid)
      {
        assert Live(s, f.pid);
      }
      HousedLoad(t, FirstPage(p));
      PagedAdmitOne(s);
      DistinctAdmitOne(s);
      HousedAdmit(AdmitOne(s));
    }
  }

  /** A ready queue that has only grown houses what it did. */
  lemma HousedGrown(s: State, t: State)
    requires Housed(s) && t.store.memory == s.store.memory && t.cpu.running == s.cpu.running && s.cpu.ready <= t.cpu.ready
    ensures Housed(t)
  {
    forall f | f in t.store.memory
      ensures Live(t, f.pid)
    {
      assert Live(s, f.pid);
    }
  }

  lemma HousedRunning(d: State)
    requires Housed(d) && |d.cpu.running| <= 1
    ensures Housed(CheckRunning(d))
  {
    if d.cpu.running != [] {
      if d.cpu.running[0].RunTick().remaining >= 1 {
        TurnStays(d);
        HousedStays(d, CheckRunning(d));
      } else {
        TurnLeaves(d);
        HousedLeaves(d, CheckRunning(d));
      }
    }
  }

  lemma HousedStays(d: State, t: State)
    requires Housed(d) && |d.cpu.running| == 1 && d.cpu.running[0].RunTick().remaining >= 1
    requires t.store == d.store && t.cpu == CpuAfterTurn(d.cpu)
    ensures Housed(t)
  {
    var q := d.cpu.running[0].RunTick();
    if d.cpu.quantum < 1 {
      assert t.cpu.ready[|d.cpu.ready|] == q;
    } else {
      assert t.cpu.running[0] == q;
    }
    forall f | f in t.store.memory
      ensures Live(t, f.pid)
    {
      assert Live(d, f.pid);
    }
  }

  /** Only the frames of others stay, and they are ready. */
  lemma HousedLeaves(d: State, t: State)
    requires Housed(d) && |d.cpu.running| == 1
    requires t.store == Without(d).store && t.cpu.ready == d.cpu.ready
    ensures Housed(t)
  {
    KeptMembers(OwnedBy(d.cpu.running[0].pid), d.store.memory);
    forall f | f in t.store.memory
      ensures Live(t, f.pid)
    {
      assert Live(d, f.pid);
    }
  }

  lemma HousedDispatch(t: State, u: State)
    requires Housed(t) && Dispatch(t, u)
    ensures Housed(u)
  {
    DispatchFrame(t, u);
    if t.cpu.running == [] && t.cpu.ready != [] {
      var k: nat :| MovesOne(t.cpu, u.cpu, k, t.elapsed);
      forall f | f in u.store.memory
        ensures Live(u, f.pid)
      {
        assert Live(t, f.pid);
        StillThere(t.cpu, u.cpu, k, t.elapsed, f.pid);
      }
    }
  }

  lemma StillThere(c: CpuState, d: CpuState, k: nat, now: int, pid: nat)
    requires MovesOne(c, d, k, now) && exists p :: p in c.ready && p.pid == pid
    ensures exists p :: (p in d.ready || p in d.running) && p.pid == pid
  {
    var i :| 0 <= i < |c.ready| && c.ready[i].pid == pid;
    if i == k {
      assert d.running[0] in d.running && d.running[0].pid == pid;
    } else {
      var j := if i < k then i else i - 1;
      assert RemoveAt(c.ready, k)[j] == c.ready[i];
      assert d.ready[j] in d.ready && d.ready[j].pid == pid;
    }
  }

  /** The running process may have dropped a page: it is still there. */
  lemma HousedTurned(u: State, v: State)
    requires Housed(u) && v.store == u.store && v.cpu.ready == u.cpu.ready
    requires |u.cpu.running| == |v.cpu.running| == 1 && u.cpu.running[0].pid == v.cpu.running[0].pid
    ensures Housed(v) && v.cpu.running[0] in v.cpu.running
  {
    forall f | f in v.store.memory
      ensures Live(v, f.pid)
    {
      assert Live(u, f.pid);
      assert v.cpu.running[0] in v.cpu.running;
    }
  }

  lemma HousedTouch(u: State)
    requires Paged(u) && Housed(u) && |u.cpu.running| <= 1
    ensures Housed(Touch(u))
  {
    if !(u.idle || u.cpu.running == [] || u.cpu.running[0].remaining <= 0) {
      var p0 := u.cpu.running[0];
      assert p0 in u.cpu.running;
      var (p, first) := p0.GetPage();
      var page := p.GetPage().1;
      var v := u.WithCpu(u.cpu.ready, u.cpu.running[0 := p]).(misses := u.misses + 1);
      HousedTurned(u, v);
      if first.lifeTime != 0 {
        GetPageSettles(p0);
        HousedTouched(u, v, p, page);
      }
    }
  }

  lemma HousedTouched(u: State, v: State, p: Process, page: Page)
    requires Housed(v) && FramesOK(v) && p in v.cpu.running && v.store == u.store
    requires page.lifeTime == 0 || page.pid == p.pid
    ensures Housed(Load(v, page))
    ensures forall i, w: State ::
      0 <= i < |v.store.memory| && w.cpu == v.cpu && w.store.memory == v.store.memory[i := Hit(v.store.memory[i], v.elapsed)] ==> Housed(w)
  {
    HousedLoad(v, page);
    forall i, w: State | 0 <= i < |v.store.memory| && w.cpu == v.cpu
                      && w.store.memory == v.store.memory[i := Hit(v.store.memory[i], v.elapsed)]
      ensures Housed(w)
    {
      forall f | f in w.store.memory
        ensures Live(w, f.pid)
      {
        var j :| 0 <= j < |w.store.memory| && w.store.memory[j] == f;
        assert v.store.memory[j] in v.store.memory && Live(v, v.store.memory[j].pid);
      }
    }
  }

  lemma HousedTick(s: State, s': State)
    requires Tick(s, s') && Sound(s) && Paged(s) && Distinct(s) && Housed(s)
    ensures Housed(s')
  {
    var u := Through(s, s');
    HousedQueues(s);
    HousedRunning(Readmit(CheckBlocked(Queued(s))));
    BeforeDispatchFrame(s);
    HousedDispatch(BeforeDispatch(s), u);
    DispatchFrame(BeforeDispatch(s), u);
    PagedBeforeTouch(s, u);
    HousedTouch(u);
    var v := Touch(u);
    assert s'.store == v.store && s'.cpu.ready == v.cpu.ready && s'.cpu.running == v.cpu.running;
    HousedGrown(v, s');
  }

  lemma PagedBeforeTouch(s: State, u: State)
    requires FramesOK(s) && FramesOK(u) && Dispatch(BeforeDispatch(s), u) && Sound(s) && Paged(s) && Distinct(s)
    ensures Paged(u)
  {
    PagedQueues(s);
    DistinctQueues(s);
    QueuesFrame(s);
    PagedRunning(Readmit(CheckBlocked(Queued(s))));
    PagedDispatch(BeforeDispatch(s), u);
  }

  lemma HousedQueues(s: State)
    requires Sound(s) && Paged(s) && Distinct(s) && Housed(s)
    ensures var d := Readmit(CheckBlocked(Queued(s))); Housed(d) && |d.cpu.running| <= 1
  {
    var a := Arrive(s);
    HousedGrown(s, a);
    PagedArrive(s);
    DistinctArrive(s);
    HousedAdmit(a);
    var c := CheckBlocked(Queued(s));
    HousedGrown(Queued(s), c);
    ReadmitFrame(c);
    SimRoundRobin.ReadmitAppends(c);
    HousedGrown(c, Readmit(c));
    QueuesFrame(s);
  }

  lemma {:induction false} HousedRun(r: seq<State>, i: nat)
    requires Run(r) && Sound(r[0]) && Paged(r[0]) && Distinct(r[0]) && Housed(r[0]) && i < |r|
    ensures Housed(r[i])
  {
    if i > 0 {
      HousedRun(r, i - 1);
      HousedStep(r, i - 1);
    }
  }

  lemma HousedStep(r: seq<State>, i: nat)
    requires Run(r) && Sound(r[0]) && Paged(r[0]) && Distinct(r[0]) && i + 1 < |r| && Housed(r[i])
    ensures Housed(r[i + 1])
  {
    PagedRun(r, i);
    RunStep(r, i);
    HousedTick(r[i], r[i + 1]);
  }

  /** In every state of every simulation, every frame in memory belongs to a process that is
      ready or running: a process that blocks, is suspended or terminates takes its frames with it. */
  lemma FramesBelongToTheLive(r: seq<State>, i: nat, max: int, frames: nat, alg: Algorithm, jobs: seq<Job>)
    requires Simulates(r, max, frames, alg, jobs) && WellFormed(jobs) && i < |r|
    ensures forall f :: f in r[i].store.memory ==> Live(r[i], f.pid)
  {
    StartsPaged(r, max, frames, alg, jobs);
    StartsSound(r, max, frames, alg, jobs);
    StartAllMemory(Initial(max, frames, alg), jobs);
    HousedRun(r, i);
  }
}
