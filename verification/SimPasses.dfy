/** What one pass does with the pages of the running process: the page it wants is in memory afterwards. */
module SimPasses {
  import opened Processes
  import opened PageReplacement
  import opened SchedulingPolicies
  import opened SimState
  import opened SimFlow
  import opened SimInvariants
  import opened SimAccounting
  import opened SimPaging
  import opened SimTimes
  import opened SimResponse
  import SimRoundRobin

  // ---------------------------------------------------------------- the page list

  /** The use of the first page has begun. */
  predicate Begun(p: Process) {
    p.pages != [] && p.pages[0].firstUse <= p.total - p.remaining
  }

  /** The list without its first page if that one's use has begun and its life is over. */
  function Unexpired(p: Process): seq<Page> {
    if Begun(p) && p.pages[0].lifeTime == 0 then p.pages[1..] else p.pages
  }

  /** The list after a tick on the processor: one tick less of life for the first page. */
  function Aged(q: seq<Page>): seq<Page> {
    if q != [] && q[0].lifeTime > 0 then q[0 := q[0].(lifeTime := q[0].lifeTime - 1)] else q
  }

  /** The process has time left, and its first page is alive and its use has begun. */
  predicate Wants(p: Process) {
    p.remaining > 0 && Begun(p) && p.pages[0].lifeTime > 0
  }

  /** The pass looks for a page: the head's if it has begun and is alive, or the next one's if that
      is alive, begun or not. */
  predicate Looks(p: Process) {
    Begun(p) && Unexpired(p) != [] && Unexpired(p)[0].lifeTime > 0
  }

  /** The key it compares the frames with; no page's if a page moved up before its time. */
  function Sought(p: Process): (nat, nat)
    requires Looks(p)
  {
    var page := Unexpired(p)[0];
    if page.firstUse <= p.total - p.remaining then (page.value, page.pid) else (0, 0)
  }

  lemma Gets(p: Process)
    ensures var q := p.GetPage().0;
            && q == p.(pages := Unexpired(p)) && (p.GetPage().1.lifeTime > 0 <==> Looks(p))
            && (Looks(p) ==> q.GetPage().0 == q && q.GetPage().1 == (if Begun(q) then q.pages[0] else NO_PAGE)
                             && q.GetPage().1.Key() == Sought(p))
  {
    GetPageDrops(p);
    if Looks(p) {
      GetPageSettles(p);
    }
  }

  // ---------------------------------------------------------------- one pass

  ghost predicate Occupied(u: State, p: Process) {
    FramesOK(u) && u.cpu.running == [p] && !u.idle && p.remaining > 0
  }

  /** A pass over an occupied processor: the list loses an expired first page, and nothing is counted
      or moved if no page is looked for. */
  lemma PassDrops(u: State, p: Process)
    requires Occupied(u, p)
    ensures var v := AfterDispatch(u);
            && v.cpu.running == [p.(pages := Unexpired(p))]
            && (!Looks(p) ==> v.store == u.store && v.hits == u.hits && v.misses == u.misses)
  {
    Gets(p);
  }

  /** A hit is counted if and only if the key is in memory; it stamps and marks the first such frame
      and leaves everything else. */
  lemma PassHits(u: State, p: Process)
    requires Occupied(u, p) && Looks(p) && HasKey(u.store.memory, Sought(p))
    ensures var v := AfterDispatch(u);
            && v.hits == u.hits + 1 && v.misses == u.misses && v.store.disk == u.store.disk
            && |v.store.memory| == |u.store.memory|
            && exists i :: 0 <= i < |u.store.memory| && u.store.memory[i].Key() == Sought(p)
                 && (forall j :: 0 <= j < i ==> u.store.memory[j].Key() != Sought(p))
                 && v.store.memory[i].Identity() == u.store.memory[i].Identity()
                 && v.store.memory[i].lastTimeUsed == v.elapsed && v.store.memory[i].referenced
                 && forall j :: 0 <= j < |u.store.memory| && j != i ==> v.store.memory[j] == u.store.memory[j]
  {
    Gets(p);
    var i := FindPage(u.store.memory, Sought(p));
    assert i < |u.store.memory|;
    assert AfterDispatch(u).store.memory[i].Identity() == u.store.memory[i].Identity();
  }

  /** Otherwise a miss is counted; a page that is wanted and on disk is loaded, and if the page that
      moved up is not yet wanted nothing is loaded. */
  lemma PassMisses(u: State, p: Process)
    requires Occupied(u, p) && Looks(p) && !HasKey(u.store.memory, Sought(p))
    ensures var v := AfterDispatch(u);
            && v.hits == u.hits && v.misses == u.misses + 1
            && (!Wants(v.cpu.running[0]) ==> v.store == u.store)
            && (Wants(v.cpu.running[0]) && HasKey(u.store.disk, Sought(p)) ==>
                  exists f :: f in v.store.memory && IsLoaded(u.alg, f, v.cpu.running[0].pages[0], u.elapsed))
  {
    Gets(p);
    var q := p.GetPage().0;
    var page := q.GetPage().1;
    assert FindPage(u.store.memory, page.Key()) == |u.store.memory|;
    if HasKey(u.store.disk, Sought(p)) {
      ReplaceFinds(u.alg, u.frames, u.store, page, u.elapsed);
    }
  }

  /** A pass with nobody running, or somebody without time left, touches no page. */
  lemma PassRests(u: State)
    requires FramesOK(u) && (u.idle || u.cpu.running == [] || u.cpu.running[0].remaining <= 0)
    ensures var v := AfterDispatch(u);
            v.store == u.store && v.hits == u.hits && v.misses == u.misses && v.cpu.running == u.cpu.running
  {
  }

  // ---------------------------------------------------------------- in a simulation

  lemma CountersBefore(s: State)
    requires FramesOK(s)
    ensures var t := BeforeDispatch(s); t.hits == s.hits && t.misses == s.misses && t.alg == s.alg
  {
    AdmitFrame(Arrive(s));
    ReadmitFrame(CheckBlocked(Queued(s)));
    CheckRunningFrame(Readmit(CheckBlocked(Queued(s))));
  }

  lemma PagedAtDispatch(s: State, u: State)
    requires FramesOK(s) && FramesOK(u) && Dispatch(BeforeDispatch(s), u) && Sound(s) && Paged(s) && Distinct(s)
    ensures Paged(u) && |u.cpu.running| <= 1 && (u.idle <==> u.cpu.running == [])
    ensures u.store == BeforeDispatch(s).store && u.hits == s.hits && u.misses == s.misses && u.alg == s.alg && u.elapsed == s.elapsed
  {
    PagedQueues(s);
    DistinctQueues(s);
    QueuesFrame(s);
    PagedRunning(Readmit(CheckBlocked(Queued(s))));
    PagedDispatch(BeforeDispatch(s), u);
    BeforeDispatchFrame(s);
    DispatchFrame(BeforeDispatch(s), u);
    CountersBefore(s);
  }

  /** The page that the process on the processor wants after a pass: it is in a frame; the pass has
      counted a hit if it was there when the policy was asked and a miss otherwise; and the frame is
      stamped and marked as a hit, or as a load, leaves it. */
  ghost predicate Supplied(s: State, s': State, p: Process)
    requires FramesOK(s) && Wants(p)
  {
    var page := p.pages[0];
    if HasKey(BeforeDispatch(s).store.memory, (page.value, page.pid)) then
      && s'.hits == s.hits + 1 && s'.misses == s.misses
      && exists f :: f in s'.store.memory && f.value == page.value && f.pid == page.pid && f.referenced && f.lastTimeUsed == s'.elapsed
    else
      && s'.hits == s.hits && s'.misses == s.misses + 1
      && exists f :: f in s'.store.memory && IsLoaded(s.alg, f, page, s.elapsed)
  }

  lemma SuppliedTick(s: State, u: State, s': State, p: Process)
    requires Via(s, u, s') && Sound(s) && Paged(s) && Distinct(s) && s'.cpu.running == [p] && Wants(p)
    ensures Supplied(s, s', p)
  {
    PagedAtDispatch(s, u);
    OnlyPages(u);
    var q := u.cpu.running[0];
    PassDrops(u, q);
    SuppliedPass(u, q, p);
  }

  lemma SuppliedPass(u: State, q: Process, p: Process)
    requires Occupied(u, q) && Paged(u) && p == q.(pages := Unexpired(q)) && Wants(p)
    ensures var v := AfterDispatch(u); var page := p.pages[0];
            if HasKey(u.store.memory, (page.value, page.pid)) then
              && v.hits == u.hits + 1 && v.misses == u.misses
              && exists f :: f in v.store.memory && f.value == page.value && f.pid == page.pid && f.referenced && f.lastTimeUsed == v.elapsed
            else
              && v.hits == u.hits && v.misses == u.misses + 1
              && exists f :: f in v.store.memory && IsLoaded(u.alg, f, page, u.elapsed)
  {
    assert Looks(q) && Sought(q) == (p.pages[0].value, p.pages[0].pid);
    PassDrops(u, q);
    if HasKey(u.store.memory, Sought(q)) {
      PassHits(u, q);
    } else {
      assert q in u.cpu.running && p.pages[0] in q.pages;
      PassMisses(u, q);
    }
  }

  /** In every simulation on well-formed input: after any pass, if the running process has time left
      and its first page is alive and its use has begun, that page is in memory; and the counters and the
      frame say how it got there. */
  lemma WantedPageIsIn(r: seq<State>, i: nat, p: Process, max: int, frames: nat, alg: Algorithm, jobs: seq<Job>)
    requires Simulates(r, max, frames, alg, jobs) && WellFormed(jobs) && i + 1 < |r|
    requires p in r[i + 1].cpu.running && p.remaining > 0
    requires p.pages != [] && p.pages[0].lifeTime > 0 && p.pages[0].firstUse <= p.total - p.remaining
    ensures FramesOK(r[i]) && Supplied(r[i], r[i + 1], p)
    ensures exists f :: f in r[i + 1].store.memory && f.value == p.pages[0].value && f.pid == p.pages[0].pid
  {
    StartsPaged(r, max, frames, alg, jobs);
    StartsSound(r, max, frames, alg, jobs);
    PagedRun(r, i);
    SoundRun(r, i + 1);
    SuppliedStep(r, i, p);
    SuppliedIsIn(r[i], r[i + 1], p);
  }

  lemma OnlyRunner(s: State, p: Process)
    requires |s.cpu.running| <= 1 && p in s.cpu.running
    ensures s.cpu.running == [p]
  {
  }

  lemma SuppliedStep(r: seq<State>, i: nat, p: Process)
    requires Run(r) && i + 1 < |r| && Sound(r[i]) && Paged(r[i]) && Distinct(r[i]) && Sound(r[i + 1])
    requires p in r[i + 1].cpu.running && Wants(p)
    ensures Supplied(r[i], r[i + 1], p)
  {
    RunStep(r, i);
    var s, s' := r[i], r[i + 1];
    var u := Through(s, s');
    OnlyRunner(s', p);
    SuppliedTick(s, u, s', p);
  }

  lemma SuppliedIsIn(s: State, s': State, p: Process)
    requires FramesOK(s) && Wants(p) && Supplied(s, s', p)
    ensures exists f :: f in s'.store.memory && f.value == p.pages[0].value && f.pid == p.pages[0].pid
  {
    if !HasKey(BeforeDispatch(s).store.memory, (p.pages[0].value, p.pages[0].pid)) {
      var f :| f in s'.store.memory && IsLoaded(s.alg, f, p.pages[0], s.elapsed);
    }
  }

  // ---------------------------------------------------------------- who is on the processor

  lemma DistinctAtDispatch(s: State)
    requires FramesOK(s) && Distinct(s)
    ensures Distinct(BeforeDispatch(s))
  {
    DistinctQueues(s);
    QueuesFrame(s);
    DistinctRunning(Readmit(CheckBlocked(Queued(s))));
  }

  /** Whoever was in the ready queue when the policy was asked and has the processor now is the same
      job: one name, one process. */
  lemma FromReady(t: State, u: State, j: nat, q: Process)
    requires Distinct(t) && Dispatch(t, u) && j < |t.cpu.ready| && u.cpu.running == [q] && q.pid == t.cpu.ready[j].pid
    ensures t.cpu.ready[j].SameJob(q)
  {
    assert IsAt(t, q.pid, Ready, j);
    if t.cpu.running != [] {
      assert IsAt(t, q.pid, Running, 0);
      AtMostOne(q.pid, t, Ready, j, Running, 0);
      assert false;
    } else {
      var k: nat :| MovesOne(t.cpu, u.cpu, k, t.elapsed);
      assert IsAt(t, q.pid, Ready, k);
      AtMostOne(q.pid, t, Ready, j, Ready, k);
    }
  }

  /** A process that was ready before the tick comes to the processor as it was. */
  lemma ReadyToRunning(s: State, u: State, p: Process, q: Process)
    requires Sound(s) && Distinct(s) && Dispatch(BeforeDispatch(s), u) && p in s.cpu.ready
    requires u.cpu.running == [q] && q.pid == p.pid
    ensures p.SameJob(q)
  {
    var t := BeforeDispatch(s);
    DistinctAtDispatch(s);
    SimRoundRobin.BeforeAppends(s);
    var j :| 0 <= j < |s.cpu.ready| && s.cpu.ready[j] == p;
    assert t.cpu.ready[j] == p;
    FromReady(t, u, j, q);
  }

  /** One that was running has been counted down by one tick, and so has its first page. */
  lemma RunningToRunning(s: State, u: State, p: Process, q: Process)
    requires Sound(s) && Distinct(s) && Dispatch(BeforeDispatch(s), u) && s.cpu.running == [p] && p.remaining >= 2
    requires u.cpu.running == [q] && q.pid == p.pid
    ensures p.(remaining := p.remaining - 1, pages := Aged(p.pages)).SameJob(q)
  {
    var t := BeforeDispatch(s);
    DistinctAtDispatch(s);
    CountedOnce(s, p);
    if t.cpu.running == [] {
      FromReady(t, u, |t.cpu.ready| - 1, q);
    } else {
      DispatchFrame(t, u);
    }
  }

  lemma CountedOnce(s: State, p: Process)
    requires FramesOK(s) && s.cpu.running == [p] && p.remaining >= 2
    ensures var t, ticked := BeforeDispatch(s), p.(remaining := p.remaining - 1, pages := Aged(p.pages));
            if t.cpu.running == [] then t.cpu.ready != [] && t.cpu.ready[|t.cpu.ready| - 1] == ticked
            else t.cpu.running == [ticked]
  {
    CpuBefore(s);
    OneTick(p);
  }

  lemma OneTick(p: Process)
    requires p.remaining > 0
    ensures p.RunTick() == p.(remaining := p.remaining - 1, pages := Aged(p.pages))
  {
  }

  /** In every simulation: a process that comes from the ready queue to the processor in a pass, with
      time left, keeps its page list but for a first page that is expired, and one that stays on it loses a
      tick of its first page's life, and that page if it is then expired. */
  lemma PagesGoInTurn(r: seq<State>, i: nat, p: Process, q: Process, max: int, frames: nat, alg: Algorithm, jobs: seq<Job>)
    requires Simulates(r, max, frames, alg, jobs) && i + 1 < |r|
    requires forall j, k :: 0 <= j < k < |jobs| ==> jobs[j].pid != jobs[k].pid
    requires q in r[i + 1].cpu.running && q.pid == p.pid && q.remaining > 0
    ensures p in r[i].cpu.ready ==>
              q.pages == if p.pages != [] && p.pages[0].firstUse <= p.total - p.remaining && p.pages[0].lifeTime == 0
                         then p.pages[1..] else p.pages
    ensures p in r[i].cpu.running && p.remaining >= 2 ==>
              var aged := if p.pages != [] && p.pages[0].lifeTime > 0
                          then p.pages[0 := p.pages[0].(lifeTime := p.pages[0].lifeTime - 1)] else p.pages;
              q.pages == if aged != [] && aged[0].firstUse <= p.total - p.remaining + 1 && aged[0].lifeTime == 0
                         then aged[1..] else aged
  {
    StartsDistinct(r, max, frames, alg, jobs);
    StartsSound(r, max, frames, alg, jobs);
    PagesGoInStep(r, i, p, q);
  }

  lemma PagesGoInStep(r: seq<State>, i: nat, p: Process, q: Process)
    requires Run(r) && i + 1 < |r| && Sound(r[0]) && Distinct(r[0])
    requires q in r[i + 1].cpu.running && q.pid == p.pid && q.remaining > 0
    ensures p in r[i].cpu.ready ==> q.pages == Unexpired(p)
    ensures p in r[i].cpu.running && p.remaining >= 2 ==>
              q.pages == Unexpired(p.(remaining := p.remaining - 1, pages := Aged(p.pages)))
  {
    DistinctRun(r, i);
    SoundRun(r, i);
    SoundRun(r, i + 1);
    RunStep(r, i);
    PagesGoInTick(r[i], Through(r[i], r[i + 1]), r[i + 1], p, q);
  }

  lemma PagesGoInTick(s: State, u: State, s': State, p: Process, q: Process)
    requires Via(s, u, s') && Sound(s) && Distinct(s) && Sound(s') && q in s'.cpu.running && q.pid == p.pid && q.remaining > 0
    ensures p in s.cpu.ready ==> q.pages == Unexpired(p)
    ensures p in s.cpu.running && p.remaining >= 2 ==>
              q.pages == Unexpired(p.(remaining := p.remaining - 1, pages := Aged(p.pages)))
  {
    var q0 := PassedOver(s, u, s', q);
    if p in s.cpu.ready {
      ReadyToRunning(s, u, p, q0);
    }
    if p in s.cpu.running && p.remaining >= 2 {
      RunningToRunning(s, u, p, q0);
    }
  }

  /** The process on the processor, before the pass over its pages. */
  lemma PassedOver(s: State, u: State, s': State, q: Process) returns (q0: Process)
    requires Via(s, u, s') && Sound(s) && Sound(s') && q in s'.cpu.running && q.remaining > 0
    ensures u.cpu.running == [q0] && q == q0.(pages := Unexpired(q0))
  {
    OnlyPages(u);
    BeforeDispatchFrame(s);
    DispatchFrame(BeforeDispatch(s), u);
    q0 := u.cpu.running[0];
    PassDrops(u, q0);
  }

  // ---------------------------------------------------------------- the first page of the admitted

  lemma OneLoads(s: State)
    requires Paged(s) && Distinct(s) && s.waiting != []
    ensures var first := s.waiting[0]; var o := AdmitOne(s);
            && first.pages != [] && |o.cpu.ready| > 0
            && o.cpu.ready[|o.cpu.ready| - 1].pages == first.pages
            && (first.pages[0].lifeTime > 0 ==>
                  exists f :: f in o.store.memory && f.value == first.pages[0].value && f.pid == first.pages[0].pid)
  {
    var first := s.waiting[0];
    assert first in s.waiting && first.pages[0] in first.pages;
    AdmitOneFrame(s);
    ReplaceFinds(s.alg, s.frames, s.store, first.pages[0], s.elapsed);
    if first.pages[0].lifeTime > 0 {
      var f :| f in AdmitOne(s).store.memory && IsLoaded(s.alg, f, first.pages[0], s.elapsed);
    }
  }

  /** The process admitted last has its first page in memory, if that has a life at all. */
  lemma {:induction false} LastAdmittedLoads(s: State)
    requires Paged(s) && Distinct(s) && s.waiting != [] && !s.SysFull()
    ensures var t := Admit(s); |t.cpu.ready| > 0
    ensures var t := Admit(s); var p := t.cpu.ready[|t.cpu.ready| - 1];
            && p.pages != []
            && (p.pages[0].lifeTime > 0 ==>
                  exists f :: f in t.store.memory && f.value == p.pages[0].value && f.pid == p.pages[0].pid)
    decreases |s.waiting|
  {
    var o := AdmitOne(s);
    OneLoads(s);
    AdmitsFirst(s);
    if o.SysFull() || o.waiting == [] {
      assert Admit(o) == o;
    } else {
      PagedAdmitOne(s);
      DistinctAdmitOne(s);
      AdmitOneFrame(s);
      LastAdmittedLoads(o);
    }
  }
}
