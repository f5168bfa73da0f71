/** Paging over whole runs: the page a process wants is always found, and what LRU stamps are worth. */
module SimPaging {
  import opened Seqs
  import opened Processes
  import opened PageReplacement
  import opened SchedulingPolicies
  import opened SimState
  import opened SimFlow
  import opened SimInvariants
  import opened SimAccounting

  // ---------------------------------------------------------------- keys in a store

  ghost predicate HasKey(q: seq<Page>, key: (nat, nat)) {
    exists i :: 0 <= i < |q| && q[i].Key() == key
  }

  ghost predicate Stored(st: Store, key: (nat, nat)) {
    HasKey(st.memory, key) || HasKey(st.disk, key)
  }

  lemma HasKeyAppend(a: seq<Page>, b: seq<Page>, key: (nat, nat))
    ensures HasKey(a + b, key) <==> HasKey(a, key) || HasKey(b, key)
  {
    if HasKey(a, key) {
      var i :| 0 <= i < |a| && a[i].Key() == key;
      assert (a + b)[i].Key() == key;
    }
    if HasKey(b, key) {
      var i :| 0 <= i < |b| && b[i].Key() == key;
      assert (a + b)[|a| + i].Key() == key;
    }
  }

  lemma HasKeyRemove(q: seq<Page>, i: nat, key: (nat, nat))
    requires i < |q| && HasKey(q, key)
    ensures HasKey(RemoveAt(q, i), key) || q[i].Key() == key
  {
    var j :| 0 <= j < |q| && q[j].Key() == key;
    if j < i {
      assert RemoveAt(q, i)[j] == q[j];
    } else if j > i {
      assert RemoveAt(q, i)[j - 1] == q[j];
    }
  }

  lemma KeyByIdentity(q: seq<Page>, key: (nat, nat))
    ensures HasKey(q, key) <==> exists id :: id in Identities(q) && (id.2, id.3) == key
  {
    if HasKey(q, key) {
      var i :| 0 <= i < |q| && q[i].Key() == key;
      assert IdentityList(q)[i] in Identities(q);
    }
    if id :| id in Identities(q) && (id.2, id.3) == key {
      assert id in IdentityList(q);
      var i :| 0 <= i < |q| && IdentityList(q)[i] == id;
      assert q[i].Key() == key;
    }
  }

  /** Replacement leaves every key stored. */
  lemma ReplaceKeepsKeys(alg: Algorithm, n: nat, st: Store, page: Page, now: int, key: (nat, nat))
    requires 1 <= n && |st.memory| <= n
    ensures Stored(st, key) ==> Stored(Replace(alg, n, st, page, now).0, key)
  {
    if Stored(st, key) {
      var r := Replace(alg, n, st, page, now).0;
      ReplaceConservesPages(alg, n, st, page, now);
      KeyByIdentity(st.memory, key);
      KeyByIdentity(st.disk, key);
      KeyByIdentity(r.memory, key);
      KeyByIdentity(r.disk, key);
      var id :| (id in Identities(st.memory) || id in Identities(st.disk)) && (id.2, id.3) == key;
      assert id in Identities(st.memory) + Identities(st.disk);
      assert id in Identities(r.memory) + Identities(r.disk);
      assert id in Identities(r.memory) || id in Identities(r.disk);
    }
  }

  /** Only the wanted key can leave the disk. */
  lemma ReplaceTakesOnlyWanted(alg: Algorithm, n: nat, st: Store, page: Page, now: int, key: (nat, nat))
    requires 1 <= n && |st.memory| <= n && HasKey(st.disk, key) && key != page.Key()
    ensures HasKey(Replace(alg, n, st, page, now).0.disk, key)
  {
    var (r, outcome) := Replace(alg, n, st, page, now);
    if outcome == Loaded {
      var i := FindPage(st.disk, page.Key());
      HasKeyRemove(st.disk, i, key);
      if |st.memory| >= n {
        var out := match alg
          case FIFO => st.memory[0]
          case LRU => st.memory[LruVictim(st.memory)]
          case CLOCK => ClearPassed(st.memory, SweepStart(n, st), SweepSteps(n, st))[ClockVictim(n, st)];
        assert r.disk == RemoveAt(st.disk + [out], i);
        HasKeyAppend(st.disk, [out], key);
        HasKeyRemove(st.disk + [out], i, key);
      }
    }
  }

  /** The owners of the frames afterwards: those before, and the owner of the wanted page. */
  lemma ReplaceOwners(alg: Algorithm, n: nat, st: Store, page: Page, now: int, f: Page)
    requires 1 <= n && |st.memory| <= n && f in Replace(alg, n, st, page, now).0.memory
    ensures f.pid == page.pid || exists g :: g in st.memory && g.pid == f.pid
  {
  }

  // ---------------------------------------------------------------- the invariant

  ghost predicate Owns(p: Process) {
    forall g :: g in p.pages ==> g.pid == p.pid
  }

  ghost predicate OnDisk(st: Store, p: Process) {
    forall g :: g in p.pages ==> HasKey(st.disk, g.Key())
  }

  ghost predicate Covered(st: Store, p: Process) {
    forall g :: g in p.pages ==> Stored(st, g.Key())
  }

  /** A process that may yet use the processor finds its pages. */
  ghost predicate Served(st: Store, p: Process) {
    p.remaining > 0 ==> Owns(p) && Covered(st, p)
  }

  /** A process that has yet to be admitted. */
  ghost predicate Fresh(p: Process) {
    Owns(p) && p.pages != []
  }

  ghost predicate NoFrames(st: Store, p: Process) {
    forall f :: f in st.memory ==> f.pid != p.pid
  }

  ghost predicate Paged(s: State) {
    && FramesOK(s) && !s.exited
    && (forall p :: p in s.incoming ==> Fresh(p) && NoFrames(s.store, p))
    && (forall p :: p in s.waiting ==> Fresh(p) && NoFrames(s.store, p) && OnDisk(s.store, p))
    && (forall p :: p in s.cpu.ready ==> Served(s.store, p))
    && (forall p :: p in s.cpu.running ==> Served(s.store, p))
    && (forall p :: p in s.blocked ==> p.remaining <= 0)
    && (forall p :: p in s.blockedSuspended ==> p.remaining <= 0)
    && (forall p :: p in s.readySuspended ==> p.remaining <= 0)
  }

  /** No two processes share a name. */
  ghost predicate Distinct(s: State) {
    forall x :: Count(x, s) <= 1
  }

  lemma DifferentNames(s: State, at: Place, p: Process, bt: Place, q: Process)
    requires Distinct(s) && p in Queue(s, at) && q in Queue(s, bt) && at != bt
    ensures p.pid != q.pid
  {
    var i :| 0 <= i < |Queue(s, at)| && Queue(s, at)[i] == p;
    var j :| 0 <= j < |Queue(s, bt)| && Queue(s, bt)[j] == q;
    if p.pid == q.pid {
      assert IsAt(s, p.pid, at, i) && IsAt(s, p.pid, bt, j);
      AtMostOne(p.pid, s, at, i, bt, j);
    }
  }

  lemma FirstNameUnique(s: State, q: Process)
    requires Distinct(s) && s.waiting != [] && q in s.waiting[1..]
    ensures q.pid != s.waiting[0].pid
  {
    var j :| 0 <= j < |s.waiting[1..]| && s.waiting[1..][j] == q;
    if q.pid == s.waiting[0].pid {
      assert IsAt(s, q.pid, Waiting, 0) && IsAt(s, q.pid, Waiting, j + 1);
      AtMostOne(q.pid, s, Waiting, 0, Waiting, j + 1);
    }
  }

  // ---------------------------------------------------------------- names stay distinct through the sub-steps

  lemma NamedRules(x: nat, now: int)
    ensures Rules(ByIdentity(Named(x)), now, 0, false)
  {
  }

  lemma DistinctArrive(s: State)
    requires Distinct(s)
    ensures Distinct(Arrive(s))
  {
    forall x
      ensures Count(x, Arrive(s)) <= 1
    {
      NamedRules(x, s.elapsed);
      FlowArrive(ByIdentity(Named(x)), s, false);
      assert Count(x, s) <= 1;
    }
  }

  lemma DistinctAdmitOne(s: State)
    requires Distinct(s) && s.waiting != [] && FramesOK(s)
    ensures Distinct(AdmitOne(s))
  {
    AdmitOneFrame(s);
    forall x
      ensures Count(x, AdmitOne(s)) <= 1
    {
      SumOne(ByIdentity(Named(x)), Ready, s.cpu.ready, s.waiting[0].Stamp(s.elapsed));
      assert Count(x, s) <= 1;
    }
  }

  lemma DistinctQueues(s: State)
    requires Distinct(s) && FramesOK(s)
    ensures Distinct(Readmit(CheckBlocked(Queued(s))))
  {
    forall x
      ensures Count(x, Readmit(CheckBlocked(Queued(s)))) <= 1
    {
      NamedRules(x, s.elapsed);
      FlowQueues(ByIdentity(Named(x)), s, false);
      assert Count(x, s) <= 1;
    }
  }

  lemma DistinctRunning(d: State)
    requires Distinct(d)
    ensures Distinct(CheckRunning(d))
  {
    forall x
      ensures Count(x, CheckRunning(d)) <= 1
    {
      NamedRules(x, d.elapsed);
      FlowRunning(ByIdentity(Named(x)), ByIdentity(Named(x)), d, 0);
      assert Count(x, d) <= 1;
    }
  }

  lemma DistinctDispatch(t: State, u: State)
    requires Distinct(t) && Dispatch(t, u)
    ensures Distinct(u)
  {
    forall x
      ensures Count(x, u) <= 1
    {
      NamedRules(x, t.elapsed);
      FlowDispatch(ByIdentity(Named(x)), t, u);
      assert Count(x, t) <= 1;
    }
  }

  lemma DistinctTick(s: State, s': State)
    requires Tick(s, s') && Distinct(s)
    ensures Distinct(s')
  {
    forall x
      ensures Count(x, s') <= 1
    {
      ProcessesConserved(Named(x), s, Through(s, s'), s');
      assert Count(x, s) <= 1;
    }
  }

  // ---------------------------------------------------------------- the invariant through the sub-steps

  lemma {:induction false} PagesOfMembers(q: seq<Process>, p: Process, g: Page)
    requires p in q && g in p.pages
    ensures g in PagesOf(q)
  {
    if p != q[0] {
      PagesOfMembers(q[1..], p, g);
    }
  }

  lemma PagedArrive(s: State)
    requires Paged(s)
    ensures Paged(Arrive(s))
  {
    var t := Arrive(s);
    var due := Taken(DueBy(s.elapsed), s.incoming);
    KeptMembers(DueBy(s.elapsed), s.incoming);
    forall key
      ensures HasKey(t.store.disk, key) <==> HasKey(s.store.disk, key) || HasKey(PagesOf(due), key)
    {
      HasKeyAppend(s.store.disk, PagesOf(due), key);
    }
    forall p | p in due
      ensures OnDisk(t.store, p)
    {
      forall g | g in p.pages
        ensures HasKey(t.store.disk, g.Key())
      {
        PagesOfMembers(due, p, g);
        var i :| 0 <= i < |PagesOf(due)| && PagesOf(due)[i] == g;
        assert PagesOf(due)[i].Key() == g.Key();
      }
    }
    assert forall p :: p in t.waiting ==> p in s.waiting || p in due;
  }

  /** What a load does for those it is not for. */
  lemma LoadServes(s: State, page: Page, p: Process)
    requires FramesOK(s)
    ensures Served(s.store, p) ==> Served(Load(s, page).store, p)
    ensures Owns(p) && page.pid != p.pid && OnDisk(s.store, p) ==> OnDisk(Load(s, page).store, p)
    ensures page.pid != p.pid && NoFrames(s.store, p) ==> NoFrames(Load(s, page).store, p)
  {
    var r := Load(s, page).store;
    forall g | g in p.pages
      ensures Stored(s.store, g.Key()) ==> Stored(r, g.Key())
      ensures g.pid != page.pid && HasKey(s.store.disk, g.Key()) ==> HasKey(r.disk, g.Key())
    {
      ReplaceKeepsKeys(s.alg, s.frames, s.store, page, s.elapsed, g.Key());
      if g.pid != page.pid && HasKey(s.store.disk, g.Key()) {
        ReplaceTakesOnlyWanted(s.alg, s.frames, s.store, page, s.elapsed, g.Key());
      }
    }
    forall f | f in r.memory
      ensures f.pid == page.pid || exists g :: g in s.store.memory && g.pid == f.pid
    {
      ReplaceOwners(s.alg, s.frames, s.store, page, s.elapsed, f);
    }
  }

  /** A load of a page that is on disk, or of no page, does not end the program. */
  lemma LoadFinds(s: State, page: Page)
    requires FramesOK(s) && (page.lifeTime == 0 || HasKey(s.store.disk, page.Key()))
    ensures Load(s, page).exited == s.exited && FramesOK(Load(s, page))
  {
  }

  lemma PagedAdmitOne(s: State)
    requires Paged(s) && Distinct(s) && s.waiting != []
    ensures Paged(AdmitOne(s))
  {
    var t, first := AdmitOne(s), s.waiting[0];
    assert first in s.waiting;
    var page := first.pages[0];
    assert page in first.pages;
    AdmitOneFrame(s);
    LoadFinds(s, page);
    forall p
      ensures Served(s.store, p) ==> Served(t.store, p)
      ensures Owns(p) && first.pid != p.pid && OnDisk(s.store, p) ==> OnDisk(t.store, p)
      ensures first.pid != p.pid && NoFrames(s.store, p) ==> NoFrames(t.store, p)
    {
      LoadServes(s, page, p);
    }
    forall p | p in t.waiting
      ensures p in s.waiting && p.pid != first.pid
    {
      FirstNameUnique(s, p);
    }
    forall p | p in t.incoming
      ensures p.pid != first.pid
    {
      DifferentNames(s, Incoming, p, Waiting, first);
    }
    assert Served(s.store, first.Stamp(s.elapsed));
  }

  lemma {:induction false} PagedAdmit(s: State)
    requires Paged(s) && Distinct(s)
    ensures Paged(Admit(s)) && Distinct(Admit(s))
    decreases |s.waiting|
  {
    if !(s.SysFull() || s.waiting == []) {
      PagedAdmitOne(s);
      DistinctAdmitOne(s);
      AdmitOneFrame(s);
      PagedAdmit(AdmitOne(s));
    }
  }

  lemma {:induction false} DecrementKeepsRemaining(q: seq<Process>)
    requires forall p :: p in q ==> p.remaining <= 0
    ensures forall p :: p in DecrementAll(q) ==> p.remaining <= 0
  {
    if q != [] {
      assert q[0] in q && forall p :: p in q[1..] ==> p in q;
      DecrementKeepsRemaining(q[1..]);
    }
  }

  lemma PagedBlocked(s: State)
    requires Paged(s)
    ensures Paged(CheckBlocked(s))
  {
    var over := OverIf(s.waiting == []);
    DecrementKeepsRemaining(s.blocked);
    DecrementKeepsRemaining(s.blockedSuspended);
    KeptMembers(over, DecrementAll(s.blocked));
    KeptMembers(OverIf(true), DecrementAll(s.blockedSuspended));
  }

  lemma {:induction false} PagedReadmit(s: State)
    requires Paged(s)
    ensures Paged(Readmit(s))
    decreases |s.readySuspended|
  {
    if !(s.waiting != [] || s.readySuspended == [] || s.SysFull()) {
      assert s.readySuspended[0] in s.readySuspended;
      PagedReadmit(ReadmitOne(s));
    }
  }

  lemma PagedQueues(s: State)
    requires Paged(s) && Distinct(s)
    ensures Paged(Readmit(CheckBlocked(Queued(s))))
  {
    PagedArrive(s);
    DistinctArrive(s);
    PagedAdmit(Arrive(s));
    PagedBlocked(Queued(s));
    PagedReadmit(CheckBlocked(Queued(s)));
  }

  /** Removing the frames of one process does nothing to the keys of another. */
  lemma RemovalServes(st: Store, pid: nat, p: Process)
    requires p.pid != pid && Served(st, p)
    ensures Served(st.(memory := Kept(OwnedBy(pid), st.memory)), p)
  {
    var r := st.(memory := Kept(OwnedBy(pid), st.memory));
    KeptMembers(OwnedBy(pid), st.memory);
    if p.remaining > 0 {
      forall g | g in p.pages
        ensures Stored(r, g.Key())
      {
        if HasKey(st.memory, g.Key()) {
          var i :| 0 <= i < |st.memory| && st.memory[i].Key() == g.Key();
          assert st.memory[i] in st.memory && st.memory[i] in r.memory;
          var j :| 0 <= j < |r.memory| && r.memory[j] == st.memory[i];
          assert r.memory[j].Key() == g.Key();
        }
      }
    }
  }

  lemma RunTickServed(st: Store, p: Process)
    requires Served(st, p)
    ensures Served(st, p.RunTick()) && p.RunTick().pid == p.pid
  {
    var q := p.RunTick();
    forall g | g in q.pages
      ensures exists h :: h in p.pages && h.Key() == g.Key() && h.pid == g.pid
    {
      var i :| 0 <= i < |q.pages| && q.pages[i] == g;
      assert p.pages[i] in p.pages && p.pages[i].Key() == g.Key();
    }
  }

  lemma PagedRunning(d: State)
    requires Paged(d) && Distinct(d) && |d.cpu.running| <= 1
    ensures Paged(CheckRunning(d))
  {
    if d.cpu.running != [] {
      var p := d.cpu.running[0];
      if p.RunTick().remaining < 1 {
        PagedLeave(d, p);
        TurnLeaves(d);
        PagedLeft(Without(d), CheckRunning(d), p.RunTick());
      } else {
        PagedStays(d, p);
      }
    }
  }

  lemma PagedStays(d: State, p: Process)
    requires Paged(d) && d.cpu.running == [p] && p.RunTick().remaining >= 1
    ensures Paged(CheckRunning(d))
  {
    assert p in d.cpu.running;
    RunTickServed(d.store, p);
    TurnStays(d);
  }

  lemma PagedLeft(t: State, v: State, q: Process)
    requires Paged(t) && GoesTo(t, v, q) && q.remaining < 1
    ensures Paged(v)
  {
  }

  /** The frames of the process that leaves the processor go; nobody else misses them. */
  lemma PagedLeave(d: State, p: Process)
    requires Paged(d) && Distinct(d) && d.cpu.running == [p]
    ensures Paged(Without(d))
  {
    var t := Without(d);
    KeptMembers(OwnedBy(p.pid), d.store.memory);
    forall q | q in d.cpu.ready
      ensures Served(t.store, q)
    {
      DifferentNames(d, Running, p, Ready, q);
      RemovalServes(d.store, p.pid, q);
    }
  }

  lemma PagedDispatch(t: State, u: State)
    requires Paged(t) && Dispatch(t, u)
    ensures Paged(u)
  {
    DispatchFrame(t, u);
    if t.cpu.running == [] && t.cpu.ready != [] {
      var k: nat :| MovesOne(t.cpu, u.cpu, k, t.elapsed);
      assert t.cpu.ready[k] in t.cpu.ready;
      forall q | q in u.cpu.ready
        ensures exists p :: p in t.cpu.ready && p.SameJob(q)
      {
        StillReady(t, u, k, q);
      }
    }
  }

  lemma StillReady(t: State, u: State, k: nat, q: Process)
    requires MovesOne(t.cpu, u.cpu, k, t.elapsed) && q in u.cpu.ready
    ensures exists p :: p in t.cpu.ready && p.SameJob(q)
  {
  }

  lemma GetPageServed(st: Store, p: Process)
    requires Served(st, p)
    ensures Served(st, p.GetPage().0) && p.GetPage().0.pid == p.pid && p.GetPage().0.remaining == p.remaining
    ensures forall g :: g in p.GetPage().0.pages ==> g in p.pages
  {
  }

  lemma HitServed(st: Store, i: nat, now: int, p: Process)
    requires i < |st.memory|
    ensures var r := st.(memory := st.memory[i := Hit(st.memory[i], now)]);
            && (Served(st, p) ==> Served(r, p))
            && (OnDisk(st, p) ==> OnDisk(r, p))
            && (NoFrames(st, p) ==> NoFrames(r, p))
  {
    var r := st.(memory := st.memory[i := Hit(st.memory[i], now)]);
    forall key | HasKey(st.memory, key)
      ensures HasKey(r.memory, key)
    {
      var j :| 0 <= j < |st.memory| && st.memory[j].Key() == key;
      assert r.memory[j].Key() == key;
    }
    forall f | f in r.memory
      ensures exists g :: g in st.memory && g.pid == f.pid
    {
      var j :| 0 <= j < |r.memory| && r.memory[j] == f;
      assert st.memory[j] in st.memory && st.memory[j].pid == f.pid;
    }
  }

  /** Paging of the running process: its page is found, or it wants none. */
  lemma PagedTouch(u: State)
    requires Paged(u) && Distinct(u) && |u.cpu.running| <= 1
    ensures Paged(Touch(u))
  {
    if !(u.idle || u.cpu.running == [] || u.cpu.running[0].remaining <= 0) {
      var p0 := u.cpu.running[0];
      assert p0 in u.cpu.running;
      var (p, first) := p0.GetPage();
      GetPageServed(u.store, p0);
      var v := u.WithCpu(u.cpu.ready, u.cpu.running[0 := p]);
      assert v.cpu.running == [p];
      if first.lifeTime != 0 {
        GetPageSettles(p0);
        var page := p.GetPage().1;
        var i := FindPage(v.store.memory, page.Key());
        if i < |v.store.memory| {
          forall q { HitServed(u.store, i, v.elapsed, q); }
        } else {
          PagedMiss(u, v.(misses := v.misses + 1), p, page);
        }
      }
    }
  }

  lemma PagedMiss(u: State, v: State, p: Process, page: Page)
    requires Paged(v) && Distinct(u) && u.cpu.running != [] && u.cpu.running[0].pid == p.pid
    requires v.cpu.running == [p] && p.remaining > 0 && v.incoming == u.incoming && v.waiting == u.waiting
    requires page.lifeTime == 0 || (page in p.pages && !HasKey(v.store.memory, page.Key()))
    ensures Paged(Load(v, page))
  {
    assert p in v.cpu.running && u.cpu.running[0] in u.cpu.running;
    LoadFinds(v, page);
    var w := Load(v, page);
    if page.lifeTime != 0 {
      assert page.pid == p.pid;
      forall q | q in v.incoming
        ensures q.pid != page.pid
      {
        DifferentNames(u, Incoming, q, Running, u.cpu.running[0]);
      }
      forall q | q in v.waiting
        ensures q.pid != page.pid
      {
        DifferentNames(u, Waiting, q, Running, u.cpu.running[0]);
      }
      forall q { LoadServes(v, page, q); }
    } else {
      assert w.store == v.store;
    }
  }

  lemma PagedTick(s: State, s': State)
    requires Tick(s, s') && Sound(s) && Paged(s) && Distinct(s)
    ensures Paged(s') && Distinct(s')
  {
    var u := Through(s, s');
    var d := Readmit(CheckBlocked(Queued(s)));
    PagedQueues(s);
    DistinctQueues(s);
    QueuesFrame(s);
    PagedRunning(d);
    DistinctRunning(d);
    PagedDispatch(BeforeDispatch(s), u);
    DistinctDispatch(BeforeDispatch(s), u);
    BeforeDispatchFrame(s);
    DispatchFrame(BeforeDispatch(s), u);
    PagedTouch(u);
    DistinctTick(s, s');
  }

  lemma {:induction false} PagedRun(r: seq<State>, i: nat)
    requires Run(r) && Sound(r[0]) && Paged(r[0]) && Distinct(r[0]) && i < |r|
    ensures Paged(r[i]) && Distinct(r[i]) && Sound(r[i])
  {
    if i > 0 {
      PagedRun(r, i - 1);
      SoundRun(r, i);
      PagedStep(r, i - 1);
    }
  }

  lemma PagedStep(r: seq<State>, i: nat)
    requires Run(r) && i + 1 < |r| && Sound(r[i]) && Paged(r[i]) && Distinct(r[i])
    ensures Paged(r[i + 1]) && Distinct(r[i + 1])
  {
    RunStep(r, i);
    PagedTick(r[i], r[i + 1]);
  }

  // ---------------------------------------------------------------- whole simulations

  /** Input the simulator can page for: distinct names, and for every job a page list that is
      not empty and whose pages carry its name. */
  ghost predicate WellFormed(jobs: seq<Job>) {
    && (forall i, j :: 0 <= i < j < |jobs| ==> jobs[i].pid != jobs[j].pid)
    && (forall i :: 0 <= i < |jobs| ==> Fresh(Create(jobs[i])))
  }

  lemma StartPaged(s: State, j: Job)
    requires Paged(s) && s.store.memory == [] && Fresh(Create(j))
    ensures Paged(StartProcess(s, j)) && StartProcess(s, j).store.memory == []
  {
    var p := Create(j);
    var t := s.(store := s.store.(disk := s.store.disk + p.pages));
    if j.submission == 0 {
      PagedOnDisk(s, p.pages);
      forall g | g in p.pages
        ensures HasKey(t.store.disk, g.Key())
      {
        var i :| 0 <= i < |p.pages| && p.pages[i] == g;
        HasKeyAppend(s.store.disk, p.pages, g.Key());
      }
    }
  }

  /** More pages on disk do no harm. */
  lemma PagedOnDisk(s: State, pages: seq<Page>)
    requires Paged(s)
    ensures Paged(s.(store := s.store.(disk := s.store.disk + pages)))
  {
    forall key
      ensures HasKey(s.store.disk, key) ==> HasKey(s.store.disk + pages, key)
    {
      HasKeyAppend(s.store.disk, pages, key);
    }
  }

  lemma {:induction false} StartAllPaged(s: State, jobs: seq<Job>)
    requires Paged(s) && s.store.memory == [] && forall i :: 0 <= i < |jobs| ==> Fresh(Create(jobs[i]))
    ensures Paged(StartAll(s, jobs))
    decreases |jobs|
  {
    if jobs != [] {
      StartPaged(s, jobs[0]);
      assert forall i :: 0 <= i < |jobs[1..]| ==> jobs[1..][i] == jobs[i + 1];
      StartAllPaged(StartProcess(s, jobs[0]), jobs[1..]);
    }
  }

  lemma StartsPaged(r: seq<State>, max: int, frames: nat, alg: Algorithm, jobs: seq<Job>)
    requires Simulates(r, max, frames, alg, jobs) && WellFormed(jobs)
    ensures Paged(r[0]) && Distinct(r[0])
  {
    StartAllPaged(Initial(max, frames, alg), jobs);
    forall x
      ensures Count(x, r[0]) <= 1
    {
      CountOf(r, 0, x, max, frames, alg, jobs);
      CountsOnce(x, jobs);
    }
  }

  /** In every state of every simulation: the program has not ended itself over a missing
      page, memory is within its frames, and every page of a ready or running process with
      execution time left is in memory or on disk. */
  lemma PagesAlwaysFound(r: seq<State>, i: nat, max: int, frames: nat, alg: Algorithm, jobs: seq<Job>)
    requires Simulates(r, max, frames, alg, jobs) && WellFormed(jobs) && i < |r|
    ensures !r[i].exited && |r[i].store.memory| <= r[i].frames
    ensures forall p :: (p in r[i].cpu.ready || p in r[i].cpu.running) && p.remaining > 0 ==> Covered(r[i].store, p)
    ensures forall p :: p in r[i].waiting ==> OnDisk(r[i].store, p)
  {
    StartsPaged(r, max, frames, alg, jobs);
    StartsSound(r, max, frames, alg, jobs);
    PagedRun(r, i);
  }

  // ---------------------------------------------------------------- LRU stamps

  /** A frame's stamp is the tick of its last hit plus one, or of its load. */
  predicate Stamped(f: Page) {
    f.touched <= f.lastTimeUsed <= f.touched + 1
  }

  ghost predicate AllStamped(s: State) {
    FramesOK(s) && s.alg == LRU && !s.misjudged && forall f :: f in s.store.memory ==> Stamped(f)
  }

  /** The least stamp belongs to a frame touched at most one tick after any other. */
  lemma VictimIsStale(memory: seq<Page>)
    requires memory != [] && forall f :: f in memory ==> Stamped(f)
    ensures !FreshVictim(memory)
  {
    var v := LruVictim(memory);
    assert memory[v] in memory;
    forall f | f in memory
      ensures memory[v].touched <= f.touched + 1
    {
      var j :| 0 <= j < |memory| && memory[j] == f;
    }
  }

  lemma StampedLoad(s: State, page: Page)
    requires AllStamped(s)
    ensures AllStamped(Load(s, page))
  {
    if s.store.memory != [] {
      VictimIsStale(s.store.memory);
    }
  }

  lemma {:induction false} StampedAdmit(s: State)
    requires AllStamped(s)
    ensures AllStamped(Admit(s))
    decreases |s.waiting|
  {
    if !(s.SysFull() || s.waiting == []) {
      AdmitOneFrame(s);
      var p := s.waiting[0].Stamp(s.elapsed);
      StampedLoad(s.WithCpu(s.cpu.ready + [p], s.cpu.running).(waiting := s.waiting[1..]), FirstPage(p));
      StampedAdmit(AdmitOne(s));
    }
  }

  lemma StampedRunning(d: State)
    requires AllStamped(d)
    ensures AllStamped(CheckRunning(d))
  {
    if d.cpu.running != [] {
      if d.cpu.running[0].RunTick().remaining >= 1 {
        TurnStays(d);
      } else {
        TurnLeaves(d);
        KeptMembers(OwnedBy(d.cpu.running[0].pid), d.store.memory);
      }
    }
  }

  lemma StampedTouch(u: State)
    requires AllStamped(u)
    ensures AllStamped(Touch(u))
  {
    if !(u.idle || u.cpu.running == [] || u.cpu.running[0].remaining <= 0) {
      var p := u.cpu.running[0].GetPage().0;
      var page := p.GetPage().1;
      var v := u.WithCpu(u.cpu.ready, u.cpu.running[0 := p]).(misses := u.misses + 1);
      StampedLoad(v, page);
      StampedHit(u.store.memory, FindPage(u.store.memory, page.Key()), u.elapsed);
    }
  }

  lemma StampedHit(memory: seq<Page>, i: nat, now: int)
    requires forall f :: f in memory ==> Stamped(f)
    ensures i < |memory| ==> forall f :: f in memory[i := Hit(memory[i], now)] ==> Stamped(f)
  {
  }

  lemma StampedTick(s: State, s': State)
    requires Tick(s, s') && AllStamped(s)
    ensures AllStamped(s')
  {
    var u := Through(s, s');
    StampedAdmit(Arrive(s));
    ReadmitFrame(CheckBlocked(Queued(s)));
    var d := Readmit(CheckBlocked(Queued(s)));
    assert AllStamped(d);
    StampedRunning(d);
    DispatchFrame(BeforeDispatch(s), u);
    StampedTouch(u);
  }

  lemma {:induction false} StampedRun(r: seq<State>, i: nat)
    requires Run(r) && AllStamped(r[0]) && i < |r|
    ensures AllStamped(r[i])
  {
    if i > 0 {
      StampedRun(r, i - 1);
      StampedStep(r, i - 1);
    }
  }

  lemma StampedStep(r: seq<State>, i: nat)
    requires Run(r) && i + 1 < |r| && AllStamped(r[i])
    ensures AllStamped(r[i + 1])
  {
    RunStep(r, i);
    StampedTick(r[i], r[i + 1]);
  }

  lemma {:induction false} StartAllMemory(s: State, jobs: seq<Job>)
    ensures StartAll(s, jobs).store.memory == s.store.memory && StartAll(s, jobs).alg == s.alg
    ensures StartAll(s, jobs).frames == s.frames && StartAll(s, jobs).misjudged == s.misjudged
    decreases |jobs|
  {
    if jobs != [] {
      StartAllMemory(StartProcess(s, jobs[0]), jobs[1..]);
    }
  }

  /** No call of LRU in any simulation, at an admission or for the running process, evicts a
      frame that was touched two ticks or more after a frame that stays. */
  lemma LruEvictsStale(r: seq<State>, i: nat, max: int, frames: nat, jobs: seq<Job>)
    requires Simulates(r, max, frames, LRU, jobs) && i < |r|
    ensures !r[i].misjudged
  {
    StartAllMemory(Initial(max, frames, LRU), jobs);
    StampedRun(r, i);
  }
}
