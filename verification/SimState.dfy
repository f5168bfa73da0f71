/** The simulator's state and what each sub-step of a tick does to it
    (kernal/Process_scheduling/Simulate.cpp, kernal/include/simulate.h).

    The sub-steps are functions in the order in which the main loop performs them; a tick puts
    them together around the policy's choice, and a run is a sequence of ticks. */
module SimState {
  import opened Seqs
  import opened Processes
  import opened PageReplacement
  import opened SchedulingPolicies

  const SIZE_T := 0x1_0000_0000_0000_0000

  datatype Statistics = Statistics(waiting: int, response: int, service: int, turnaround: int)

  /** `terminated` (the processes that have left), `exited` (the program ended itself because a
      page was on neither list) and `misjudged` (LRU evicted a frame touched two ticks or more
      after one that stayed) are history; everything else is a field of the simulator. */
  datatype State = State(
    max: int, frames: nat, alg: Algorithm,
    incoming: seq<Process>, waiting: seq<Process>, cpu: CpuState,
    blocked: seq<Process>, blockedSuspended: seq<Process>, readySuspended: seq<Process>,
    store: Store, elapsed: int, idle: bool, idleTime: int, created: nat,
    stats: Statistics, hits: nat, misses: nat,
    terminated: seq<Process>, exited: bool, misjudged: bool)
  {
    /** running + ready + blocked, the multiprogramming level. */
    function Level(): nat {
      |cpu.running| + |cpu.ready| + |blocked|
    }

    /** isSysFull: the subtraction is unsigned, so `<= 0` can only mean zero. */
    predicate SysFull() {
      (max - Level()) % SIZE_T == 0
    }

    /** The limit as the unsigned number the test compares with. */
    function Capacity(): nat {
      max % SIZE_T
    }

    /** EmptyQueue. */
    predicate Finished() {
      && incoming == [] && waiting == [] && readySuspended == [] && cpu.ready == []
      && blocked == [] && blockedSuspended == [] && idle
    }

    function WithCpu(ready: seq<Process>, running: seq<Process>): State {
      this.(cpu := cpu.(ready := ready, running := running))
    }
  }

  function Initial(max: int, frames: nat, alg: Algorithm): State {
    State(max, frames, alg, [], [], CpuState([], [], 0), [], [], [], Store([], [], 0),
          0, true, 0, 0, Statistics(0, 0, 0, 0), 0, 0, [], false, false)
  }

  // ---------------------------------------------------------------- StartProcess

  function StartProcess(s: State, j: Job): State {
    var p := Create(j);
    var t := s.(created := s.created + 1);
    if p.submission == 0 then
      var u := if !s.SysFull() then t.WithCpu(s.cpu.ready + [p], s.cpu.running) else t.(waiting := s.waiting + [p]);
      u.(store := s.store.(disk := s.store.disk + p.pages))
    else t.(incoming := s.incoming + [p])
  }

  function StartAll(s: State, jobs: seq<Job>): State
    decreases |jobs|
  {
    if jobs == [] then s else StartAll(StartProcess(s, jobs[0]), jobs[1..])
  }

  // ---------------------------------------------------------------- CheckIncomingQueue

  function DueBy(now: int): Process -> bool {
    (p: Process) => p.submission - now <= 0
  }

  function PagesOf(q: seq<Process>): seq<Page> {
    if q == [] then [] else q[0].pages + PagesOf(q[1..])
  }

  /** Processes that are due enter the waiting queue, the latest listed first, and their
      pages the disk. */
  function Arrive(s: State): State {
    var due := Taken(DueBy(s.elapsed), s.incoming);
    s.(incoming := Kept(DueBy(s.elapsed), s.incoming), waiting := s.waiting + due,
       store := s.store.(disk := s.store.disk + PagesOf(due)))
  }

  // ---------------------------------------------------------------- admission

  function FirstPage(p: Process): Page {
    if p.pages == [] then NO_PAGE else p.pages[0]
  }

  /** The LRU victim was touched two ticks or more after a frame that stays. */
  predicate FreshVictim(memory: seq<Page>)
    requires memory != []
  {
    exists f :: f in memory && memory[LruVictim(memory)].touched >= f.touched + 2
  }

  /** A call that loads a page evicts one from a full memory. */
  predicate EvictsFresh(s: State, outcome: Outcome)
    requires 1 <= s.frames
  {
    s.alg == LRU && outcome == Loaded && |s.store.memory| >= s.frames && FreshVictim(s.store.memory)
  }

  /** One call of the page replacement algorithm; exit(1) sets one flag, a bad choice of LRU the
      other. */
  function Load(s: State, page: Page): State
    requires 1 <= s.frames && |s.store.memory| <= s.frames
  {
    var (store, outcome) := Replace(s.alg, s.frames, s.store, page, s.elapsed);
    s.(store := store, exited := s.exited || outcome == NotFound, misjudged := s.misjudged || EvictsFresh(s, outcome))
  }

  function AdmitOne(s: State): State
    requires s.waiting != [] && 1 <= s.frames && |s.store.memory| <= s.frames
  {
    var p := s.waiting[0].Stamp(s.elapsed);
    Load(s.WithCpu(s.cpu.ready + [p], s.cpu.running).(waiting := s.waiting[1..]), FirstPage(p))
  }

  function Admit(s: State): (t: State)
    requires 1 <= s.frames && |s.store.memory| <= s.frames
    ensures t.frames == s.frames && |t.store.memory| <= t.frames
    decreases |s.waiting|
  {
    if s.SysFull() || s.waiting == [] then s
    else
      ReplaceConservesPages(s.alg, s.frames, s.store, FirstPage(s.waiting[0].Stamp(s.elapsed)), s.elapsed);
      Admit(AdmitOne(s))
  }

  // ---------------------------------------------------------------- CheckBlockedQueue

  function DecrementAll(q: seq<Process>): (r: seq<Process>)
    ensures |r| == |q|
  {
    if q == [] then [] else [q[0].DecrementBlockTime()] + DecrementAll(q[1..])
  }

  lemma {:induction false} DecrementAt(q: seq<Process>, i: nat)
    requires i < |q|
    ensures DecrementAll(q)[i] == q[i].DecrementBlockTime()
  {
    if i > 0 {
      DecrementAt(q[1..], i - 1);
    }
  }

  /** A process whose block time is over, if the queue may let it go. */
  function OverIf(free: bool): Process -> bool {
    (p: Process) => free && p.block <= 0
  }

  function CheckBlocked(s: State): State {
    var d := DecrementAll(s.blocked);
    var e := DecrementAll(s.blockedSuspended);
    var free := s.waiting == [];
    s.WithCpu(s.cpu.ready + Taken(OverIf(free), d), s.cpu.running)
     .(blocked := Kept(OverIf(free), d),
       readySuspended := s.readySuspended + Taken(OverIf(true), e),
       blockedSuspended := Kept(OverIf(true), e))
  }

  // ---------------------------------------------------------------- CheckReadySuspensedQueue

  function ReadmitOne(s: State): State
    requires s.readySuspended != []
  {
    var p := s.readySuspended[0].Stamp(s.elapsed).(readmitted := true);
    s.WithCpu(s.cpu.ready + [p], s.cpu.running).(readySuspended := s.readySuspended[1..])
  }

  function Readmit(s: State): State
    decreases |s.readySuspended|
  {
    if s.waiting != [] || s.readySuspended == [] || s.SysFull() then s else Readmit(ReadmitOne(s))
  }

  // ---------------------------------------------------------------- CheckRunningProcess

  function OwnedBy(pid: nat): Page -> bool {
    (p: Page) => p.pid == pid
  }

  function RemovePages(s: State, pid: nat): State {
    s.(store := s.store.(memory := Kept(OwnedBy(pid), s.store.memory)))
  }

  /** TerminateProcess, on a process whose times are set. */
  function Record(t: Statistics, p: Process, now: int): Statistics {
    Statistics(t.waiting + p.waiting, t.response + p.response,
               t.service + (now - p.submission - p.waiting), t.turnaround + p.turnaround)
  }

  /** The running process, its tick counted, has no time left. */
  function EndTurn(s: State): State
    requires s.cpu.running != []
  {
    var p := s.cpu.running[0];
    var t := RemovePages(s.WithCpu(s.cpu.ready, s.cpu.running[1..]), p.pid);
    if p.block > 0 then
      if s.waiting != [] && s.SysFull() then t.(blockedSuspended := s.blockedSuspended + [p])
      else t.(blocked := s.blocked + [p])
    else
      var q := p.Finish(s.elapsed);
      t.(stats := Record(s.stats, q, s.elapsed), terminated := s.terminated + [q])
  }

  function CheckRunning(s: State): State {
    if s.cpu.running == [] then s
    else
      var p := s.cpu.running[0].RunTick();
      if p.remaining < 1 then EndTurn(s.WithCpu(s.cpu.ready, s.cpu.running[0 := p]))
      else if s.cpu.quantum < 1 then s.WithCpu(s.cpu.ready + [p], s.cpu.running[1..])
      else s.WithCpu(s.cpu.ready, s.cpu.running[0 := p])
  }

  /** The sub-steps before the short-term scheduler. */
  function BeforeDispatch(s: State): State
    requires 1 <= s.frames && |s.store.memory| <= s.frames
  {
    CheckRunning(Readmit(CheckBlocked(Admit(Arrive(s)))))
  }

  // ---------------------------------------------------------------- short-term scheduling

  /** The policy is asked only when nothing is running. */
  ghost predicate Dispatch(t: State, u: State) {
    if t.cpu.running != [] then u == t
    else exists ok :: u == t.(cpu := u.cpu, idle := !ok) && WorkConserving(t.cpu, u.cpu, ok, t.elapsed)
  }

  /** Dispatch under round robin. */
  predicate DispatchRR(t: State, u: State) {
    if t.cpu.running != [] then u == t
    else if t.cpu.ready == [] then u == t.(idle := true)
    else u == t.(cpu := Moved(t.cpu, 0, 2, t.elapsed), idle := false)
  }

  // ---------------------------------------------------------------- paging of the running process

  /** PageInMemory: what it leaves and what it answers. */
  function Lookup(u: State): (State, bool) {
    if u.cpu.running == [] then (u, true)
    else
      var (p, first) := u.cpu.running[0].GetPage();
      var v := u.WithCpu(u.cpu.ready, u.cpu.running[0 := p]);
      var i := FindPage(v.store.memory, p.GetPage().1.Key());
      if first.lifeTime == 0 then (v, true)
      else if i < |v.store.memory| then
        (v.(store := v.store.(memory := v.store.memory[i := Hit(v.store.memory[i], v.elapsed)]), hits := v.hits + 1), true)
      else (v.(misses := v.misses + 1), false)
  }

  /** PageInMemory and, on a miss, the page replacement algorithm. */
  function Touch(u: State): State
    requires 1 <= u.frames && |u.store.memory| <= u.frames
  {
    if u.idle || u.cpu.running == [] || u.cpu.running[0].remaining <= 0 then u
    else
      var (p, first) := u.cpu.running[0].GetPage();
      var v := u.WithCpu(u.cpu.ready, u.cpu.running[0 := p]);
      if first.lifeTime == 0 then v
      else
        var page := p.GetPage().1;
        var i := FindPage(v.store.memory, page.Key());
        if i < |v.store.memory| then
          v.(store := v.store.(memory := v.store.memory[i := Hit(v.store.memory[i], v.elapsed)]), hits := v.hits + 1)
        else Load(v.(misses := v.misses + 1), page)
  }

  function AfterDispatch(u: State): State
    requires 1 <= u.frames && |u.store.memory| <= u.frames
  {
    var v := Touch(u);
    v.(elapsed := v.elapsed + 1, cpu := v.cpu.(quantum := v.cpu.quantum - 1),
       idleTime := v.idleTime + if v.idle && v.cpu.running == [] then 1 else 0)
  }

  // ---------------------------------------------------------------- ticks and runs

  /** What every sub-step needs to be defined. */
  predicate FramesOK(s: State) {
    1 <= s.frames && |s.store.memory| <= s.frames
  }

  lemma {:induction false} ReadmitFrame(s: State)
    ensures var t := Readmit(s);
            t == s.(cpu := s.cpu.(ready := t.cpu.ready), readySuspended := t.readySuspended)
    decreases |s.readySuspended|
  {
    if !(s.waiting != [] || s.readySuspended == [] || s.SysFull()) {
      ReadmitFrame(ReadmitOne(s));
    }
  }

  /** The processor's queues after its turn. */
  function CpuAfterTurn(c: CpuState): CpuState {
    if c.running == [] then c
    else
      var p := c.running[0].RunTick();
      if p.remaining < 1 then c.(running := c.running[1..])
      else if c.quantum < 1 then c.(ready := c.ready + [p], running := c.running[1..])
      else c.(running := c.running[0 := p])
  }

  lemma TurnStays(d: State)
    requires d.cpu.running != [] && d.cpu.running[0].RunTick().remaining >= 1
    ensures CheckRunning(d) == d.(cpu := CpuAfterTurn(d.cpu))
  {
  }

  /** The state without the process that has no time left, and without its frames. */
  function Without(d: State): State
    requires d.cpu.running != []
  {
    RemovePages(d.WithCpu(d.cpu.ready, d.cpu.running[1..]), d.cpu.running[0].pid)
  }

  /** From t to v, process q has blocked, has been suspended or has terminated. */
  predicate GoesTo(t: State, v: State, q: Process) {
    if q.block > 0 then v == t.(blocked := t.blocked + [q]) || v == t.(blockedSuspended := t.blockedSuspended + [q])
    else v == t.(stats := Record(t.stats, q.Finish(t.elapsed), t.elapsed), terminated := t.terminated + [q.Finish(t.elapsed)])
  }

  lemma TurnLeaves(d: State)
    requires d.cpu.running != [] && d.cpu.running[0].RunTick().remaining < 1
    ensures GoesTo(Without(d), CheckRunning(d), d.cpu.running[0].RunTick())
  {
  }

  lemma CheckRunningFrames(s: State)
    requires FramesOK(s)
    ensures FramesOK(CheckRunning(s))
  {
    if s.cpu.running != [] {
      if s.cpu.running[0].RunTick().remaining >= 1 {
        TurnStays(s);
      } else {
        TurnLeaves(s);
      }
    }
  }

  lemma FramesBefore(s: State)
    requires FramesOK(s)
    ensures FramesOK(BeforeDispatch(s))
  {
    var t := CheckBlocked(Admit(Arrive(s)));
    assert FramesOK(t);
    ReadmitFrame(t);
    CheckRunningFrames(Readmit(t));
  }

  ghost predicate Tick(s: State, s': State) {
    FramesOK(s) && exists u :: FramesOK(u) && Dispatch(BeforeDispatch(s), u) && s' == AfterDispatch(u)
  }

  /** A tick under round robin. */
  ghost predicate TickRR(s: State, s': State) {
    FramesOK(s) && exists u :: FramesOK(u) && DispatchRR(BeforeDispatch(s), u) && s' == AfterDispatch(u)
  }

  /** The main loop: consecutive states, a tick apart, ticks happening only while some
      queue is not empty. */
  ghost predicate Run(r: seq<State>) {
    r != [] && forall i :: 0 <= i < |r| - 1 ==> Next(r, i)
  }

  ghost predicate Next(r: seq<State>, i: int)
    requires 0 <= i < |r| - 1
  {
    !r[i].Finished() && Tick(r[i], r[i + 1])
  }
}
