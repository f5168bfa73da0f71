/** What every tick keeps: the multiprogramming bound, one running process at most, the idle
    flag, and the processes themselves. */
module SimInvariants {
  import opened Seqs
  import opened Processes
  import opened PageReplacement
  import opened SchedulingPolicies
  import opened SimState
  import opened SimFlow

  ghost predicate Sound(s: State) {
    && FramesOK(s)
    && |s.cpu.running| <= 1
    && s.Level() <= s.Capacity()
    && (s.idle <==> s.cpu.running == [])
    && (s.Capacity() == 0 ==> s.blockedSuspended == [] && s.readySuspended == [])
  }

  /** The unsigned test of isSysFull says what the signed one was meant to say exactly as long
      as the level has not passed the limit. */
  lemma FullTestAgreesIffWithinLimit(s: State)
    requires 0 <= s.max < SIZE_T && s.Level() < SIZE_T
    ensures (s.SysFull() <==> s.max - s.Level() <= 0) <==> s.Level() <= s.max
  {
  }

  lemma FullMeansEqual(max: int, level: int)
    requires 0 <= level < SIZE_T
    ensures (max - level) % SIZE_T == 0 <==> level == max % SIZE_T
  {
  }

  // ---------------------------------------------------------------- the level, sub-step by sub-step

  lemma {:induction false} AdmitLevel(s: State)
    requires FramesOK(s) && s.Level() <= s.Capacity()
    ensures Admit(s).Level() <= s.Capacity()
    decreases |s.waiting|
  {
    if !(s.SysFull() || s.waiting == []) {
      FullMeansEqual(s.max, s.Level());
      AdmitOneFrame(s);
      AdmitLevel(AdmitOne(s));
    }
  }

  lemma {:induction false} ReadmitLevel(s: State)
    requires s.Level() <= s.Capacity()
    ensures Readmit(s).Level() <= s.Capacity()
    decreases |s.readySuspended|
  {
    if !(s.waiting != [] || s.readySuspended == [] || s.SysFull()) {
      FullMeansEqual(s.max, s.Level());
      ReadmitLevel(ReadmitOne(s));
    }
  }

  lemma CheckBlockedLevel(s: State)
    ensures CheckBlocked(s).Level() == s.Level()
    ensures s.cpu.ready <= CheckBlocked(s).cpu.ready
  {
    TakenKeptCount(OverIf(s.waiting == []), DecrementAll(s.blocked));
  }

  lemma CheckRunningLevel(s: State)
    ensures CheckRunning(s).Level() <= s.Level()
  {
  }

  /** running + ready + blocked stays within the limit after every sub-step of a tick. */
  lemma LevelAtEverySubStep(s: State)
    requires FramesOK(s) && s.Level() <= s.Capacity()
    ensures Arrive(s).Level() <= s.Capacity()
    ensures Queued(s).Level() <= s.Capacity()
    ensures CheckBlocked(Queued(s)).Level() <= s.Capacity()
    ensures Readmit(CheckBlocked(Queued(s))).Level() <= s.Capacity()
    ensures BeforeDispatch(s).Level() <= s.Capacity()
  {
    AdmitLevel(Arrive(s));
    AdmitFrame(Arrive(s));
    CheckBlockedLevel(Queued(s));
    ReadmitLevel(CheckBlocked(Queued(s)));
    CheckRunningLevel(Readmit(CheckBlocked(Queued(s))));
  }

  /** What CheckRunningProcess finds. */
  lemma QueuesFrame(s: State)
    requires FramesOK(s)
    ensures var d := Readmit(CheckBlocked(Queued(s)));
            && BeforeDispatch(s) == CheckRunning(d)
            && d.cpu == s.cpu.(ready := d.cpu.ready) && d.waiting == Queued(s).waiting && d.incoming == Arrive(s).incoming
            && d.elapsed == s.elapsed && d.idleTime == s.idleTime && d.idle == s.idle
            && d.max == s.max && d.terminated == s.terminated && d.stats == s.stats
  {
    AdmitFrame(Arrive(s));
    ReadmitFrame(CheckBlocked(Queued(s)));
  }

  lemma CheckRunningFrame(d: State)
    ensures var t := CheckRunning(d);
            t == d.(cpu := CpuAfterTurn(d.cpu), blocked := t.blocked, blockedSuspended := t.blockedSuspended,
                    store := t.store, stats := t.stats, terminated := t.terminated)
  {
    if d.cpu.running != [] {
      if d.cpu.running[0].RunTick().remaining < 1 {
        TurnLeaves(d);
      } else {
        TurnStays(d);
      }
    }
  }

  /** The ready queue that CheckRunningProcess finds. */
  function ReadyAtTurn(s: State): seq<Process>
    requires FramesOK(s)
  {
    Readmit(CheckBlocked(Queued(s))).cpu.ready
  }

  lemma CpuBefore(s: State)
    requires FramesOK(s)
    ensures BeforeDispatch(s).cpu == CpuAfterTurn(s.cpu.(ready := ReadyAtTurn(s)))
  {
    QueuesFrame(s);
    CheckRunningFrame(Readmit(CheckBlocked(Queued(s))));
  }

  /** What a tick has done to the rest of the state when the policy is asked. */
  lemma BeforeDispatchFrame(s: State)
    requires FramesOK(s)
    ensures var t := BeforeDispatch(s);
            && t.elapsed == s.elapsed && t.idleTime == s.idleTime && t.idle == s.idle && t.max == s.max
            && t.waiting == Queued(s).waiting && t.incoming == Arrive(s).incoming
            && t.cpu.quantum == s.cpu.quantum && |t.cpu.running| <= |s.cpu.running|
  {
    QueuesFrame(s);
    CheckRunningFrame(Readmit(CheckBlocked(Queued(s))));
  }

  lemma AfterFrame(u: State)
    requires FramesOK(u)
    ensures var v := AfterDispatch(u);
            && FramesOK(v) && v.Level() == u.Level() && |v.cpu.running| == |u.cpu.running|
            && v == u.(store := v.store, hits := v.hits, misses := v.misses, exited := v.exited, misjudged := v.misjudged,
                       cpu := CpuState(u.cpu.ready, v.cpu.running, u.cpu.quantum - 1), elapsed := u.elapsed + 1,
                       idleTime := u.idleTime + if u.idle && u.cpu.running == [] then 1 else 0)
  {
    TouchFrame(u);
  }

  lemma TouchFrame(u: State)
    requires FramesOK(u)
    ensures var v := Touch(u);
            && FramesOK(v) && |v.cpu.running| == |u.cpu.running|
            && v == u.(store := v.store, hits := v.hits, misses := v.misses, exited := v.exited, misjudged := v.misjudged,
                       cpu := u.cpu.(running := v.cpu.running))
  {
    if !(u.idle || u.cpu.running == [] || u.cpu.running[0].remaining <= 0) {
      var p := u.cpu.running[0].GetPage().0;
      ReplaceConservesPages(u.alg, u.frames, u.store, p.GetPage().1, u.elapsed);
    }
  }

  lemma DispatchFrame(t: State, u: State)
    requires Dispatch(t, u)
    ensures u == t.(cpu := u.cpu, idle := u.idle)
    ensures |u.cpu.running| + |u.cpu.ready| == |t.cpu.running| + |t.cpu.ready|
    ensures t.cpu.running != [] ==> u == t
    ensures t.cpu.running == [] ==> |u.cpu.running| <= 1 && (u.idle <==> u.cpu.running == []) && (u.idle <==> t.cpu.ready == [])
  {
  }

  /** The invariant is kept by a tick. */
  lemma SoundTick(s: State, u: State, s': State)
    requires Via(s, u, s') && Sound(s)
    ensures Sound(s') && s'.max == s.max
  {
    LevelAtEverySubStep(s);
    BeforeDispatchFrame(s);
    DispatchFrame(BeforeDispatch(s), u);
    AfterFrame(u);
  }

  /** After the policy has been asked, the processor is idle if and only if nothing is running:
      a tick that finds it busy may look at runningProcess[0]. */
  lemma RunningProcessInRange(s: State, u: State, s': State)
    requires Via(s, u, s') && Sound(s)
    ensures u.idle <==> u.cpu.running == []
  {
    BeforeDispatchFrame(s);
    DispatchFrame(BeforeDispatch(s), u);
  }

  lemma {:induction false} SoundRun(r: seq<State>, i: nat)
    requires Run(r) && Sound(r[0]) && i < |r|
    ensures Sound(r[i]) && r[i].max == r[0].max
  {
    if i > 0 {
      SoundRun(r, i - 1);
      SoundStep(r, i - 1);
    }
  }

  lemma SoundStep(r: seq<State>, i: nat)
    requires Run(r) && i + 1 < |r| && Sound(r[i])
    ensures Sound(r[i + 1]) && r[i + 1].max == r[i].max
  {
    RunStep(r, i);
    SoundTick(r[i], Through(r[i], r[i + 1]), r[i + 1]);
  }

  ghost function Through(s: State, s': State): (u: State)
    requires Tick(s, s')
    ensures Via(s, u, s')
  {
    var u :| FramesOK(u) && Dispatch(BeforeDispatch(s), u) && s' == AfterDispatch(u);
    u
  }

  // ---------------------------------------------------------------- the processes themselves

  /** A weight that looks only at who a process is. */
  ghost function ByIdentity(f: (nat, int) -> int): Weight {
    (at: Place, p: Process) => f(p.pid, p.total)
  }

  ghost function Negated(f: (nat, int) -> int): (nat, int) -> int {
    (pid: nat, total: int) => -f(pid, total)
  }

  lemma IdentityRules(f: (nat, int) -> int, now: int)
    ensures Rules(ByIdentity(f), now, 0, false)
  {
  }

  lemma {:induction false} SumNegated(f: (nat, int) -> int, at: Place, q: seq<Process>)
    ensures Sum(ByIdentity(Negated(f)), at, q) == -Sum(ByIdentity(f), at, q)
  {
    if q != [] {
      SumNegated(f, at, q[1..]);
    }
  }

  lemma TotalNegated(f: (nat, int) -> int, s: State)
    ensures Total(ByIdentity(Negated(f)), s) == -Total(ByIdentity(f), s)
  {
    SumNegated(f, Incoming, s.incoming);
    SumNegated(f, Waiting, s.waiting);
    SumNegated(f, Ready, s.cpu.ready);
    SumNegated(f, Running, s.cpu.running);
    SumNegated(f, Blocked, s.blocked);
    SumNegated(f, BlockedSuspended, s.blockedSuspended);
    SumNegated(f, ReadySuspended, s.readySuspended);
    SumNegated(f, Done, s.terminated);
  }

  /** Whatever is counted over the seven queues and the terminated processes by who they are
      is the same after a tick: no process is lost, doubled or renamed. */
  lemma ProcessesConserved(f: (nat, int) -> int, s: State, u: State, s': State)
    requires Via(s, u, s')
    ensures Total(ByIdentity(f), s') == Total(ByIdentity(f), s)
  {
    IdentityRules(f, s.elapsed);
    FlowTick(ByIdentity(f), s, u, s', 0, false);
    IdentityRules(Negated(f), s.elapsed);
    FlowTick(ByIdentity(Negated(f)), s, u, s', 0, false);
    TotalNegated(f, s);
    TotalNegated(f, s');
  }

  lemma {:induction false} ProcessesConservedRun(f: (nat, int) -> int, r: seq<State>, i: nat)
    requires Run(r) && i < |r|
    ensures Total(ByIdentity(f), r[i]) == Total(ByIdentity(f), r[0])
  {
    if i > 0 {
      ProcessesConservedRun(f, r, i - 1);
      ProcessesConservedStep(f, r, i - 1);
    }
  }

  lemma ProcessesConservedStep(f: (nat, int) -> int, r: seq<State>, i: nat)
    requires Run(r) && i + 1 < |r|
    ensures Total(ByIdentity(f), r[i + 1]) == Total(ByIdentity(f), r[i])
  {
    RunStep(r, i);
    ProcessesConserved(f, r[i], Through(r[i], r[i + 1]), r[i + 1]);
  }

  lemma RunStep(r: seq<State>, i: nat)
    requires Run(r) && i + 1 < |r|
    ensures !r[i].Finished() && Tick(r[i], r[i + 1])
  {
    assert Next(r, i);
  }

  /** The states of a run put together from its last step. */
  lemma RunExtends(r: seq<State>, s': State)
    requires Run(r) && !r[|r| - 1].Finished() && Tick(r[|r| - 1], s')
    ensures Run(r + [s'])
  {
    var q := r + [s'];
    forall i | 0 <= i < |q| - 1
      ensures Next(q, i)
    {
      if i < |r| - 1 {
        assert Next(r, i) && q[i] == r[i] && q[i + 1] == r[i + 1];
      }
    }
  }

  ghost function Named(x: nat): (nat, int) -> int {
    (pid: nat, total: int) => if pid == x then 1 else 0
  }

  /** How many processes carry the name x, wherever they are. */
  ghost function Count(x: nat, s: State): int {
    Total(ByIdentity(Named(x)), s)
  }

  function Queue(s: State, at: Place): seq<Process> {
    match at
    case Incoming => s.incoming
    case Waiting => s.waiting
    case Ready => s.cpu.ready
    case Running => s.cpu.running
    case Blocked => s.blocked
    case BlockedSuspended => s.blockedSuspended
    case ReadySuspended => s.readySuspended
    case Done => s.terminated
  }

  ghost function CountIn(x: nat, at: Place, q: seq<Process>): int {
    Sum(ByIdentity(Named(x)), at, q)
  }

  ghost function At(x: nat, s: State, at: Place): int {
    CountIn(x, at, Queue(s, at))
  }

  lemma {:induction false} CountNonNegative(x: nat, at: Place, q: seq<Process>)
    ensures CountIn(x, at, q) >= 0
    ensures forall i :: 0 <= i < |q| && q[i].pid == x ==> CountIn(x, at, q) >= 1
    ensures forall i, j :: 0 <= i < j < |q| && q[i].pid == x && q[j].pid == x ==> CountIn(x, at, q) >= 2
    ensures CountIn(x, at, q) >= 1 ==> exists i :: 0 <= i < |q| && q[i].pid == x
  {
    if q != [] {
      CountNonNegative(x, at, q[1..]);
      forall i | 0 <= i < |q| && q[i].pid == x
        ensures CountIn(x, at, q) >= 1
      {
        if i > 0 { assert q[1..][i - 1].pid == x; }
      }
      forall i, j | 0 <= i < j < |q| && q[i].pid == x && q[j].pid == x
        ensures CountIn(x, at, q) >= 2
      {
        assert q[1..][j - 1].pid == x;
        if i > 0 { assert q[1..][i - 1].pid == x; }
      }
      if CountIn(x, at, q) >= 1 && q[0].pid != x {
        var i :| 0 <= i < |q[1..]| && q[1..][i].pid == x;
        assert q[i + 1].pid == x;
      }
    }
  }

  lemma CountsAdd(x: nat, s: State)
    ensures Count(x, s) == At(x, s, Incoming) + At(x, s, Waiting) + At(x, s, Ready) + At(x, s, Running) + At(x, s, Blocked)
      + At(x, s, BlockedSuspended) + At(x, s, ReadySuspended) + At(x, s, Done)
    ensures forall at :: At(x, s, at) >= 0
  {
    forall at
      ensures At(x, s, at) >= 0
    {
      CountNonNegative(x, at, Queue(s, at));
    }
  }

  ghost predicate IsAt(s: State, x: nat, at: Place, i: nat) {
    i < |Queue(s, at)| && Queue(s, at)[i].pid == x
  }

  /** A process that is counted once is in exactly one position of exactly one queue. */
  lemma ExactlyOnePlace(x: nat, s: State)
    requires Count(x, s) == 1
    ensures exists at, i :: IsAt(s, x, at, i)
    ensures forall at, i, bt, j :: IsAt(s, x, at, i) && IsAt(s, x, bt, j) ==> at == bt && i == j
  {
    CountsAdd(x, s);
    forall at
      ensures At(x, s, at) >= 1 ==> exists i :: IsAt(s, x, at, i)
    {
      CountNonNegative(x, at, Queue(s, at));
      if At(x, s, at) >= 1 {
        var i :| 0 <= i < |Queue(s, at)| && Queue(s, at)[i].pid == x;
        assert IsAt(s, x, at, i);
      }
    }
    assert exists at :: At(x, s, at) >= 1;
    forall at, i, bt, j | IsAt(s, x, at, i) && IsAt(s, x, bt, j)
      ensures at == bt && i == j
    {
      AtMostOne(x, s, at, i, bt, j);
    }
  }

  lemma AtMostOne(x: nat, s: State, at: Place, i: nat, bt: Place, j: nat)
    requires Count(x, s) <= 1 && IsAt(s, x, at, i) && IsAt(s, x, bt, j)
    ensures at == bt && i == j
  {
    CountsAdd(x, s);
    CountNonNegative(x, at, Queue(s, at));
    CountNonNegative(x, bt, Queue(s, bt));
    assert At(x, s, at) >= 1 && At(x, s, bt) >= 1;
    assert at == bt;
  }
}
