/** How any quantity that is summed over the processes moves in one tick. */
module SimFlow {
  import opened Seqs
  import opened Processes
  import opened SchedulingPolicies
  import opened SimState

  // A weight gives every process a number that may depend on the queue it is in; if no single
  // move of a process raises its weight, no tick raises the sum.  Conservation, the accounting
  // of processor time and the termination measure are instances.

  datatype Place = Incoming | Waiting | Ready | Running | Blocked | BlockedSuspended | ReadySuspended | Done

  type Weight = (Place, Process) -> int

  ghost function Sum(w: Weight, at: Place, q: seq<Process>): int {
    if q == [] then 0 else w(at, q[0]) + Sum(w, at, q[1..])
  }

  ghost function Total(w: Weight, s: State): int {
    Sum(w, Incoming, s.incoming) + Sum(w, Waiting, s.waiting) + Sum(w, Ready, s.cpu.ready)
    + Sum(w, Running, s.cpu.running) + Sum(w, Blocked, s.blocked) + Sum(w, BlockedSuspended, s.blockedSuspended)
    + Sum(w, ReadySuspended, s.readySuspended) + Sum(w, Done, s.terminated)
  }

  /** Every single move, and what it costs at least: `run` for a tick on the processor, and in
      the strict case 1 for an arrival and for every tick of a blocked process that is not
      held back. */
  ghost predicate Rules(w: Weight, now: int, run: int, strict: bool) {
    && QueueRules(w, now, strict)
    && RunRule(w, w, now, run)
    && DispatchRule(w)
    && TouchRule(w)
  }

  ghost predicate RulesBetween(w: Weight, v: Weight, now: int, run: int, strict: bool) {
    && QueueRules(w, now, strict)
    && Relaxes(w, v)
    && RunRule(w, v, now, run)
    && DispatchRule(v)
    && TouchRule(v)
  }

  ghost predicate QueueRules(w: Weight, now: int, strict: bool) {
    && ArriveRule(w, Cost(strict))
    && AdmitRule(w, now)
    && BlockedRule(w, Cost(strict))
    && SuspendedRule(w, Cost(strict))
    && ReadmitRule(w, now)
  }

  /** The weights that judge a tick before and after the processor's turn may differ on the
      running process. */
  ghost predicate Relaxes(w: Weight, v: Weight) {
    && (forall p: Process {:trigger v(Running, p)} :: v(Running, p) <= w(Running, p))
    && (forall at: Place, p: Process {:trigger v(at, p)} :: at != Running ==> v(at, p) == w(at, p))
  }

  function Cost(strict: bool): int {
    if strict then 1 else 0
  }

  ghost predicate ArriveRule(w: Weight, c: int) {
    forall p: Process {:trigger w(Incoming, p)} :: w(Waiting, p) <= w(Incoming, p) - c
  }

  ghost predicate AdmitRule(w: Weight, now: int) {
    forall p: Process {:trigger p.Stamp(now)} :: w(Ready, p.Stamp(now)) <= w(Waiting, p)
  }

  ghost predicate BlockedRule(w: Weight, c: int) {
    forall p: Process {:trigger p.DecrementBlockTime()} ::
      && w(Blocked, p.DecrementBlockTime()) <= w(Blocked, p)
      && (p.DecrementBlockTime().block > 0 ==> w(Blocked, p.DecrementBlockTime()) <= w(Blocked, p) - c)
      && (p.DecrementBlockTime().block <= 0 ==> w(Ready, p.DecrementBlockTime()) <= w(Blocked, p) - c)
  }

  ghost predicate SuspendedRule(w: Weight, c: int) {
    forall p: Process {:trigger p.DecrementBlockTime()} ::
      && (p.DecrementBlockTime().block > 0 ==> w(BlockedSuspended, p.DecrementBlockTime()) <= w(BlockedSuspended, p) - c)
      && (p.DecrementBlockTime().block <= 0 ==> w(ReadySuspended, p.DecrementBlockTime()) <= w(BlockedSuspended, p) - c)
  }

  ghost predicate ReadmitRule(w: Weight, now: int) {
    forall p: Process {:trigger p.Stamp(now)} :: w(Ready, p.Stamp(now).(readmitted := true)) <= w(ReadySuspended, p)
  }

  ghost predicate RunRule(w: Weight, v: Weight, now: int, run: int) {
    forall p: Process {:trigger p.RunTick()} ::
      var q := p.RunTick();
      if q.remaining >= 1 then v(Running, q) <= w(Running, p) - run && w(Ready, q) <= w(Running, p) - run
      else if q.block > 0 then w(Blocked, q) <= w(Running, p) - run && w(BlockedSuspended, q) <= w(Running, p) - run
      else w(Done, q.Finish(now)) <= w(Running, p) - run
  }

  ghost predicate DispatchRule(w: Weight) {
    forall p: Process, q: Process {:trigger p.SameJob(q)} :: p.SameJob(q) ==> w(Running, q) <= w(Ready, p) && w(Ready, q) <= w(Ready, p)
  }

  ghost predicate TouchRule(w: Weight) {
    forall p: Process {:trigger p.GetPage()} :: w(Running, p.GetPage().0) <= w(Running, p)
  }

  // ---------------------------------------------------------------- sums

  lemma {:induction false} SumAppend(w: Weight, at: Place, a: seq<Process>, b: seq<Process>)
    ensures Sum(w, at, a + b) == Sum(w, at, a) + Sum(w, at, b)
  {
    if a == [] {
      assert a + b == b;
    } else {
      assert (a + b)[1..] == a[1..] + b;
      SumAppend(w, at, a[1..], b);
    }
  }

  lemma SumOne(w: Weight, at: Place, a: seq<Process>, p: Process)
    ensures Sum(w, at, a + [p]) == Sum(w, at, a) + w(at, p)
  {
    SumAppend(w, at, a, [p]);
    assert [p][1..] == [];
  }

  lemma SumRemove(w: Weight, at: Place, q: seq<Process>, i: nat)
    requires i < |q|
    ensures Sum(w, at, RemoveAt(q, i)) == Sum(w, at, q) - w(at, q[i])
  {
    assert q == q[..i] + ([q[i]] + q[i + 1..]);
    SumAppend(w, at, q[..i], [q[i]] + q[i + 1..]);
    SumAppend(w, at, q[..i], q[i + 1..]);
    assert ([q[i]] + q[i + 1..])[1..] == q[i + 1..];
  }

  lemma {:induction false} SumSame(w: Weight, a: seq<Process>, b: seq<Process>)
    requires DispatchRule(w) && SameJobs(a, b)
    ensures Sum(w, Ready, b) <= Sum(w, Ready, a)
  {
    if a != [] {
      assert a[0].SameJob(b[0]);
      assert forall i :: 0 <= i < |a[1..]| ==> a[1..][i] == a[i + 1] && b[1..][i] == b[i + 1];
      SumSame(w, a[1..], b[1..]);
    }
  }

  // ---------------------------------------------------------------- one sub-step at a time

  lemma {:induction false} SumArrive(w: Weight, f: Process -> bool, q: seq<Process>, c: int)
    requires ArriveRule(w, c) && (c == 0 || c == 1)
    ensures Sum(w, Incoming, Kept(f, q)) + Sum(w, Waiting, Taken(f, q))
         <= Sum(w, Incoming, q) - if c == 1 then |q| - |Kept(f, q)| else 0
  {
    if q != [] {
      SumArrive(w, f, q[1..], c);
      if f(q[0]) {
        SumOne(w, Waiting, Taken(f, q[1..]), q[0]);
      }
    }
  }

  lemma FlowArrive(w: Weight, s: State, strict: bool)
    requires ArriveRule(w, Cost(strict))
    ensures Total(w, Arrive(s)) <= Total(w, s) - if strict then |s.incoming| - |Arrive(s).incoming| else 0
  {
    SumArrive(w, DueBy(s.elapsed), s.incoming, Cost(strict));
    SumAppend(w, Waiting, s.waiting, Taken(DueBy(s.elapsed), s.incoming));
  }

  lemma {:induction false} FlowAdmit(w: Weight, s: State)
    requires AdmitRule(w, s.elapsed) && FramesOK(s)
    ensures Total(w, Admit(s)) <= Total(w, s)
    decreases |s.waiting|
  {
    if !(s.SysFull() || s.waiting == []) {
      SumOne(w, Ready, s.cpu.ready, s.waiting[0].Stamp(s.elapsed));
      FlowAdmit(w, AdmitOne(s));
    }
  }

  lemma {:induction false} SumBlocked(w: Weight, free: bool, q: seq<Process>, c: int)
    requires BlockedRule(w, c) && (c == 0 || c == 1)
    ensures Sum(w, Blocked, Kept(OverIf(free), DecrementAll(q))) + Sum(w, Ready, Taken(OverIf(free), DecrementAll(q)))
         <= Sum(w, Blocked, q) - if free && c == 1 then |q| else 0
  {
    if q != [] {
      SumBlocked(w, free, q[1..], c);
      var p := q[0].DecrementBlockTime();
      assert w(Blocked, p) <= w(Blocked, q[0]);
      assert DecrementAll(q)[1..] == DecrementAll(q[1..]);
      if OverIf(free)(p) {
        SumOne(w, Ready, Taken(OverIf(free), DecrementAll(q[1..])), p);
      }
    }
  }

  lemma {:induction false} SumSuspended(w: Weight, q: seq<Process>, c: int)
    requires SuspendedRule(w, c) && (c == 0 || c == 1)
    ensures Sum(w, BlockedSuspended, Kept(OverIf(true), DecrementAll(q)))
          + Sum(w, ReadySuspended, Taken(OverIf(true), DecrementAll(q)))
         <= Sum(w, BlockedSuspended, q) - if c == 1 then |q| else 0
  {
    if q != [] {
      SumSuspended(w, q[1..], c);
      var p := q[0].DecrementBlockTime();
      assert DecrementAll(q)[1..] == DecrementAll(q[1..]);
      if OverIf(true)(p) {
        SumOne(w, ReadySuspended, Taken(OverIf(true), DecrementAll(q[1..])), p);
      }
    }
  }

  lemma FlowBlocked(w: Weight, s: State, strict: bool)
    requires BlockedRule(w, Cost(strict)) && SuspendedRule(w, Cost(strict))
    ensures Total(w, CheckBlocked(s)) <= Total(w, s) - if strict then Freed(s) else 0
  {
    var free := s.waiting == [];
    SumBlocked(w, free, s.blocked, Cost(strict));
    SumSuspended(w, s.blockedSuspended, Cost(strict));
    SumAppend(w, Ready, s.cpu.ready, Taken(OverIf(free), DecrementAll(s.blocked)));
    SumAppend(w, ReadySuspended, s.readySuspended, Taken(OverIf(true), DecrementAll(s.blockedSuspended)));
  }

  /** The blocked processes that CheckBlockedQueue advances for good. */
  function Freed(s: State): nat {
    (if s.waiting == [] then |s.blocked| else 0) + |s.blockedSuspended|
  }

  lemma {:induction false} FlowReadmit(w: Weight, s: State)
    requires ReadmitRule(w, s.elapsed)
    ensures Total(w, Readmit(s)) <= Total(w, s)
    decreases |s.readySuspended|
  {
    if !(s.waiting != [] || s.readySuspended == [] || s.SysFull()) {
      SumOne(w, Ready, s.cpu.ready, s.readySuspended[0].Stamp(s.elapsed).(readmitted := true));
      FlowReadmit(w, ReadmitOne(s));
    }
  }

  lemma {:induction false} SumRelaxed(w: Weight, v: Weight, at: Place, q: seq<Process>)
    requires Relaxes(w, v)
    ensures Sum(v, at, q) <= Sum(w, at, q)
  {
    if q != [] {
      assert v(at, q[0]) <= w(at, q[0]);
      SumRelaxed(w, v, at, q[1..]);
    }
  }

  lemma TotalRelaxed(w: Weight, v: Weight, s: State)
    requires Relaxes(w, v)
    ensures Total(v, s) <= Total(w, s)
  {
    SumRelaxed(w, v, Incoming, s.incoming);
    SumRelaxed(w, v, Waiting, s.waiting);
    SumRelaxed(w, v, Ready, s.cpu.ready);
    SumRelaxed(w, v, Running, s.cpu.running);
    SumRelaxed(w, v, Blocked, s.blocked);
    SumRelaxed(w, v, BlockedSuspended, s.blockedSuspended);
    SumRelaxed(w, v, ReadySuspended, s.readySuspended);
    SumRelaxed(w, v, Done, s.terminated);
  }

  lemma FlowRunning(w: Weight, v: Weight, s: State, run: int)
    requires RunRule(w, v, s.elapsed, run) && Relaxes(w, v)
    ensures Total(v, CheckRunning(s)) <= Total(w, s) - if s.cpu.running != [] then run else 0
  {
    if s.cpu.running == [] {
      TotalRelaxed(w, v, s);
    } else {
      var rest := s.WithCpu(s.cpu.ready, s.cpu.running[1..]);
      TotalRelaxed(w, v, rest);
      var p := s.cpu.running[0];
      assert Total(w, s) == Total(w, rest) + w(Running, p);
      LeaveAdds(v, s);
      var q := p.RunTick();
      assert q.remaining >= 1 ==> v(Ready, q) == w(Ready, q);
      assert v(Blocked, q) == w(Blocked, q) && v(BlockedSuspended, q) == w(BlockedSuspended, q);
      assert v(Done, q.Finish(s.elapsed)) == w(Done, q.Finish(s.elapsed));
    }
  }

  /** Where the process that was running goes, in terms of the sum. */
  lemma LeaveAdds(v: Weight, s: State)
    requires s.cpu.running != []
    ensures var rest := s.WithCpu(s.cpu.ready, s.cpu.running[1..]);
            var q := s.cpu.running[0].RunTick();
            var more := Total(v, CheckRunning(s)) - Total(v, rest);
            if q.remaining >= 1 then more == v(Running, q) || more == v(Ready, q)
            else if q.block > 0 then more == v(Blocked, q) || more == v(BlockedSuspended, q)
            else more == v(Done, q.Finish(s.elapsed))
  {
    var q := s.cpu.running[0].RunTick();
    if q.remaining < 1 {
      TurnLeaves(s);
      GoesAdds(v, Without(s), CheckRunning(s), q);
    } else {
      TurnStays(s);
      SumOne(v, Ready, s.cpu.ready, q);
      assert s.cpu.running[0 := q][1..] == s.cpu.running[1..];
    }
  }

  lemma GoesAdds(w: Weight, t: State, v: State, q: Process)
    requires GoesTo(t, v, q)
    ensures var more := Total(w, v) - Total(w, t);
            if q.block > 0 then more == w(Blocked, q) || more == w(BlockedSuspended, q) else more == w(Done, q.Finish(t.elapsed))
  {
    SumOne(w, Blocked, t.blocked, q);
    SumOne(w, BlockedSuspended, t.blockedSuspended, q);
    SumOne(w, Done, t.terminated, q.Finish(t.elapsed));
  }

  lemma FlowDispatch(w: Weight, t: State, u: State)
    requires DispatchRule(w) && Dispatch(t, u)
    ensures Total(w, u) <= Total(w, t)
  {
    if t.cpu.running == [] && t.cpu.ready != [] {
      var k :| MovesOne(t.cpu, u.cpu, k, t.elapsed);
      SumSame(w, RemoveAt(t.cpu.ready, k), u.cpu.ready);
      SumRemove(w, Ready, t.cpu.ready, k);
      assert u.cpu.running[1..] == [];
    }
  }

  lemma FlowAfter(w: Weight, u: State)
    requires TouchRule(w) && FramesOK(u)
    ensures Total(w, AfterDispatch(u)) <= Total(w, u)
  {
    if u.cpu.running != [] {
      var p := u.cpu.running[0];
      assert u.cpu.running[0 := p.GetPage().0][1..] == u.cpu.running[1..];
      assert w(Running, p.GetPage().0) <= w(Running, p);
    }
  }

  // ---------------------------------------------------------------- a whole tick

  /** A tick from s through the dispatch result u. */
  ghost predicate Via(s: State, u: State, s': State) {
    FramesOK(s) && FramesOK(u) && Dispatch(BeforeDispatch(s), u) && s' == AfterDispatch(u)
  }

  /** Admission changes the waiting and ready queues and the pages, nothing else. */
  ghost predicate SameButAdmitted(s: State, t: State) {
    t == s.(waiting := t.waiting, cpu := s.cpu.(ready := t.cpu.ready), store := t.store, exited := t.exited,
            misjudged := t.misjudged)
  }

  lemma AdmitOneFrame(s: State)
    requires FramesOK(s) && s.waiting != []
    ensures var t := AdmitOne(s);
            && SameButAdmitted(s, t) && t.waiting == s.waiting[1..]
            && t.cpu.ready == s.cpu.ready + [s.waiting[0].Stamp(s.elapsed)]
  {
  }

  lemma {:induction false} AdmitFrame(s: State)
    requires FramesOK(s)
    ensures var t := Admit(s);
            && SameButAdmitted(s, t)
            && |t.waiting| + |t.cpu.ready| == |s.waiting| + |s.cpu.ready|
            && |t.waiting| <= |s.waiting|
            && (t.waiting == [] || t.SysFull())
    decreases |s.waiting|
  {
    if !(s.SysFull() || s.waiting == []) {
      AdmitOneFrame(s);
      AdmitFrame(AdmitOne(s));
    }
  }

  /** The queues before CheckRunningProcess. */
  function Queued(s: State): State
    requires FramesOK(s)
  {
    Admit(Arrive(s))
  }

  lemma FlowTick(w: Weight, s: State, u: State, s': State, run: int, strict: bool)
    requires Via(s, u, s') && Rules(w, s.elapsed, run, strict)
    ensures Total(w, s') <= Total(w, s) - (if s.cpu.running != [] then run else 0)
                            - if strict then |s.incoming| - |Queued(s).incoming| + Freed(Queued(s)) else 0
  {
    FlowTickBetween(w, w, s, u, s', run, strict);
  }

  /** The general form: w judges the state before the processor's turn, v the state after it. */
  lemma FlowTickBetween(w: Weight, v: Weight, s: State, u: State, s': State, run: int, strict: bool)
    requires Via(s, u, s') && RulesBetween(w, v, s.elapsed, run, strict)
    ensures Total(v, s') <= Total(w, s) - (if s.cpu.running != [] then run else 0)
                            - if strict then |s.incoming| - |Queued(s).incoming| + Freed(Queued(s)) else 0
  {
    FlowQueues(w, s, strict);
    var d := Readmit(CheckBlocked(Queued(s)));
    AdmitFrame(Arrive(s));
    ReadmitFrame(CheckBlocked(Queued(s)));
    FlowRunning(w, v, d, run);
    FlowDispatch(v, CheckRunning(d), u);
    FlowAfter(v, u);
  }

  lemma FlowTickKeeps(w: Weight, v: Weight, s: State, u: State, s': State)
    requires Via(s, u, s') && RulesBetween(w, v, s.elapsed, 0, false)
    ensures Total(v, s') <= Total(w, s)
  {
    FlowTickBetween(w, v, s, u, s', 0, false);
  }

  lemma FlowQueues(w: Weight, s: State, strict: bool)
    requires FramesOK(s) && QueueRules(w, s.elapsed, strict)
    ensures Total(w, Readmit(CheckBlocked(Queued(s))))
         <= Total(w, s) - if strict then |s.incoming| - |Queued(s).incoming| + Freed(Queued(s)) else 0
  {
    FlowArrive(w, s, strict);
    FlowAdmit(w, Arrive(s));
    AdmitFrame(Arrive(s));
    FlowBlocked(w, Queued(s), strict);
    FlowReadmit(w, CheckBlocked(Queued(s)));
  }
}
