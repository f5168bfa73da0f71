/** When the simulation ends: every run empties every queue or wedges, and what rules wedging out. */
module SimTermination {
  import opened Seqs
  import opened Processes
  import opened SimState
  import opened SimFlow
  import opened SimInvariants

  /** Blocked processes fill the system while others wait: nothing can be admitted, and the
      blocked may not leave because the waiting queue is not empty. */
  predicate Wedged(s: State) {
    && s.cpu.running == [] && s.cpu.ready == [] && s.waiting != []
    && |s.blocked| == s.Capacity()
  }

  // ---------------------------------------------------------------- the measure

  function Max(a: int, b: int): int {
    if a < b then b else a
  }

  /** The ticks a process will still spend on the processor, in a queue where a positive
      block time is still to come. */
  function Work(p: Process): int {
    Max(p.remaining, 1) + if p.block > 0 then 1 else 0
  }

  function Live(p: Process): int {
    3 * Work(p) + Max(p.block, 0)
  }

  /** What a process still stands for: every tick takes something from it, except from one
      that waits, is ready, or is held back in the blocked queue. */
  function Pend(now: int, at: Place, p: Process): int {
    match at
    case Incoming => 1 + Max(p.submission - now, 0) + Live(p)
    case Blocked => Held(p)
    case BlockedSuspended => Held(p)
    case Done => 0
    case _ => Live(p)
  }

  function Held(p: Process): int {
    3 * Max(p.remaining, 1) + Max(p.block, 0) + 1
  }

  ghost function Pending(now: int): Weight {
    (at: Place, p: Process) => Pend(now, at, p)
  }

  ghost function Measure(s: State): int {
    Total(Pending(s.elapsed), s) + if s.idle then 1 else 0
  }

  lemma HeldMoves(p: Process)
    ensures var q := p.DecrementBlockTime();
            && Held(q) <= Held(p)
            && (if q.block > 0 then Held(q) <= Held(p) - 1 else Live(q) <= Held(p) - 1)
  {
  }

  lemma RunMoves(p: Process)
    ensures var q := p.RunTick();
            if q.remaining >= 1 then Live(q) <= Live(p) - 2
            else if q.block > 0 then Held(q) <= Live(p) - 2
            else 0 <= Live(p) - 2
  {
  }

  lemma PendingRunRule(now: int)
    ensures RunRule(Pending(now), Pending(now), now, 2)
  {
    forall p: Process { RunMoves(p); }
  }

  lemma PendingBlockedRule(now: int)
    ensures BlockedRule(Pending(now), 1) && SuspendedRule(Pending(now), 1)
  {
    PendingHeldRule(Pending(now), now);
    PendingSuspendedRule(Pending(now), now);
  }

  lemma PendingHeldRule(w: Weight, now: int)
    requires w == Pending(now)
    ensures BlockedRule(w, 1)
  {
    forall p: Process { HeldMoves(p); }
  }

  lemma PendingSuspendedRule(w: Weight, now: int)
    requires w == Pending(now)
    ensures SuspendedRule(w, 1)
  {
    forall p: Process { HeldMoves(p); }
  }

  lemma PendingQueueRules(now: int)
    ensures ArriveRule(Pending(now), 1) && AdmitRule(Pending(now), now) && ReadmitRule(Pending(now), now)
    ensures DispatchRule(Pending(now)) && TouchRule(Pending(now))
  {
  }

  lemma PendingRules(now: int)
    ensures Rules(Pending(now), now, 2, true)
  {
    PendingRunRule(now);
    PendingBlockedRule(now);
    PendingQueueRules(now);
  }

  lemma {:induction false} SumPendingAtLeast(now: int, at: Place, q: seq<Process>)
    ensures Sum(Pending(now), at, q) >= if at == Done then 0 else 2 * |q|
  {
    if q != [] {
      SumPendingAtLeast(now, at, q[1..]);
    }
  }

  lemma MeasureAtLeast(s: State)
    ensures Measure(s) >= 2 * (|s.incoming| + |s.waiting| + s.Level() + |s.blockedSuspended| + |s.readySuspended|)
                        + if s.idle then 1 else 0
  {
    var now := s.elapsed;
    SumPendingAtLeast(now, Incoming, s.incoming);
    SumPendingAtLeast(now, Waiting, s.waiting);
    SumPendingAtLeast(now, Ready, s.cpu.ready);
    SumPendingAtLeast(now, Running, s.cpu.running);
    SumPendingAtLeast(now, Blocked, s.blocked);
    SumPendingAtLeast(now, BlockedSuspended, s.blockedSuspended);
    SumPendingAtLeast(now, ReadySuspended, s.readySuspended);
    SumPendingAtLeast(now, Done, s.terminated);
  }

  lemma {:induction false} SumLaterElsewhere(now: int, at: Place, q: seq<Process>)
    requires at != Incoming
    ensures Sum(Pending(now + 1), at, q) == Sum(Pending(now), at, q)
  {
    if q != [] {
      SumLaterElsewhere(now, at, q[1..]);
    }
  }

  lemma {:induction false} SumLaterIncoming(now: int, q: seq<Process>)
    requires forall p :: p in q ==> p.submission > now
    ensures Sum(Pending(now + 1), Incoming, q) == Sum(Pending(now), Incoming, q) - |q|
  {
    if q != [] {
      assert q[0] in q && forall p :: p in q[1..] ==> p in q;
      SumLaterIncoming(now, q[1..]);
    }
  }

  /** The clock's own contribution: everybody still to arrive is one tick closer. */
  lemma TotalLater(now: int, s: State)
    requires forall p :: p in s.incoming ==> p.submission > now
    ensures Total(Pending(now + 1), s) == Total(Pending(now), s) - |s.incoming|
  {
    SumLaterIncoming(now, s.incoming);
    SumLaterElsewhere(now, Waiting, s.waiting);
    SumLaterElsewhere(now, Ready, s.cpu.ready);
    SumLaterElsewhere(now, Running, s.cpu.running);
    SumLaterElsewhere(now, Blocked, s.blocked);
    SumLaterElsewhere(now, BlockedSuspended, s.blockedSuspended);
    SumLaterElsewhere(now, ReadySuspended, s.readySuspended);
    SumLaterElsewhere(now, Done, s.terminated);
  }

  // ---------------------------------------------------------------- progress

  /** A tick that leaves the processor idle found nothing ready. */
  lemma IdleMeansNothingReady(s: State, u: State)
    requires FramesOK(s) && Dispatch(BeforeDispatch(s), u) && u.idle && s.cpu.running == []
    ensures Readmit(CheckBlocked(Queued(s))).cpu.ready == []
  {
    QueuesFrame(s);
  }

  /** If nothing became ready on an idle, unwedged system where nobody arrives and no blocked
      process advances, every queue is empty. */
  lemma StuckMeansFinished(s: State)
    requires Sound(s) && s.cpu.running == [] && s.incoming == [] && Freed(Queued(s)) == 0
    requires Readmit(CheckBlocked(Queued(s))).cpu.ready == []
    requires !Wedged(s)
    ensures s.Finished()
  {
    var b := Queued(s);
    AdmitFrame(Arrive(s));
    ReadyOnlyGrows(CheckBlocked(b));
    CheckBlockedLevel(b);
    NobodyWaits(s);
    assert s.blocked == [] && s.blockedSuspended == [];
    var c := CheckBlocked(b);
    assert c.readySuspended == s.readySuspended + [] == s.readySuspended;
    if s.Capacity() != 0 {
      NobodySuspended(c);
    }
  }

  lemma NobodyWaits(s: State)
    requires Sound(s) && s.cpu.running == [] && s.incoming == [] && !Wedged(s) && Queued(s).cpu.ready == []
    ensures s.waiting == [] && s.cpu.ready == [] && Queued(s).waiting == []
  {
    assert Arrive(s).waiting == s.waiting + [] == s.waiting;
    AdmitFrame(Arrive(s));
    FullMeansEqual(s.max, Queued(s).Level());
  }

  /** An empty system with a place to give re-admits. */
  lemma NobodySuspended(c: State)
    requires c.Level() == 0 && c.waiting == [] && c.Capacity() != 0 && Readmit(c).cpu.ready == []
    ensures c.readySuspended == []
  {
    FullMeansEqual(c.max, 0);
    if c.readySuspended != [] {
      ReadyOnlyGrows(ReadmitOne(c));
    }
  }

  lemma {:induction false} ReadyOnlyGrows(s: State)
    ensures |s.cpu.ready| <= |Readmit(s).cpu.ready|
    decreases |s.readySuspended|
  {
    if !(s.waiting != [] || s.readySuspended == [] || s.SysFull()) {
      ReadyOnlyGrows(ReadmitOne(s));
    }
  }

  lemma StillIncoming(s: State)
    ensures forall p :: p in Arrive(s).incoming ==> p.submission > s.elapsed
  {
    KeptMembers(DueBy(s.elapsed), s.incoming);
  }

  /** What a tick does to the measure, whatever state it starts from. */
  lemma MeasureMoves(s: State, u: State, s': State)
    requires Via(s, u, s') && Sound(s)
    ensures Measure(s') <= Measure(s) - (if s.cpu.running != [] then 2 else 0) - |s.incoming| - Freed(Queued(s))
                           - (if s.idle then 1 else 0) + (if u.idle then 1 else 0)
  {
    FlowPending(s, u, s');
    MeasureAfter(s, u, s');
  }

  lemma MeasureAfter(s: State, u: State, s': State)
    requires Via(s, u, s')
    ensures Measure(s') == Total(Pending(s.elapsed), s') - |Queued(s).incoming| + if u.idle then 1 else 0
  {
    IncomingAfter(s, u, s');
    var now := s.elapsed;
    TotalLater(now, s');
    assert Pending(s'.elapsed) == Pending(now + 1);
  }

  lemma FlowPending(s: State, u: State, s': State)
    requires Via(s, u, s')
    ensures Total(Pending(s.elapsed), s') <= Total(Pending(s.elapsed), s) - (if s.cpu.running != [] then 2 else 0)
                                             - (|s.incoming| - |Queued(s).incoming| + Freed(Queued(s)))
  {
    PendingRules(s.elapsed);
    FlowTick(Pending(s.elapsed), s, u, s', 2, true);
  }

  lemma IncomingAfter(s: State, u: State, s': State)
    requires Via(s, u, s')
    ensures s'.incoming == Queued(s).incoming && s'.elapsed == s.elapsed + 1 && s'.idle == u.idle
    ensures forall p :: p in s'.incoming ==> p.submission > s.elapsed
  {
    BeforeDispatchFrame(s);
    DispatchFrame(BeforeDispatch(s), u);
    AfterFrame(u);
    StillIncoming(s);
    AdmitFrame(Arrive(s));
  }

  /** Every tick of an unfinished, unwedged simulation brings the end closer. */
  lemma ProgressTick(s: State, s': State)
    requires Tick(s, s') && Sound(s) && !s.Finished() && !Wedged(s)
    ensures Measure(s') < Measure(s) && Sound(s')
  {
    var u := Through(s, s');
    SoundTick(s, u, s');
    MeasureMoves(s, u, s');
    if s.cpu.running == [] && u.idle && s.incoming == [] && Freed(Queued(s)) == 0 {
      IdleMeansNothingReady(s, u);
      StuckMeansFinished(s);
    }
  }

  lemma {:induction false} MeasureAlong(r: seq<State>, i: nat)
    requires Run(r) && Sound(r[0]) && i < |r|
    requires forall j :: 0 <= j < i ==> !Wedged(r[j])
    ensures Measure(r[i]) <= Measure(r[0]) - i && Sound(r[i])
  {
    if i > 0 {
      MeasureAlong(r, i - 1);
      MeasureStep(r, i - 1);
    }
  }

  lemma MeasureStep(r: seq<State>, i: nat)
    requires Run(r) && i + 1 < |r| && Sound(r[i]) && !Wedged(r[i])
    ensures Measure(r[i + 1]) < Measure(r[i]) && Sound(r[i + 1])
  {
    RunStep(r, i);
    ProgressTick(r[i], r[i + 1]);
  }

  /** Every run ends or wedges, within a number of ticks fixed by where it starts. */
  lemma FinishesOrWedges(r: seq<State>)
    requires Run(r) && Sound(r[0]) && |r| >= Measure(r[0])
    ensures exists i :: 0 <= i < |r| && i < Measure(r[0]) && (r[i].Finished() || Wedged(r[i]))
  {
    var n := Measure(r[0]);
    MeasureAtLeast(r[0]);
    if forall i :: 0 <= i < n ==> !Wedged(r[i]) && !r[i].Finished() {
      MeasureAlong(r, n - 1);
      MeasureAtLeast(r[n - 1]);
    }
  }

  // ---------------------------------------------------------------- wedged for good

  lemma WedgedBefore(s: State)
    requires Sound(s) && Wedged(s)
    ensures var t := BeforeDispatch(s);
            && t.cpu.running == [] && t.cpu.ready == [] && t.waiting != [] && |t.blocked| == |s.blocked|
  {
    var a := Arrive(s);
    FullMeansEqual(s.max, a.Level());
    assert Admit(a) == a;
    CheckBlockedLevel(a);
    NothingTaken(OverIf(false), DecrementAll(s.blocked));
    var c := CheckBlocked(a);
    assert Readmit(c) == c;
  }

  /** A wedged system stays wedged, whatever arrives. */
  lemma WedgedForever(s: State, s': State)
    requires Tick(s, s') && Sound(s) && Wedged(s)
    ensures Wedged(s') && Sound(s') && !s'.Finished()
  {
    var u := Through(s, s');
    WedgedBefore(s);
    BeforeDispatchFrame(s);
    DispatchFrame(BeforeDispatch(s), u);
    AfterFrame(u);
    SoundTick(s, u, s');
  }

  lemma {:induction false} WedgedAlong(r: seq<State>, i: nat, j: nat)
    requires Run(r) && i <= j < |r| && Sound(r[i]) && Wedged(r[i])
    ensures Sound(r[j]) && Wedged(r[j])
  {
    if i < j {
      WedgedAlong(r, i, j - 1);
      WedgedStep(r, j - 1);
    }
  }

  lemma WedgedStep(r: seq<State>, i: nat)
    requires Run(r) && i + 1 < |r| && Sound(r[i]) && Wedged(r[i])
    ensures Sound(r[i + 1]) && Wedged(r[i + 1])
  {
    RunStep(r, i);
    WedgedForever(r[i], r[i + 1]);
  }

  lemma WedgedNotFinished(s: State)
    requires Wedged(s)
    ensures !s.Finished()
  {
  }

  lemma FinishedIsLast(r: seq<State>, i: nat)
    requires Run(r) && i < |r| && r[i].Finished()
    ensures i == |r| - 1
  {
    if i < |r| - 1 {
      RunStep(r, i);
    }
  }

  /** A run reaches EmptyQueue if and only if it never wedges, given time. */
  lemma FinishesIffNeverWedges(r: seq<State>)
    requires Run(r) && Sound(r[0]) && (|r| >= Measure(r[0]) || r[|r| - 1].Finished())
    ensures r[|r| - 1].Finished() <==> forall i :: 0 <= i < |r| ==> !Wedged(r[i])
  {
    var last := |r| - 1;
    if r[last].Finished() {
      forall i | 0 <= i < |r|
        ensures !Wedged(r[i])
      {
        if Wedged(r[i]) {
          SoundRun(r, i);
          WedgedAlong(r, i, last);
        }
      }
    } else if forall i :: 0 <= i < |r| ==> !Wedged(r[i]) {
      FinishesOrWedges(r);
      var i :| 0 <= i < |r| && r[i].Finished();
      FinishedIsLast(r, i);
    }
  }

  /** Where a run stands that has had the time. */
  lemma EndsOrWedged(r: seq<State>)
    requires Run(r) && Sound(r[0]) && (|r| >= Measure(r[0]) || r[|r| - 1].Finished())
    ensures r[|r| - 1].Finished() || Wedged(r[|r| - 1])
  {
    FinishesIffNeverWedges(r);
    if i :| 0 <= i < |r| && Wedged(r[i]) {
      SoundRun(r, i);
      WedgedAlong(r, i, |r| - 1);
    }
  }

  // ---------------------------------------------------------------- inputs that cannot wedge

  /** Nobody is still to come, and while somebody waits nobody is blocked. */
  predicate NoArrivals(s: State) {
    s.incoming == [] && (s.waiting != [] ==> s.blocked == [])
  }

  /** With nobody arriving, whoever still waits after admission faces a full system. */
  lemma NoArrivalsQueues(s: State)
    requires Sound(s) && NoArrivals(s)
    ensures var d := Readmit(CheckBlocked(Queued(s)));
            d.incoming == [] && (d.waiting != [] ==> d.blocked == [] && d.SysFull())
  {
    var a, b := Arrive(s), Queued(s);
    AdmitFrame(a);
    assert a.waiting == s.waiting + [] == s.waiting;
    var c := CheckBlocked(b);
    LevelAtEverySubStep(s);
    CheckBlockedLevel(b);
    ReadmitFrame(c);
    if b.waiting != [] {
      FullMeansEqual(s.max, b.Level());
      FullMeansEqual(s.max, c.Level());
      assert Readmit(c) == c;
    }
  }

  lemma NoArrivalsRunning(d: State)
    requires d.incoming == [] && (d.waiting != [] ==> d.blocked == [] && d.SysFull())
    ensures NoArrivals(CheckRunning(d))
  {
  }

  lemma NoArrivalsTick(s: State, s': State)
    requires Tick(s, s') && Sound(s) && NoArrivals(s)
    ensures NoArrivals(s')
  {
    var u := Through(s, s');
    NoArrivalsQueues(s);
    NoArrivalsRunning(Readmit(CheckBlocked(Queued(s))));
    QueuesFrame(s);
    DispatchFrame(BeforeDispatch(s), u);
    AfterFrame(u);
  }

  lemma NoArrivalsNotWedged(s: State)
    requires NoArrivals(s) && s.Capacity() > 0
    ensures !Wedged(s)
  {
  }

  /** All processes, terminated ones included. */
  ghost function Population(s: State): int {
    Total(ByIdentity(One()), s)
  }

  function One(): (nat, int) -> int {
    (pid: nat, total: int) => 1
  }

  lemma {:induction false} SumOnes(at: Place, q: seq<Process>)
    ensures Sum(ByIdentity(One()), at, q) == |q|
  {
    if q != [] {
      SumOnes(at, q[1..]);
    }
  }

  lemma PopulationIs(s: State)
    ensures Population(s) == |s.incoming| + |s.waiting| + s.Level() + |s.blockedSuspended| + |s.readySuspended| + |s.terminated|
  {
    SumOnes(Incoming, s.incoming);
    SumOnes(Waiting, s.waiting);
    SumOnes(Ready, s.cpu.ready);
    SumOnes(Running, s.cpu.running);
    SumOnes(Blocked, s.blocked);
    SumOnes(BlockedSuspended, s.blockedSuspended);
    SumOnes(ReadySuspended, s.readySuspended);
    SumOnes(Done, s.terminated);
  }

  lemma FewNotWedged(s: State)
    requires Population(s) <= s.Capacity()
    ensures !Wedged(s)
  {
    PopulationIs(s);
  }

  /** 1 for a process that is blocked or has a block still to come. */
  function Block(at: Place, p: Process): int {
    match at
    case Blocked => 1
    case Done => 0
    case _ => if p.block > 0 then 1 else 0
  }

  ghost function Blocking(): Weight {
    (at: Place, p: Process) => Block(at, p)
  }

  /** The processes that are blocked or may still block. */
  ghost function Blockers(s: State): int {
    Total(Blocking(), s)
  }

  lemma BlockingRules(now: int)
    ensures Rules(Blocking(), now, 0, false)
  {
    BlockingQueueRules(now);
  }

  lemma BlockingQueueRules(now: int)
    ensures QueueRules(Blocking(), now, false)
  {
    BlockingBlockedRules();
  }

  lemma BlockingBlockedRules()
    ensures BlockedRule(Blocking(), 0) && SuspendedRule(Blocking(), 0)
  {
  }

  /** Once over, a block does not come back. */
  lemma BlockersTick(s: State, u: State, s': State)
    requires Via(s, u, s')
    ensures Blockers(s') <= Blockers(s)
  {
    BlockingRules(s.elapsed);
    FlowTick(Blocking(), s, u, s', 0, false);
  }

  lemma {:induction false} SumBlockers(at: Place, q: seq<Process>)
    ensures Sum(Blocking(), at, q) >= if at == Blocked then |q| else 0
  {
    if q != [] {
      SumBlockers(at, q[1..]);
    }
  }

  lemma BlockersBound(s: State)
    ensures |s.blocked| <= Blockers(s)
  {
    SumBlockers(Incoming, s.incoming);
    SumBlockers(Waiting, s.waiting);
    SumBlockers(Ready, s.cpu.ready);
    SumBlockers(Running, s.cpu.running);
    SumBlockers(Blocked, s.blocked);
    SumBlockers(BlockedSuspended, s.blockedSuspended);
    SumBlockers(ReadySuspended, s.readySuspended);
    SumBlockers(Done, s.terminated);
  }

  /** Nobody still to come and nobody blocked while somebody waits, or no more processes than
      the limit, or fewer that may block. */
  ghost predicate CannotWedge(s: State) {
    s.Capacity() > 0 && (NoArrivals(s) || Population(s) <= s.Capacity() || Blockers(s) < s.Capacity())
  }

  lemma CannotWedgeTick(s: State, s': State)
    requires Tick(s, s') && Sound(s) && CannotWedge(s)
    ensures CannotWedge(s') && !Wedged(s) && !Wedged(s')
  {
    var u := Through(s, s');
    SoundTick(s, u, s');
    if NoArrivals(s) {
      NoArrivalsTick(s, s');
      NoArrivalsNotWedged(s);
      NoArrivalsNotWedged(s');
    } else if Population(s) <= s.Capacity() {
      ProcessesConserved(One(), s, u, s');
      FewNotWedged(s);
      FewNotWedged(s');
    } else {
      BlockersTick(s, u, s');
      BlockersBound(s);
      BlockersBound(s');
    }
  }

  lemma {:induction false} CannotWedgeRun(r: seq<State>, i: nat)
    requires Run(r) && Sound(r[0]) && CannotWedge(r[0]) && i < |r|
    ensures Sound(r[i]) && CannotWedge(r[i]) && !Wedged(r[i])
  {
    if i > 0 {
      CannotWedgeRun(r, i - 1);
      CannotWedgeStep(r, i - 1);
    } else {
      NotWedgedYet(r[0]);
    }
  }

  lemma CannotWedgeStep(r: seq<State>, i: nat)
    requires Run(r) && i + 1 < |r| && Sound(r[i]) && CannotWedge(r[i])
    ensures Sound(r[i + 1]) && CannotWedge(r[i + 1]) && !Wedged(r[i + 1])
  {
    RunStep(r, i);
    SoundTick(r[i], Through(r[i], r[i + 1]), r[i + 1]);
    CannotWedgeTick(r[i], r[i + 1]);
  }

  lemma NotWedgedYet(s: State)
    requires CannotWedge(s)
    ensures !Wedged(s)
  {
    BlockersBound(s);
    PopulationIs(s);
  }

  /** So on such a start the simulation ends: any run that has had the time has emptied its
      queues. */
  lemma CannotWedgeEnds(r: seq<State>)
    requires Run(r) && Sound(r[0]) && CannotWedge(r[0]) && |r| >= Measure(r[0])
    ensures r[|r| - 1].Finished()
  {
    forall i | 0 <= i < |r|
      ensures !Wedged(r[i])
    {
      CannotWedgeRun(r, i);
    }
    FinishesIffNeverWedges(r);
  }
}
