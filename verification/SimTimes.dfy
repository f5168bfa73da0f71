/** The times of a process: when it was admitted, what it waited, and what the statistics make of it. */
module SimTimes {
  import opened Processes
  import opened PageReplacement
  import opened SimState
  import opened SimFlow
  import opened SimInvariants
  import opened SimTermination
  import opened SimAccounting
  import opened SimPaging

  // ---------------------------------------------------------------- admission, in order and stamped

  function Least(a: int, b: int): int {
    if a < b then a else b
  }

  /** How many can be admitted, and how many re-admitted while nobody waits. */
  function Room(s: State): int {
    Least(|s.waiting|, s.Capacity() - s.Level())
  }

  function RoomAgain(s: State): int {
    if s.waiting != [] then 0 else Least(|s.readySuspended|, s.Capacity() - s.Level())
  }

  lemma OneAdmitted(s: State)
    requires FramesOK(s) && s.Level() <= s.Capacity() && Room(s) > 0
    ensures var o := AdmitOne(s);
            && Admit(s) == Admit(o) && FramesOK(o) && o.Level() <= o.Capacity() && Room(o) == Room(s) - 1
            && o.waiting == s.waiting[1..] && o.elapsed == s.elapsed
            && o.cpu.ready == s.cpu.ready + [s.waiting[0].(submission := s.elapsed)]
  {
    FullMeansEqual(s.max, s.Level());
    AdmitOneFrame(s);
    AdmitsFirst(s);
    OneFewer(s, AdmitOne(s));
  }

  lemma AdmitsFirst(s: State)
    requires FramesOK(s) && s.waiting != [] && !s.SysFull()
    ensures FramesOK(AdmitOne(s)) && Admit(s) == Admit(AdmitOne(s))
  {
    ReplaceConservesPages(s.alg, s.frames, s.store, FirstPage(s.waiting[0].Stamp(s.elapsed)), s.elapsed);
  }

  lemma OneFewer(s: State, o: State)
    requires s.Level() <= s.Capacity() && Room(s) > 0
    requires SameButAdmitted(s, o) && o.waiting == s.waiting[1..] && |o.cpu.ready| == |s.cpu.ready| + 1
    ensures o.Level() <= o.Capacity() && Room(o) == Room(s) - 1 && o.elapsed == s.elapsed
  {
  }

  lemma {:induction false} AdmitsHowMany(s: State)
    requires FramesOK(s) && s.Level() <= s.Capacity()
    ensures var t := Admit(s);
            t.waiting == s.waiting[Room(s)..] && |t.cpu.ready| == |s.cpu.ready| + Room(s) && s.cpu.ready <= t.cpu.ready
    decreases |s.waiting|
  {
    FullMeansEqual(s.max, s.Level());
    if !(s.SysFull() || s.waiting == []) {
      OneAdmitted(s);
      AdmitsHowMany(AdmitOne(s));
    }
  }

  lemma {:induction false} AdmitsWhom(s: State, i: nat)
    requires FramesOK(s) && s.Level() <= s.Capacity() && i < Room(s)
    ensures |s.cpu.ready| + i < |Admit(s).cpu.ready|
    ensures Admit(s).cpu.ready[|s.cpu.ready| + i] == s.waiting[i].(submission := s.elapsed)
    decreases i
  {
    OneAdmitted(s);
    var o := AdmitOne(s);
    AdmitsHowMany(o);
    if i > 0 {
      AdmitsWhom(o, i - 1);
    } else {
      assert Admit(s).cpu.ready[|s.cpu.ready|] == o.cpu.ready[|s.cpu.ready|];
    }
  }

  /** As many as there is room for leave the head of the waiting queue for the end of the ready
      queue, in order, each with the present as its submission time and nothing else changed. */
  lemma AdmitsInOrder(s: State)
    requires FramesOK(s) && s.Level() <= s.Capacity()
    ensures var t := Admit(s); var n := Room(s);
            && t.waiting == s.waiting[n..] && |t.cpu.ready| == |s.cpu.ready| + n && s.cpu.ready <= t.cpu.ready
            && forall i :: 0 <= i < n ==> t.cpu.ready[|s.cpu.ready| + i] == s.waiting[i].(submission := s.elapsed)
  {
    AdmitsHowMany(s);
    forall i | 0 <= i < Room(s)
      ensures Admit(s).cpu.ready[|s.cpu.ready| + i] == s.waiting[i].(submission := s.elapsed)
    {
      AdmitsWhom(s, i);
    }
  }

  lemma {:induction false} ReadmitsHowMany(s: State)
    requires s.Level() <= s.Capacity()
    ensures var t := Readmit(s);
            && t.readySuspended == s.readySuspended[RoomAgain(s)..]
            && |t.cpu.ready| == |s.cpu.ready| + RoomAgain(s) && s.cpu.ready <= t.cpu.ready
    decreases |s.readySuspended|
  {
    FullMeansEqual(s.max, s.Level());
    if !(s.waiting != [] || s.readySuspended == [] || s.SysFull()) {
      ReadmitsHowMany(ReadmitOne(s));
    }
  }

  lemma {:induction false} ReadmitsWhom(s: State, i: nat)
    requires s.Level() <= s.Capacity() && i < RoomAgain(s)
    ensures |s.cpu.ready| + i < |Readmit(s).cpu.ready|
    ensures Readmit(s).cpu.ready[|s.cpu.ready| + i] == s.readySuspended[i].(submission := s.elapsed, readmitted := true)
    decreases i
  {
    FullMeansEqual(s.max, s.Level());
    var o := ReadmitOne(s);
    ReadmitsHowMany(o);
    if i > 0 {
      ReadmitsWhom(o, i - 1);
    } else {
      assert Readmit(s).cpu.ready[|s.cpu.ready|] == o.cpu.ready[|s.cpu.ready|];
    }
  }

  /** The same for the suspended, while nobody waits. */
  lemma ReadmitsInOrder(s: State)
    requires s.Level() <= s.Capacity()
    ensures var t := Readmit(s); var n := RoomAgain(s);
            && t.readySuspended == s.readySuspended[n..] && |t.cpu.ready| == |s.cpu.ready| + n && s.cpu.ready <= t.cpu.ready
            && forall i :: 0 <= i < n ==>
                 t.cpu.ready[|s.cpu.ready| + i] == s.readySuspended[i].(submission := s.elapsed, readmitted := true)
  {
    ReadmitsHowMany(s);
    forall i | 0 <= i < RoomAgain(s)
      ensures Readmit(s).cpu.ready[|s.cpu.ready| + i] == s.readySuspended[i].(submission := s.elapsed, readmitted := true)
    {
      ReadmitsWhom(s, i);
    }
  }

  // ---------------------------------------------------------------- sums that vanish

  ghost predicate Measures(w: Weight) {
    forall at: Place, p: Process {:trigger w(at, p)} :: w(at, p) >= 0
  }

  lemma {:induction false} ZeroSum(w: Weight, at: Place, q: seq<Process>)
    requires Measures(w)
    ensures Sum(w, at, q) >= 0
    ensures Sum(w, at, q) == 0 <==> forall p :: p in q ==> w(at, p) == 0
  {
    if q != [] {
      ZeroSum(w, at, q[1..]);
      assert w(at, q[0]) >= 0 && forall p :: p in q <==> p == q[0] || p in q[1..];
    }
  }

  /** Everybody weighs nothing. */
  ghost predicate Weightless(w: Weight, s: State) {
    forall at: Place, p: Process {:trigger w(at, p)} :: p in Queue(s, at) ==> w(at, p) == 0
  }

  lemma ZeroTotal(w: Weight, s: State)
    requires Measures(w)
    ensures Total(w, s) >= 0 && (Total(w, s) == 0 <==> Weightless(w, s))
  {
    AllWeightless(w, s);
    ZeroSum(w, Incoming, s.incoming);
    ZeroSum(w, Waiting, s.waiting);
    ZeroSum(w, Ready, s.cpu.ready);
    ZeroSum(w, Running, s.cpu.running);
    ZeroSum(w, Blocked, s.blocked);
    ZeroSum(w, BlockedSuspended, s.blockedSuspended);
    ZeroSum(w, ReadySuspended, s.readySuspended);
    ZeroSum(w, Done, s.terminated);
  }

  lemma AllWeightless(w: Weight, s: State)
    ensures Weightless(w, s) <==>
      && (forall p :: p in s.incoming ==> w(Incoming, p) == 0) && (forall p :: p in s.waiting ==> w(Waiting, p) == 0)
      && (forall p :: p in s.cpu.ready ==> w(Ready, p) == 0) && (forall p :: p in s.cpu.running ==> w(Running, p) == 0)
      && (forall p :: p in s.blocked ==> w(Blocked, p) == 0)
      && (forall p :: p in s.blockedSuspended ==> w(BlockedSuspended, p) == 0)
      && (forall p :: p in s.readySuspended ==> w(ReadySuspended, p) == 0)
      && (forall p :: p in s.terminated ==> w(Done, p) == 0)
  {
    if Weightless(w, s) {
      assert forall p :: p in Queue(s, Incoming) ==> w(Incoming, p) == 0;
      assert forall p :: p in Queue(s, Waiting) ==> w(Waiting, p) == 0;
      assert forall p :: p in Queue(s, Ready) ==> w(Ready, p) == 0;
      assert forall p :: p in Queue(s, Running) ==> w(Running, p) == 0;
      assert forall p :: p in Queue(s, Blocked) ==> w(Blocked, p) == 0;
      assert forall p :: p in Queue(s, BlockedSuspended) ==> w(BlockedSuspended, p) == 0;
      assert forall p :: p in Queue(s, ReadySuspended) ==> w(ReadySuspended, p) == 0;
      assert forall p :: p in Queue(s, Done) ==> w(Done, p) == 0;
    }
  }

  /** A weight that the moves before the processor's turn do not raise stays nought. */
  lemma WeightlessAtTurn(w: Weight, s: State)
    requires FramesOK(s) && Measures(w) && QueueRules(w, s.elapsed, false) && Weightless(w, s)
    ensures Weightless(w, Readmit(CheckBlocked(Queued(s))))
  {
    ZeroTotal(w, s);
    FlowQueues(w, s, false);
    ZeroTotal(w, Readmit(CheckBlocked(Queued(s))));
  }

  // ---------------------------------------------------------------- when a process last entered the ready queue

  /** Still to be admitted, or suspended. */
  ghost predicate Outside(s: State, x: nat) {
    exists p :: (p in s.incoming || p in s.waiting || p in s.blockedSuspended || p in s.readySuspended) && p.pid == x
  }

  /** The tick in which x was last admitted or re-admitted; 0 if it was ready from the start. */
  ghost function LastEntry(r: seq<State>, i: nat, x: nat): int
    requires i < |r|
  {
    if i == 0 then 0
    else if Outside(r[i - 1], x) && !Outside(r[i], x) then r[i - 1].elapsed
    else LastEntry(r, i - 1, x)
  }

  /** 1 for a process whose stamp is not `due`, or one outside that `out` does not know. */
  function Misdate(out: nat -> bool, due: nat -> int, at: Place, p: Process): int {
    match at
    case Ready => if p.submission == due(p.pid) then 0 else 1
    case Running => if p.submission == due(p.pid) then 0 else 1
    case Blocked => if p.submission == due(p.pid) then 0 else 1
    case Done => 0
    case _ => if out(p.pid) then 0 else 1
  }

  ghost function Misdated(out: nat -> bool, due: nat -> int): Weight {
    (at: Place, p: Process) => Misdate(out, due, at, p)
  }

  function Everybody(): nat -> bool {
    (x: nat) => true
  }

  lemma MisdatedQueueRules(w: Weight, out: nat -> bool, due: nat -> int, now: int)
    requires w == Misdated(out, due) && forall x: nat :: out(x) ==> due(x) == now
    ensures QueueRules(w, now, false) && Measures(w)
  {
    MisdatedBlockedRules(w, out, due);
    MisdatedStampRules(w, out, due, now);
  }

  lemma MisdatedStampRules(w: Weight, out: nat -> bool, due: nat -> int, now: int)
    requires w == Misdated(out, due) && forall x: nat :: out(x) ==> due(x) == now
    ensures ArriveRule(w, 0) && AdmitRule(w, now) && ReadmitRule(w, now)
  {
  }

  lemma MisdatedBlockedRules(w: Weight, out: nat -> bool, due: nat -> int)
    requires w == Misdated(out, due)
    ensures BlockedRule(w, 0) && SuspendedRule(w, 0)
  {
  }

  lemma MisdatedTurnRules(w: Weight, due: nat -> int, now: int)
    requires w == Misdated(Everybody(), due)
    ensures RunRule(w, w, now, 0) && Relaxes(w, w) && DispatchRule(w) && TouchRule(w) && Measures(w)
  {
  }

  /** Everybody ready, running or blocked carries the stamp that is due. */
  ghost predicate Dated(s: State, due: nat -> int) {
    forall p :: p in s.cpu.ready || p in s.cpu.running || p in s.blocked ==> p.submission == due(p.pid)
  }

  lemma DatedIsWeightless(s: State, out: nat -> bool, due: nat -> int)
    requires forall x: nat :: Outside(s, x) ==> out(x)
    ensures Dated(s, due) <==> Weightless(Misdated(out, due), s)
  {
    var w := Misdated(out, due);
    if Dated(s, due) {
      forall at: Place, p: Process | p in Queue(s, at)
        ensures w(at, p) == 0
      {
      }
    }
    if Weightless(w, s) {
      forall p | p in s.cpu.ready || p in s.cpu.running || p in s.blocked
        ensures p.submission == due(p.pid)
      {
        assert p in Queue(s, Ready) ==> w(Ready, p) == 0;
        assert p in Queue(s, Running) ==> w(Running, p) == 0;
        assert p in Queue(s, Blocked) ==> w(Blocked, p) == 0;
      }
    }
  }

  /** What CheckRunningProcess finds carries the right stamps, if those still outside are due now. */
  lemma DatedAtTurn(s: State, due: nat -> int)
    requires FramesOK(s) && Dated(s, due) && forall x: nat :: Outside(s, x) ==> due(x) == s.elapsed
    ensures Dated(Readmit(CheckBlocked(Queued(s))), due)
  {
    var out := (x: nat) => Outside(s, x);
    var w, d := Misdated(out, due), Readmit(CheckBlocked(Queued(s)));
    MisdatedQueueRules(w, out, due, s.elapsed);
    DatedIsWeightless(s, out, due);
    WeightlessAtTurn(w, s);
    forall p | p in d.cpu.ready || p in d.cpu.running || p in d.blocked
      ensures p.submission == due(p.pid)
    {
      assert p in Queue(d, Ready) ==> w(Ready, p) == 0;
      assert p in Queue(d, Running) ==> w(Running, p) == 0;
      assert p in Queue(d, Blocked) ==> w(Blocked, p) == 0;
    }
  }

  lemma DatedTick(s: State, u: State, s': State, due: nat -> int)
    requires Via(s, u, s') && Dated(s, due) && forall x: nat :: Outside(s, x) ==> due(x) == s.elapsed
    ensures Dated(s', due)
  {
    var w, d := Misdated(Everybody(), due), Readmit(CheckBlocked(Queued(s)));
    DatedAtTurn(s, due);
    MisdatedTurnRules(w, due, s.elapsed);
    DatedIsWeightless(d, Everybody(), due);
    ZeroTotal(w, d);
    QueuesFrame(s);
    FlowRunning(w, w, d, 0);
    FlowDispatch(w, CheckRunning(d), u);
    FlowAfter(w, u);
    ZeroTotal(w, s');
    DatedIsWeightless(s', Everybody(), due);
  }

  /** Whoever terminates in a tick was running, and its times are those since the stamp. */
  ghost predicate EndsTimed(s: State, s': State, due: nat -> int) {
    || s'.terminated == s.terminated
    || (|s'.terminated| == |s.terminated| + 1 && s.terminated <= s'.terminated && s.cpu.running != []
        && var q := s'.terminated[|s.terminated|];
           && q.pid == s.cpu.running[0].pid
           && q.turnaround == s.elapsed - due(q.pid) && q.waiting == q.turnaround - q.total)
  }

  lemma EndsTimedTick(s: State, u: State, s': State, due: nat -> int)
    requires Via(s, u, s') && Dated(s, due) && forall x: nat :: Outside(s, x) ==> due(x) == s.elapsed
    ensures EndsTimed(s, s', due)
  {
    var d := Readmit(CheckBlocked(Queued(s)));
    DatedAtTurn(s, due);
    QueuesFrame(s);
    DispatchFrame(BeforeDispatch(s), u);
    AfterFrame(u);
    TurnTimed(d, due);
  }

  lemma TurnTimed(d: State, due: nat -> int)
    requires Dated(d, due)
    ensures EndsTimed(d, CheckRunning(d), due)
  {
    if d.cpu.running != [] {
      assert d.cpu.running[0] in d.cpu.running;
      if d.cpu.running[0].RunTick().remaining >= 1 {
        TurnStays(d);
      } else {
        TurnLeaves(d);
      }
    }
  }

  // ---------------------------------------------------------------- over whole runs

  lemma StartsDistinct(r: seq<State>, max: int, frames: nat, alg: Algorithm, jobs: seq<Job>)
    requires Simulates(r, max, frames, alg, jobs)
    requires forall i, j :: 0 <= i < j < |jobs| ==> jobs[i].pid != jobs[j].pid
    ensures Distinct(r[0])
  {
    forall x
      ensures Count(x, r[0]) <= 1
    {
      CountOf(r, 0, x, max, frames, alg, jobs);
      CountsOnce(x, jobs);
    }
  }

  lemma {:induction false} DistinctRun(r: seq<State>, i: nat)
    requires Run(r) && Distinct(r[0]) && i < |r|
    ensures Distinct(r[i])
  {
    if i > 0 {
      DistinctRun(r, i - 1);
      DistinctStep(r, i - 1);
    }
  }

  lemma DistinctStep(r: seq<State>, i: nat)
    requires Run(r) && i + 1 < |r| && Distinct(r[i])
    ensures Distinct(r[i + 1])
  {
    RunStep(r, i);
    DistinctTick(r[i], r[i + 1]);
  }

  /** Nobody is inside and outside. */
  lemma NotOutside(s: State, p: Process)
    requires Distinct(s) && (p in s.cpu.ready || p in s.cpu.running || p in s.blocked)
    ensures !Outside(s, p.pid)
  {
    var at := if p in s.cpu.ready then Ready else if p in s.cpu.running then Running else Blocked;
    if q :| (q in s.incoming || q in s.waiting || q in s.blockedSuspended || q in s.readySuspended) && q.pid == p.pid {
      var bt := if q in s.incoming then Incoming else if q in s.waiting then Waiting
                else if q in s.blockedSuspended then BlockedSuspended else ReadySuspended;
      DifferentNames(s, at, p, bt, q);
    }
  }

  /** The stamps that the tick after state i will find or make. */
  ghost function DueIn(r: seq<State>, i: nat): nat -> int
    requires i < |r|
  {
    (x: nat) => if Outside(r[i], x) then r[i].elapsed else LastEntry(r, i, x)
  }

  ghost function EntryOf(r: seq<State>, i: nat): nat -> int
    requires i < |r|
  {
    (x: nat) => LastEntry(r, i, x)
  }

  lemma EntriesStep(r: seq<State>, i: nat)
    requires Run(r) && i + 1 < |r| && Distinct(r[i]) && Distinct(r[i + 1]) && Dated(r[i], EntryOf(r, i))
    ensures Dated(r[i + 1], EntryOf(r, i + 1)) && EndsTimed(r[i], r[i + 1], EntryOf(r, i))
  {
    RunStep(r, i);
    var s, s', due := r[i], r[i + 1], DueIn(r, i);
    forall p | p in s.cpu.ready || p in s.cpu.running || p in s.blocked
      ensures p.submission == due(p.pid) == LastEntry(r, i, p.pid)
    {
      NotOutside(s, p);
      assert p.submission == EntryOf(r, i)(p.pid);
    }
    assert Dated(s, due);
    DatedTick(s, Through(s, s'), s', due);
    EndsTimedTick(s, Through(s, s'), s', due);
    forall p | p in s'.cpu.ready || p in s'.cpu.running || p in s'.blocked
      ensures p.submission == EntryOf(r, i + 1)(p.pid)
    {
      NotOutside(s', p);
    }
    if s.cpu.running != [] {
      NotOutside(s, s.cpu.running[0]);
    }
  }

  lemma {:induction false} EntriesRun(r: seq<State>, i: nat)
    requires Run(r) && Distinct(r[0]) && Dated(r[0], EntryOf(r, 0)) && i < |r|
    ensures Distinct(r[i]) && Dated(r[i], EntryOf(r, i))
  {
    DistinctRun(r, i);
    if i > 0 {
      EntriesRun(r, i - 1);
      EntriesStep(r, i - 1);
    }
  }

  lemma {:induction false} StartAllDated(s: State, jobs: seq<Job>)
    requires (forall p :: p in s.cpu.ready ==> p.submission == 0) && s.cpu.running == [] && s.blocked == []
    ensures var t := StartAll(s, jobs);
            (forall p :: p in t.cpu.ready ==> p.submission == 0) && t.cpu.running == [] && t.blocked == []
    decreases |jobs|
  {
    if jobs != [] {
      StartAllDated(StartProcess(s, jobs[0]), jobs[1..]);
    }
  }

  lemma {:induction false} ClockRuns(r: seq<State>, i: nat)
    requires Run(r) && r[0].elapsed == 0 && i < |r|
    ensures r[i].elapsed == i
  {
    if i > 0 {
      ClockRuns(r, i - 1);
      ClockTicks(r, i - 1);
    }
  }

  lemma ClockTicks(r: seq<State>, i: nat)
    requires Run(r) && i + 1 < |r|
    ensures r[i + 1].elapsed == r[i].elapsed + 1
  {
    RunStep(r, i);
    IncomingAfter(r[i], Through(r[i], r[i + 1]), r[i + 1]);
  }

  /** In every state of every simulation of jobs with distinct names, whoever is ready, running or
      blocked carries as its submission time the tick in which it last entered the ready queue. */
  lemma StampsAreEntries(r: seq<State>, i: nat, max: int, frames: nat, alg: Algorithm, jobs: seq<Job>)
    requires Simulates(r, max, frames, alg, jobs) && i < |r|
    requires forall j, k :: 0 <= j < k < |jobs| ==> jobs[j].pid != jobs[k].pid
    ensures Distinct(r[i])
    ensures forall p :: p in r[i].cpu.ready || p in r[i].cpu.running || p in r[i].blocked ==> p.submission == LastEntry(r, i, p.pid)
  {
    StartsDistinct(r, max, frames, alg, jobs);
    StartAllDated(Initial(max, frames, alg), jobs);
    assert Dated(r[0], EntryOf(r, 0));
    EntriesRun(r, i);
    assert forall x :: EntryOf(r, i)(x) == LastEntry(r, i, x);
  }

  /** And whoever terminates in tick i was running, with the ticks since that entry as its turnaround
      time and those less its execution time as its waiting time. */
  lemma TurnaroundIsSinceEntry(r: seq<State>, i: nat, max: int, frames: nat, alg: Algorithm, jobs: seq<Job>)
    requires Simulates(r, max, frames, alg, jobs) && i + 1 < |r|
    requires forall j, k :: 0 <= j < k < |jobs| ==> jobs[j].pid != jobs[k].pid
    ensures r[i].terminated <= r[i + 1].terminated && |r[i + 1].terminated| <= |r[i].terminated| + 1
    ensures |r[i + 1].terminated| == |r[i].terminated| + 1 ==>
              var q := r[i + 1].terminated[|r[i].terminated|];
              && r[i].cpu.running != [] && q.pid == r[i].cpu.running[0].pid
              && q.turnaround == i - LastEntry(r, i, q.pid) && q.waiting == q.turnaround - q.total
  {
    StartsDistinct(r, max, frames, alg, jobs);
    StartsSound(r, max, frames, alg, jobs);
    StartAllDated(Initial(max, frames, alg), jobs);
    assert Dated(r[0], EntryOf(r, 0));
    EntriesRun(r, i);
    DistinctRun(r, i + 1);
    EntriesStep(r, i);
    ClockRuns(r, i);
  }
}
