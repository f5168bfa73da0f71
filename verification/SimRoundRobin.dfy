/** Round robin: how long a turn lasts, and how long a ready process can be kept from one. */
module SimRoundRobin {
  import opened Processes
  import opened PageReplacement
  import opened SchedulingPolicies
  import opened SimState
  import opened SimFlow
  import opened SimInvariants
  import opened SimAccounting

  ghost predicate RunRR(r: seq<State>) {
    r != [] && forall i :: 0 <= i < |r| - 1 ==> NextRR(r, i)
  }

  ghost predicate NextRR(r: seq<State>, i: int)
    requires 0 <= i < |r| - 1
  {
    TickRR(r[i], r[i + 1])
  }

  /** The end of a tick: a turn has one or no whole tick of its quantum left, and the processor
      idles only if nobody is ready. */
  ghost predicate Settled(s: State) {
    && Sound(s)
    && (s.cpu.running != [] ==> 0 <= s.cpu.quantum <= 1)
    && (s.cpu.running == [] ==> s.cpu.ready == [])
  }

  /** The start of a simulation, or any settled state. */
  ghost predicate Startable(s: State) {
    Sound(s) && (s.cpu.running != [] ==> 0 <= s.cpu.quantum <= 1)
  }

  ghost function ThroughRR(s: State, s': State): (u: State)
    requires TickRR(s, s')
    ensures FramesOK(s) && FramesOK(u) && DispatchRR(BeforeDispatch(s), u) && s' == AfterDispatch(u)
  {
    var u :| FramesOK(u) && DispatchRR(BeforeDispatch(s), u) && s' == AfterDispatch(u);
    u
  }

  lemma RRDispatches(t: State, u: State)
    requires DispatchRR(t, u)
    ensures Dispatch(t, u)
  {
    if t.cpu.running == [] {
      if t.cpu.ready == [] {
        assert WorkConserving(t.cpu, u.cpu, false, t.elapsed);
        assert u == t.(cpu := u.cpu, idle := !false);
      } else {
        MovedMovesOne(t.cpu, 0, 2, t.elapsed);
        assert WorkConserving(t.cpu, u.cpu, true, t.elapsed);
        assert u == t.(cpu := u.cpu, idle := !true);
      }
    }
  }

  lemma TickRRIsTick(s: State, s': State)
    requires TickRR(s, s')
    ensures Tick(s, s') && Via(s, ThroughRR(s, s'), s')
  {
    RRDispatches(BeforeDispatch(s), ThroughRR(s, s'));
  }

  // ---------------------------------------------------------------- the ready queue keeps its order

  lemma {:induction false} AdmitAppends(s: State)
    requires FramesOK(s)
    ensures s.cpu.ready <= Admit(s).cpu.ready
    decreases |s.waiting|
  {
    if !(s.SysFull() || s.waiting == []) {
      AdmitOneFrame(s);
      AdmitAppends(AdmitOne(s));
    }
  }

  lemma {:induction false} ReadmitAppends(s: State)
    ensures s.cpu.ready <= Readmit(s).cpu.ready
    decreases |s.readySuspended|
  {
    if !(s.waiting != [] || s.readySuspended == [] || s.SysFull()) {
      ReadmitAppends(ReadmitOne(s));
    }
  }

  lemma ReadyAppends(s: State)
    requires Sound(s)
    ensures s.cpu.ready <= ReadyAtTurn(s)
  {
    AdmitAppends(Arrive(s));
    CheckBlockedLevel(Queued(s));
    ReadmitAppends(CheckBlocked(Queued(s)));
  }

  /** Before the policy is asked, the ready queue has only grown at its end, and the running
      process has stayed only if it has time and quantum left. */
  lemma BeforeAppends(s: State)
    requires Sound(s)
    ensures var t := BeforeDispatch(s);
            && s.cpu.ready <= t.cpu.ready && t.cpu.quantum == s.cpu.quantum && t.elapsed == s.elapsed
            && t.cpu.running ==
                 if s.cpu.running != [] && s.cpu.running[0].remaining >= 2 && s.cpu.quantum >= 1 then [s.cpu.running[0].RunTick()] else []
  {
    ReadyAppends(s);
    CpuBefore(s);
    BeforeDispatchFrame(s);
  }

  /** The same turn: who it is and what is left to run, whatever was done to its page list. */
  predicate SameTurn(p: Process, q: Process) {
    q.pid == p.pid && q.remaining == p.remaining && q.total == p.total && q.block == p.block && q.submission == p.submission
  }

  lemma AfterTurn(u: State)
    requires FramesOK(u)
    ensures var v := AfterDispatch(u);
            && |v.cpu.running| == |u.cpu.running|
            && (u.cpu.running != [] ==> SameTurn(u.cpu.running[0], v.cpu.running[0]))
            && v.cpu.ready == u.cpu.ready && v.cpu.quantum == u.cpu.quantum - 1
  {
  }

  /** One tick, in full: whether a turn goes on or the head of the queue gets one. */
  lemma TickTurns(s: State, s': State)
    requires TickRR(s, s') && Startable(s)
    ensures Settled(s')
    ensures var t := BeforeDispatch(s);
            if t.cpu.running != [] then
              && s'.cpu.ready == t.cpu.ready && s'.cpu.quantum == s.cpu.quantum - 1 == 0
              && |s'.cpu.running| == 1 && SameTurn(t.cpu.running[0], s'.cpu.running[0])
            else if t.cpu.ready != [] then
              && s'.cpu.ready == t.cpu.ready[1..] && s'.cpu.quantum == 1
              && |s'.cpu.running| == 1 && SameTurn(t.cpu.ready[0], s'.cpu.running[0])
            else s'.cpu.running == [] && s'.cpu.ready == []
  {
    var u := ThroughRR(s, s');
    TickRRIsTick(s, s');
    BeforeAppends(s);
    AfterTurn(u);
    SoundTick(s, u, s');
  }

  // ---------------------------------------------------------------- bounded wait

  /** x was given the processor in the tick that ended in s. */
  predicate HasTurn(s: State, x: Process) {
    s.cpu.running != [] && SameTurn(x, s.cpu.running[0]) && s.cpu.quantum == 1
  }

  /** An upper bound on the ticks until position p of the ready queue is served. */
  function Distance(s: State, p: nat): int {
    2 * p + s.cpu.quantum + 1
  }

  /** A tick serves position p, or leaves the process at a position k that is nearer. */
  lemma OneTickCloser(s: State, s': State, p: nat) returns (k: nat)
    requires TickRR(s, s') && Settled(s) && p < |s.cpu.ready|
    ensures Settled(s')
    ensures HasTurn(s', s.cpu.ready[p])
         || (k < |s'.cpu.ready| && s'.cpu.ready[k] == s.cpu.ready[p] && Distance(s', k) < Distance(s, p))
  {
    var t := BeforeDispatch(s);
    BeforeAppends(s);
    assert p < |t.cpu.ready| && t.cpu.ready[p] == s.cpu.ready[p];
    TickTurns(s, s');
    k := if t.cpu.running != [] || p == 0 then p else p - 1;
  }

  lemma {:induction false} ServedWithin(r: seq<State>, i: nat, p: nat, n: nat)
    requires RunRR(r) && i < |r| && Settled(r[i]) && p < |r[i].cpu.ready|
    requires Distance(r[i], p) <= n && i + n < |r|
    ensures exists k :: i < k <= i + n && HasTurn(r[k], r[i].cpu.ready[p])
    decreases n
  {
    assert NextRR(r, i);
    var k := OneTickCloser(r[i], r[i + 1], p);
    if !HasTurn(r[i + 1], r[i].cpu.ready[p]) {
      ServedWithin(r, i + 1, k, n - 1);
    }
  }

  /** Whatever arrives or unblocks meanwhile, the process at position p of the ready queue at
      the end of a tick is given the processor within 2 * (p + 1) ticks. */
  lemma BoundedWait(r: seq<State>, i: nat, p: nat)
    requires RunRR(r) && i < |r| && Settled(r[i]) && p < |r[i].cpu.ready| && i + 2 * (p + 1) < |r|
    ensures exists k :: i < k <= i + 2 * (p + 1) && HasTurn(r[k], r[i].cpu.ready[p])
  {
    ServedWithin(r, i, p, 2 * (p + 1));
  }

  /** Every state after the first tick of a simulation is settled. */
  lemma {:induction false} SettledAfterFirstTick(r: seq<State>, i: nat)
    requires RunRR(r) && Startable(r[0]) && 0 < i < |r|
    ensures Settled(r[i])
  {
    if i > 1 {
      SettledAfterFirstTick(r, i - 1);
    }
    assert NextRR(r, i - 1);
    TickTurns(r[i - 1], r[i]);
  }

  /** A simulation under round robin. */
  ghost predicate SimulatesRR(r: seq<State>, max: int, frames: nat, alg: Algorithm, jobs: seq<Job>) {
    frames >= 1 && RunRR(r) && r[0] == StartAll(Initial(max, frames, alg), jobs)
  }

  lemma SimulationsAreStartable(r: seq<State>, max: int, frames: nat, alg: Algorithm, jobs: seq<Job>)
    requires SimulatesRR(r, max, frames, alg, jobs)
    ensures Startable(r[0])
  {
    StartAllSound(Initial(max, frames, alg), jobs);
  }

  /** So in every simulation under round robin, after any tick, position p of the ready queue is
      served within 2 * (p + 1) ticks. */
  lemma BoundedWaitInSimulations(r: seq<State>, i: nat, p: nat, max: int, frames: nat, alg: Algorithm, jobs: seq<Job>)
    requires SimulatesRR(r, max, frames, alg, jobs) && 0 < i && i + 2 * (p + 1) < |r| && p < |r[i].cpu.ready|
    ensures exists k :: i < k <= i + 2 * (p + 1) && HasTurn(r[k], r[i].cpu.ready[p])
  {
    SimulationsAreStartable(r, max, frames, alg, jobs);
    SettledAfterFirstTick(r, i);
    BoundedWait(r, i, p);
  }

  // ---------------------------------------------------------------- the length of a turn

  /** The turn is over: nobody runs when the policy is asked, and if time is left the process
      is last in line. */
  ghost predicate TurnEnds(s: State, x: Process)
    requires FramesOK(s)
  {
    var t := BeforeDispatch(s);
    t.cpu.running == [] && (x.remaining >= 2 ==> t.cpu.ready != [] && SameTurn(x.RunTick(), t.cpu.ready[|t.cpu.ready| - 1]))
  }

  lemma LastInLine(s: State, x: Process)
    requires Sound(s) && s.cpu.running != [] && SameTurn(x, s.cpu.running[0])
    requires x.remaining < 2 || s.cpu.quantum < 1
    ensures TurnEnds(s, x)
  {
    CpuBefore(s);
    SameTurnTicks(x, s.cpu.running[0]);
  }

  lemma SameTurnTicks(x: Process, p: Process)
    requires SameTurn(x, p)
    ensures SameTurn(x.RunTick(), p.RunTick())
    ensures x.remaining >= 2 <==> p.RunTick().remaining >= 1
  {
  }

  /** A turn lasts two ticks if there is that much left to run, and one tick otherwise (a
      process back from its block has nothing left and still takes one). */
  lemma TurnLength(r: seq<State>, i: nat, x: Process)
    requires RunRR(r) && i + 1 < |r| && Settled(r[i]) && HasTurn(r[i], x)
    ensures Settled(r[i + 1])
    ensures x.remaining < 2 ==> TurnEnds(r[i], x)
    ensures x.remaining >= 2 ==> r[i + 1].cpu.running != [] && SameTurn(x.RunTick(), r[i + 1].cpu.running[0])
    ensures x.remaining >= 2 ==> r[i + 1].cpu.quantum == 0 && TurnEnds(r[i + 1], x.RunTick())
  {
    assert NextRR(r, i);
    TurnGoesOn(r[i], r[i + 1], x);
    if x.remaining < 2 {
      LastInLine(r[i], x);
    } else {
      LastInLine(r[i + 1], x.RunTick());
    }
  }

  lemma TurnGoesOn(s: State, s': State, x: Process)
    requires TickRR(s, s') && Settled(s) && HasTurn(s, x)
    ensures Settled(s')
    ensures x.remaining >= 2 ==> s'.cpu.running != [] && SameTurn(x.RunTick(), s'.cpu.running[0]) && s'.cpu.quantum == 0
  {
    TickTurns(s, s');
    if x.remaining >= 2 {
      StillRunning(s, x);
    }
  }

  lemma StillRunning(s: State, x: Process)
    requires Settled(s) && HasTurn(s, x) && x.remaining >= 2
    ensures var t := BeforeDispatch(s); t.cpu.running != [] && SameTurn(x.RunTick(), t.cpu.running[0])
  {
    BeforeAppends(s);
    SameTurnTicks(x, s.cpu.running[0]);
  }
}
