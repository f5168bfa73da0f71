/** Producers and consumers around a circular buffer (kernal/Thread/pro_con.c), as steps of threads. */
module BoundedBuffer {
  import opened Modular

  // Any number of threads of either role share one mutex and two condition variables.  Waiting
  // and signalling follow pthread_cond_wait and pthread_cond_signal of POSIX.1-2017, System
  // Interfaces: a wait releases the mutex and parks in one step, a signal wakes at least one
  // parked thread if there is any, and a parked thread may wake for no reason.

  datatype Role = Producer | Consumer

  /** Where a thread is in its loop: before the lock, at the test of its while, between the
      transfer and the signal, before the unlock, parked on its condition variable, or woken
      and in need of the mutex. */
  datatype Pc = Outside | Testing | Signalling | Unlocking | Parked | Woken

  datatype Thread = Thread(role: Role, pc: Pc)

  datatype Owner = Free | Held(holder: nat)

  /** The shared variables. */
  datatype Shared = Shared(buffer: seq<int>, inp: nat, out: nat, count: int)

  /** `produced` and `consumed` are the history of the transfers. */
  datatype State = State(shared: Shared, owner: Owner, threads: seq<Thread>, produced: seq<int>, consumed: seq<int>)

  datatype Action =
    | Lock(t: nat) | Park(t: nat) | Put(t: nat, item: int) | Take(t: nat)
    | Signal(t: nat, woken: set<nat>) | Unlock(t: nat) | Spurious(t: nat)
  {
    predicate IsTransfer() {
      Put? || Take?
    }
  }

  // ---------------------------------------------------------------- the steps

  function PutShared(s: Shared, item: int): Shared
    requires s.inp < |s.buffer|
  {
    Shared(s.buffer[s.inp := item], Mod(s.inp + 1, |s.buffer|), s.out, s.count + 1)
  }

  function TakeShared(s: Shared): Shared
    requires |s.buffer| > 0
  {
    Shared(s.buffer, s.inp, Mod(s.out + 1, |s.buffer|), s.count - 1)
  }

  /** The test of the while: a producer waits on a full buffer, a consumer on an empty one. */
  predicate MustWait(s: Shared, role: Role) {
    match role
    case Producer => s.count == |s.buffer|
    case Consumer => s.count == 0
  }

  function Other(role: Role): Role {
    if role == Producer then Consumer else Producer
  }

  /** The threads of one role at one point. */
  function At(s: State, role: Role, pc: Pc): set<nat> {
    set t: nat | t < |s.threads| && s.threads[t] == Thread(role, pc)
  }

  function Goes(s: State, t: nat, pc: Pc): State
    requires t < |s.threads|
  {
    s.(threads := s.threads[t := s.threads[t].(pc := pc)])
  }

  function Wake(threads: seq<Thread>, woken: set<nat>): (r: seq<Thread>)
    ensures |r| == |threads|
    ensures forall t :: 0 <= t < |r| ==> r[t] == if t in woken then threads[t].(pc := Woken) else threads[t]
  {
    seq(|threads|, t requires 0 <= t < |threads| => if t in woken then threads[t].(pc := Woken) else threads[t])
  }

  predicate Enabled(s: State, a: Action) {
    && a.t < |s.threads|
    && var me := s.threads[a.t];
       match a
       case Lock(t) => (me.pc == Outside || me.pc == Woken) && s.owner == Free
       case Park(t) => me.pc == Testing && MustWait(s.shared, me.role)
       case Put(t, item) => me == Thread(Producer, Testing) && !MustWait(s.shared, Producer) && s.shared.inp < |s.shared.buffer|
       case Take(t) => me == Thread(Consumer, Testing) && !MustWait(s.shared, Consumer) && s.shared.out < |s.shared.buffer|
       case Signal(t, woken) =>
         && me.pc == Signalling && woken <= At(s, Other(me.role), Parked)
         && (At(s, Other(me.role), Parked) != {} ==> woken != {})
       case Unlock(t) => me.pc == Unlocking
       case Spurious(t) => me.pc == Parked
  }

  function Do(s: State, a: Action): State
    requires Enabled(s, a)
  {
    match a
    case Lock(t) => Goes(s, t, Testing).(owner := Held(t))
    case Park(t) => Goes(s, t, Parked).(owner := Free)
    case Put(t, item) => Goes(s, t, Signalling).(shared := PutShared(s.shared, item), produced := s.produced + [item])
    case Take(t) =>
      Goes(s, t, Signalling).(shared := TakeShared(s.shared), consumed := s.consumed + [s.shared.buffer[s.shared.out]])
    case Signal(t, woken) =>
      var u := Goes(s, t, Unlocking);
      u.(threads := Wake(u.threads, woken))
    case Unlock(t) => Goes(s, t, Outside).(owner := Free)
    case Spurious(t) => Goes(s, t, Woken)
  }

  /** All threads before their first lock, the counters zero. */
  predicate Init(s: State) {
    && |s.shared.buffer| >= 1 && s.shared.inp == 0 && s.shared.out == 0 && s.shared.count == 0
    && s.owner == Free && s.produced == [] && s.consumed == []
    && forall t :: 0 <= t < |s.threads| ==> s.threads[t].pc == Outside
  }

  // ---------------------------------------------------------------- invariants

  /** Exactly the owner of the mutex is inside. */
  predicate Exclusion(s: State) {
    && (s.owner.Held? ==> s.owner.holder < |s.threads|)
    && forall t :: 0 <= t < |s.threads| ==> (Inside(s.threads[t].pc) <==> s.owner == Held(t))
  }

  predicate Inside(pc: Pc) {
    pc == Testing || pc == Signalling || pc == Unlocking
  }

  /** The buffer holds what was produced and not yet consumed, in order. */
  predicate Fifo(s: State) {
    var n := |s.shared.buffer|;
    && n >= 1
    && s.consumed <= s.produced
    && s.shared.count == |s.produced| - |s.consumed| <= n
    && s.shared.inp == Mod(|s.produced|, n) && s.shared.out == Mod(|s.consumed|, n)
    && forall j :: |s.consumed| <= j < |s.produced| ==> s.shared.buffer[Mod(j, n)] == s.produced[j]
  }

  /** What a thread of this role is waiting for. */
  function Supply(s: State, role: Role): int {
    match role
    case Producer => |s.shared.buffer| - s.shared.count
    case Consumer => s.shared.count
  }

  /** Whoever is parked is not forgotten: the supply is spoken for by threads of the role that
      are awake, or its arrival is about to be signalled. */
  predicate NoLostWakeUp(s: State, role: Role) {
    At(s, role, Parked) != {} ==>
      Supply(s, role) <= |At(s, role, Woken)| + |At(s, role, Testing)| + |At(s, Other(role), Signalling)|
  }

  predicate Inv(s: State) {
    Exclusion(s) && Fifo(s) && NoLostWakeUp(s, Producer) && NoLostWakeUp(s, Consumer)
  }

  // ---------------------------------------------------------------- preservation

  lemma FifoPut(s: State, a: Action)
    requires Fifo(s) && a.Put? && Enabled(s, a)
    ensures Fifo(Do(s, a))
  {
    var n, u := |s.shared.buffer|, Do(s, a);
    ModStep(|s.produced|, n);
    forall j | |u.consumed| <= j < |u.produced|
      ensures u.shared.buffer[Mod(j, n)] == u.produced[j]
    {
      if j < |s.produced| {
        ModDistinct(j, |s.produced|, n);
      }
    }
  }

  lemma FifoTake(s: State, a: Action)
    requires Fifo(s) && a.Take? && Enabled(s, a)
    ensures Fifo(Do(s, a))
    ensures Do(s, a).consumed == s.produced[..|s.consumed| + 1]
  {
    ModStep(|s.consumed|, |s.shared.buffer|);
    assert s.produced[..|s.consumed| + 1] == s.produced[..|s.consumed|] + [s.produced[|s.consumed|]];
  }

  lemma FifoStep(s: State, a: Action)
    requires Fifo(s) && Enabled(s, a)
    ensures Fifo(Do(s, a))
  {
    match a
    case Put(_, _) => FifoPut(s, a);
    case Take(_) => FifoTake(s, a);
    case _ =>
  }

  /** How a group changes when one thread moves. */
  function Moved(group: set<nat>, same: bool, t: nat, joins: bool): set<nat> {
    if !same then group else if joins then group + {t} else group - {t}
  }

  lemma GroupsMove(s: State, t: nat, pc: Pc, role: Role, at: Pc)
    requires t < |s.threads| && s.threads[t].pc != pc
    ensures At(Goes(s, t, pc), role, at) == Moved(At(s, role, at), s.threads[t].role == role, t, at == pc)
  {
  }

  lemma GroupSizeMove(s: State, t: nat, pc: Pc, role: Role, at: Pc)
    requires t < |s.threads| && s.threads[t].pc != pc
    ensures |At(Goes(s, t, pc), role, at)| == |At(s, role, at)| + Joined(s.threads[t], pc, role, at)
  {
    GroupsMove(s, t, pc, role, at);
    assert t in At(s, role, at) <==> s.threads[t] == Thread(role, at);
  }

  function Joined(me: Thread, pc: Pc, role: Role, at: Pc): int {
    if me.role != role then 0 else if at == pc then 1 else if at == me.pc then -1 else 0
  }

  /** A simple move of thread t and the change of supply it comes with. */
  lemma WakeUpsMove(s: State, u: State, t: nat, pc: Pc, role: Role)
    requires t < |s.threads| && s.threads[t].pc != pc && u.threads == Goes(s, t, pc).threads
    requires NoLostWakeUp(s, role)
    requires pc == Parked ==> s.threads[t].pc == Testing && (s.threads[t].role == role ==> Supply(s, role) <= 0)
    requires Supply(u, role) - Supply(s, role) <= Gain(role, s.threads[t], pc)
    ensures NoLostWakeUp(u, role)
  {
    GroupsMove(s, t, pc, role, Parked);
    GroupSizeMove(s, t, pc, role, Woken);
    GroupSizeMove(s, t, pc, role, Testing);
    GroupSizeMove(s, t, pc, Other(role), Signalling);
  }

  /** How the threads that speak for a supply change in number when one thread moves. */
  function Gain(role: Role, me: Thread, pc: Pc): int {
    if me.role == role then
      (if pc == Woken || pc == Testing then 1 else 0) - (if me.pc == Woken || me.pc == Testing then 1 else 0)
      + if me.pc == Testing && pc == Parked then 1 else 0
    else (if pc == Signalling then 1 else 0) - (if me.pc == Signalling then 1 else 0)
  }

  /** What a signal does to a group of threads: those of the other role are woken. */
  lemma SignalGroup(s: State, t: nat, woken: set<nat>, role: Role, at: Pc)
    requires Enabled(s, Signal(t, woken)) && at != Unlocking
    ensures At(Do(s, Signal(t, woken)), role, at)
            == if role == s.threads[t].role then At(s, role, at) - (if at == Signalling then {t} else {})
               else if at == Woken then At(s, role, at) + woken
               else if at == Parked then At(s, role, at) - woken
               else At(s, role, at)
  {
    GroupsMove(s, t, Unlocking, Other(s.threads[t].role), Parked);
    GroupsMove(s, t, Unlocking, role, at);
  }

  lemma WakeUpsSignal(s: State, a: Action, role: Role)
    requires Exclusion(s) && NoLostWakeUp(s, role) && a.Signal? && Enabled(s, a)
    ensures NoLostWakeUp(Do(s, a), role)
  {
    SignalGroup(s, a.t, a.woken, role, Parked);
    SignalGroup(s, a.t, a.woken, role, Woken);
    SignalGroup(s, a.t, a.woken, role, Testing);
    SignalGroup(s, a.t, a.woken, Other(role), Signalling);
    if role != s.threads[a.t].role {
      assert |At(s, role, Woken) + a.woken| == |At(s, role, Woken)| + |a.woken|;
      assert a.woken != {} ==> |a.woken| >= 1;
      assert a.t in At(s, Other(role), Signalling);
    }
  }

  lemma WakeUpsStep(s: State, a: Action, role: Role)
    requires Inv(s) && Enabled(s, a)
    ensures NoLostWakeUp(Do(s, a), role)
  {
    match a
    case Lock(t) => WakeUpsMove(s, Do(s, a), t, Testing, role);
    case Park(t) => WakeUpsMove(s, Do(s, a), t, Parked, role);
    case Put(t, _) => WakeUpsMove(s, Do(s, a), t, Signalling, role);
    case Take(t) => WakeUpsMove(s, Do(s, a), t, Signalling, role);
    case Signal(t, woken) => WakeUpsSignal(s, a, role);
    case Unlock(t) => WakeUpsMove(s, Do(s, a), t, Outside, role);
    case Spurious(t) => WakeUpsMove(s, Do(s, a), t, Woken, role);
  }

  /** Every step keeps the invariant. */
  lemma InvStep(s: State, a: Action)
    requires Inv(s) && Enabled(s, a)
    ensures Inv(Do(s, a))
  {
    FifoStep(s, a);
    WakeUpsStep(s, a, Producer);
    WakeUpsStep(s, a, Consumer);
  }

  lemma InvInit(s: State)
    requires Init(s)
    ensures Inv(s)
  {
    assert At(s, Producer, Parked) == {} && At(s, Consumer, Parked) == {};
  }

  // ---------------------------------------------------------------- runs

  /** Some interleaving: actions as[i] lead from r[i] to r[i + 1]. */
  ghost predicate Run(r: seq<State>, acts: seq<Action>) {
    && |r| == |acts| + 1
    && forall i :: 0 <= i < |acts| ==> StepAt(r, acts, i)
  }

  ghost predicate StepAt(r: seq<State>, acts: seq<Action>, i: int)
    requires 0 <= i < |acts| && |r| == |acts| + 1
  {
    Enabled(r[i], acts[i]) && r[i + 1] == Do(r[i], acts[i])
  }

  lemma {:induction false} InvRun(r: seq<State>, acts: seq<Action>, i: nat)
    requires Run(r, acts) && Inv(r[0]) && i < |r|
    ensures Inv(r[i])
  {
    if i > 0 {
      InvRun(r, acts, i - 1);
      assert StepAt(r, acts, i - 1);
      InvStep(r[i - 1], acts[i - 1]);
    }
  }

  /** In every interleaving the consumed items are a prefix of the produced ones; the rest is
      the circular window from out to in; and the counters are what they should be. */
  lemma BufferIsFifo(r: seq<State>, acts: seq<Action>, i: nat)
    requires Run(r, acts) && Init(r[0]) && i < |r|
    ensures var s := r[i]; var n := |s.shared.buffer|;
            && n >= 1 && s.consumed <= s.produced
            && 0 <= s.shared.count == |s.produced| - |s.consumed| <= n
            && s.shared.inp == Mod(|s.produced|, n) && s.shared.out == Mod(|s.consumed|, n)
            && forall k: nat :: k < s.shared.count ==> s.shared.buffer[Slot(s.shared, k)] == s.produced[|s.consumed| + k]
  {
    InvInit(r[0]);
    InvRun(r, acts, i);
    var s := r[i];
    forall k: nat | k < s.shared.count
      ensures s.shared.buffer[Slot(s.shared, k)] == s.produced[|s.consumed| + k]
    {
      ModAdd(|s.consumed|, k, |s.shared.buffer|);
    }
  }

  /** The k-th slot of the circular window that starts at out. */
  function Slot(s: Shared, k: nat): nat
    requires |s.buffer| >= 1
  {
    Mod(s.out + k, |s.buffer|)
  }

  // ---------------------------------------------------------------- no deadlock

  predicate HasRole(s: State, role: Role) {
    exists t :: 0 <= t < |s.threads| && s.threads[t].role == role
  }

  predicate AllParked(s: State) {
    forall t :: 0 <= t < |s.threads| ==> s.threads[t].pc == Parked
  }

  /** With the mutex free, a supply never exceeds the woken threads while somebody is parked
      for it. */
  lemma FreeSupply(s: State, role: Role)
    requires Inv(s) && s.owner == Free && At(s, role, Parked) != {}
    ensures Supply(s, role) <= |At(s, role, Woken)|
  {
    assert At(s, role, Testing) == {} by {
      assert forall t :: 0 <= t < |s.threads| ==> !Inside(s.threads[t].pc);
    }
    assert At(s, Other(role), Signalling) == {} by {
      assert forall t :: 0 <= t < |s.threads| ==> !Inside(s.threads[t].pc);
    }
  }

  /** Producers and consumers together are never all parked. */
  lemma NeverAllParked(s: State)
    requires Inv(s) && HasRole(s, Producer) && HasRole(s, Consumer)
    ensures !AllParked(s)
  {
    if AllParked(s) {
      NoSupply(s, Producer);
      NoSupply(s, Consumer);
    }
  }

  lemma NoSupply(s: State, role: Role)
    requires Inv(s) && AllParked(s) && HasRole(s, role)
    ensures Supply(s, role) <= 0
  {
    assert s.owner == Free;
    var t :| 0 <= t < |s.threads| && s.threads[t].role == role;
    assert t in At(s, role, Parked);
    FreeSupply(s, role);
    assert At(s, role, Woken) == {};
  }

  lemma {:induction false} RolesRun(r: seq<State>, acts: seq<Action>, i: nat, role: Role)
    requires Run(r, acts) && i < |r| && HasRole(r[0], role)
    ensures HasRole(r[i], role)
  {
    if i > 0 {
      RolesRun(r, acts, i - 1, role);
      assert StepAt(r, acts, i - 1);
      var t :| 0 <= t < |r[i - 1].threads| && r[i - 1].threads[t].role == role;
      assert r[i].threads[t].role == role;
    }
  }

  /** In every interleaving, spurious wake-ups included, of at least one producer and one
      consumer: never all parked, and always some thread that can move by itself. */
  lemma NoDeadlock(r: seq<State>, acts: seq<Action>, i: nat)
    requires Run(r, acts) && Init(r[0]) && i < |r| && HasRole(r[0], Producer) && HasRole(r[0], Consumer)
    ensures !AllParked(r[i])
    ensures exists a :: Enabled(r[i], a) && !a.Spurious?
    ensures NoLostWakeUp(r[i], Producer) && NoLostWakeUp(r[i], Consumer)
  {
    InvInit(r[0]);
    InvRun(r, acts, i);
    RolesRun(r, acts, i, Producer);
    RolesRun(r, acts, i, Consumer);
    NeverAllParked(r[i]);
    SomeStepEnabled(r[i]);
  }

  /** So some thread can always move without a spurious wake-up. */
  lemma SomeStepEnabled(s: State)
    requires Inv(s) && HasRole(s, Producer) && HasRole(s, Consumer)
    ensures exists a :: Enabled(s, a) && !a.Spurious?
  {
    NeverAllParked(s);
    if s.owner.Held? {
      var t := s.owner.holder;
      var me := s.threads[t];
      assert Inside(me.pc);
      var a :=
        if me.pc == Unlocking then Unlock(t)
        else if me.pc == Signalling then Signal(t, At(s, Other(me.role), Parked))
        else if MustWait(s.shared, me.role) then Park(t)
        else if me.role == Producer then Put(t, 0)
        else Take(t);
      assert Enabled(s, a);
    } else {
      var t :| 0 <= t < |s.threads| && s.threads[t].pc != Parked;
      assert !Inside(s.threads[t].pc);
      assert Enabled(s, Lock(t));
    }
  }

  // ---------------------------------------------------------------- progress

  function Rank(threads: nat, pc: Pc): nat {
    match pc
    case Parked => 0
    case Testing => 1
    case Woken => 2
    case Outside => 2
    case Unlocking => 3
    case Signalling => 4 + 2 * threads
  }

  /** How much can still happen without a transfer. */
  function Ranks(n: nat, threads: seq<Thread>): nat {
    if threads == [] then 0 else Rank(n, threads[0].pc) + Ranks(n, threads[1..])
  }

  lemma {:induction false} RanksMove(n: nat, threads: seq<Thread>, t: nat, pc: Pc)
    requires t < |threads|
    ensures Ranks(n, threads[t := threads[t].(pc := pc)]) == Ranks(n, threads) - Rank(n, threads[t].pc) + Rank(n, pc)
  {
    var moved := threads[t := threads[t].(pc := pc)];
    if t == 0 {
      assert moved[1..] == threads[1..];
    } else {
      assert moved[1..] == threads[1..][t - 1 := threads[1..][t - 1].(pc := pc)];
      RanksMove(n, threads[1..], t - 1, pc);
    }
  }

  function Shift(woken: set<nat>): (r: set<nat>)
    ensures forall t: nat :: t in r <==> t + 1 in woken
  {
    set t | t in woken && t > 0 :: t - 1
  }

  /** Waking adds at most two per thread. */
  lemma {:induction false} RanksWake(n: nat, threads: seq<Thread>, woken: set<nat>)
    requires forall t :: t in woken ==> t < |threads| && threads[t].pc == Parked
    ensures Ranks(n, Wake(threads, woken)) <= Ranks(n, threads) + 2 * |threads|
  {
    if threads != [] {
      var rest := Shift(woken);
      RanksWake(n, threads[1..], rest);
      assert Wake(threads, woken)[1..] == Wake(threads[1..], rest);
    }
  }

  /** Every step that is neither a transfer nor spurious lowers the rank. */
  lemma RankDrops(s: State, a: Action)
    requires Exclusion(s) && Enabled(s, a) && !a.IsTransfer()
    ensures var n := |s.threads|;
            Ranks(n, Do(s, a).threads) <= Ranks(n, s.threads) + if a.Spurious? then 2 else -1
  {
    var n := |s.threads|;
    match a
    case Lock(t) => RanksMove(n, s.threads, t, Testing);
    case Park(t) => RanksMove(n, s.threads, t, Parked);
    case Signal(t, woken) =>
      RanksMove(n, s.threads, t, Unlocking);
      var v := Goes(s, t, Unlocking);
      RanksWake(n, v.threads, woken);
    case Unlock(t) => RanksMove(n, s.threads, t, Outside);
    case Spurious(t) => RanksMove(n, s.threads, t, Woken);
    case _ =>
  }

  function SpuriousCount(acts: seq<Action>): nat {
    if acts == [] then 0 else (if acts[0].Spurious? then 1 else 0) + SpuriousCount(acts[1..])
  }

  /** A stretch of a run without a transfer is no longer than the rank it starts from, plus
      three steps per spurious wake-up: in between, an item must change hands. */
  lemma {:induction false} TransferWithin(r: seq<State>, acts: seq<Action>)
    requires Run(r, acts) && Inv(r[0])
    requires forall i :: 0 <= i < |acts| ==> !acts[i].IsTransfer()
    ensures |acts| + Ranks(|r[0].threads|, r[|r| - 1].threads) <= Ranks(|r[0].threads|, r[0].threads) + 3 * SpuriousCount(acts)
    decreases |acts|
  {
    if acts != [] {
      assert StepAt(r, acts, 0);
      RankDrops(r[0], acts[0]);
      InvStep(r[0], acts[0]);
      forall i | 0 <= i < |acts[1..]|
        ensures StepAt(r[1..], acts[1..], i)
      {
        assert StepAt(r, acts, i + 1);
      }
      TransferWithin(r[1..], acts[1..]);
    }
  }

  lemma {:induction false} RankBound(s: State, n: nat, threads: seq<Thread>)
    requires forall i, j :: 0 <= i < j < |threads| ==> !(Inside(threads[i].pc) && Inside(threads[j].pc))
    ensures Ranks(n, threads) <= 2 * |threads| + 4 + 2 * n
    ensures (forall i :: 0 <= i < |threads| ==> !Inside(threads[i].pc)) ==> Ranks(n, threads) <= 2 * |threads|
  {
    if threads != [] {
      var rest := threads[1..];
      assert forall i :: 0 <= i < |rest| ==> rest[i] == threads[i + 1];
      RankBound(s, n, rest);
      if Inside(threads[0].pc) {
        assert forall i :: 0 <= i < |rest| ==> !Inside(rest[i].pc);
      }
    }
  }

  /** From any state of any interleaving with n threads: among any 4n + 5 consecutive steps
      without a spurious wake-up there is a transfer. */
  lemma ItemsKeepMoving(r: seq<State>, acts: seq<Action>)
    requires Run(r, acts) && Inv(r[0]) && SpuriousCount(acts) == 0 && |acts| > 4 * |r[0].threads| + 4
    ensures exists i :: 0 <= i < |acts| && acts[i].IsTransfer()
  {
    if forall i :: 0 <= i < |acts| ==> !acts[i].IsTransfer() {
      TransferWithin(r, acts);
      var s := r[0];
      forall i, j | 0 <= i < j < |s.threads|
        ensures !(Inside(s.threads[i].pc) && Inside(s.threads[j].pc))
      {
        assert Inside(s.threads[i].pc) ==> s.owner == Held(i);
      }
      RankBound(s, |s.threads|, s.threads);
    }
  }

  // ---------------------------------------------------------------- the critical sections, in place

  class CircularBuffer {
    const buffer: array<int>
    var inp: nat
    var out: nat
    var count: int

    constructor (size: nat)
      requires size >= 1
      ensures Contents().inp == 0 && Contents().out == 0 && Contents().count == 0
      ensures |Contents().buffer| == size && fresh(buffer)
    {
      buffer := new int[size];
      inp, out, count := 0, 0, 0;
    }

    ghost function Contents(): Shared
      reads this, buffer
    {
      Shared(buffer[..], inp, out, count)
    }

    /** The producer's critical section after its test. */
    method Produce(item: int)
      requires inp < buffer.Length
      modifies this, buffer
      ensures Contents() == PutShared(old(Contents()), item)
    {
      buffer[inp] := item;
      ModIsRemainder(inp + 1, buffer.Length);
      inp := (inp + 1) % buffer.Length;
      count := count + 1;
    }

    /** The consumer's critical section after its test. */
    method Consume() returns (item: int)
      requires out < buffer.Length
      modifies this
      ensures item == old(buffer[out]) && Contents() == TakeShared(old(Contents()))
    {
      item := buffer[out];
      ModIsRemainder(out + 1, buffer.Length);
      out := (out + 1) % buffer.Length;
      count := count - 1;
    }
  }
}
