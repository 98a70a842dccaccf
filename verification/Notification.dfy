// A notification as a transition system with any number of threads: an atomic flag that is set once,
// a mutex, and a condition variable.
module NotificationModel {
  import opened Options

  datatype Pc =
    | Idle
    // A wait may have a timeout.
    | WaitStart(timed: bool)  // about to look at the flag without the mutex
    | WaitLock(timed: bool)   // wants the mutex
    | WaitCheck(timed: bool)  // holds the mutex, about to look at the flag
    | Asleep(timed: bool)     // in the condition variable
    | Woken(timed: bool)      // out of it, wants the mutex back
    | Late                    // out of it because the time was over, wants the mutex back
    | GiveUp                  // has it back
    | Returned
    | TimedOut                // returned that it had not been notified in time
    | NotifyLock
    | NotifyStore
    | NotifyWake
    | NotifyUnlock
    | Notified

  datatype State = State(flag: bool, owner: Option<nat>, pcs: seq<Pc>)

  predicate HoldsMutex(pc: Pc) {
    pc.WaitCheck? || pc.GiveUp? || pc.NotifyStore? || pc.NotifyWake? || pc.NotifyUnlock?
  }

  predicate Finished(pc: Pc) {
    pc.Idle? || pc.Returned? || pc.TimedOut? || pc.Notified?
  }

  function At(s: State, i: nat, pc: Pc): State
    requires i < |s.pcs|
  {
    s.(pcs := s.pcs[i := pc])
  }

  function Acquire(s: State, i: nat, pc: Pc): Option<State>
    requires i < |s.pcs|
  {
    if s.owner.None? then Some(At(s.(owner := Some(i)), i, pc)) else None
  }

  function Wake(pcs: seq<Pc>): seq<Pc> {
    seq(|pcs|, i requires 0 <= i < |pcs| => if pcs[i].Asleep? then Woken(pcs[i].timed) else pcs[i])
  }

  // The thread's next step; wake-ups that are spurious or due to a timeout are separate.
  function Step(s: State, i: nat): Option<State>
    requires i < |s.pcs|
  {
    match s.pcs[i]
    case WaitStart(timed) => Some(At(s, i, if s.flag then Returned else WaitLock(timed)))
    case WaitLock(timed) => Acquire(s, i, WaitCheck(timed))
    case WaitCheck(timed) => Some(At(s.(owner := None), i, if s.flag then Returned else Asleep(timed)))
    case Woken(timed) => Acquire(s, i, WaitCheck(timed))
    case Late => Acquire(s, i, GiveUp)
    case GiveUp => Some(At(s.(owner := None), i, TimedOut))
    case NotifyLock => Acquire(s, i, NotifyStore)
    case NotifyStore => Some(At(s.(flag := true), i, NotifyWake))
    case NotifyWake => Some(At(s.(pcs := Wake(s.pcs)), i, NotifyUnlock))
    case NotifyUnlock => Some(At(s.(owner := None), i, Notified))
    case _ => None
  }

  // A spurious wake-up, or the end of the time.
  predicate Wakes(s: State, i: nat, s': State)
    requires i < |s.pcs|
  {
    s.pcs[i].Asleep? && (s' == At(s, i, Woken(s.pcs[i].timed)) || (s.pcs[i].timed && s' == At(s, i, Late)))
  }

  predicate Begins(s: State, i: nat, s': State)
    requires i < |s.pcs|
  {
    Finished(s.pcs[i]) && (s' == At(s, i, WaitStart(false)) || s' == At(s, i, WaitStart(true)) || s' == At(s, i, NotifyLock))
  }

  ghost predicate Next(s: State, s': State) {
    exists i :: 0 <= i < |s.pcs| && (Step(s, i) == Some(s') || Wakes(s, i, s') || Begins(s, i, s'))
  }

  ghost predicate Inv(s: State) {
    && (forall i :: 0 <= i < |s.pcs| ==> (HoldsMutex(s.pcs[i]) <==> s.owner == Some(i)))
    && (s.owner.Some? ==> s.owner.value < |s.pcs|)
    && (forall i :: 0 <= i < |s.pcs| && (s.pcs[i].Returned? || s.pcs[i].Notified? || s.pcs[i].NotifyWake? || s.pcs[i].NotifyUnlock?) ==> s.flag)
    && (s.flag ==> forall i :: 0 <= i < |s.pcs| && s.pcs[i].Asleep? ==> Waking(s))
  }

  // The flag is set, and the one who set it still has to wake the sleepers.
  predicate Waking(s: State) {
    s.owner.Some? && s.owner.value < |s.pcs| && s.pcs[s.owner.value].NotifyWake?
  }

  // One thread moves, taking or releasing the mutex at most.
  lemma {:induction false} MoveKeepsInv(s: State, i: nat, pc: Pc, flag: bool, owner: Option<nat>)
    requires Inv(s) && i < |s.pcs| && (HoldsMutex(pc) <==> owner == Some(i))
    requires owner == s.owner || (s.owner.None? && owner == Some(i)) || (s.owner == Some(i) && owner.None?)
    requires (s.flag ==> flag) && (flag && !s.flag ==> pc.NotifyWake?)
    requires (pc.Returned? || pc.Notified? || pc.NotifyWake? || pc.NotifyUnlock? ==> flag) && (pc.Asleep? ==> !flag)
    requires !s.pcs[i].NotifyWake?
    ensures Inv(State(flag, owner, s.pcs[i := pc]))
  {
    var s' := State(flag, owner, s.pcs[i := pc]);
    assert HoldsMutex(s.pcs[i]) <==> s.owner == Some(i);
    forall k | 0 <= k < |s'.pcs| ensures HoldsMutex(s'.pcs[k]) <==> s'.owner == Some(k) {
      assert HoldsMutex(s.pcs[k]) <==> s.owner == Some(k);
    }
    if s.flag && Waking(s) { assert Waking(s'); }
  }

  lemma {:induction false} WakeKeepsInv(s: State, i: nat)
    requires Inv(s) && i < |s.pcs| && s.pcs[i].NotifyWake?
    ensures Inv(Step(s, i).value)
  {
    var s' := Step(s, i).value;
    forall k | 0 <= k < |s'.pcs| ensures HoldsMutex(s'.pcs[k]) <==> s'.owner == Some(k) {
      assert HoldsMutex(s.pcs[k]) <==> s.owner == Some(k);
    }
  }

  lemma {:induction false} StepKeepsInv(s: State, i: nat)
    requires Inv(s) && i < |s.pcs| && Step(s, i).Some?
    ensures Inv(Step(s, i).value) && (s.flag ==> Step(s, i).value.flag)
  {
    assert HoldsMutex(s.pcs[i]) <==> s.owner == Some(i);
    if s.pcs[i].NotifyWake? {
      WakeKeepsInv(s, i);
    } else {
      var s' := Step(s, i).value;
      MoveKeepsInv(s, i, s'.pcs[i], s'.flag, s'.owner);
    }
  }

  lemma {:induction false} EntryKeepsInv(s: State, i: nat, s': State)
    requires Inv(s) && i < |s.pcs| && (Wakes(s, i, s') || Begins(s, i, s'))
    ensures Inv(s') && s'.flag == s.flag
  {
    assert HoldsMutex(s.pcs[i]) <==> s.owner == Some(i);
    MoveKeepsInv(s, i, s'.pcs[i], s.flag, s.owner);
  }

  lemma {:induction false} NextKeepsInv(s: State, s': State)
    requires Inv(s) && Next(s, s')
    ensures Inv(s') && (s.flag ==> s'.flag)
  {
    var i :| 0 <= i < |s.pcs| && (Step(s, i) == Some(s') || Wakes(s, i, s') || Begins(s, i, s'));
    if Step(s, i) == Some(s') { StepKeepsInv(s, i); } else { EntryKeepsInv(s, i, s'); }
  }

  ghost predicate Run(trace: seq<State>) {
    && trace != [] && !trace[0].flag && trace[0].owner.None?
    && (forall i :: 0 <= i < |trace[0].pcs| ==> trace[0].pcs[i].Idle?)
    && (forall k :: 0 < k < |trace| ==> Next(trace[k - 1], trace[k]))
  }

  lemma {:induction false} RunKeepsInv(trace: seq<State>, k: nat)
    requires Run(trace) && k < |trace|
    ensures Inv(trace[k])
  {
    if k > 0 {
      RunKeepsInv(trace, k - 1);
      NextKeepsInv(trace[k - 1], trace[k]);
    }
  }

  // No wait answers that it was notified before it was, and once a notification has completed nobody is
  // asleep, with a timeout or without.
  lemma {:induction false} NoLostWakeup(trace: seq<State>, k: nat, i: nat, j: nat)
    requires Run(trace) && k < |trace| && i < |trace[k].pcs| && j < |trace[k].pcs|
    ensures trace[k].pcs[i].Returned? ==> trace[k].flag
    ensures trace[k].pcs[i].Notified? && !Waking(trace[k]) ==> !trace[k].pcs[j].Asleep?
  {
    RunKeepsInv(trace, k);
  }

  // ---------------------------------------------------------------- every wait returns

  // A set flag leaves no way to block for ever, even without spurious wake-ups.
  lemma {:induction false} NeverStuck(s: State, i: nat)
    requires Inv(s) && s.flag && i < |s.pcs| && !Finished(s.pcs[i])
    ensures exists j :: 0 <= j < |s.pcs| && Step(s, j).Some?
  {
    if s.owner.Some? {
      var j := s.owner.value;
      assert HoldsMutex(s.pcs[j]);
      assert Step(s, j).Some?;
    } else {
      assert Step(s, i).Some?;
    }
  }

  function Rank(pc: Pc): nat {
    match pc
    case WaitStart(_) => 3
    case WaitLock(_) => 2
    case WaitCheck(_) => 1
    case Asleep(_) => 3
    case Woken(_) => 2
    case Late => 2
    case GiveUp => 1
    case NotifyLock => 4
    case NotifyStore => 3
    case NotifyWake => 2
    case NotifyUnlock => 1
    case _ => 0
  }

  function Work(pcs: seq<Pc>): nat {
    if pcs == [] then 0 else Rank(pcs[0]) + Work(pcs[1..])
  }

  lemma {:induction false} WorkLess(a: seq<Pc>, b: seq<Pc>, i: nat)
    requires |a| == |b| && i < |a| && Rank(a[i]) < Rank(b[i])
    requires forall k :: 0 <= k < |a| ==> Rank(a[k]) <= Rank(b[k])
    ensures Work(a) < Work(b)
  {
    if i == 0 { WorkAtMost(a[1..], b[1..]); } else { WorkLess(a[1..], b[1..], i - 1); }
  }

  lemma {:induction false} WorkAtMost(a: seq<Pc>, b: seq<Pc>)
    requires |a| == |b| && forall k :: 0 <= k < |a| ==> Rank(a[k]) <= Rank(b[k])
    ensures Work(a) <= Work(b)
  {
    if a != [] { WorkAtMost(a[1..], b[1..]); }
  }

  // A step of a call under way, a spurious wake-up, or a timeout.
  ghost predicate Inside(s: State, s': State) {
    exists i :: 0 <= i < |s.pcs| && (Step(s, i) == Some(s') || Wakes(s, i, s'))
  }

  lemma {:induction false} StepIsCloser(s: State, i: nat)
    requires s.flag && i < |s.pcs| && Step(s, i).Some?
    ensures Work(Step(s, i).value.pcs) < Work(s.pcs)
  {
    WorkLess(Step(s, i).value.pcs, s.pcs, i);
  }

  lemma {:induction false} WakingIsCloser(s: State, i: nat, s': State)
    requires i < |s.pcs| && Wakes(s, i, s')
    ensures Work(s'.pcs) < Work(s.pcs)
  {
    WorkLess(s'.pcs, s.pcs, i);
  }

  lemma {:induction false} InsideIsCloser(s: State, s': State)
    requires Inv(s) && s.flag && Inside(s, s')
    ensures Inv(s') && s'.flag && Work(s'.pcs) < Work(s.pcs)
  {
    assert Next(s, s');
    NextKeepsInv(s, s');
    if i :| 0 <= i < |s.pcs| && Step(s, i) == Some(s') {
      StepIsCloser(s, i);
    } else {
      var i :| 0 <= i < |s.pcs| && Wakes(s, i, s');
      WakingIsCloser(s, i, s');
    }
  }

  predicate AnyStep(s: State) {
    exists j :: 0 <= j < |s.pcs| && Step(s, j).Some?
  }

  predicate AllFinished(s: State) {
    forall i :: 0 <= i < |s.pcs| ==> Finished(s.pcs[i])
  }

  // Any order of steps, with any spurious wake-ups and timeouts and without new calls, that stops only where
  // no thread can take a step.
  ghost predicate Maximal(run: nat -> State) {
    forall k: nat :: Inside(run(k), run(k + 1)) || (run(k + 1) == run(k) && !AnyStep(run(k)))
  }

  // Once the flag is set, however the steps of the calls under way interleave, all of them return.
  lemma {:induction false} WaitsReturn(run: nat -> State, k: nat) returns (n: nat)
    requires Maximal(run) && Inv(run(k)) && run(k).flag
    ensures k <= n <= k + Work(run(k).pcs) && AllFinished(run(n))
    decreases Work(run(k).pcs)
  {
    if Inside(run(k), run(k + 1)) {
      InsideIsCloser(run(k), run(k + 1));
      n := WaitsReturn(run, k + 1);
    } else {
      n := k;
      forall i | 0 <= i < |run(k).pcs| ensures Finished(run(k).pcs[i]) {
        if !Finished(run(k).pcs[i]) { NeverStuck(run(k), i); }
      }
    }
  }

  // ---------------------------------------------------------------- how calls end

  // Inside a wait without a timeout.
  predicate WaitsForever(pc: Pc) {
    (pc.WaitStart? || pc.WaitLock? || pc.WaitCheck? || pc.Asleep? || pc.Woken?) && !pc.timed
  }

  predicate WaitsForATime(pc: Pc) {
    ((pc.WaitStart? || pc.WaitLock? || pc.WaitCheck? || pc.Asleep? || pc.Woken?) && pc.timed) || pc.Late? || pc.GiveUp?
  }

  predicate Notifies(pc: Pc) {
    pc.NotifyLock? || pc.NotifyStore? || pc.NotifyWake? || pc.NotifyUnlock?
  }

  // What one thread may come to next.
  predicate EndsIn(pc: Pc, pc': Pc) {
    && (WaitsForever(pc) ==> WaitsForever(pc') || pc' == Returned)
    && (WaitsForATime(pc) ==> WaitsForATime(pc') || pc' == Returned || pc' == TimedOut)
    && (Notifies(pc) ==> Notifies(pc') || pc' == Notified)
  }

  lemma {:induction false} StepEndsIn(s: State, k: nat, i: nat)
    requires k < |s.pcs| && Step(s, k).Some? && i < |s.pcs|
    ensures |Step(s, k).value.pcs| == |s.pcs| && EndsIn(s.pcs[i], Step(s, k).value.pcs[i])
  {}

  predicate ThreadGoesOn(s: State, s': State, i: nat) {
    |s'.pcs| == |s.pcs| && (i < |s.pcs| ==> EndsIn(s.pcs[i], s'.pcs[i]))
  }

  lemma {:induction false} CallsEndIn(s: State, s': State, i: nat)
    requires Next(s, s')
    ensures ThreadGoesOn(s, s', i)
  {
    var k :| 0 <= k < |s.pcs| && (Step(s, k) == Some(s') || Wakes(s, k, s') || Begins(s, k, s'));
    if Step(s, k) == Some(s') && i < |s.pcs| { StepEndsIn(s, k, i); }
  }

  ghost predicate Passes(trace: seq<State>, a: nat, b: nat, i: nat, pc: Pc) {
    exists k :: a < k <= b && k < |trace| && i < |trace[k].pcs| && trace[k].pcs[i] == pc
  }

  ghost predicate Ends(trace: seq<State>, a: nat, b: nat, i: nat)
    requires a <= b < |trace| && i < |trace[a].pcs| && i < |trace[b].pcs|
  {
    && (WaitsForever(trace[a].pcs[i]) && !WaitsForever(trace[b].pcs[i]) ==> Passes(trace, a, b, i, Returned))
    && (WaitsForATime(trace[a].pcs[i]) && !WaitsForATime(trace[b].pcs[i]) ==>
          Passes(trace, a, b, i, Returned) || Passes(trace, a, b, i, TimedOut))
    && (Notifies(trace[a].pcs[i]) && !Notifies(trace[b].pcs[i]) ==> Passes(trace, a, b, i, Notified))
  }

  lemma {:induction false} GoingOnEnds(trace: seq<State>, a: nat, b: nat, i: nat)
    requires a <= b < |trace| && i < |trace[a].pcs|
    requires forall k :: a < k <= b ==> ThreadGoesOn(trace[k - 1], trace[k], i)
    ensures i < |trace[b].pcs| && Ends(trace, a, b, i)
  {
    if a < b {
      GoingOnEnds(trace, a, b - 1, i);
      assert ThreadGoesOn(trace[b - 1], trace[b], i);
      forall pc | Passes(trace, a, b - 1, i, pc) || trace[b].pcs[i] == pc ensures Passes(trace, a, b, i, pc) {}
    }
  }

  // A wait without a timeout is over only by returning, which the flag allows; one with a timeout may also
  // give up; a call of `notify` sets the flag.
  lemma {:induction false} CallsEnd(trace: seq<State>, a: nat, b: nat, i: nat)
    requires Run(trace) && a <= b < |trace| && i < |trace[a].pcs|
    ensures i < |trace[b].pcs| && Ends(trace, a, b, i)
  {
    forall k | a < k <= b ensures ThreadGoesOn(trace[k - 1], trace[k], i) { CallsEndIn(trace[k - 1], trace[k], i); }
    GoingOnEnds(trace, a, b, i);
  }

  // From call to end: a wait without a timeout has seen the flag, and a notification has set it.
  lemma {:induction false} CallsDoWhatTheySay(trace: seq<State>, a: nat, b: nat, i: nat)
    requires Run(trace) && a < b < |trace| && i < |trace[a].pcs| && i < |trace[b].pcs| && Finished(trace[b].pcs[i])
    ensures trace[a].pcs[i] == WaitStart(false) ==> Passes(trace, a, b, i, Returned)
    ensures trace[a].pcs[i] == WaitStart(false) || trace[a].pcs[i] == NotifyLock ==> trace[b].flag
  {
    CallsEnd(trace, a, b, i);
    if trace[a].pcs[i] == WaitStart(false) || trace[a].pcs[i] == NotifyLock {
      var k :| a < k <= b && i < |trace[k].pcs| && (trace[k].pcs[i] == Returned || trace[k].pcs[i] == Notified);
      RunKeepsInv(trace, k);
      FlagStays(trace, k, b);
    }
  }

  lemma {:induction false} FlagStays(trace: seq<State>, a: nat, b: nat)
    requires Run(trace) && a <= b < |trace| && trace[a].flag
    ensures trace[b].flag
  {
    if a < b {
      FlagStays(trace, a, b - 1);
      FlagStaysAt(trace, b);
    }
  }

  lemma {:induction false} FlagStaysAt(trace: seq<State>, k: nat)
    requires Run(trace) && 0 < k < |trace| && trace[k - 1].flag
    ensures trace[k].flag
  {
    RunKeepsInv(trace, k - 1);
    NextKeepsInv(trace[k - 1], trace[k]);
  }

  // A sleeper with a timeout can give up at any time.
  lemma {:induction false} TimeRunsOut(s: State, i: nat) returns (s': State)
    requires i < |s.pcs| && s.pcs[i] == Asleep(true)
    ensures Next(s, s') && s'.pcs == s.pcs[i := Late] && s'.flag == s.flag && s'.owner == s.owner
  {
    s' := At(s, i, Late);
    assert Wakes(s, i, s');
  }
}
