// The list of notified ids as a transition system; the flags are those that readers of the vector see.
module NotificationListModel {
  import opened Options
  import V = ConcurrentVecModel

  datatype Pc =
    | Idle
    | Resize(x: nat)
    | Load(x: nat)    // looks at the flag
    | Swap(x: nat)    // sets it
    | Record(x: nat)  // was the first to, and adds the id to the list

  // `begun` and `done` are the ids of the calls of `notify` begun and returned since the last reset.
  datatype State = State(flags: seq<bool>, list: seq<nat>, pcs: seq<Pc>, begun: set<nat>, done: set<nat>)

  function Init(threads: nat): State {
    State([], [], seq(threads, _ => Idle), {}, {})
  }

  function At(s: State, i: nat, pc: Pc): State
    requires i < |s.pcs|
  {
    s.(pcs := s.pcs[i := pc])
  }

  function Return(s: State, i: nat, x: nat): State
    requires i < |s.pcs|
  {
    At(s, i, Idle).(done := s.done + {x})
  }

  // The vector grows by a whole step, which adds cleared flags past those visible.
  function Grown(flags: seq<bool>, n: nat): seq<bool> {
    if n <= |flags| then flags else flags + seq(n - |flags|, _ => false)
  }

  // The index into the flags is checked when the code runs.
  predicate InRange(s: State) {
    forall i :: 0 <= i < |s.pcs| && (s.pcs[i].Load? || s.pcs[i].Swap?) ==> s.pcs[i].x < |s.flags|
  }

  function Step(s: State, i: nat): Option<State>
    requires InRange(s) && i < |s.pcs|
  {
    match s.pcs[i]
    case Idle => None
    case Resize(x) => Some(At(s, i, Load(x)).(flags := Grown(s.flags, x + 1)))
    case Load(x) => Some(if s.flags[x] then Return(s, i, x) else At(s, i, Swap(x)))
    case Swap(x) =>
      var s' := s.(flags := s.flags[x := true]);
      Some(if s.flags[x] then Return(s', i, x) else At(s', i, Record(x)))
    case Record(x) => Some(Return(s, i, x).(list := s.list + [x]))
  }

  ghost predicate Begins(s: State, s': State) {
    exists i, x: nat :: 0 <= i < |s.pcs| && s.pcs[i].Idle? && s' == At(s, i, Resize(x)).(begun := s.begun + {x})
  }

  predicate Quiescent(s: State) {
    forall i :: 0 <= i < |s.pcs| ==> s.pcs[i].Idle?
  }

  // What a reset without concurrent notifications leaves.
  function AfterReset(s: State): State {
    s.(list := [], begun := {}, done := {}, flags := seq(|s.flags|, j requires 0 <= j < |s.flags| => s.flags[j] && j !in s.list))
  }

  ghost predicate Next(s: State, s': State) {
    || (InRange(s) && exists i :: 0 <= i < |s.pcs| && Step(s, i) == Some(s'))
    || Begins(s, s')
    || (Quiescent(s) && s' == AfterReset(s))
  }

  ghost predicate Run(trace: seq<State>) {
    && trace != [] && (exists n :: trace[0] == Init(n))
    && (forall k :: 0 < k < |trace| ==> Next(trace[k - 1], trace[k]))
  }

  // ---------------------------------------------------------------- the invariant

  predicate Recording(s: State, x: nat) {
    exists i :: 0 <= i < |s.pcs| && s.pcs[i] == Record(x)
  }

  predicate Busy(s: State, x: nat) {
    exists i :: 0 <= i < |s.pcs| && !s.pcs[i].Idle? && s.pcs[i].x == x
  }

  predicate Set(s: State, x: nat) {
    x < |s.flags| && s.flags[x]
  }

  predicate PcOk(s: State, pc: Pc) {
    && (pc.Load? || pc.Swap? ==> pc.x < |s.flags|)
    && (pc.Record? ==> Set(s, pc.x) && pc.x !in s.list)
    && (!pc.Idle? ==> pc.x in s.begun)
  }

  ghost predicate Inv(s: State) {
    && (forall i :: 0 <= i < |s.pcs| ==> PcOk(s, s.pcs[i]))
    // Only one thread records an id.
    && (forall i, j :: 0 <= i < j < |s.pcs| && s.pcs[i].Record? && s.pcs[j].Record? ==> s.pcs[i].x != s.pcs[j].x)
    && (forall i, j :: 0 <= i < j < |s.list| ==> s.list[i] != s.list[j])
    && (forall i :: 0 <= i < |s.list| ==> Set(s, s.list[i]))
    && (forall x :: Set(s, x) ==> (x in s.list || Recording(s, x)) && x in s.begun)
    && (forall x :: x in s.done ==> Set(s, x))
    && (forall x :: x in s.begun ==> x in s.done || Busy(s, x))
  }

  // A quiescent list holds exactly the ids notified, each once.
  lemma {:induction false} QuiescentList(s: State)
    requires Inv(s) && Quiescent(s)
    ensures forall x :: x in s.list <==> x in s.done
    ensures forall i, j :: 0 <= i < j < |s.list| ==> s.list[i] != s.list[j]
    ensures s.done == s.begun && forall x :: Set(s, x) ==> x in s.list
  {
    forall x | x in s.begun ensures x in s.done && x in s.list {
      assert !Busy(s, x);
      assert Set(s, x) && !Recording(s, x);
    }
    forall x | x in s.list ensures x in s.begun {
      var i :| 0 <= i < |s.list| && s.list[i] == x;
      assert Set(s, x);
    }
  }

  lemma {:induction false} ResetKeepsInv(s: State)
    requires Inv(s) && Quiescent(s)
    ensures Inv(AfterReset(s)) && forall x :: !Set(AfterReset(s), x)
  {
    QuiescentList(s);
    var s' := AfterReset(s);
    forall x: nat | x < |s'.flags| ensures !s'.flags[x] {
      if s.flags[x] { assert Set(s, x); }
    }
    forall i | 0 <= i < |s'.pcs| ensures PcOk(s', s'.pcs[i]) { assert s.pcs[i].Idle?; }
  }

  // One thread moves on with its id, or returns.
  lemma {:induction false} MovedThread(s: State, s': State, i: nat, pc: Pc)
    requires i < |s.pcs| && s'.pcs == s.pcs[i := pc]
    ensures forall y :: Busy(s, y) ==> Busy(s', y) || (!s.pcs[i].Idle? && s.pcs[i].x == y)
    ensures forall y :: Recording(s, y) ==> Recording(s', y) || s.pcs[i] == Record(y)
    ensures !pc.Idle? ==> Busy(s', pc.x)
    ensures pc.Record? ==> Recording(s', pc.x)
  {
    forall y | Busy(s, y) ensures Busy(s', y) || (!s.pcs[i].Idle? && s.pcs[i].x == y) {
      var k :| 0 <= k < |s.pcs| && !s.pcs[k].Idle? && s.pcs[k].x == y;
      if k != i { assert s'.pcs[k] == s.pcs[k]; }
    }
    forall y | Recording(s, y) ensures Recording(s', y) || s.pcs[i] == Record(y) {
      var k :| 0 <= k < |s.pcs| && s.pcs[k] == Record(y);
      if k != i { assert s'.pcs[k] == s.pcs[k]; }
    }
    if !pc.Idle? { assert s'.pcs[i] == pc; }
  }

  // A move that leaves the list alone and unsets no flag.
  lemma {:induction false} MoveKeepsInv(s: State, s': State, i: nat, pc: Pc)
    requires Inv(s) && i < |s.pcs| && s'.pcs == s.pcs[i := pc] && s'.list == s.list && s.begun <= s'.begun
    requires !s.pcs[i].Record? && !pc.Record? && PcOk(s', pc) && |s.flags| <= |s'.flags|
    requires forall y :: Set(s', y) <==> Set(s, y)
    requires forall y :: y in s'.done ==> y in s.done || Set(s, y)
    requires s.done <= s'.done && forall y :: y in s'.begun ==> y in s.begun || (!pc.Idle? && pc.x == y)
    requires !s.pcs[i].Idle? ==> (if pc.Idle? then s.pcs[i].x in s'.done else pc.x == s.pcs[i].x)
    ensures Inv(s')
  {
    MovedThread(s, s', i, pc);
    forall k | 0 <= k < |s'.pcs| ensures PcOk(s', s'.pcs[k]) {
      assert PcOk(s, s.pcs[k]);
    }
  }

  lemma {:induction false} RecordKeepsInv(s: State, i: nat)
    requires Inv(s) && InRange(s) && i < |s.pcs| && s.pcs[i].Record?
    ensures Inv(Step(s, i).value)
  {
    var x := s.pcs[i].x;
    var s' := Step(s, i).value;
    assert PcOk(s, s.pcs[i]);
    MovedThread(s, s', i, Idle);
    forall k | 0 <= k < |s'.pcs| ensures PcOk(s', s'.pcs[k]) {
      assert PcOk(s, s.pcs[k]);
      if s'.pcs[k].Record? { assert s'.pcs[k].x != x; }
    }
    assert forall y :: Set(s', y) <==> Set(s, y);
    assert x in s'.list by { assert s'.list[|s.list|] == x; }
    forall y | y in s.list ensures y in s'.list { var j :| 0 <= j < |s.list| && s.list[j] == y; assert s'.list[j] == y; }
  }

  lemma {:induction false} FirstSwapKeepsInv(s: State, i: nat)
    requires Inv(s) && InRange(s) && i < |s.pcs| && s.pcs[i].Swap? && !s.flags[s.pcs[i].x]
    ensures Inv(Step(s, i).value)
  {
    var x := s.pcs[i].x;
    var s' := Step(s, i).value;
    assert PcOk(s, s.pcs[i]) && !Set(s, x);
    MovedThread(s, s', i, Record(x));
    assert forall y :: Set(s', y) <==> Set(s, y) || y == x;
    forall k | 0 <= k < |s'.pcs| ensures PcOk(s', s'.pcs[k]) && (k != i && s'.pcs[k].Record? ==> s'.pcs[k].x != x) {
      assert PcOk(s, s.pcs[k]);
    }
  }

  lemma {:induction false} StepKeepsInv(s: State, i: nat)
    requires Inv(s) && InRange(s) && i < |s.pcs| && Step(s, i).Some?
    ensures Inv(Step(s, i).value)
  {
    var s' := Step(s, i).value;
    assert PcOk(s, s.pcs[i]);
    if s.pcs[i].Record? {
      RecordKeepsInv(s, i);
    } else if s.pcs[i].Swap? && !s.flags[s.pcs[i].x] {
      FirstSwapKeepsInv(s, i);
    } else {
      if s.pcs[i].Swap? { assert s.flags[s.pcs[i].x := true] == s.flags; }
      MoveKeepsInv(s, s', i, s'.pcs[i]);
    }
  }

  lemma {:induction false} NextKeepsInv(s: State, s': State)
    requires Inv(s) && Next(s, s')
    ensures Inv(s')
  {
    if InRange(s) && exists i :: 0 <= i < |s.pcs| && Step(s, i) == Some(s') {
      var i :| 0 <= i < |s.pcs| && Step(s, i) == Some(s');
      StepKeepsInv(s, i);
    } else if Begins(s, s') {
      var i, x: nat :| 0 <= i < |s.pcs| && s.pcs[i].Idle? && s' == At(s, i, Resize(x)).(begun := s.begun + {x});
      MoveKeepsInv(s, s', i, Resize(x));
    } else {
      ResetKeepsInv(s);
    }
  }

  lemma {:induction false} RunKeepsInv(trace: seq<State>, k: nat)
    requires Run(trace) && k < |trace|
    ensures Inv(trace[k])
  {
    if k == 0 {
      var n :| trace[0] == Init(n);
    } else {
      RunKeepsInv(trace, k - 1);
      NextKeepsInv(trace[k - 1], trace[k]);
    }
  }

  // Under every interleaving no id is listed twice, no index is out of range, and whenever no call is
  // under way the list is what was notified since the last reset.
  lemma {:induction false} ListedExactlyOnce(trace: seq<State>, k: nat)
    requires Run(trace) && k < |trace|
    ensures InRange(trace[k]) && forall i, j :: 0 <= i < j < |trace[k].list| ==> trace[k].list[i] != trace[k].list[j]
    ensures Quiescent(trace[k]) ==> trace[k].done == trace[k].begun && forall x :: x in trace[k].list <==> x in trace[k].begun
  {
    RunKeepsInv(trace, k);
    if Quiescent(trace[k]) { QuiescentList(trace[k]); }
  }

  // ---------------------------------------------------------------- the vector behind the flags

  type Vec = V.State<bool>

  predicate Cleared(flag: bool) {
    !flag
  }

  ghost predicate VecInv(s: Vec) {
    V.Inv(V.ResizeOnly, Cleared, s)
  }

  ghost predicate VecStep(s: Vec, s': Vec, i: nat)
    requires i < |s.pcs|
  {
    V.Step(V.ResizeOnly, Cleared, s, s', i)
  }

  // The flags that a reader of the vector sees.
  ghost function FlagsOf(s: Vec): (flags: seq<bool>)
    requires s.head <= |s.cells|
    ensures |flags| == s.head && forall j :: 0 <= j < s.head ==> flags[j] == (s.cells[j] == Some(true))
  {
    seq(s.head, j requires 0 <= j < s.head => s.cells[j] == Some(true))
  }

  // The length a resize asks for, at the step that decides it: one of its two looks at the head when
  // there are enough flags, and the store of the head when there are not.
  function TakesEffect(s: Vec, i: nat): Option<nat>
    requires i < |s.pcs|
  {
    match s.pcs[i]
    case ResizePeek(n) => if n <= s.head then Some(n) else None
    case ResizeHead(n) => if n <= s.head then Some(n) else None
    case HeadStore(index, _) => Some(index + 1)
    case _ => None
  }

  // Slot by slot and under every interleaving, a resize is one growth by cleared flags.
  lemma {:induction false} ResizeIsAGrowth(s: Vec, s': Vec, i: nat)
    requires VecInv(s) && i < |s.pcs| && VecStep(s, s', i)
    ensures VecInv(s') && FlagsOf(s') == match TakesEffect(s, i) case Some(n) => Grown(FlagsOf(s), n) case None => FlagsOf(s)
  {
    V.VisibleGrows(V.ResizeOnly, Cleared, s, s', i);
    assert V.PcOk(V.ResizeOnly, Cleared, s, s.pcs[i]);
    forall j | 0 <= j < s.head ensures FlagsOf(s')[j] == FlagsOf(s)[j] {
      assert V.Visible(s')[j] == V.Visible(s)[j];
    }
    forall j | s.head <= j < s'.head ensures !FlagsOf(s')[j] {
      assert V.Visible(s')[j].Some? && Cleared(V.Visible(s')[j].value);
    }
  }

  // The length that the resize under way has yet to bring about.
  function Wants(pc: V.Pc<bool>): Option<nat> {
    match pc
    case ResizePeek(n) => Some(n)
    case ResizeLock(n) => Some(n)
    case ResizeHead(n) => Some(n)
    case SlotRead(index, _) => Some(index + 1)
    case SlotWrite(index, _) => Some(index + 1)
    case GrowLock(index, _) => Some(index + 1)
    case Growing(index, _) => Some(index + 1)
    case HeadStore(index, _) => Some(index + 1)
    case _ => None
  }

  // A resize takes effect once, for the length it was called with, before it returns.
  lemma {:induction false} ResizeTakesEffectOnce(s: Vec, s': Vec, i: nat)
    requires VecInv(s) && i < |s.pcs| && VecStep(s, s', i) && !s.pcs[i].Idle?
    ensures match Wants(s.pcs[i])
      case None => TakesEffect(s, i).None? && Wants(s'.pcs[i]).None?
      case Some(n) => if TakesEffect(s, i).Some? then TakesEffect(s, i) == Some(n) && Wants(s'.pcs[i]).None? else Wants(s'.pcs[i]) == Some(n)
  {
    assert V.PcOk(V.ResizeOnly, Cleared, s, s.pcs[i]);
  }

  lemma {:induction false} TouchSetsOneFlag(s: Vec, s': Vec, i: nat, j: nat)
    requires VecInv(s) && i < |s.pcs| && V.Touch(s, s', i, j)
    ensures VecInv(s') && j < |FlagsOf(s)| && FlagsOf(s') == FlagsOf(s)[j := s'.cells[j] == Some(true)]
  {
    V.TouchKeepsInv(V.ResizeOnly, Cleared, s, s', i, j);
    assert V.PcOk(V.ResizeOnly, Cleared, s, s.pcs[i]);
  }

  ghost predicate SetsAFlag(s: Vec, s': Vec) {
    exists i, j: nat :: 0 <= i < |s.pcs| && V.Touch(s, s', i, j) && s'.cells[j] == Some(true)
  }

  ghost predicate NotifyingStep(s: Vec, s': Vec) {
    V.Untouched(V.ResizeOnly, Cleared, s, s') || SetsAFlag(s, s')
  }

  // Any number of threads resize, read, and set flags that they see.
  ghost predicate NotifyingRun(trace: seq<Vec>) {
    && trace != [] && (exists n :: trace[0] == V.Init<bool>(n))
    && forall k :: 0 < k < |trace| ==> NotifyingStep(trace[k - 1], trace[k])
  }

  lemma {:induction false} NotifyingRunKeepsInv(trace: seq<Vec>, k: nat)
    requires NotifyingRun(trace) && k < |trace|
    ensures VecInv(trace[k])
  {
    if k == 0 {
      var n :| trace[0] == V.Init<bool>(n);
    } else {
      NotifyingRunKeepsInv(trace, k - 1);
      NotifyingStepKeepsInv(trace[k - 1], trace[k]);
    }
  }

  lemma {:induction false} NotifyingStepKeepsInv(s: Vec, s': Vec)
    requires VecInv(s) && NotifyingStep(s, s')
    ensures VecInv(s')
  {
    if V.Untouched(V.ResizeOnly, Cleared, s, s') {
      var i :| 0 <= i < |s.pcs| && V.Step(V.ResizeOnly, Cleared, s, s', i);
      V.StepKeepsInv(V.ResizeOnly, Cleared, s, s', i);
    } else {
      var i, j: nat :| 0 <= i < |s.pcs| && V.Touch(s, s', i, j) && s'.cells[j] == Some(true);
      V.TouchKeepsInv(V.ResizeOnly, Cleared, s, s', i, j);
    }
  }

  ghost predicate FlagSet(s: Vec, x: nat) {
    s.head <= |s.cells| && x < |FlagsOf(s)| && FlagsOf(s)[x]
  }

  lemma {:induction false} FlagSurvivesStep(s: Vec, s': Vec, x: nat)
    requires VecInv(s) && FlagSet(s, x)
    requires NotifyingStep(s, s')
    ensures FlagSet(s', x)
  {
    if SetsAFlag(s, s') {
      var i, j: nat :| 0 <= i < |s.pcs| && V.Touch(s, s', i, j) && s'.cells[j] == Some(true);
      TouchSetsOneFlag(s, s', i, j);
    } else {
      var i :| 0 <= i < |s.pcs| && V.Step(V.ResizeOnly, Cleared, s, s', i);
      ResizeIsAGrowth(s, s', i);
    }
  }

  lemma {:induction false} NotifyingStepAt(trace: seq<Vec>, k: nat)
    requires NotifyingRun(trace) && 0 < k < |trace|
    ensures VecInv(trace[k - 1]) && NotifyingStep(trace[k - 1], trace[k])
  {
    NotifyingRunKeepsInv(trace, k - 1);
  }

  lemma {:induction false} FlagSurvivesAt(trace: seq<Vec>, k: nat, x: nat)
    requires NotifyingRun(trace) && 0 < k < |trace| && FlagSet(trace[k - 1], x)
    ensures FlagSet(trace[k], x)
  {
    NotifyingStepAt(trace, k);
    FlagSurvivesStep(trace[k - 1], trace[k], x);
  }

  // No resize, however it interleaves with others and moves the cells, loses a flag that was set.
  lemma {:induction false} FlagSurvives(trace: seq<Vec>, a: nat, b: nat, x: nat)
    requires NotifyingRun(trace) && a <= b < |trace| && FlagSet(trace[a], x)
    ensures FlagSet(trace[b], x)
  {
    if a < b {
      FlagSurvives(trace, a, b - 1, x);
      FlagSurvivesAt(trace, b, x);
    }
  }

  // ---------------------------------------------------------------- reset

  // A reset without concurrent notifications: takes the list and clears the flags of its ids.
  method Reset(s: State) returns (taken: seq<nat>, s': State)
    requires Inv(s) && Quiescent(s)
    ensures s' == AfterReset(s) && Inv(s') && taken == s.list
    ensures forall x :: x in taken <==> x in s.done
    ensures forall x :: !Set(s', x)
  {
    QuiescentList(s);
    ResetKeepsInv(s);
    taken := s.list;
    var flags := s.flags;
    for i := 0 to |taken|
      invariant |flags| == |s.flags|
      invariant forall j :: 0 <= j < |flags| ==> flags[j] == (s.flags[j] && j !in taken[..i])
    {
      assert Set(s, taken[i]);
      flags := flags[taken[i] := false];
    }
    assert taken[..|taken|] == taken;
    s' := State(flags, [], s.pcs, {}, {});
  }

  // Only a thread that is in no call has nothing to do.
  lemma {:induction false} NeverStuck(s: State, i: nat)
    requires Inv(s) && i < |s.pcs|
    ensures InRange(s) && (Step(s, i).Some? <==> !s.pcs[i].Idle?)
  {
    forall k | 0 <= k < |s.pcs| && (s.pcs[k].Load? || s.pcs[k].Swap?) ensures s.pcs[k].x < |s.flags| { assert PcOk(s, s.pcs[k]); }
  }
}
