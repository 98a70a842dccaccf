// Notifications over the vector that grows slot by slot, and the list they keep.
module NotifyOverVectorModel {
  import opened Options
  import V = ConcurrentVecModel
  import L = NotificationListModel

  // What a call of `notify` is doing; the vector says how far it is with the operation on it.
  datatype Call =
    | Out
    | Resizing(x: nat)
    | Taking(x: nat)              // takes a read guard, and then looks at the flag
    | Swapping(x: nat)            // holds the guard and sets the flag
    | Leaving(x: nat, won: bool)  // gives the guard back
    | Recording(x: nat)           // adds the id to the list

  datatype System = System(vec: L.Vec, calls: seq<Call>, list: seq<nat>, begun: set<nat>, done: set<nat>)

  function Init(threads: nat): System {
    System(V.Init(threads), seq(threads, _ => Out), [], {}, {})
  }

  function Turn(s: System, i: nat, vec: L.Vec, call: Call): System
    requires i < |s.calls|
  {
    s.(vec := vec, calls := s.calls[i := call])
  }

  predicate FlagAt(vec: L.Vec, x: nat) {
    x < |vec.cells| && vec.cells[x] == Some(true)
  }

  function WithFlag(vec: L.Vec, x: nat): L.Vec
    requires x < |vec.cells|
  {
    vec.(cells := vec.cells[x := Some(true)])
  }

  // The slice is as long as the head was; the index into it is checked when the code runs.
  predicate InSlice(s: System, i: nat)
    requires i < |s.calls| == |s.vec.pcs|
  {
    s.calls[i].Taking? || s.calls[i].Swapping? ==> s.vec.pcs[i].Reading? ==> s.calls[i].x < s.vec.pcs[i].p <= |s.vec.cells|
  }

  // One step of the vector for the i-th thread, within a resize or on the way to the guard.
  ghost predicate VectorMoves(s: System, s': System, i: nat)
    requires i < |s.calls| == |s.vec.pcs|
  {
    && (s.calls[i].Resizing? || s.calls[i].Taking?) && !s.vec.pcs[i].Idle? && !s.vec.pcs[i].Reading?
    && L.VecStep(s.vec, s'.vec, i) && s' == s.(vec := s'.vec)
  }

  ghost predicate Step(s: System, s': System, i: nat)
    requires i < |s.calls| == |s.vec.pcs| && InSlice(s, i)
  {
    var pc := s.vec.pcs[i];
    match s.calls[i]
    case Out => exists x: nat :: s' == Turn(s, i, V.At(s.vec, i, V.ResizePeek(x + 1)), Resizing(x)).(begun := s.begun + {x})
    case Resizing(x) => VectorMoves(s, s', i) || (pc.Idle? && s' == Turn(s, i, V.At(s.vec, i, V.ReadPeek), Taking(x)))
    case Taking(x) =>
      || VectorMoves(s, s', i)
      || (pc.Reading? && s' == Turn(s, i, s.vec, if FlagAt(s.vec, x) then Leaving(x, false) else Swapping(x)))
    case Swapping(x) => pc.Reading? && s' == Turn(s, i, WithFlag(s.vec, x), Leaving(x, !FlagAt(s.vec, x)))
    case Leaving(x, won) =>
      && pc.Reading?
      && s' == Turn(s, i, V.At(s.vec, i, V.Idle), if won then Recording(x) else Out).(done := if won then s.done else s.done + {x})
    case Recording(x) => s' == Turn(s, i, s.vec, Out).(list := s.list + [x], done := s.done + {x})
  }

  predicate Quiet(s: System) {
    forall i :: 0 <= i < |s.calls| ==> s.calls[i].Out?
  }

  // A reset without concurrent notifications takes the list and clears the flags of its ids.
  function AfterReset(s: System): System {
    var cells := seq(|s.vec.cells|, j requires 0 <= j < |s.vec.cells| => if j < s.vec.head && j in s.list then Some(false) else s.vec.cells[j]);
    System(s.vec.(cells := cells), s.calls, [], {}, {})
  }

  ghost predicate Next(s: System, s': System) {
    || (|s.calls| == |s.vec.pcs| && exists i :: 0 <= i < |s.calls| && InSlice(s, i) && Step(s, s', i))
    || (Quiet(s) && s' == AfterReset(s))
  }

  ghost predicate Run(trace: seq<System>) {
    && trace != [] && (exists n :: trace[0] == Init(n))
    && (forall k :: 0 < k < |trace| ==> Next(trace[k - 1], trace[k]))
  }

  // ---------------------------------------------------------------- how far a call is

  // Between them, the vector's position and the call's say where the thread is.
  predicate Together(vec: L.Vec, pc: V.Pc<bool>, call: Call) {
    match call
    case Out => pc.Idle?
    case Resizing(x) => L.Wants(pc) == Some(x + 1) || ((pc.Unlock? || pc.Idle?) && x < vec.head)
    case Taking(x) => (pc.ReadPeek? && x < vec.head) || ((pc.ReadData? || pc.Reading?) && x < pc.p)
    case Swapping(x) => pc.Reading? && x < pc.p
    case Leaving(x, won) => pc.Reading? && x < pc.p
    case Recording(x) => pc.Idle? && x < vec.head
  }

  ghost predicate Inv(s: System) {
    && L.VecInv(s.vec) && |s.calls| == |s.vec.pcs|
    && (forall i :: 0 <= i < |s.calls| ==> Together(s.vec, s.vec.pcs[i], s.calls[i]))
  }

  // The position in the list's own model: a resize is over when it has taken effect, and a call that
  // finds the flag set when it has found it.
  function Seen(pc: V.Pc<bool>, call: Call): L.Pc {
    match call
    case Out => L.Idle
    case Resizing(x) => if L.Wants(pc).Some? then L.Resize(x) else L.Load(x)
    case Taking(x) => L.Load(x)
    case Swapping(x) => L.Swap(x)
    case Leaving(x, won) => if won then L.Record(x) else L.Idle
    case Recording(x) => L.Record(x)
  }

  function Lost(calls: seq<Call>): (xs: set<nat>)
    ensures forall x :: x in xs <==> Leaving(x, false) in calls
  {
    set i | 0 <= i < |calls| && calls[i].Leaving? && !calls[i].won :: calls[i].x
  }

  function SeenAll(pcs: seq<V.Pc<bool>>, calls: seq<Call>): (r: seq<L.Pc>)
    requires |pcs| == |calls|
    ensures |r| == |calls| && forall i :: 0 <= i < |calls| ==> r[i] == Seen(pcs[i], calls[i])
  {
    seq(|calls|, i requires 0 <= i < |calls| => Seen(pcs[i], calls[i]))
  }

  ghost function Abstract(s: System): L.State
    requires Inv(s)
  {
    L.State(L.FlagsOf(s.vec), s.list, SeenAll(s.vec.pcs, s.calls), s.begun, s.done + Lost(s.calls))
  }

  ghost predicate Refines(s: System, s': System)
    requires Inv(s)
  {
    Inv(s') && (Abstract(s') == Abstract(s) || L.Next(Abstract(s), Abstract(s')))
  }

  // ---------------------------------------------------------------- one step

  lemma {:induction false} OthersStay(s: System, s': System, i: nat)
    requires Inv(s) && i < |s.calls| && L.VecInv(s'.vec) && s.vec.head <= s'.vec.head
    requires i < |s'.vec.pcs| && i < |s'.calls| && s'.vec.pcs == s.vec.pcs[i := s'.vec.pcs[i]] && s'.calls == s.calls[i := s'.calls[i]]
    requires Together(s'.vec, s'.vec.pcs[i], s'.calls[i])
    ensures Inv(s') && SeenAll(s'.vec.pcs, s'.calls) == SeenAll(s.vec.pcs, s.calls)[i := Seen(s'.vec.pcs[i], s'.calls[i])]
  {
    forall k | 0 <= k < |s'.calls| ensures Together(s'.vec, s'.vec.pcs[k], s'.calls[k]) {
      if k != i { assert Together(s.vec, s.vec.pcs[k], s.calls[k]); }
    }
  }

  // A call that is not one that lost, before or after.
  lemma {:induction false} LostStays(calls: seq<Call>, i: nat, call: Call)
    requires i < |calls|
    ensures Lost(calls[i := call]) <= Lost(calls) + (if call.Leaving? && !call.won then {call.x} else {})
    ensures Lost(calls) <= Lost(calls[i := call]) + (if calls[i].Leaving? && !calls[i].won then {calls[i].x} else {})
    ensures call.Leaving? && !call.won ==> call.x in Lost(calls[i := call])
  {
    var now := calls[i := call];
    forall x | x in Lost(calls) ensures x in Lost(now) || (calls[i] == Leaving(x, false)) {
      var k :| 0 <= k < |calls| && calls[k] == Leaving(x, false);
      if k != i { assert now[k] == Leaving(x, false); }
    }
    if call.Leaving? && !call.won { assert now[i] == call; }
  }

  lemma {:induction false} TurnKeepsVec(s: System, i: nat, pc: V.Pc<bool>)
    requires L.VecInv(s.vec) && i < |s.vec.pcs| && ((s.vec.pcs[i].Idle? && (pc.ResizePeek? || pc.ReadPeek?)) || (s.vec.pcs[i].Reading? && pc.Idle?))
    ensures L.VecInv(V.At(s.vec, i, pc)) && L.FlagsOf(V.At(s.vec, i, pc)) == L.FlagsOf(s.vec)
  {
    assert L.VecStep(s.vec, V.At(s.vec, i, pc), i);
    L.ResizeIsAGrowth(s.vec, V.At(s.vec, i, pc), i);
  }

  lemma {:induction false} BeginRefines(s: System, i: nat, x: nat)
    requires Inv(s) && i < |s.calls| && s.calls[i].Out?
    ensures Refines(s, Turn(s, i, V.At(s.vec, i, V.ResizePeek(x + 1)), Resizing(x)).(begun := s.begun + {x}))
  {
    var s' := Turn(s, i, V.At(s.vec, i, V.ResizePeek(x + 1)), Resizing(x)).(begun := s.begun + {x});
    assert Together(s.vec, s.vec.pcs[i], s.calls[i]);
    TurnKeepsVec(s, i, V.ResizePeek(x + 1));
    OthersStay(s, s', i);
    LostStays(s.calls, i, Resizing(x));
    var a, a' := Abstract(s), Abstract(s');
    assert a.pcs[i].Idle? && a' == L.At(a, i, L.Resize(x)).(begun := a.begun + {x});
    assert L.Begins(a, a');
  }

  lemma {:induction false} MoveKeepsTogether(s: System, s': System, i: nat)
    requires Inv(s) && i < |s.calls| && VectorMoves(s, s', i)
    ensures L.VecInv(s'.vec) && s.vec.head <= s'.vec.head && |s'.vec.pcs| == |s.vec.pcs| && s'.vec.pcs == s.vec.pcs[i := s'.vec.pcs[i]]
    ensures Together(s'.vec, s'.vec.pcs[i], s'.calls[i])
    ensures L.FlagsOf(s'.vec) == match L.TakesEffect(s.vec, i) case Some(n) => L.Grown(L.FlagsOf(s.vec), n) case None => L.FlagsOf(s.vec)
    ensures s.calls[i].Taking? ==> L.TakesEffect(s.vec, i).None?
    ensures s.calls[i].Resizing? && L.TakesEffect(s.vec, i).Some? ==>
      L.TakesEffect(s.vec, i) == Some(s.calls[i].x + 1) && L.Wants(s.vec.pcs[i]).Some? && L.Wants(s'.vec.pcs[i]).None?
    ensures s.calls[i].Resizing? && L.TakesEffect(s.vec, i).None? ==> (L.Wants(s'.vec.pcs[i]).Some? <==> L.Wants(s.vec.pcs[i]).Some?)
  {
    assert Together(s.vec, s.vec.pcs[i], s.calls[i]);
    L.ResizeIsAGrowth(s.vec, s'.vec, i);
    L.ResizeTakesEffectOnce(s.vec, s'.vec, i);
    assert V.PcOk(V.ResizeOnly, L.Cleared, s.vec, s.vec.pcs[i]);
  }

  lemma {:induction false} MoveIsSeen(s: System, s': System, i: nat)
    requires Inv(s) && i < |s.calls| && VectorMoves(s, s', i)
    ensures Inv(s') && Abstract(s') == Abstract(s).(flags := L.FlagsOf(s'.vec), pcs := Abstract(s).pcs[i := Seen(s'.vec.pcs[i], s.calls[i])])
  {
    MoveKeepsTogether(s, s', i);
    assert s'.calls == s.calls[i := s'.calls[i]];
    OthersStay(s, s', i);
  }

  lemma {:induction false} EffectRefines(s: System, s': System, i: nat)
    requires Inv(s) && i < |s.calls| && VectorMoves(s, s', i) && s.calls[i].Resizing? && L.TakesEffect(s.vec, i).Some?
    ensures Refines(s, s')
  {
    MoveKeepsTogether(s, s', i);
    MoveIsSeen(s, s', i);
    StepIsNext(s, i, Abstract(s'));
  }

  lemma {:induction false} MoveRefines(s: System, s': System, i: nat)
    requires Inv(s) && i < |s.calls| && VectorMoves(s, s', i)
    ensures Refines(s, s')
  {
    if s.calls[i].Resizing? && L.TakesEffect(s.vec, i).Some? {
      EffectRefines(s, s', i);
    } else {
      MoveKeepsTogether(s, s', i);
      MoveIsSeen(s, s', i);
      assert Abstract(s').pcs == Abstract(s).pcs;
    }
  }

  lemma {:induction false} FlagsInRange(s: System)
    requires Inv(s)
    ensures L.InRange(Abstract(s))
  {
    var a := Abstract(s);
    forall i | 0 <= i < |a.pcs| && (a.pcs[i].Load? || a.pcs[i].Swap?) ensures a.pcs[i].x < |a.flags| {
      assert Together(s.vec, s.vec.pcs[i], s.calls[i]);
      assert V.PcOk(V.ResizeOnly, L.Cleared, s.vec, s.vec.pcs[i]);
    }
  }

  lemma {:induction false} StepIsNext(s: System, i: nat, a': L.State)
    requires Inv(s) && i < |s.calls|
    requires L.InRange(Abstract(s)) ==> L.Step(Abstract(s), i) == Some(a')
    ensures L.Next(Abstract(s), a')
  {
    FlagsInRange(s);
  }

  lemma {:induction false} TakeRefines(s: System, i: nat)
    requires Inv(s) && i < |s.calls| && s.calls[i].Resizing? && s.vec.pcs[i].Idle?
    ensures Refines(s, Turn(s, i, V.At(s.vec, i, V.ReadPeek), Taking(s.calls[i].x)))
  {
    var s' := Turn(s, i, V.At(s.vec, i, V.ReadPeek), Taking(s.calls[i].x));
    assert Together(s.vec, s.vec.pcs[i], s.calls[i]);
    TurnKeepsVec(s, i, V.ReadPeek);
    OthersStay(s, s', i);
    LostStays(s.calls, i, s'.calls[i]);
    assert Abstract(s').pcs == Abstract(s).pcs;
  }

  lemma {:induction false} LoadRefines(s: System, i: nat)
    requires Inv(s) && i < |s.calls| && s.calls[i].Taking? && s.vec.pcs[i].Reading?
    ensures var x := s.calls[i].x; Refines(s, Turn(s, i, s.vec, if FlagAt(s.vec, x) then Leaving(x, false) else Swapping(x)))
  {
    var x := s.calls[i].x;
    var call := if FlagAt(s.vec, x) then Leaving(x, false) else Swapping(x);
    var s' := Turn(s, i, s.vec, call);
    assert Together(s.vec, s.vec.pcs[i], s.calls[i]);
    assert V.PcOk(V.ResizeOnly, L.Cleared, s.vec, s.vec.pcs[i]);
    OthersStay(s, s', i);
    LostStays(s.calls, i, call);
    var a, a' := Abstract(s), Abstract(s');
    assert a.pcs[i] == L.Load(x) && (a.flags[x] <==> FlagAt(s.vec, x));
    assert Lost(s'.calls) == Lost(s.calls) + (if FlagAt(s.vec, x) then {x} else {});
    assert a'.done == a.done + (if FlagAt(s.vec, x) then {x} else {});
    StepIsNext(s, i, a');
  }

  lemma {:induction false} SwapRefines(s: System, i: nat)
    requires Inv(s) && i < |s.calls| && s.calls[i].Swapping? && s.calls[i].x < |s.vec.cells|
    ensures var x := s.calls[i].x; Refines(s, Turn(s, i, WithFlag(s.vec, x), Leaving(x, !FlagAt(s.vec, x))))
  {
    var x := s.calls[i].x;
    var vec := WithFlag(s.vec, x);
    var call := Leaving(x, !FlagAt(s.vec, x));
    var s' := Turn(s, i, vec, call);
    assert Together(s.vec, s.vec.pcs[i], s.calls[i]);
    assert V.PcOk(V.ResizeOnly, L.Cleared, s.vec, s.vec.pcs[i]);
    assert V.Touch(s.vec, vec, i, x);
    L.TouchSetsOneFlag(s.vec, vec, i, x);
    OthersStay(s, s', i);
    LostStays(s.calls, i, call);
    var a, a' := Abstract(s), Abstract(s');
    assert a.pcs[i] == L.Swap(x) && (a.flags[x] <==> FlagAt(s.vec, x));
    assert Lost(s'.calls) == Lost(s.calls) + (if FlagAt(s.vec, x) then {x} else {});
    assert a'.done == a.done + (if FlagAt(s.vec, x) then {x} else {});
    StepIsNext(s, i, a');
  }

  lemma {:induction false} LeaveRefines(s: System, i: nat)
    requires Inv(s) && i < |s.calls| && s.calls[i].Leaving?
    ensures var x, won := s.calls[i].x, s.calls[i].won;
      Refines(s, Turn(s, i, V.At(s.vec, i, V.Idle), if won then Recording(x) else Out).(done := if won then s.done else s.done + {x}))
  {
    var x, won := s.calls[i].x, s.calls[i].won;
    var call := if won then Recording(x) else Out;
    var s' := Turn(s, i, V.At(s.vec, i, V.Idle), call).(done := if won then s.done else s.done + {x});
    assert Together(s.vec, s.vec.pcs[i], s.calls[i]);
    assert V.PcOk(V.ResizeOnly, L.Cleared, s.vec, s.vec.pcs[i]);
    TurnKeepsVec(s, i, V.Idle);
    OthersStay(s, s', i);
    LostStays(s.calls, i, call);
    if !won { assert s.calls[i] == Leaving(x, false); }
    assert s'.done + Lost(s'.calls) == s.done + Lost(s.calls);
    assert Abstract(s').pcs == Abstract(s).pcs;
  }

  lemma {:induction false} RecordRefines(s: System, i: nat)
    requires Inv(s) && i < |s.calls| && s.calls[i].Recording?
    ensures var x := s.calls[i].x; Refines(s, Turn(s, i, s.vec, Out).(list := s.list + [x], done := s.done + {x}))
  {
    var x := s.calls[i].x;
    var s' := Turn(s, i, s.vec, Out).(list := s.list + [x], done := s.done + {x});
    assert Together(s.vec, s.vec.pcs[i], s.calls[i]);
    assert s.vec.pcs[i := s.vec.pcs[i]] == s.vec.pcs;
    OthersStay(s, s', i);
    LostStays(s.calls, i, Out);
    var a, a' := Abstract(s), Abstract(s');
    assert a'.done == a.done + {x};
    StepIsNext(s, i, a');
  }

  lemma {:induction false} StepRefines(s: System, s': System, i: nat)
    requires Inv(s) && i < |s.calls| && InSlice(s, i) && Step(s, s', i)
    ensures Refines(s, s')
  {
    if VectorMoves(s, s', i) {
      MoveRefines(s, s', i);
    } else {
      match s.calls[i]
      case Out =>
        var x: nat :| s' == Turn(s, i, V.At(s.vec, i, V.ResizePeek(x + 1)), Resizing(x)).(begun := s.begun + {x});
        BeginRefines(s, i, x);
      case Resizing(_) => TakeRefines(s, i);
      case Taking(_) => LoadRefines(s, i);
      case Swapping(_) => SwapRefines(s, i);
      case Leaving(_, _) => LeaveRefines(s, i);
      case Recording(_) => RecordRefines(s, i);
    }
  }

  // Each flag is in a slice that the thread may use: no index is out of range.
  lemma {:induction false} InvIsInSlice(s: System, i: nat)
    requires Inv(s) && i < |s.calls|
    ensures InSlice(s, i)
  {
    assert Together(s.vec, s.vec.pcs[i], s.calls[i]);
    assert V.PcOk(V.ResizeOnly, L.Cleared, s.vec, s.vec.pcs[i]);
  }

  lemma {:induction false} ResetKeepsVec(s: System)
    requires Inv(s)
    ensures L.VecInv(AfterReset(s).vec) && L.FlagsOf(AfterReset(s).vec) ==
      seq(|L.FlagsOf(s.vec)|, j requires 0 <= j < |L.FlagsOf(s.vec)| => L.FlagsOf(s.vec)[j] && j !in s.list)
  {
    var vec := AfterReset(s).vec;
    forall i | 0 <= i < |vec.pcs| ensures V.PcOk(V.ResizeOnly, L.Cleared, vec, vec.pcs[i]) {
      assert V.PcOk(V.ResizeOnly, L.Cleared, s.vec, s.vec.pcs[i]);
    }
    forall j | 0 <= j < |vec.cells| ensures V.CellOk(V.ResizeOnly, L.Cleared, vec, j) {
      assert V.CellOk(V.ResizeOnly, L.Cleared, s.vec, j);
    }
  }

  lemma {:induction false} ResetRefines(s: System)
    requires Inv(s) && Quiet(s)
    ensures Refines(s, AfterReset(s))
  {
    ResetKeepsVec(s);
    var s' := AfterReset(s);
    forall i | 0 <= i < |s'.calls| ensures Together(s'.vec, s'.vec.pcs[i], s'.calls[i]) {
      assert Together(s.vec, s.vec.pcs[i], s.calls[i]);
    }
    assert Lost(s'.calls) == {};
    assert L.Quiescent(Abstract(s));
    assert Abstract(s') == L.AfterReset(Abstract(s));
  }

  lemma {:induction false} NextRefines(s: System, s': System)
    requires Inv(s) && Next(s, s')
    ensures Refines(s, s')
  {
    if Quiet(s) && s' == AfterReset(s) {
      ResetRefines(s);
    } else {
      var i :| 0 <= i < |s.calls| && InSlice(s, i) && Step(s, s', i);
      StepRefines(s, s', i);
    }
  }

  // ---------------------------------------------------------------- runs

  lemma {:induction false} RunRefines(trace: seq<System>, k: nat)
    requires Run(trace) && k < |trace|
    ensures Inv(trace[k]) && L.Inv(Abstract(trace[k]))
  {
    if k == 0 {
      var n :| trace[0] == Init(n);
      assert Abstract(trace[0]) == L.Init(n);
    } else {
      RunRefines(trace, k - 1);
      NextRefines(trace[k - 1], trace[k]);
      if Abstract(trace[k]) != Abstract(trace[k - 1]) { L.NextKeepsInv(Abstract(trace[k - 1]), Abstract(trace[k])); }
    }
  }

  // Under every interleaving of the steps on the vector, its cells and the list: no index is out of range,
  // no id is listed twice, and whenever no call is under way the list is what was notified since the last
  // reset.
  lemma {:induction false} ListedExactlyOnce(trace: seq<System>, k: nat)
    requires Run(trace) && k < |trace|
    ensures var s := trace[k];
      && |s.calls| == |s.vec.pcs| && (forall i :: 0 <= i < |s.calls| ==> InSlice(s, i))
      && (forall i, j :: 0 <= i < j < |s.list| ==> s.list[i] != s.list[j])
      && (Quiet(s) ==> s.done == s.begun && forall x :: x in s.list <==> x in s.begun)
  {
    RunRefines(trace, k);
    var s := trace[k];
    forall i | 0 <= i < |s.calls| ensures InSlice(s, i) { InvIsInSlice(s, i); }
    if Quiet(s) {
      assert Lost(s.calls) == {};
      L.QuiescentList(Abstract(s));
    }
  }

  // ---------------------------------------------------------------- every call returns

  ghost predicate Inside(s: System, s': System) {
    |s.calls| == |s.vec.pcs| && exists i :: 0 <= i < |s.calls| && !s.calls[i].Out? && InSlice(s, i) && Step(s, s', i)
  }

  ghost predicate CanMove(s: System) {
    exists s' :: Inside(s, s')
  }

  lemma {:induction false} ReaderMoves(s: System, i: nat) returns (s': System)
    requires Inv(s) && i < |s.calls| && s.vec.pcs[i].Reading?
    ensures !s.calls[i].Out? && InSlice(s, i) && Step(s, s', i)
  {
    assert Together(s.vec, s.vec.pcs[i], s.calls[i]);
    InvIsInSlice(s, i);
    match s.calls[i]
    case Taking(x) => s' := Turn(s, i, s.vec, if FlagAt(s.vec, x) then Leaving(x, false) else Swapping(x));
    case Swapping(x) => s' := Turn(s, i, WithFlag(s.vec, x), Leaving(x, !FlagAt(s.vec, x)));
    case Leaving(x, won) =>
      s' := Turn(s, i, V.At(s.vec, i, V.Idle), if won then Recording(x) else Out).(done := if won then s.done else s.done + {x});
  }

  lemma {:induction false} BetweenMoves(s: System, i: nat) returns (s': System)
    requires Inv(s) && i < |s.calls| && !s.calls[i].Out? && s.vec.pcs[i].Idle?
    ensures InSlice(s, i) && Step(s, s', i)
  {
    assert Together(s.vec, s.vec.pcs[i], s.calls[i]);
    match s.calls[i]
    case Resizing(x) => s' := Turn(s, i, V.At(s.vec, i, V.ReadPeek), Taking(x));
    case Recording(x) => s' := Turn(s, i, s.vec, Out).(list := s.list + [x], done := s.done + {x});
  }

  lemma {:induction false} InVectorMoves(s: System, i: nat) returns (s': System)
    requires Inv(s) && i < |s.calls| && !s.vec.pcs[i].Idle? && !s.vec.pcs[i].Reading? && V.Unblocked(s.vec, s.vec.pcs[i])
    ensures !s.calls[i].Out? && InSlice(s, i) && Step(s, s', i)
  {
    assert Together(s.vec, s.vec.pcs[i], s.calls[i]);
    InvIsInSlice(s, i);
    var vec := V.UnblockedStep(V.ResizeOnly, L.Cleared, false, s.vec, i);
    s' := s.(vec := vec);
    assert VectorMoves(s, s', i);
  }

  lemma {:induction false} NeverStuck(s: System, i: nat)
    requires Inv(s) && i < |s.calls| && !s.calls[i].Out?
    ensures CanMove(s)
  {
    var j := i;
    if !s.vec.pcs[i].Idle? { j := V.SomeoneIsUnblocked(V.ResizeOnly, L.Cleared, s.vec, i); }
    var s';
    if s.vec.pcs[j].Idle? {
      s' := BetweenMoves(s, j);
    } else if s.vec.pcs[j].Reading? {
      s' := ReaderMoves(s, j);
    } else {
      s' := InVectorMoves(s, j);
    }
    assert Inside(s, s');
  }

  function Rank(cells: nat, pc: V.Pc<bool>, call: Call): nat {
    match call
    case Out => 0
    case Resizing(_) => 8 + V.Rank(cells, pc)
    case Taking(_) => 4 + V.Rank(cells, pc)
    case Swapping(_) => 3
    case Leaving(_, _) => 2
    case Recording(_) => 1
  }

  function Work(cells: nat, pcs: seq<V.Pc<bool>>, calls: seq<Call>): nat
    requires |pcs| == |calls|
  {
    if calls == [] then 0 else Rank(cells, pcs[0], calls[0]) + Work(cells, pcs[1..], calls[1..])
  }

  lemma {:induction false} WorkLess(c: nat, d: nat, ps: seq<V.Pc<bool>>, a: seq<Call>, qs: seq<V.Pc<bool>>, b: seq<Call>, i: int)
    requires |ps| == |a| == |qs| == |b| && i < |a| && (0 <= i ==> Rank(c, ps[i], a[i]) < Rank(d, qs[i], b[i]))
    requires forall k :: 0 <= k < |a| ==> Rank(c, ps[k], a[k]) <= Rank(d, qs[k], b[k])
    ensures if 0 <= i then Work(c, ps, a) < Work(d, qs, b) else Work(c, ps, a) <= Work(d, qs, b)
    decreases |a|
  {
    if a != [] { WorkLess(c, d, ps[1..], a[1..], qs[1..], b[1..], i - 1); }
  }

  lemma {:induction false} StepLowersRank(s: System, s': System, i: nat)
    requires Inv(s) && i < |s.calls| && !s.calls[i].Out? && InSlice(s, i) && Step(s, s', i)
    ensures |s'.calls| == |s.calls| && |s'.vec.pcs| == |s.vec.pcs| && |s.vec.cells| <= |s'.vec.cells|
    ensures Rank(|s'.vec.cells|, s'.vec.pcs[i], s'.calls[i]) < Rank(|s.vec.cells|, s.vec.pcs[i], s.calls[i])
    ensures forall k: nat :: k < |s.calls| && k != i ==> s'.calls[k] == s.calls[k] && s'.vec.pcs[k] == s.vec.pcs[k]
  {
    if VectorMoves(s, s', i) {
      V.StepLowersRank(V.ResizeOnly, L.Cleared, s.vec, s'.vec, i);
      forall k: nat | k < |s.calls| && k != i ensures s'.vec.pcs[k] == s.vec.pcs[k] {
        V.StepMovesOne(V.ResizeOnly, L.Cleared, s.vec, s'.vec, k, i);
      }
    }
  }

  ghost predicate IsCloser(s: System, s': System) {
    && |s.vec.pcs| == |s.calls| && |s'.vec.pcs| == |s'.calls|
    && Work(|s'.vec.cells|, s'.vec.pcs, s'.calls) < Work(|s.vec.cells|, s.vec.pcs, s.calls)
  }

  lemma {:induction false} StepIsCloser(s: System, s': System, i: nat)
    requires Inv(s) && i < |s.calls| && !s.calls[i].Out? && InSlice(s, i) && Step(s, s', i)
    ensures IsCloser(s, s')
  {
    StepLowersRank(s, s', i);
    WorkLess(|s'.vec.cells|, |s.vec.cells|, s'.vec.pcs, s'.calls, s.vec.pcs, s.calls, i);
  }

  lemma {:induction false} InsideIsCloser(s: System, s': System)
    requires Inv(s) && Inside(s, s')
    ensures Inv(s') && IsCloser(s, s')
  {
    var i :| 0 <= i < |s.calls| && !s.calls[i].Out? && InSlice(s, i) && Step(s, s', i);
    StepRefines(s, s', i);
    StepIsCloser(s, s', i);
  }

  ghost predicate Maximal(run: nat -> System) {
    forall k: nat :: Inside(run(k), run(k + 1)) || !CanMove(run(k))
  }

  // Every call of `notify` returns, in every order of steps.
  lemma {:induction false} EveryCallReturns(run: nat -> System, k: nat) returns (n: nat)
    requires Maximal(run) && Inv(run(k))
    ensures k <= n && Quiet(run(n))
    decreases if Inv(run(k)) then Work(|run(k).vec.cells|, run(k).vec.pcs, run(k).calls) else 0
  {
    if CanMove(run(k)) {
      InsideIsCloser(run(k), run(k + 1));
      n := EveryCallReturns(run, k + 1);
    } else {
      n := k;
      forall i | 0 <= i < |run(k).calls| ensures run(k).calls[i].Out? {
        if !run(k).calls[i].Out? { NeverStuck(run(k), i); }
      }
    }
  }
}
