// The vector whose pushes do not block reads, as a transition system with any number of threads. Access
// to the data goes through the read-optimized lock, of which only the exclusion is used here.
module ConcurrentVecModel {
  import opened Options

  // Either only `push` or only `resize_with` is used on a vector.
  datatype Mode = PushOnly | ResizeOnly

  datatype Pc<T> =
    | Idle
    | PushLock(item: T)          // wants the write mutex
    | PushHead(item: T)
    | ResizePeek(n: nat)         // looks at the head without the mutex
    | ResizeLock(n: nat)
    | ResizeHead(n: nat)
    | SlotRead(index: nat, item: T)    // wants to read the data
    | SlotWrite(index: nat, item: T)   // reads the data, finds the slot or not
    | GrowLock(index: nat, item: T)    // wants the data for itself
    | Growing(index: nat, item: T)     // has it
    | HeadStore(index: nat, item: T)
    | Unlock
    | ReadPeek
    | ReadData(p: nat)
    | Reading(p: nat, version: nat)

  // A cell without a value is not initialised. The version counts how often the cells have moved.
  datatype State<T> = State(head: nat, cells: seq<Option<T>>, version: nat, mutex: Option<nat>, pcs: seq<Pc<T>>)

  predicate HasMutex<T>(pc: Pc<T>) {
    pc.PushHead? || pc.ResizeHead? || pc.SlotRead? || pc.SlotWrite? || pc.GrowLock? || pc.Growing? || pc.HeadStore? || pc.Unlock?
  }

  predicate HasData<T>(pc: Pc<T>) {
    pc.SlotWrite? || pc.Growing? || pc.Reading?
  }

  // The data may be shared unless a thread has it for itself.
  predicate Readable<T>(s: State<T>) {
    forall i :: 0 <= i < |s.pcs| ==> !s.pcs[i].Growing?
  }

  predicate Lockable<T>(s: State<T>) {
    forall i :: 0 <= i < |s.pcs| ==> !HasData(s.pcs[i])
  }

  function PowerFrom(p: nat, n: nat): (r: nat)
    requires p > 0
    ensures n <= r && p <= r
    decreases n - p
  {
    if n <= p then p else PowerFrom(2 * p, n)
  }

  function NextPowerOfTwo(n: nat): (r: nat)
    ensures n <= r
  {
    PowerFrom(1, n)
  }

  function At<T>(s: State<T>, i: nat, pc: Pc<T>): State<T>
    requires i < |s.pcs|
  {
    s.(pcs := s.pcs[i := pc])
  }

  // What `resize` may make of the cells: `push` adds uninitialised ones, `resize_with` fresh values.
  ghost predicate Extends<T(!new)>(mode: Mode, made: T -> bool, was: seq<Option<T>>, now: seq<Option<T>>, n: nat) {
    && |now| == n && was <= now
    && (forall j :: |was| <= j < n ==> if mode.PushOnly? then now[j].None? else now[j].Some? && made(now[j].value))
  }

  ghost predicate Step<T(!new)>(mode: Mode, made: T -> bool, s: State<T>, s': State<T>, i: nat)
    requires i < |s.pcs|
  {
    match s.pcs[i]
    case Idle => (exists item :: s' == At(s, i, PushLock(item)) && mode.PushOnly?)
                 || (exists n :: s' == At(s, i, ResizePeek(n)) && mode.ResizeOnly?)
                 || s' == At(s, i, ReadPeek)
    case PushLock(item) => s.mutex.None? && s' == At(s.(mutex := Some(i)), i, PushHead(item))
    case PushHead(item) => s' == At(s, i, SlotRead(s.head, item))
    case ResizePeek(n) => s' == At(s, i, if n <= s.head then Idle else ResizeLock(n))
    case ResizeLock(n) => s.mutex.None? && s' == At(s.(mutex := Some(i)), i, ResizeHead(n))
    case ResizeHead(n) =>
      if n <= s.head then s' == At(s, i, Unlock)
      else exists item :: made(item) && s' == At(s, i, SlotRead(n - 1, item))
    case SlotRead(index, item) => Readable(s) && s' == At(s, i, SlotWrite(index, item))
    case SlotWrite(index, item) =>
      if index < |s.cells| then s' == At(s.(cells := s.cells[index := Some(item)]), i, HeadStore(index, item))
      else s' == At(s, i, GrowLock(index, item))
    case GrowLock(index, item) => Lockable(s) && s' == At(s, i, Growing(index, item))
    case Growing(index, item) =>
      && s' == At(s.(cells := s'.cells, version := s'.version), i, SlotRead(index, item))
      && (if index < |s.cells| then s'.cells == s.cells && s'.version == s.version
          else Extends(mode, made, s.cells, s'.cells, NextPowerOfTwo(index + 1)) && s'.version == s.version + 1)
    case HeadStore(index, _) => s' == At(s.(head := index + 1), i, Unlock)
    case Unlock => s' == At(s.(mutex := None), i, Idle)
    case ReadPeek => s' == At(s, i, ReadData(s.head))
    case ReadData(p) => Readable(s) && s' == At(s, i, Reading(p, s.version))
    case Reading(_, _) => s' == At(s, i, Idle)
  }

  // A reader changes a value it sees through the value itself, as an atomic flag is changed.
  ghost predicate Touch<T(!new)>(s: State<T>, s': State<T>, i: nat, j: nat)
    requires i < |s.pcs|
  {
    s.pcs[i].Reading? && j < s.pcs[i].p && j < |s.cells| && exists v :: s' == s.(cells := s.cells[j := Some(v)])
  }

  ghost predicate Next<T(!new)>(mode: Mode, made: T -> bool, s: State<T>, s': State<T>) {
    || (exists i :: 0 <= i < |s.pcs| && Step(mode, made, s, s', i))
    || (exists i, j :: 0 <= i < |s.pcs| && 0 <= j && Touch(s, s', i, j))
  }

  function Init<T>(threads: nat): State<T> {
    State(0, [], 0, None, seq(threads, _ => Idle))
  }

  // ---------------------------------------------------------------- the invariant

  predicate InSection<T>(pc: Pc<T>) {
    pc.SlotRead? || pc.SlotWrite? || pc.GrowLock? || pc.Growing? || pc.HeadStore?
  }

  ghost predicate PcOk<T>(mode: Mode, made: T -> bool, s: State<T>, pc: Pc<T>) {
    && (InSection(pc) ==> s.head <= pc.index && (mode.PushOnly? ==> pc.index == s.head) && (mode.ResizeOnly? ==> made(pc.item)))
    && (pc.PushLock? || pc.PushHead? ==> mode.PushOnly?) && (pc.ResizePeek? || pc.ResizeLock? || pc.ResizeHead? ==> mode.ResizeOnly?)
    && (pc.HeadStore? ==> pc.index < |s.cells| && s.cells[pc.index] == Some(pc.item))
    && (pc.ReadData? || pc.Reading? ==> pc.p <= s.head)
    && (pc.Reading? ==> pc.version == s.version)
  }

  ghost predicate CellOk<T>(mode: Mode, made: T -> bool, s: State<T>, j: nat)
    requires j < |s.cells|
  {
    && (j < s.head || mode.ResizeOnly? ==> s.cells[j].Some?)
    && (s.head <= j && mode.ResizeOnly? ==> s.cells[j].Some? && made(s.cells[j].value))
  }

  ghost predicate Inv<T(!new)>(mode: Mode, made: T -> bool, s: State<T>) {
    && s.head <= |s.cells|
    && (s.mutex.Some? ==> s.mutex.value < |s.pcs|)
    && (forall i :: 0 <= i < |s.pcs| ==> (HasMutex(s.pcs[i]) <==> s.mutex == Some(i)))
    && (forall i :: 0 <= i < |s.pcs| ==> PcOk(mode, made, s, s.pcs[i]))
    && (forall j :: 0 <= j < |s.cells| ==> CellOk(mode, made, s, j))
    && (forall i, k :: 0 <= i < |s.pcs| && 0 <= k < |s.pcs| && i != k && s.pcs[i].Growing? ==> !HasData(s.pcs[k]))
  }

  // Steps that only move a thread: the mutex may change hands, the data may be entered.
  lemma {:induction false} MoveKeepsInv<T(!new)>(mode: Mode, made: T -> bool, s: State<T>, i: nat, pc: Pc<T>, mutex: Option<nat>)
    requires Inv(mode, made, s) && i < |s.pcs| && PcOk(mode, made, s, pc)
    requires (HasMutex(pc) <==> mutex == Some(i))
    requires mutex == s.mutex || (s.mutex.None? && mutex == Some(i)) || (s.mutex == Some(i) && mutex.None?)
    requires HasData(pc) ==> HasData(s.pcs[i]) || Readable(s)
    requires pc.Growing? ==> Lockable(s)
    ensures Inv(mode, made, At(s.(mutex := mutex), i, pc))
  {
    var s' := At(s.(mutex := mutex), i, pc);
    forall k | 0 <= k < |s'.pcs| ensures PcOk(mode, made, s', s'.pcs[k]) && (HasMutex(s'.pcs[k]) <==> s'.mutex == Some(k)) {
      assert HasMutex(s.pcs[i]) <==> s.mutex == Some(i);
      assert PcOk(mode, made, s, s.pcs[k]) && (HasMutex(s.pcs[k]) <==> s.mutex == Some(k));
    }
    forall j | 0 <= j < |s'.cells| ensures CellOk(mode, made, s', j) { assert CellOk(mode, made, s, j); }
  }

  // The holder of the mutex is alone in its section.
  lemma {:induction false} OthersOutside<T(!new)>(mode: Mode, made: T -> bool, s: State<T>, i: nat)
    requires Inv(mode, made, s) && i < |s.pcs| && HasMutex(s.pcs[i])
    ensures forall k :: 0 <= k < |s.pcs| && k != i ==> !HasMutex(s.pcs[k])
  {
    assert HasMutex(s.pcs[i]) <==> s.mutex == Some(i);
    forall k | 0 <= k < |s.pcs| && k != i ensures !HasMutex(s.pcs[k]) {
      assert HasMutex(s.pcs[k]) <==> s.mutex == Some(k);
    }
  }

  // The thread in the section changes hidden cells, or shows some; the others see no difference.
  lemma {:induction false} SectionKeepsInv<T(!new)>(mode: Mode, made: T -> bool, s: State<T>, s': State<T>, i: nat)
    requires Inv(mode, made, s) && i < |s.pcs| == |s'.pcs| && HasMutex(s.pcs[i]) && HasMutex(s'.pcs[i]) && !HasData(s'.pcs[i])
    requires s'.mutex == s.mutex && s'.pcs == s.pcs[i := s'.pcs[i]]
    requires s.head <= s'.head <= |s'.cells| && (s'.version == s.version || s.pcs[i].Growing?)
    requires PcOk(mode, made, s', s'.pcs[i])
    requires forall j :: 0 <= j < |s'.cells| ==> CellOk(mode, made, s', j)
    ensures Inv(mode, made, s')
  {
    OthersOutside(mode, made, s, i);
    forall k | 0 <= k < |s'.pcs| ensures PcOk(mode, made, s', s'.pcs[k]) && (HasMutex(s'.pcs[k]) <==> s'.mutex == Some(k)) {
      assert PcOk(mode, made, s, s.pcs[k]) && (HasMutex(s.pcs[k]) <==> s.mutex == Some(k));
      assert HasMutex(s.pcs[i]) <==> s.mutex == Some(i);
    }
  }

  lemma {:induction false} WriteKeepsInv<T(!new)>(mode: Mode, made: T -> bool, s: State<T>, s': State<T>, i: nat)
    requires Inv(mode, made, s) && i < |s.pcs| && Step(mode, made, s, s', i)
    requires s.pcs[i].SlotWrite? && s.pcs[i].index < |s.cells|
    ensures Inv(mode, made, s')
  {
    assert PcOk(mode, made, s, s.pcs[i]);
    forall j | 0 <= j < |s'.cells| ensures CellOk(mode, made, s', j) { assert CellOk(mode, made, s, j); }
    SectionKeepsInv(mode, made, s, s', i);
  }

  lemma {:induction false} GrowKeepsInv<T(!new)>(mode: Mode, made: T -> bool, s: State<T>, s': State<T>, i: nat)
    requires Inv(mode, made, s) && i < |s.pcs| && Step(mode, made, s, s', i)
    requires s.pcs[i].Growing? && s.pcs[i].index >= |s.cells|
    ensures Inv(mode, made, s')
  {
    assert PcOk(mode, made, s, s.pcs[i]);
    forall j | 0 <= j < |s'.cells| ensures CellOk(mode, made, s', j) {
      if j < |s.cells| { assert CellOk(mode, made, s, j); }
    }
    SectionKeepsInv(mode, made, s, s', i);
  }

  lemma {:induction false} StoreKeepsInv<T(!new)>(mode: Mode, made: T -> bool, s: State<T>, s': State<T>, i: nat)
    requires Inv(mode, made, s) && i < |s.pcs| && Step(mode, made, s, s', i) && s.pcs[i].HeadStore?
    ensures Inv(mode, made, s')
  {
    assert PcOk(mode, made, s, s.pcs[i]);
    forall j | 0 <= j < |s'.cells| ensures CellOk(mode, made, s', j) { assert CellOk(mode, made, s, j); }
    SectionKeepsInv(mode, made, s, s', i);
  }

  lemma {:induction false} PlaceKeepsInv<T(!new)>(mode: Mode, made: T -> bool, s: State<T>, s': State<T>, i: nat)
    requires Inv(mode, made, s) && i < |s.pcs| && Step(mode, made, s, s', i)
    requires !s.pcs[i].HeadStore? && (s.pcs[i].Growing? ==> s.pcs[i].index < |s.cells|) && (s.pcs[i].SlotWrite? ==> s.pcs[i].index >= |s.cells|)
    ensures Inv(mode, made, s')
  {
    PlaceIsOk(mode, made, s, s', i);
    MoveKeepsInv(mode, made, s, i, s'.pcs[i], s'.mutex);
  }

  lemma {:induction false} PlaceIsOk<T(!new)>(mode: Mode, made: T -> bool, s: State<T>, s': State<T>, i: nat)
    requires Inv(mode, made, s) && i < |s.pcs| && Step(mode, made, s, s', i)
    requires !s.pcs[i].HeadStore? && (s.pcs[i].Growing? ==> s.pcs[i].index < |s.cells|) && (s.pcs[i].SlotWrite? ==> s.pcs[i].index >= |s.cells|)
    ensures i < |s'.pcs| && PcOk(mode, made, s, s'.pcs[i]) && s' == At(s.(mutex := s'.mutex), i, s'.pcs[i])
    ensures HasMutex(s'.pcs[i]) <==> s'.mutex == Some(i)
    ensures s'.mutex == s.mutex || (s.mutex.None? && s'.mutex == Some(i)) || (s.mutex == Some(i) && s'.mutex.None?)
  {
    assert HasMutex(s.pcs[i]) <==> s.mutex == Some(i);
    assert PcOk(mode, made, s, s.pcs[i]);
  }

  lemma {:induction false} StepKeepsInv<T(!new)>(mode: Mode, made: T -> bool, s: State<T>, s': State<T>, i: nat)
    requires Inv(mode, made, s) && i < |s.pcs| && Step(mode, made, s, s', i)
    ensures Inv(mode, made, s')
  {
    var pc := s.pcs[i];
    if pc.HeadStore? {
      StoreKeepsInv(mode, made, s, s', i);
    } else if pc.Growing? && pc.index >= |s.cells| {
      GrowKeepsInv(mode, made, s, s', i);
    } else if pc.SlotWrite? && pc.index < |s.cells| {
      WriteKeepsInv(mode, made, s, s', i);
    } else {
      PlaceKeepsInv(mode, made, s, s', i);
    }
  }

  lemma {:induction false} TouchKeepsInv<T(!new)>(mode: Mode, made: T -> bool, s: State<T>, s': State<T>, i: nat, j: nat)
    requires Inv(mode, made, s) && i < |s.pcs| && Touch(s, s', i, j)
    ensures Inv(mode, made, s')
  {
    assert PcOk(mode, made, s, s.pcs[i]);
    forall k | 0 <= k < |s'.pcs| ensures PcOk(mode, made, s', s'.pcs[k]) { assert PcOk(mode, made, s, s.pcs[k]); }
    forall k | 0 <= k < |s'.cells| ensures CellOk(mode, made, s', k) { assert CellOk(mode, made, s, k); }
  }

  ghost predicate Run<T(!new)>(mode: Mode, made: T -> bool, trace: seq<State<T>>) {
    && trace != [] && (exists n :: trace[0] == Init<T>(n))
    && (forall k :: 0 < k < |trace| ==> Next(mode, made, trace[k - 1], trace[k]))
  }

  lemma {:induction false} RunKeepsInv<T(!new)>(mode: Mode, made: T -> bool, trace: seq<State<T>>, k: nat)
    requires Run(mode, made, trace) && k < |trace|
    ensures Inv(mode, made, trace[k])
  {
    if k == 0 {
      var n :| trace[0] == Init<T>(n);
    } else {
      RunKeepsInv(mode, made, trace, k - 1);
      NextKeepsInv(mode, made, trace[k - 1], trace[k]);
    }
  }

  lemma {:induction false} NextKeepsInv<T(!new)>(mode: Mode, made: T -> bool, s: State<T>, s': State<T>)
    requires Inv(mode, made, s) && Next(mode, made, s, s')
    ensures Inv(mode, made, s')
  {
    if i :| 0 <= i < |s.pcs| && Step(mode, made, s, s', i) {
      StepKeepsInv(mode, made, s, s', i);
    } else {
      var i, j :| 0 <= i < |s.pcs| && 0 <= j && Touch(s, s', i, j);
      TouchKeepsInv(mode, made, s, s', i, j);
    }
  }

  // ---------------------------------------------------------------- what readers see

  // The cells below the head, which a read may return.
  ghost function Visible<T>(s: State<T>): seq<Option<T>>
    requires s.head <= |s.cells|
  {
    s.cells[..s.head]
  }

  // In every reachable state all visible cells are initialised, and a live reader's slice lies
  // within them; the cells have not moved since it was taken.
  lemma {:induction false} SlicesAreValid<T(!new)>(mode: Mode, made: T -> bool, trace: seq<State<T>>, k: nat, i: nat)
    requires Run(mode, made, trace) && k < |trace| && i < |trace[k].pcs|
    ensures var s := trace[k];
      && s.head <= |s.cells| && (forall j :: 0 <= j < s.head ==> Visible(s)[j].Some?)
      && (s.pcs[i].Reading? ==> s.pcs[i].p <= s.head && s.pcs[i].version == s.version)
  {
    RunKeepsInv(mode, made, trace, k);
    var s := trace[k];
    assert PcOk(mode, made, s, s.pcs[i]);
    forall j | 0 <= j < s.head ensures Visible(s)[j].Some? { assert CellOk(mode, made, s, j); }
  }

  // No step but a reader's own touch changes what is visible; it can only grow, and when it does a
  // push adds its item at the index it returns, and `resize_with` adds values it has made.
  lemma {:induction false} VisibleGrows<T(!new)>(mode: Mode, made: T -> bool, s: State<T>, s': State<T>, i: nat)
    requires Inv(mode, made, s) && i < |s.pcs| && Step(mode, made, s, s', i)
    ensures Inv(mode, made, s') && Visible(s) <= Visible(s')
    ensures !s.pcs[i].HeadStore? ==> Visible(s') == Visible(s)
    ensures s.pcs[i].HeadStore? ==> |Visible(s')| == s.pcs[i].index + 1
    ensures s.pcs[i].HeadStore? && mode.PushOnly? ==> s.pcs[i].index == |Visible(s)| && Visible(s') == Visible(s) + [Some(s.pcs[i].item)]
    ensures s.pcs[i].HeadStore? && mode.ResizeOnly? ==>
      forall j :: s.head <= j < s'.head ==> Visible(s')[j].Some? && made(Visible(s')[j].value)
  {
    StepKeepsInv(mode, made, s, s', i);
    assert PcOk(mode, made, s, s.pcs[i]);
    if s.pcs[i].HeadStore? && mode.ResizeOnly? {
      forall j | s.head <= j < s'.head ensures Visible(s')[j].Some? && made(Visible(s')[j].value) { assert CellOk(mode, made, s, j); }
    }
  }

  ghost predicate Untouched<T(!new)>(mode: Mode, made: T -> bool, s: State<T>, s': State<T>) {
    exists i :: 0 <= i < |s.pcs| && Step(mode, made, s, s', i)
  }

  lemma {:induction false} UntouchedGrows<T(!new)>(mode: Mode, made: T -> bool, s: State<T>, s': State<T>)
    requires Inv(mode, made, s) && Untouched(mode, made, s, s')
    ensures s.head <= |s.cells| && s'.head <= |s'.cells| && Visible(s) <= Visible(s')
  {
    var i :| 0 <= i < |s.pcs| && Step(mode, made, s, s', i);
    VisibleGrows(mode, made, s, s', i);
  }

  // A run in which no reader changes a value itself.
  ghost predicate QuietRun<T(!new)>(mode: Mode, made: T -> bool, trace: seq<State<T>>) {
    Run(mode, made, trace) && forall k :: 0 < k < |trace| ==> Untouched(mode, made, trace[k - 1], trace[k])
  }

  ghost predicate Stable<T>(a: State<T>, b: State<T>) {
    a.head <= |a.cells| && b.head <= |b.cells| && Visible(a) <= Visible(b)
  }

  lemma {:induction false} QuietStep<T(!new)>(mode: Mode, made: T -> bool, trace: seq<State<T>>, k: nat)
    requires QuietRun(mode, made, trace) && k < |trace|
    ensures Stable(trace[k], trace[k]) && (k > 0 ==> Stable(trace[k - 1], trace[k]))
  {
    RunKeepsInv(mode, made, trace, k);
    StableSelf(mode, made, trace[k]);
    if k > 0 {
      RunKeepsInv(mode, made, trace, k - 1);
      assert Untouched(mode, made, trace[k - 1], trace[k]);
      UntouchedGrows(mode, made, trace[k - 1], trace[k]);
    }
  }

  lemma {:induction false} StableSelf<T(!new)>(mode: Mode, made: T -> bool, s: State<T>)
    requires Inv(mode, made, s)
    ensures Stable(s, s)
  {}

  // What one reader sees is a prefix of what every later reader sees.
  lemma {:induction false} ReadsAreStable<T(!new)>(mode: Mode, made: T -> bool, trace: seq<State<T>>, a: nat, b: nat)
    requires QuietRun(mode, made, trace) && a <= b < |trace|
    ensures Stable(trace[a], trace[b])
  {
    QuietStep(mode, made, trace, b);
    if a < b {
      ReadsAreStable(mode, made, trace, a, b - 1);
    }
  }

  ghost predicate IsPush<T(!new)>(made: T -> bool, s: State<T>, s': State<T>) {
    exists i :: 0 <= i < |s.pcs| && s.pcs[i].HeadStore? && Step(PushOnly, made, s, s', i)
  }

  // How many pushes have taken effect before the k-th state.
  ghost function PushesBefore<T(!new)>(made: T -> bool, trace: seq<State<T>>, k: nat): nat
    requires k < |trace|
  {
    if k == 0 then 0 else PushesBefore(made, trace, k - 1) + (if IsPush(made, trace[k - 1], trace[k]) then 1 else 0)
  }

  lemma {:induction false} PushMovesHead<T(!new)>(made: T -> bool, s: State<T>, s': State<T>)
    requires Inv(PushOnly, made, s) && Next(PushOnly, made, s, s')
    ensures s'.head == s.head + (if IsPush(made, s, s') then 1 else 0)
  {
    if IsPush(made, s, s') {
      var i :| 0 <= i < |s.pcs| && s.pcs[i].HeadStore? && Step(PushOnly, made, s, s', i);
      assert PcOk(PushOnly, made, s, s.pcs[i]);
    } else if i :| 0 <= i < |s.pcs| && Step(PushOnly, made, s, s', i) {
      assert !s.pcs[i].HeadStore?;
    }
  }

  lemma {:induction false} PushMovesHeadAt<T(!new)>(made: T -> bool, trace: seq<State<T>>, k: nat)
    requires Run(PushOnly, made, trace) && 0 < k < |trace|
    ensures trace[k].head == trace[k - 1].head + (if IsPush(made, trace[k - 1], trace[k]) then 1 else 0)
  {
    RunKeepsInv(PushOnly, made, trace, k - 1);
    PushMovesHead(made, trace[k - 1], trace[k]);
  }

  lemma {:induction false} HeadCountsPushes<T(!new)>(made: T -> bool, trace: seq<State<T>>, k: nat)
    requires Run(PushOnly, made, trace) && k < |trace|
    ensures trace[k].head == PushesBefore(made, trace, k)
  {
    if k > 0 {
      HeadCountsPushes(made, trace, k - 1);
      PushMovesHeadAt(made, trace, k);
    } else {
      var n :| trace[0] == Init<T>(n);
    }
  }

  // In every run the pushes take effect at 0, 1, 2 and so on, each at the index it returns.
  lemma {:induction false} PushReturnsItsNumber<T(!new)>(made: T -> bool, trace: seq<State<T>>, k: nat, i: nat)
    requires Run(PushOnly, made, trace) && k < |trace| && i < |trace[k].pcs| && trace[k].pcs[i].HeadStore?
    ensures trace[k].pcs[i].index == PushesBefore(made, trace, k)
  {
    RunKeepsInv(PushOnly, made, trace, k);
    HeadCountsPushes(made, trace, k);
    assert PcOk(PushOnly, made, trace[k], trace[k].pcs[i]);
  }

  lemma {:induction false} CountGrows<T(!new)>(made: T -> bool, trace: seq<State<T>>, a: nat, b: nat)
    requires a < b < |trace| && IsPush(made, trace[a], trace[a + 1])
    ensures PushesBefore(made, trace, a) < PushesBefore(made, trace, b)
  {
    if a + 1 < b { CountGrows(made, trace, a, b - 1); }
  }

  // A push that takes effect later returns a greater index, whatever readers do.
  lemma {:induction false} PushIndicesIncrease<T(!new)>(made: T -> bool, trace: seq<State<T>>, a: nat, b: nat, i: nat, j: nat)
    requires Run(PushOnly, made, trace) && a < b < |trace| && i < |trace[a].pcs| && j < |trace[b].pcs|
    requires trace[a].pcs[i].HeadStore? && Step(PushOnly, made, trace[a], trace[a + 1], i) && trace[b].pcs[j].HeadStore?
    ensures trace[a].pcs[i].index < trace[b].pcs[j].index
  {
    assert IsPush(made, trace[a], trace[a + 1]);
    CountGrows(made, trace, a, b);
    PushReturnsItsNumber(made, trace, a, i);
    PushReturnsItsNumber(made, trace, b, j);
  }

  // ---------------------------------------------------------------- what calls come to

  // Inside a push of the item, before it has taken effect.
  ghost predicate Pushes<T>(pc: Pc<T>, item: T) {
    match pc
    case PushLock(x) => x == item
    case PushHead(x) => x == item
    case SlotRead(_, x) => x == item
    case SlotWrite(_, x) => x == item
    case GrowLock(_, x) => x == item
    case Growing(_, x) => x == item
    case HeadStore(_, x) => x == item
    case _ => false
  }

  // Inside a resize to at least that length, before it has taken effect.
  predicate Resizes<T>(pc: Pc<T>, n: nat) {
    match pc
    case ResizePeek(m) => m == n
    case ResizeLock(m) => m == n
    case ResizeHead(m) => m == n
    case SlotRead(index, _) => index + 1 == n
    case SlotWrite(index, _) => index + 1 == n
    case GrowLock(index, _) => index + 1 == n
    case Growing(index, _) => index + 1 == n
    case HeadStore(index, _) => index + 1 == n
    case _ => false
  }

  lemma {:induction false} PushStep<T(!new)>(made: T -> bool, s: State<T>, s': State<T>, i: nat, item: T)
    requires Inv(PushOnly, made, s) && i < |s.pcs| && Step(PushOnly, made, s, s', i) && Pushes(s.pcs[i], item)
    ensures |s'.pcs| == |s.pcs|
    ensures !Pushes(s'.pcs[i], item) ==> Visible(s) <= Visible(s') && Visible(s') == Visible(s) + [Some(item)]
  {
    assert PcOk(PushOnly, made, s, s.pcs[i]);
    VisibleGrows(PushOnly, made, s, s', i);
  }

  lemma {:induction false} ResizeStep<T(!new)>(made: T -> bool, s: State<T>, s': State<T>, i: nat, n: nat)
    requires Inv(ResizeOnly, made, s) && i < |s.pcs| && Step(ResizeOnly, made, s, s', i) && Resizes(s.pcs[i], n)
    ensures |s'.pcs| == |s.pcs| && (!Resizes(s'.pcs[i], n) ==> n <= s'.head)
  {
    assert PcOk(ResizeOnly, made, s, s.pcs[i]);
  }

  // A step leaves the other threads where they are.
  lemma {:induction false} OtherWaits<T(!new)>(mode: Mode, made: T -> bool, s: State<T>, s': State<T>, i: nat)
    requires Next(mode, made, s, s') && i < |s.pcs| && !Step(mode, made, s, s', i)
    ensures |s'.pcs| == |s.pcs| && s'.pcs[i] == s.pcs[i]
  {
    if j :| 0 <= j < |s.pcs| && Step(mode, made, s, s', j) { StepMovesOne(mode, made, s, s', i, j); }
  }

  lemma {:induction false} StepMovesOne<T(!new)>(mode: Mode, made: T -> bool, s: State<T>, s': State<T>, i: nat, j: nat)
    requires i < |s.pcs| && j < |s.pcs| && Step(mode, made, s, s', j)
    ensures |s'.pcs| == |s.pcs| && (i != j ==> s'.pcs[i] == s.pcs[i])
  {}

  ghost predicate Appends<T>(s: State<T>, s': State<T>, item: T) {
    s.head <= |s.cells| && s'.head <= |s'.cells| && Visible(s') == Visible(s) + [Some(item)]
  }

  ghost predicate IsPushing<T>(s: State<T>, i: nat, item: T) {
    i < |s.pcs| && Pushes(s.pcs[i], item)
  }

  lemma {:induction false} PushGoesOn<T(!new)>(made: T -> bool, trace: seq<State<T>>, k: nat, i: nat, item: T)
    requires Run(PushOnly, made, trace) && 0 < k < |trace| && IsPushing(trace[k - 1], i, item)
    ensures IsPushing(trace[k], i, item) || Appends(trace[k - 1], trace[k], item)
  {
    RunKeepsInv(PushOnly, made, trace, k - 1);
    RunKeepsInv(PushOnly, made, trace, k);
    PushNext(made, trace[k - 1], trace[k], i, item);
  }

  lemma {:induction false} PushNext<T(!new)>(made: T -> bool, s: State<T>, s': State<T>, i: nat, item: T)
    requires Inv(PushOnly, made, s) && Inv(PushOnly, made, s') && Next(PushOnly, made, s, s') && IsPushing(s, i, item)
    ensures IsPushing(s', i, item) || Appends(s, s', item)
  {
    if Step(PushOnly, made, s, s', i) { PushStep(made, s, s', i, item); } else { OtherWaits(PushOnly, made, s, s', i); }
  }

  lemma {:induction false} PushEnds<T(!new)>(trace: seq<State<T>>, a: nat, b: nat, i: nat, item: T)
    requires a <= b < |trace| && IsPushing(trace[a], i, item)
    requires forall k :: a < k <= b && IsPushing(trace[k - 1], i, item) ==> IsPushing(trace[k], i, item) || Appends(trace[k - 1], trace[k], item)
    ensures IsPushing(trace[b], i, item) || exists k :: a < k <= b && Appends(trace[k - 1], trace[k], item)
  {
    if a < b { PushEnds(trace, a, b - 1, i, item); }
  }

  // Between the call of `push` and its end its item is appended.
  lemma {:induction false} PushAppends<T(!new)>(made: T -> bool, trace: seq<State<T>>, a: nat, b: nat, i: nat, item: T)
    requires Run(PushOnly, made, trace) && a <= b < |trace| && i < |trace[a].pcs|
    requires Pushes(trace[a].pcs[i], item) && i < |trace[b].pcs| && !Pushes(trace[b].pcs[i], item)
    ensures exists k :: a < k <= b && Appends(trace[k - 1], trace[k], item)
  {
    forall k | a < k <= b && IsPushing(trace[k - 1], i, item) ensures IsPushing(trace[k], i, item) || Appends(trace[k - 1], trace[k], item) {
      PushGoesOn(made, trace, k, i, item);
    }
    PushEnds(trace, a, b, i, item);
  }

  lemma {:induction false} HeadStaysUp<T(!new)>(mode: Mode, made: T -> bool, trace: seq<State<T>>, a: nat, b: nat)
    requires Run(mode, made, trace) && a <= b < |trace|
    ensures trace[a].head <= trace[b].head
  {
    if a < b {
      HeadStaysUp(mode, made, trace, a, b - 1);
      HeadStaysUpAt(mode, made, trace, b);
    }
  }

  lemma {:induction false} HeadStaysUpAt<T(!new)>(mode: Mode, made: T -> bool, trace: seq<State<T>>, k: nat)
    requires Run(mode, made, trace) && 0 < k < |trace|
    ensures trace[k - 1].head <= trace[k].head
  {
    RunKeepsInv(mode, made, trace, k - 1);
    var s, s' := trace[k - 1], trace[k];
    assert Next(mode, made, s, s');
    if i :| 0 <= i < |s.pcs| && Step(mode, made, s, s', i) { VisibleGrows(mode, made, s, s', i); }
  }

  predicate IsResizing<T>(s: State<T>, i: nat, n: nat) {
    i < |s.pcs| && Resizes(s.pcs[i], n)
  }

  lemma {:induction false} ResizeNext<T(!new)>(made: T -> bool, s: State<T>, s': State<T>, i: nat, n: nat)
    requires Inv(ResizeOnly, made, s) && Next(ResizeOnly, made, s, s') && IsResizing(s, i, n)
    ensures IsResizing(s', i, n) || n <= s'.head
  {
    if Step(ResizeOnly, made, s, s', i) { ResizeStep(made, s, s', i, n); } else { OtherWaits(ResizeOnly, made, s, s', i); }
  }

  predicate Grows<T>(s: State<T>, s': State<T>, i: nat, n: nat) {
    s.head <= s'.head && (IsResizing(s, i, n) ==> IsResizing(s', i, n) || n <= s'.head)
  }

  lemma {:induction false} ResizeGrows<T(!new)>(made: T -> bool, trace: seq<State<T>>, k: nat, i: nat, n: nat)
    requires Run(ResizeOnly, made, trace) && 0 < k < |trace|
    ensures Grows(trace[k - 1], trace[k], i, n)
  {
    HeadStaysUpAt(ResizeOnly, made, trace, k);
    if IsResizing(trace[k - 1], i, n) {
      RunKeepsInv(ResizeOnly, made, trace, k - 1);
      ResizeNext(made, trace[k - 1], trace[k], i, n);
    }
  }

  lemma {:induction false} ResizeEnds<T>(trace: seq<State<T>>, a: nat, b: nat, i: nat, n: nat)
    requires a <= b < |trace| && IsResizing(trace[a], i, n)
    requires forall k :: a < k <= b ==> Grows(trace[k - 1], trace[k], i, n)
    ensures IsResizing(trace[b], i, n) || n <= trace[b].head
  {
    if a < b {
      ResizeEnds(trace, a, b - 1, i, n);
      assert Grows(trace[b - 1], trace[b], i, n);
    }
  }

  // When `resize_with` has returned, there are as many values as asked for.
  lemma {:induction false} ResizeHasGrown<T(!new)>(made: T -> bool, trace: seq<State<T>>, a: nat, b: nat, i: nat, n: nat)
    requires Run(ResizeOnly, made, trace) && a <= b < |trace| && i < |trace[a].pcs| && Resizes(trace[a].pcs[i], n)
    requires i < |trace[b].pcs| && !Resizes(trace[b].pcs[i], n)
    ensures n <= trace[b].head
  {
    forall k | a < k <= b ensures Grows(trace[k - 1], trace[k], i, n) { ResizeGrows(made, trace, k, i, n); }
    ResizeEnds(trace, a, b, i, n);
  }

  // Inside a read, up to and with the slice it has taken.
  predicate Reads<T>(pc: Pc<T>) {
    pc.ReadPeek? || pc.ReadData? || pc.Reading?
  }

  // The length read is the head at some moment of the read: neither a value that was there before it began
  // is missing, nor is there one that is not there yet.
  ghost predicate LengthRead<T>(trace: seq<State<T>>, a: nat, b: nat, pc: Pc<T>)
    requires a <= b < |trace|
  {
    (pc.ReadData? || pc.Reading?) ==> exists k :: a <= k <= b && trace[k].head == pc.p
  }

  predicate ReadGoesOn<T>(s: State<T>, pc: Pc<T>, i: nat) {
    (pc.ReadData? || pc.Reading?) && i < |s.pcs| && Reads(s.pcs[i]) ==> pc.p == if s.pcs[i].ReadPeek? then s.head else s.pcs[i].p
  }

  lemma {:induction false} OwnReadGoesOn<T(!new)>(mode: Mode, made: T -> bool, s: State<T>, s': State<T>, i: nat)
    requires i < |s.pcs| && Step(mode, made, s, s', i) && Reads(s.pcs[i])
    ensures |s'.pcs| == |s.pcs| && ReadGoesOn(s, s'.pcs[i], i)
  {}

  lemma {:induction false} ReadStep<T(!new)>(mode: Mode, made: T -> bool, s: State<T>, s': State<T>, i: nat)
    requires Next(mode, made, s, s') && i < |s.pcs| && i < |s'.pcs| && Reads(s.pcs[i])
    ensures ReadGoesOn(s, s'.pcs[i], i)
  {
    if Step(mode, made, s, s', i) { OwnReadGoesOn(mode, made, s, s', i); } else { OtherWaits(mode, made, s, s', i); }
  }

  lemma {:induction false} ReadStepAt<T(!new)>(mode: Mode, made: T -> bool, trace: seq<State<T>>, k: nat, i: nat)
    requires Run(mode, made, trace) && 0 < k < |trace| && i < |trace[k - 1].pcs| && i < |trace[k].pcs| && Reads(trace[k - 1].pcs[i])
    ensures ReadGoesOn(trace[k - 1], trace[k].pcs[i], i)
  {
    ReadStep(mode, made, trace[k - 1], trace[k], i);
  }

  lemma {:induction false} LengthIsOfTheTime<T>(trace: seq<State<T>>, a: nat, b: nat, i: nat)
    requires a <= b < |trace| && i < |trace[a].pcs| && trace[a].pcs[i].ReadPeek?
    requires forall k :: a <= k <= b ==> i < |trace[k].pcs| && Reads(trace[k].pcs[i])
    requires forall k :: a < k <= b ==> ReadGoesOn(trace[k - 1], trace[k].pcs[i], i)
    ensures LengthRead(trace, a, b, trace[b].pcs[i])
  {
    if a < b {
      LengthIsOfTheTime(trace, a, b - 1, i);
      assert ReadGoesOn(trace[b - 1], trace[b].pcs[i], i) && Reads(trace[b - 1].pcs[i]);
    }
  }

  lemma {:induction false} ReadIsOfTheTime<T(!new)>(mode: Mode, made: T -> bool, trace: seq<State<T>>, a: nat, b: nat, i: nat)
    requires Run(mode, made, trace) && a <= b < |trace| && i < |trace[a].pcs| && trace[a].pcs[i].ReadPeek?
    requires forall k :: a <= k <= b ==> i < |trace[k].pcs| && Reads(trace[k].pcs[i])
    ensures LengthRead(trace, a, b, trace[b].pcs[i])
  {
    forall k | a < k <= b ensures ReadGoesOn(trace[k - 1], trace[k].pcs[i], i) { ReadStepAt(mode, made, trace, k, i); }
    LengthIsOfTheTime(trace, a, b, i);
  }

  // A read sees all that was there when it began, and only what is there.
  lemma {:induction false} ReadSeesWhatWasThere<T(!new)>(mode: Mode, made: T -> bool, trace: seq<State<T>>, a: nat, b: nat, i: nat)
    requires Run(mode, made, trace) && a <= b < |trace| && i < |trace[a].pcs| && trace[a].pcs[i].ReadPeek?
    requires forall k :: a <= k <= b ==> i < |trace[k].pcs| && Reads(trace[k].pcs[i])
    ensures trace[b].pcs[i].Reading? ==> trace[a].head <= trace[b].pcs[i].p <= trace[b].head
  {
    if trace[b].pcs[i].Reading? {
      ReadIsOfTheTime(mode, made, trace, a, b, i);
      var k :| a <= k <= b && trace[k].head == trace[b].pcs[i].p;
      HeadStaysUp(mode, made, trace, a, k);
      HeadStaysUp(mode, made, trace, k, b);
    }
  }

  predicate IsPowerOfTwo(p: nat) {
    p == 1 || (p > 1 && p % 2 == 0 && IsPowerOfTwo(p / 2))
  }

  lemma {:induction false} PowerFromIs(p: nat, n: nat)
    requires p > 0 && IsPowerOfTwo(p)
    ensures var r := PowerFrom(p, n); IsPowerOfTwo(r) && (r > p ==> r < 2 * n)
    decreases n - p
  {
    if n > p {
      assert (2 * p) / 2 == p;
      PowerFromIs(2 * p, n);
    }
  }

  // The cells grow to the least power of two that is long enough.
  lemma {:induction false} NextPowerOfTwoIs(n: nat)
    ensures var r := NextPowerOfTwo(n); IsPowerOfTwo(r) && n <= r && (r > 1 ==> r < 2 * n)
  {
    PowerFromIs(1, n);
  }

  // The version tells whether the cells have moved.
  lemma {:induction false} MovesAreCounted<T(!new)>(mode: Mode, made: T -> bool, s: State<T>, s': State<T>)
    requires Inv(mode, made, s) && Next(mode, made, s, s')
    ensures |s'.cells| != |s.cells| ==> s'.version == s.version + 1
    ensures |s'.cells| == |s.cells| ==> s'.version == s.version
  {
    if i :| 0 <= i < |s.pcs| && Step(mode, made, s, s', i) {}
  }

  // ---------------------------------------------------------------- every call returns

  // A step of a call under way, which includes that a reader lets go of its slice.
  ghost predicate Inside<T(!new)>(mode: Mode, made: T -> bool, s: State<T>, s': State<T>) {
    exists i :: 0 <= i < |s.pcs| && !s.pcs[i].Idle? && Step(mode, made, s, s', i)
  }

  ghost predicate CanMove<T(!new)>(mode: Mode, made: T -> bool, s: State<T>) {
    exists s' :: Inside(mode, made, s, s')
  }

  // Nothing keeps the thread from its next step.
  predicate Unblocked<T>(s: State<T>, pc: Pc<T>) {
    && (pc.PushLock? || pc.ResizeLock? ==> s.mutex.None?)
    && (pc.SlotRead? || pc.ReadData? ==> Readable(s))
    && (pc.GrowLock? ==> Lockable(s))
  }

  lemma {:induction false} GrowthStep<T(!new)>(mode: Mode, made: T -> bool, item: T, s: State<T>, i: nat) returns (s': State<T>)
    requires made(item) && i < |s.pcs| && s.pcs[i].Growing?
    ensures Step(mode, made, s, s', i)
  {
    var index, x := s.pcs[i].index, s.pcs[i].item;
    if index < |s.cells| {
      s' := At(s, i, SlotRead(index, x));
    } else {
      var n := NextPowerOfTwo(index + 1);
      var cells := s.cells + seq(n - |s.cells|, _ => if mode.PushOnly? then None else Some(item));
      s' := At(s.(cells := cells, version := s.version + 1), i, SlotRead(index, x));
    }
  }

  lemma {:induction false} UnblockedStep<T(!new)>(mode: Mode, made: T -> bool, item: T, s: State<T>, i: nat) returns (s': State<T>)
    requires made(item) && i < |s.pcs| && !s.pcs[i].Idle? && Unblocked(s, s.pcs[i])
    ensures Step(mode, made, s, s', i)
  {
    match s.pcs[i]
    case PushLock(x) => s' := At(s.(mutex := Some(i)), i, PushHead(x));
    case PushHead(x) => s' := At(s, i, SlotRead(s.head, x));
    case ResizePeek(n) => s' := At(s, i, if n <= s.head then Idle else ResizeLock(n));
    case ResizeLock(n) => s' := At(s.(mutex := Some(i)), i, ResizeHead(n));
    case ResizeHead(n) => s' := At(s, i, if n <= s.head then Unlock else SlotRead(n - 1, item));
    case SlotRead(index, x) => s' := At(s, i, SlotWrite(index, x));
    case SlotWrite(index, x) =>
      s' := if index < |s.cells| then At(s.(cells := s.cells[index := Some(x)]), i, HeadStore(index, x)) else At(s, i, GrowLock(index, x));
    case GrowLock(index, x) => s' := At(s, i, Growing(index, x));
    case Growing(_, _) => s' := GrowthStep(mode, made, item, s, i);
    case HeadStore(index, _) => s' := At(s.(head := index + 1), i, Unlock);
    case Unlock => s' := At(s.(mutex := None), i, Idle);
    case ReadPeek => s' := At(s, i, ReadData(s.head));
    case ReadData(p) => s' := At(s, i, Reading(p, s.version));
    case Reading(_, _) => s' := At(s, i, Idle);
  }

  // While a call is under way, some call can take a step: who has the data can, else who has the mutex.
  lemma {:induction false} SomeoneIsUnblocked<T(!new)>(mode: Mode, made: T -> bool, s: State<T>, i: nat) returns (j: nat)
    requires Inv(mode, made, s) && i < |s.pcs| && !s.pcs[i].Idle?
    ensures j < |s.pcs| && !s.pcs[j].Idle? && Unblocked(s, s.pcs[j])
  {
    if k: nat :| k < |s.pcs| && HasData(s.pcs[k]) {
      j := k;
    } else {
      j := if s.mutex.Some? then s.mutex.value else i;
      assert HasMutex(s.pcs[j]) <==> s.mutex == Some(j);
      assert forall k: nat :: k < |s.pcs| ==> !HasData(s.pcs[k]);
    }
  }

  lemma {:induction false} NeverStuck<T(!new)>(mode: Mode, made: T -> bool, item: T, s: State<T>, i: nat)
    requires Inv(mode, made, s) && made(item) && i < |s.pcs| && !s.pcs[i].Idle?
    ensures CanMove(mode, made, s)
  {
    var j := SomeoneIsUnblocked(mode, made, s, i);
    var s' := UnblockedStep(mode, made, item, s, j);
    assert Inside(mode, made, s, s');
  }

  // How far a thread is from its end; growing is for cells that are not there yet.
  function Rank<T>(cells: nat, pc: Pc<T>): nat {
    match pc
    case Idle => 0
    case PushLock(_) => 10
    case PushHead(_) => 9
    case ResizePeek(_) => 11
    case ResizeLock(_) => 10
    case ResizeHead(_) => 9
    case SlotRead(index, _) => if index < cells then 4 else 8
    case SlotWrite(index, _) => if index < cells then 3 else 7
    case GrowLock(_, _) => 6
    case Growing(_, _) => 5
    case HeadStore(_, _) => 2
    case Unlock => 1
    case ReadPeek => 3
    case ReadData(_) => 2
    case Reading(_, _) => 1
  }

  function Work<T>(cells: nat, pcs: seq<Pc<T>>): nat {
    if pcs == [] then 0 else Rank(cells, pcs[0]) + Work(cells, pcs[1..])
  }

  lemma {:induction false} WorkAtMost<T>(c: nat, d: nat, a: seq<Pc<T>>, b: seq<Pc<T>>)
    requires |a| == |b| && forall k :: 0 <= k < |a| ==> Rank(c, a[k]) <= Rank(d, b[k])
    ensures Work(c, a) <= Work(d, b)
  {
    if a != [] { WorkAtMost(c, d, a[1..], b[1..]); }
  }

  lemma {:induction false} WorkLess<T>(c: nat, d: nat, a: seq<Pc<T>>, b: seq<Pc<T>>, i: nat)
    requires |a| == |b| && i < |a| && Rank(c, a[i]) < Rank(d, b[i]) && forall k :: 0 <= k < |a| ==> Rank(c, a[k]) <= Rank(d, b[k])
    ensures Work(c, a) < Work(d, b)
  {
    if i == 0 { WorkAtMost(c, d, a[1..], b[1..]); } else { WorkLess(c, d, a[1..], b[1..], i - 1); }
  }

  lemma {:induction false} StepLowersRank<T(!new)>(mode: Mode, made: T -> bool, s: State<T>, s': State<T>, i: nat)
    requires i < |s.pcs| && !s.pcs[i].Idle? && Step(mode, made, s, s', i)
    ensures |s'.pcs| == |s.pcs| && |s.cells| <= |s'.cells| && Rank(|s'.cells|, s'.pcs[i]) < Rank(|s.cells|, s.pcs[i])
  {}

  lemma {:induction false} InsideIsCloser<T(!new)>(mode: Mode, made: T -> bool, s: State<T>, s': State<T>)
    requires Inside(mode, made, s, s')
    ensures Work(|s'.cells|, s'.pcs) < Work(|s.cells|, s.pcs)
  {
    var i :| 0 <= i < |s.pcs| && !s.pcs[i].Idle? && Step(mode, made, s, s', i);
    StepLowersRank(mode, made, s, s', i);
    forall k: nat | k < |s.pcs| && k != i ensures s'.pcs[k] == s.pcs[k] { StepMovesOne(mode, made, s, s', k, i); }
    WorkLess(|s'.cells|, |s.cells|, s'.pcs, s.pcs, i);
  }

  // Any order of steps without new calls that stops only where no call can take a step.
  ghost predicate Maximal<T(!new)>(mode: Mode, made: T -> bool, run: nat -> State<T>) {
    forall k: nat :: Inside(mode, made, run(k), run(k + 1)) || !CanMove(mode, made, run(k))
  }

  // Every call returns, in every order of steps, if reads are let go.
  lemma {:induction false} EveryCallReturns<T(!new)>(mode: Mode, made: T -> bool, item: T, run: nat -> State<T>, k: nat) returns (n: nat)
    requires Maximal(mode, made, run) && Inv(mode, made, run(k)) && made(item)
    ensures k <= n && forall i :: 0 <= i < |run(n).pcs| ==> run(n).pcs[i].Idle?
    decreases Work(|run(k).cells|, run(k).pcs)
  {
    if CanMove(mode, made, run(k)) {
      InsideIsCloser(mode, made, run(k), run(k + 1));
      InsideKeepsInv(mode, made, run(k), run(k + 1));
      n := EveryCallReturns(mode, made, item, run, k + 1);
    } else {
      n := k;
      forall i | 0 <= i < |run(k).pcs| ensures run(k).pcs[i].Idle? {
        if !run(k).pcs[i].Idle? { NeverStuck(mode, made, item, run(k), i); }
      }
    }
  }

  lemma {:induction false} InsideKeepsInv<T(!new)>(mode: Mode, made: T -> bool, s: State<T>, s': State<T>)
    requires Inv(mode, made, s) && Inside(mode, made, s, s')
    ensures Inv(mode, made, s')
  {
    var i :| 0 <= i < |s.pcs| && !s.pcs[i].Idle? && Step(mode, made, s, s', i);
    StepKeepsInv(mode, made, s, s', i);
  }
}
