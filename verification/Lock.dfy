// The read-optimized lock as a transition system: any number of threads, one atomic step at a time.
module LockModel {
  import opened Options

  // Where a thread is. `t` is a token of which the thread holds a guard or on which it waits, `w` its
  // own write token and `p` the token a failed exchange has returned.
  datatype Pc =
    | Idle
    | ReadStart
    | ReadLoaded(t: nat)
    | ReadWait(t: nat)
    | Reading(t: nat)
    | LockStart
    | LockLoaded(t: nat)
    | LockRetry(t: nat, p: nat)
    | LockWait(t: nat)
    | LockOwned(t: nat, w: nat)
    | LockRcu(t: nat, w: nat)
    | LockDrain(t: nat, w: nat)
    | Writing(w: nat)
    | Unlocking(w: nat)

  // Tokens are numbered as they are created; each has a notification of its own. A token that is not
  // a write token is a `ReadOk` one.
  datatype State = State(token: nat, isWrite: seq<bool>, notified: set<nat>, pcs: seq<Pc>)

  function Init(threads: nat): State {
    State(0, [false], {}, seq(threads, _ => Idle))
  }

  // The tokens kept alive by a thread.
  function Guards(pc: Pc): set<nat> {
    match pc
    case ReadLoaded(t) => {t}
    case Reading(t) => {t}
    case LockLoaded(t) => {t}
    case LockRetry(t, p) => {t, p}
    case LockOwned(t, _) => {t}
    case _ => {}
  }

  predicate Bounded(s: State) {
    && s.token < |s.isWrite|
    && (forall t :: t in s.notified ==> t < |s.isWrite|)
    && (forall i :: 0 <= i < |s.pcs| ==> PcBounded(s, s.pcs[i]))
  }

  predicate PcBounded(s: State, pc: Pc) {
    && (pc.ReadLoaded? || pc.ReadWait? || pc.Reading? ==> pc.t < |s.isWrite|)
    && (pc.LockLoaded? || pc.LockRetry? || pc.LockWait? || pc.LockOwned? || pc.LockRcu? || pc.LockDrain? ==> pc.t < |s.isWrite|)
    && (pc.LockRetry? ==> pc.p < |s.isWrite|)
    && (Owner(pc) || pc.Unlocking? ==> pc.w < |s.isWrite|)
  }

  function At(s: State, i: nat, pc: Pc): State
    requires i < |s.pcs|
  {
    s.(pcs := s.pcs[i := pc])
  }

  // A new token in the lock.
  function Swap(s: State, write: bool): State {
    s.(token := |s.isWrite|, isWrite := s.isWrite + [write])
  }

  // The thread's next step; none if it is idle or blocked on a notification.
  function Step(s: State, i: nat): Option<State>
    requires Bounded(s) && i < |s.pcs|
  {
    match s.pcs[i]
    case Idle => None
    case ReadStart => Some(At(s, i, ReadLoaded(s.token)))
    case ReadLoaded(t) => Some(At(s, i, if s.isWrite[t] then ReadWait(t) else Reading(t)))
    case ReadWait(t) => if t in s.notified then Some(At(s, i, ReadStart)) else None
    case Reading(_) => Some(At(s, i, Idle))
    case LockStart => Some(At(s, i, LockLoaded(s.token)))
    case LockLoaded(t) =>
      if s.isWrite[t] then Some(At(s, i, LockWait(t)))
      else if s.token != t then Some(At(s, i, LockRetry(t, s.token)))
      else Some(At(Swap(s, true), i, LockOwned(t, |s.isWrite|)))
    case LockRetry(_, _) => Some(At(s, i, LockStart))
    case LockWait(t) => if t in s.notified then Some(At(s, i, LockStart)) else None
    case LockOwned(t, w) => Some(At(s, i, LockRcu(t, w)))
    case LockRcu(t, w) => Some(At(s, i, LockDrain(t, w)))
    case LockDrain(t, w) => if t in s.notified then Some(At(s, i, Writing(w))) else None
    case Writing(w) => Some(At(Swap(s, false), i, Unlocking(w)))
    case Unlocking(w) => Some(At(s.(notified := s.notified + {w}), i, Idle))
  }

  predicate Referenced(s: State, t: nat) {
    t == s.token || exists i :: 0 <= i < |s.pcs| && t in Guards(s.pcs[i])
  }

  // The last reference to a `ReadOk` token is gone, and its drop notifies.
  predicate CanTrigger(s: State, t: nat) {
    t < |s.isWrite| && !s.isWrite[t] && t !in s.notified && !Referenced(s, t)
  }

  function Trigger(s: State, t: nat): State {
    s.(notified := s.notified + {t})
  }

  // A step inside an operation, which includes the release of a guard by its holder.
  ghost predicate Inside(s: State, s': State) {
    && Bounded(s)
    && ((exists i :: 0 <= i < |s.pcs| && Step(s, i) == Some(s')) || (exists t :: CanTrigger(s, t) && s' == Trigger(s, t)))
  }

  // A thread calls `read` or `lock`.
  ghost predicate Begins(s: State, s': State) {
    exists i :: 0 <= i < |s.pcs| && s.pcs[i].Idle? && (s' == At(s, i, ReadStart) || s' == At(s, i, LockStart))
  }

  ghost predicate Next(s: State, s': State) {
    Inside(s, s') || Begins(s, s')
  }

  ghost predicate Run(trace: seq<State>) {
    && trace != [] && (exists n :: trace[0] == Init(n))
    && (forall k :: 0 < k < |trace| ==> Next(trace[k - 1], trace[k]))
  }

  // ---------------------------------------------------------------- the invariant

  // From a successful exchange to the end of the write.
  predicate Owner(pc: Pc) {
    pc.LockOwned? || pc.LockRcu? || pc.LockDrain? || pc.Writing?
  }

  predicate Draining(pc: Pc, t: nat) {
    (pc.LockOwned? || pc.LockRcu? || pc.LockDrain?) && pc.t == t
  }

  predicate SomeOwner(s: State) {
    exists i :: 0 <= i < |s.pcs| && Owner(s.pcs[i])
  }

  predicate SomeDraining(s: State, t: nat) {
    exists i :: 0 <= i < |s.pcs| && Draining(s.pcs[i], t)
  }

  predicate SomeUnlocking(s: State, w: nat) {
    exists i :: 0 <= i < |s.pcs| && s.pcs[i] == Unlocking(w)
  }

  predicate PcOk(s: State, pc: Pc)
    requires Bounded(s) && PcBounded(s, pc)
  {
    && (Owner(pc) ==> pc.w == s.token && s.isWrite[pc.w])
    && (pc.LockOwned? || pc.LockRcu? || pc.LockDrain? ==> !s.isWrite[pc.t])
    && (pc.Reading? ==> !s.isWrite[pc.t])
    && (pc.ReadWait? || pc.LockWait? ==> s.isWrite[pc.t])
    && (pc.Unlocking? ==> s.isWrite[pc.w] && pc.w != s.token)
  }

  predicate OneOwner(s: State) {
    forall i, j :: 0 <= i < |s.pcs| && 0 <= j < |s.pcs| && Owner(s.pcs[i]) && Owner(s.pcs[j]) ==> i == j
  }

  predicate TokenOk(s: State, t: nat)
    requires t < |s.isWrite|
  {
    if s.isWrite[t] then
      // Until it is notified, a write token is in the lock or its writer is about to notify it.
      (t in s.notified ==> t != s.token) && (t !in s.notified ==> t == s.token || SomeUnlocking(s, t))
    else
      // A read token is notified only when nobody refers to it, and one that has left the lock is
      // being drained until then.
      (t in s.notified ==> !Referenced(s, t)) && (t !in s.notified ==> t == s.token || SomeDraining(s, t))
  }

  ghost predicate Inv(s: State) {
    && Bounded(s)
    && (forall i :: 0 <= i < |s.pcs| ==> PcOk(s, s.pcs[i]))
    && OneOwner(s)
    && (s.isWrite[s.token] ==> SomeOwner(s))
    && (forall t :: 0 <= t < |s.isWrite| ==> TokenOk(s, t))
  }

  // ---------------------------------------------------------------- its consequences

  // A live writer excludes every live reader and every other writer.
  predicate Exclusive(s: State) {
    forall i, j :: 0 <= i < |s.pcs| && 0 <= j < |s.pcs| && i != j && s.pcs[i].Writing? ==> !s.pcs[j].Reading? && !s.pcs[j].Writing?
  }

  // While a reader is live its token is in the lock or still being drained, so nobody writes.
  lemma {:induction false} ReaderExcludesWriters(s: State, j: nat)
    requires Inv(s) && j < |s.pcs| && s.pcs[j].Reading?
    ensures forall i :: 0 <= i < |s.pcs| ==> !s.pcs[i].Writing?
  {
    var t := s.pcs[j].t;
    assert PcOk(s, s.pcs[j]);
    assert t in Guards(s.pcs[j]) && Referenced(s, t);
    assert TokenOk(s, t);
    if t != s.token {
      var k :| 0 <= k < |s.pcs| && Draining(s.pcs[k], t);
      forall i | 0 <= i < |s.pcs| && Owner(s.pcs[i]) ensures !s.pcs[i].Writing? { assert i == k; }
    } else {
      forall i | 0 <= i < |s.pcs| ensures !Owner(s.pcs[i]) { assert PcOk(s, s.pcs[i]); }
    }
  }

  lemma {:induction false} InvIsExclusive(s: State)
    requires Inv(s)
    ensures Exclusive(s)
  {
    forall i, j | 0 <= i < |s.pcs| && 0 <= j < |s.pcs| && i != j && s.pcs[i].Writing? ensures !s.pcs[j].Reading? && !s.pcs[j].Writing? {
      if s.pcs[j].Reading? { ReaderExcludesWriters(s, j); }
      assert Owner(s.pcs[i]);
    }
  }

  // ---------------------------------------------------------------- every step keeps the invariant

  // A step of one thread that leaves the tokens alone, takes no guard but on the current token, and
  // stops draining a token only once that is notified.
  predicate Local(s: State, i: nat, pc: Pc)
    requires Bounded(s) && i < |s.pcs|
  {
    var was := s.pcs[i];
    && PcBounded(s, pc) && PcOk(s, pc) && !was.Unlocking? && !pc.Unlocking?
    && (Owner(pc) <==> Owner(was))
    && (forall t :: t in Guards(pc) ==> t in Guards(was) || t == s.token)
    && (LockStage(was) ==> Draining(pc, was.t) || was.t in s.notified)
  }

  predicate LockStage(pc: Pc) {
    pc.LockOwned? || pc.LockRcu? || pc.LockDrain?
  }

  lemma {:induction false} LocalRefs(s: State, i: nat, pc: Pc, t: nat)
    requires Bounded(s) && i < |s.pcs| && Local(s, i, pc)
    ensures Referenced(At(s, i, pc), t) ==> Referenced(s, t)
  {
    var s' := At(s, i, pc);
    if Referenced(s', t) && t != s.token {
      var k :| 0 <= k < |s'.pcs| && t in Guards(s'.pcs[k]);
      assert t in Guards(s.pcs[k]);
    }
  }

  lemma {:induction false} LocalKeepsTokens(s: State, i: nat, pc: Pc)
    requires Inv(s) && i < |s.pcs| && Local(s, i, pc)
    ensures var s' := At(s, i, pc); Bounded(s') && forall t :: 0 <= t < |s.isWrite| ==> TokenOk(s', t)
  {
    var s' := At(s, i, pc);
    forall k | 0 <= k < |s'.pcs| ensures PcBounded(s', s'.pcs[k]) { assert PcBounded(s, s.pcs[k]); }
    forall t | 0 <= t < |s.isWrite| ensures TokenOk(s', t) {
      assert TokenOk(s, t);
      LocalRefs(s, i, pc, t);
      if !s.isWrite[t] && t !in s.notified && t != s.token {
        var k :| 0 <= k < |s.pcs| && Draining(s.pcs[k], t);
        assert Draining(s'.pcs[k], t);
      }
      if s.isWrite[t] && t !in s.notified && t != s.token {
        var k :| 0 <= k < |s.pcs| && s.pcs[k] == Unlocking(t);
        assert s'.pcs[k] == Unlocking(t);
      }
    }
  }

  lemma {:induction false} LocalKeepsInv(s: State, i: nat, pc: Pc)
    requires Inv(s) && i < |s.pcs| && Local(s, i, pc)
    ensures Inv(At(s, i, pc))
  {
    var s' := At(s, i, pc);
    LocalKeepsTokens(s, i, pc);
    forall k | 0 <= k < |s'.pcs| ensures PcOk(s', s'.pcs[k]) { assert PcOk(s, s.pcs[k]); }
    if s.isWrite[s.token] {
      var k :| 0 <= k < |s.pcs| && Owner(s.pcs[k]);
      assert Owner(s'.pcs[k]);
    }
    forall a, b | 0 <= a < |s'.pcs| && 0 <= b < |s'.pcs| && Owner(s'.pcs[a]) && Owner(s'.pcs[b]) ensures a == b {
      assert Owner(s.pcs[a]) && Owner(s.pcs[b]);
    }
  }

  lemma {:induction false} RefsShrink(s: State, s': State, t: nat)
    requires |s'.pcs| == |s.pcs| && t != s'.token
    requires forall k :: 0 <= k < |s.pcs| ==> Guards(s'.pcs[k]) <= Guards(s.pcs[k])
    ensures Referenced(s', t) ==> Referenced(s, t)
  {
    if Referenced(s', t) {
      var k :| 0 <= k < |s'.pcs| && t in Guards(s'.pcs[k]);
      assert t in Guards(s.pcs[k]);
    }
  }

  // Without an owner every read token that has left the lock has been notified.
  lemma {:induction false} NothingDraining(s: State, t: nat)
    requires Inv(s) && t < |s.isWrite| && !s.isWrite[t] && t != s.token
    requires forall i :: 0 <= i < |s.pcs| ==> !LockStage(s.pcs[i])
    ensures t in s.notified
  {
    assert TokenOk(s, t);
  }

  // The exchange by which a writer takes the lock.
  lemma {:induction false} ExchangeKeepsInv(s: State, i: nat)
    requires Inv(s) && i < |s.pcs| && s.pcs[i] == LockLoaded(s.token) && !s.isWrite[s.token]
    ensures Inv(At(Swap(s, true), i, LockOwned(s.token, |s.isWrite|)))
  {
    var s' := At(Swap(s, true), i, LockOwned(s.token, |s.isWrite|));
    forall k | 0 <= k < |s.pcs| ensures !Owner(s.pcs[k]) { assert PcOk(s, s.pcs[k]); }
    forall k | 0 <= k < |s'.pcs| ensures PcBounded(s', s'.pcs[k]) && PcOk(s', s'.pcs[k]) {
      assert PcBounded(s, s.pcs[k]) && PcOk(s, s.pcs[k]);
    }
    assert Owner(s'.pcs[i]);
    forall t | 0 <= t < |s'.isWrite| ensures TokenOk(s', t) {
      if t < |s.isWrite| { ExchangeKeepsToken(s, i, t); }
    }
  }

  lemma {:induction false} ExchangeKeepsToken(s: State, i: nat, t: nat)
    requires Inv(s) && i < |s.pcs| && s.pcs[i] == LockLoaded(s.token) && !s.isWrite[s.token] && t < |s.isWrite|
    requires forall k :: 0 <= k < |s.pcs| ==> !Owner(s.pcs[k])
    ensures TokenOk(At(Swap(s, true), i, LockOwned(s.token, |s.isWrite|)), t)
  {
    var s' := At(Swap(s, true), i, LockOwned(s.token, |s.isWrite|));
    assert TokenOk(s, t);
    if s.isWrite[t] {
      if t !in s.notified {
        var k :| 0 <= k < |s.pcs| && s.pcs[k] == Unlocking(t);
        assert s'.pcs[k] == Unlocking(t);
      }
    } else if t == s.token {
      assert Referenced(s, t);
      assert Draining(s'.pcs[i], t);
    } else {
      NothingDraining(s, t);
      RefsShrink(s, s', t);
    }
  }

  // The store by which a writer gives the lock back.
  lemma {:induction false} StoreKeepsInv(s: State, i: nat)
    requires Inv(s) && i < |s.pcs| && s.pcs[i].Writing?
    ensures Inv(At(Swap(s, false), i, Unlocking(s.pcs[i].w)))
  {
    var s' := At(Swap(s, false), i, Unlocking(s.pcs[i].w));
    assert Owner(s.pcs[i]) && PcOk(s, s.pcs[i]);
    forall k | 0 <= k < |s'.pcs| ensures PcBounded(s', s'.pcs[k]) && PcOk(s', s'.pcs[k]) && !Owner(s'.pcs[k]) {
      assert PcBounded(s, s.pcs[k]) && PcOk(s, s.pcs[k]);
    }
    forall t | 0 <= t < |s'.isWrite| ensures TokenOk(s', t) {
      if t < |s.isWrite| { StoreKeepsToken(s, i, t); }
    }
  }

  lemma {:induction false} StoreKeepsToken(s: State, i: nat, t: nat)
    requires Inv(s) && i < |s.pcs| && s.pcs[i].Writing? && t < |s.isWrite|
    ensures TokenOk(At(Swap(s, false), i, Unlocking(s.pcs[i].w)), t)
  {
    var s' := At(Swap(s, false), i, Unlocking(s.pcs[i].w));
    assert TokenOk(s, t) && PcOk(s, s.pcs[i]);
    if s.isWrite[t] {
      if t == s.token {
        assert s'.pcs[i] == Unlocking(t);
      } else if t !in s.notified {
        var k :| 0 <= k < |s.pcs| && s.pcs[k] == Unlocking(t);
        assert s'.pcs[k] == Unlocking(t);
      }
    } else {
      forall k | 0 <= k < |s.pcs| ensures !LockStage(s.pcs[k]) { assert Owner(s.pcs[i]); }
      NothingDraining(s, t);
      RefsShrink(s, s', t);
    }
  }

  // The notification that follows the store.
  lemma {:induction false} NotifyKeepsInv(s: State, i: nat)
    requires Inv(s) && i < |s.pcs| && s.pcs[i].Unlocking?
    ensures Inv(At(s.(notified := s.notified + {s.pcs[i].w}), i, Idle))
  {
    var w := s.pcs[i].w;
    var s' := At(s.(notified := s.notified + {w}), i, Idle);
    assert PcBounded(s, s.pcs[i]) && PcOk(s, s.pcs[i]);
    forall k | 0 <= k < |s'.pcs| ensures PcBounded(s', s'.pcs[k]) && PcOk(s', s'.pcs[k]) {
      assert PcBounded(s, s.pcs[k]) && PcOk(s, s.pcs[k]);
    }
    if s.isWrite[s.token] {
      var k :| 0 <= k < |s.pcs| && Owner(s.pcs[k]);
      assert Owner(s'.pcs[k]);
    }
    forall t | 0 <= t < |s.isWrite| ensures TokenOk(s', t) { NotifyKeepsToken(s, i, t); }
  }

  lemma {:induction false} NotifyKeepsToken(s: State, i: nat, t: nat)
    requires Inv(s) && i < |s.pcs| && s.pcs[i].Unlocking? && t < |s.isWrite|
    ensures TokenOk(At(s.(notified := s.notified + {s.pcs[i].w}), i, Idle), t)
  {
    var s' := At(s.(notified := s.notified + {s.pcs[i].w}), i, Idle);
    assert PcBounded(s, s.pcs[i]) && PcOk(s, s.pcs[i]) && TokenOk(s, t);
    if t !in s'.notified && t != s.token {
      if s.isWrite[t] {
        var k :| 0 <= k < |s.pcs| && s.pcs[k] == Unlocking(t);
        assert s'.pcs[k] == Unlocking(t);
      } else {
        var k :| 0 <= k < |s.pcs| && Draining(s.pcs[k], t);
        assert Draining(s'.pcs[k], t);
      }
    }
    if t != s.token { RefsShrink(s, s', t); }
  }

  lemma {:induction false} TriggerKeepsInv(s: State, t: nat)
    requires Inv(s) && CanTrigger(s, t)
    ensures Inv(Trigger(s, t))
  {
    var s' := Trigger(s, t);
    forall k | 0 <= k < |s'.pcs| ensures PcBounded(s', s'.pcs[k]) && PcOk(s', s'.pcs[k]) {
      assert PcBounded(s, s.pcs[k]) && PcOk(s, s.pcs[k]);
    }
    assert SomeOwner(s) ==> SomeOwner(s');
    forall u | 0 <= u < |s.isWrite| ensures TokenOk(s', u) {
      assert TokenOk(s, u);
      assert Referenced(s', u) <==> Referenced(s, u);
      assert SomeDraining(s, u) ==> SomeDraining(s', u);
      assert SomeUnlocking(s, u) ==> SomeUnlocking(s', u);
    }
  }

  lemma {:induction false} StepKeepsInv(s: State, i: nat)
    requires Inv(s) && i < |s.pcs| && Step(s, i).Some?
    ensures Inv(Step(s, i).value)
  {
    var pc := s.pcs[i];
    assert PcBounded(s, pc) && PcOk(s, pc);
    if pc.Writing? {
      StoreKeepsInv(s, i);
    } else if pc.Unlocking? {
      NotifyKeepsInv(s, i);
    } else if pc == LockLoaded(s.token) && !s.isWrite[s.token] {
      ExchangeKeepsInv(s, i);
    } else {
      LocalKeepsInv(s, i, Step(s, i).value.pcs[i]);
    }
  }

  lemma {:induction false} InsideKeepsInv(s: State, s': State)
    requires Inv(s) && Inside(s, s')
    ensures Inv(s')
  {
    if i :| 0 <= i < |s.pcs| && Step(s, i) == Some(s') {
      StepKeepsInv(s, i);
    } else {
      var t :| CanTrigger(s, t) && s' == Trigger(s, t);
      TriggerKeepsInv(s, t);
    }
  }

  lemma {:induction false} BeginsKeepsInv(s: State, s': State)
    requires Inv(s) && Begins(s, s')
    ensures Inv(s')
  {
    var i :| 0 <= i < |s.pcs| && s.pcs[i].Idle? && (s' == At(s, i, ReadStart) || s' == At(s, i, LockStart));
    LocalKeepsInv(s, i, s'.pcs[i]);
  }

  lemma {:induction false} NextKeepsInv(s: State, s': State)
    requires Inv(s) && Next(s, s')
    ensures Inv(s')
  {
    if Inside(s, s') { InsideKeepsInv(s, s'); } else { BeginsKeepsInv(s, s'); }
  }

  lemma {:induction false} RunKeepsInv(trace: seq<State>, k: nat)
    requires Run(trace) && k < |trace|
    ensures Inv(trace[k])
  {
    if k == 0 {
      var n :| trace[0] == Init(n);
    } else {
      RunKeepsInv(trace, k - 1);
      NextKeepsInv(trace[k - 1], trace[k]);
    }
  }

  // In every state of every run, a live writer is alone.
  lemma {:induction false} WritersAreExclusive(trace: seq<State>, k: nat)
    requires Run(trace) && k < |trace|
    ensures Exclusive(trace[k])
  {
    RunKeepsInv(trace, k);
    InvIsExclusive(trace[k]);
  }

  // ---------------------------------------------------------------- progress

  ghost predicate CanMove(s: State) {
    exists s' :: Inside(s, s')
  }

  // A token whose notification is awaited has someone on the way to it.
  lemma {:induction false} DrainedEventually(s: State, i: nat)
    requires Inv(s) && i < |s.pcs| && Owner(s.pcs[i])
    ensures CanMove(s)
  {
    var pc := s.pcs[i];
    assert PcBounded(s, pc) && PcOk(s, pc);
    if pc.LockDrain? && pc.t !in s.notified {
      if Referenced(s, pc.t) {
        var k :| 0 <= k < |s.pcs| && pc.t in Guards(s.pcs[k]);
        assert Step(s, k).Some? && Inside(s, Step(s, k).value);
      } else {
        assert CanTrigger(s, pc.t) && Inside(s, Trigger(s, pc.t));
      }
    } else {
      assert Step(s, i).Some? && Inside(s, Step(s, i).value);
    }
  }

  // While any thread is inside an operation, some step is possible that does not begin another one.
  lemma {:induction false} NeverStuck(s: State, i: nat)
    requires Inv(s) && i < |s.pcs| && !s.pcs[i].Idle?
    ensures CanMove(s)
  {
    var pc := s.pcs[i];
    assert PcBounded(s, pc) && PcOk(s, pc);
    if Owner(pc) {
      DrainedEventually(s, i);
    } else if (pc.ReadWait? || pc.LockWait?) && pc.t !in s.notified {
      assert TokenOk(s, pc.t);
      if pc.t == s.token {
        var k :| 0 <= k < |s.pcs| && Owner(s.pcs[k]);
        DrainedEventually(s, k);
      } else {
        var k :| 0 <= k < |s.pcs| && s.pcs[k] == Unlocking(pc.t);
        assert Step(s, k).Some? && Inside(s, Step(s, k).value);
      }
    } else {
      assert Step(s, i).Some? && Inside(s, Step(s, i).value);
    }
  }

  // How often a thread's operation will still replace the token.
  function Swaps(pc: Pc): nat {
    if pc.LockStart? || pc.LockLoaded? || pc.LockRetry? || pc.LockWait? then 2 else if Owner(pc) then 1 else 0
  }

  // How far a thread is from its end while the token stays the same; one that holds or awaits an
  // old token has to start over.
  function Rank(token: nat, pc: Pc): nat {
    match pc
    case Idle => 0
    case ReadStart => 4
    case ReadLoaded(t) => if t == token then 3 else 6
    case ReadWait(t) => if t == token then 2 else 5
    case Reading(_) => 1
    case LockStart => 3
    case LockLoaded(t) => if t == token then 2 else 5
    case LockRetry(_, _) => 4
    case LockWait(t) => if t == token then 1 else 4
    case LockOwned(_, _) => 4
    case LockRcu(_, _) => 3
    case LockDrain(_, _) => 2
    case Writing(_) => 1
    case Unlocking(_) => 1
  }

  function SumSwaps(pcs: seq<Pc>): nat {
    if pcs == [] then 0 else Swaps(pcs[0]) + SumSwaps(pcs[1..])
  }

  function SumRank(token: nat, pcs: seq<Pc>): nat {
    if pcs == [] then 0 else Rank(token, pcs[0]) + SumRank(token, pcs[1..])
  }

  lemma {:induction false} SumSwapsUpdate(pcs: seq<Pc>, i: nat, pc: Pc)
    requires i < |pcs|
    ensures SumSwaps(pcs[i := pc]) + Swaps(pcs[i]) == SumSwaps(pcs) + Swaps(pc)
  {
    if i == 0 {
      assert pcs[0 := pc][1..] == pcs[1..];
    } else {
      assert pcs[i := pc][1..] == pcs[1..][i - 1 := pc];
      SumSwapsUpdate(pcs[1..], i - 1, pc);
    }
  }

  lemma {:induction false} SumRankUpdate(token: nat, pcs: seq<Pc>, i: nat, pc: Pc)
    requires i < |pcs|
    ensures SumRank(token, pcs[i := pc]) + Rank(token, pcs[i]) == SumRank(token, pcs) + Rank(token, pc)
  {
    if i == 0 {
      assert pcs[0 := pc][1..] == pcs[1..];
    } else {
      assert pcs[i := pc][1..] == pcs[1..][i - 1 := pc];
      SumRankUpdate(token, pcs[1..], i - 1, pc);
    }
  }

  function Missing(notified: set<nat>, n: nat): nat {
    if n == 0 then 0 else Missing(notified, n - 1) + (if n - 1 in notified then 0 else 1)
  }

  // The notifications still to come.
  function Left(s: State): nat {
    Missing(s.notified, |s.isWrite|)
  }

  lemma {:induction false} MissingOne(notified: set<nat>, t: nat, n: nat)
    ensures Missing(notified + {t}, n) == Missing(notified, n) - (if t < n && t !in notified then 1 else 0)
  {
    if n > 0 { MissingOne(notified, t, n - 1); }
  }

  function Steps(s: State): nat {
    SumRank(s.token, s.pcs) + Left(s)
  }

  ghost predicate Closer(s: State, s': State) {
    || SumSwaps(s'.pcs) < SumSwaps(s.pcs)
    || (SumSwaps(s'.pcs) == SumSwaps(s.pcs) && Steps(s') < Steps(s))
  }

  lemma {:induction false} StepIsCloser(s: State, i: nat)
    requires Inv(s) && i < |s.pcs| && Step(s, i).Some?
    ensures Closer(s, Step(s, i).value)
  {
    var s' := Step(s, i).value;
    var pc := s.pcs[i];
    assert PcBounded(s, pc) && PcOk(s, pc);
    assert s'.pcs == s.pcs[i := s'.pcs[i]];
    SumSwapsUpdate(s.pcs, i, s'.pcs[i]);
    if s'.token == s.token {
      SumRankUpdate(s.token, s.pcs, i, s'.pcs[i]);
      if pc.ReadWait? || pc.LockWait? { assert TokenOk(s, pc.t); }
      if pc.Unlocking? { MissingOne(s.notified, pc.w, |s.isWrite|); }
    }
  }

  lemma {:induction false} InsideIsCloser(s: State, s': State)
    requires Inv(s) && Inside(s, s')
    ensures Closer(s, s')
  {
    if i :| 0 <= i < |s.pcs| && Step(s, i) == Some(s') {
      StepIsCloser(s, i);
    } else {
      var t :| CanTrigger(s, t) && s' == Trigger(s, t);
      MissingOne(s.notified, t, |s.isWrite|);
    }
  }

  // What decreases with every move does not move for ever.
  lemma {:induction false} Descent(moves: nat -> bool, a: nat -> nat, b: nat -> nat, k: nat) returns (n: nat)
    requires forall j: nat :: moves(j) ==> a(j + 1) < a(j) || (a(j + 1) == a(j) && b(j + 1) < b(j))
    ensures k <= n && !moves(n) && forall j :: k <= j < n ==> moves(j)
    decreases a(k), b(k)
  {
    n := k;
    if moves(k) { n := Descent(moves, a, b, k + 1); }
  }

  // The first steps of the run, up to the j-th, are all inside operations.
  ghost predicate InsideSoFar(run: nat -> State, j: nat) {
    forall i :: 0 <= i <= j ==> Inside(run(i), run(i + 1))
  }

  lemma {:induction false} InvSoFar(run: nat -> State, j: nat)
    requires Inv(run(0)) && (j > 0 ==> InsideSoFar(run, j - 1))
    ensures Inv(run(j))
  {
    if j > 0 {
      assert InsideSoFar(run, j - 1) ==> Inside(run(j - 1), run(j - 1 + 1));
      InvSoFar(run, j - 1);
      NextKeepsInv(run(j - 1), run(j));
    }
  }

  lemma {:induction false} SoFarIsCloser(run: nat -> State, j: nat)
    requires Inv(run(0)) && InsideSoFar(run, j)
    ensures Closer(run(j), run(j + 1))
  {
    InvSoFar(run, j);
    assert Inside(run(j), run(j + 1));
    InsideIsCloser(run(j), run(j + 1));
  }

  // Steps inside operations cannot go on for ever.
  lemma {:induction false} OperationsEnd(run: nat -> State) returns (n: nat)
    requires Inv(run(0))
    ensures !InsideSoFar(run, n) && (n > 0 ==> InsideSoFar(run, n - 1))
  {
    var moves := (j: nat) => InsideSoFar(run, j);
    var a := (j: nat) => SumSwaps(run(j).pcs);
    var b := (j: nat) => Steps(run(j));
    forall j: nat | moves(j) ensures a(j + 1) < a(j) || (a(j + 1) == a(j) && b(j + 1) < b(j)) {
      SoFarIsCloser(run, j);
    }
    n := Descent(moves, a, b, 0);
    if n > 0 { assert moves(n - 1); }
  }

  // Follows the run while the state can move.
  ghost predicate Maximal(run: nat -> State) {
    forall k: nat :: CanMove(run(k)) ==> Inside(run(k), run(k + 1))
  }

  // Once no operation begins and guards are released, every order of steps ends with all threads idle.
  lemma {:induction false} EveryOperationCompletes(run: nat -> State) returns (n: nat)
    requires Inv(run(0)) && Maximal(run)
    ensures forall i :: 0 <= i < |run(n).pcs| ==> run(n).pcs[i].Idle?
    ensures forall j :: 0 <= j < n ==> Inside(run(j), run(j + 1))
  {
    n := OperationsEnd(run);
    InvSoFar(run, n);
    forall i | 0 <= i < |run(n).pcs| ensures run(n).pcs[i].Idle? {
      if !run(n).pcs[i].Idle? { NeverStuck(run(n), i); }
    }
  }

  // ---------------------------------------------------------------- every operation gets its guard

  // Inside `lock`, and not yet the writer.
  predicate AsksToWrite(pc: Pc) {
    pc.LockStart? || pc.LockLoaded? || pc.LockRetry? || pc.LockWait? || pc.LockOwned? || pc.LockRcu? || pc.LockDrain?
  }

  // Inside `read`, and not yet a reader.
  predicate AsksToRead(pc: Pc) {
    pc.ReadStart? || pc.ReadLoaded? || pc.ReadWait?
  }

  predicate Holds(s: State, i: nat, write: bool) {
    i < |s.pcs| && if write then s.pcs[i].Writing? else s.pcs[i].Reading?
  }

  predicate Asks(s: State, i: nat, write: bool) {
    i < |s.pcs| && if write then AsksToWrite(s.pcs[i]) else AsksToRead(s.pcs[i])
  }

  // The only way out of an operation is through its guard.
  lemma {:induction false} AsksUntilGranted(s: State, s': State, i: nat, write: bool)
    requires Next(s, s') && Asks(s, i, write)
    ensures Asks(s', i, write) || Holds(s', i, write)
  {
    if Inside(s, s') {
      if k :| 0 <= k < |s.pcs| && Step(s, k) == Some(s') {}
    }
  }

  ghost predicate Granted(trace: seq<State>, a: nat, b: nat, i: nat, write: bool) {
    exists k :: a < k <= b < |trace| && Holds(trace[k], i, write)
  }

  lemma {:induction false} AskedIsGranted(trace: seq<State>, a: nat, b: nat, i: nat, write: bool)
    requires Run(trace) && a <= b < |trace| && Asks(trace[a], i, write)
    ensures Asks(trace[b], i, write) || Granted(trace, a, b, i, write)
  {
    if a < b {
      AskedIsGranted(trace, a, b - 1, i, write);
      if Asks(trace[b - 1], i, write) {
        assert Next(trace[b - 1], trace[b]);
        AsksUntilGranted(trace[b - 1], trace[b], i, write);
        assert Holds(trace[b], i, write) ==> Granted(trace, a, b, i, write);
      } else {
        var k :| a < k <= b - 1 && Holds(trace[k], i, write);
        assert Granted(trace, a, b, i, write);
      }
    }
  }

  lemma {:induction false} CallIsGranted(trace: seq<State>, a: nat, b: nat, i: nat, write: bool)
    requires Run(trace) && a < b < |trace| && Asks(trace[a], i, write) && i < |trace[b].pcs| && trace[b].pcs[i].Idle?
    ensures exists k :: a < k < b && Holds(trace[k], i, write)
  {
    AskedIsGranted(trace, a, b, i, write);
    var k :| a < k <= b < |trace| && Holds(trace[k], i, write);
    assert k < b;
  }

  // A thread that calls `lock` and has returned from its guard was the writer in between, and one that
  // calls `read` a reader.
  lemma {:induction false} CallsAreGranted(trace: seq<State>, a: nat, b: nat, i: nat)
    requires Run(trace) && a < b < |trace| && i < |trace[a].pcs| && i < |trace[b].pcs| && trace[b].pcs[i].Idle?
    ensures trace[a].pcs[i].LockStart? ==> exists k :: a < k < b && i < |trace[k].pcs| && trace[k].pcs[i].Writing?
    ensures trace[a].pcs[i].ReadStart? ==> exists k :: a < k < b && i < |trace[k].pcs| && trace[k].pcs[i].Reading?
  {
    if trace[a].pcs[i].LockStart? {
      CallIsGranted(trace, a, b, i, true);
    } else if trace[a].pcs[i].ReadStart? {
      CallIsGranted(trace, a, b, i, false);
    }
  }

  // A thread that asks in the first state of an infinite run, and no longer in the n-th, had its guard.
  lemma {:induction false} GrantedBefore(run: nat -> State, n: nat, i: nat, write: bool)
    requires (forall j :: 0 <= j < n ==> Inside(run(j), run(j + 1))) && Asks(run(0), i, write)
    ensures Asks(run(n), i, write) || exists k: nat :: k <= n && Holds(run(k), i, write)
  {
    if n > 0 {
      GrantedBefore(run, n - 1, i, write);
      assert Inside(run(n - 1), run(n - 1 + 1));
      if Asks(run(n - 1), i, write) { AsksUntilGranted(run(n - 1), run(n), i, write); }
    }
  }

  // Every call of `lock` or `read` that is under way gets its guard, in every order of steps.
  lemma {:induction false} EveryCallIsGranted(run: nat -> State, i: nat)
    requires Inv(run(0)) && Maximal(run) && i < |run(0).pcs|
    ensures run(0).pcs[i].LockStart? ==> exists k: nat :: i < |run(k).pcs| && run(k).pcs[i].Writing?
    ensures run(0).pcs[i].ReadStart? ==> exists k: nat :: i < |run(k).pcs| && run(k).pcs[i].Reading?
  {
    var n := EveryOperationCompletes(run);
    if run(0).pcs[i].LockStart? {
      GrantedBefore(run, n, i, true);
      var k: nat :| k <= n && Holds(run(k), i, true);
      assert run(k).pcs[i].Writing?;
    } else if run(0).pcs[i].ReadStart? {
      GrantedBefore(run, n, i, false);
      var k: nat :| k <= n && Holds(run(k), i, false);
      assert run(k).pcs[i].Reading?;
    }
  }
}
