// The database while a batch of actions runs: calls read the tables of before, and writes are staged.
module BatchModel {
  import opened CoreIR
  import opened Options
  import opened RuleModel
  import opened FlattenModel
  import opened LoweringModel
  import opened UnionToSetModel

  type Call = (Head, seq<Value>)

  // What does not change during a batch: the constructors, their rows, the ids used so far, and the
  // primitives.
  datatype Tables = Tables(constructors: set<Head>, rows: map<Call, nat>, used: nat, primitive: (Head, seq<Value>) -> Option<Value>)

  datatype Batch = Batch(predicted: map<Call, nat>, staged: seq<Effect>, next: nat)

  // The id of a constructor call: its row's, or the one this batch has made for it.
  function IdOf(tb: Tables, s: Batch, c: Call): Option<nat> {
    if c in tb.rows then Some(tb.rows[c]) else if c in s.predicted then Some(s.predicted[c]) else None
  }

  function RunCall(tb: Tables, s: Batch, h: Head, ins: seq<Value>): Reply<Batch> {
    if h !in tb.constructors then Reply(s, tb.primitive(h, ins))
    else
      var r := IdOf(tb, s, (h, ins));
      if r.Some? then Reply(s, Some(Id(r.value)))
      else Reply(s.(predicted := s.predicted[(h, ins) := s.next], next := s.next + 1), Some(Id(s.next)))
  }

  function Stage(s: Batch, f: Effect): Reply<Batch> {
    Reply(s.(staged := s.staged + [f]), Some(Base(Unit)))
  }

  function Staging(tb: Tables): Machine<Batch> {
    Machine((s, h, ins) => RunCall(tb, s, h, ins), (s, f) => Stage(s, f))
  }

  // ---------------------------------------------------------------- the link

  // The ids of the run as written, matched with those of the run as lowered.
  type World = map<nat, nat>

  predicate Matched(w: World, a: Value, b: Value) {
    match a
    case Base(_) => a == b
    case Id(i) => i in w && b == Id(w[i])
  }

  predicate AllMatched(w: World, vs: seq<Value>, vs': seq<Value>) {
    |vs| == |vs'| && forall i :: 0 <= i < |vs| ==> Matched(w, vs[i], vs'[i])
  }

  predicate CallsMatched(w: World, c: Call, c': Call) {
    c.0 == c'.0 && AllMatched(w, c.1, c'.1)
  }

  predicate Grows(w: World, w': World) {
    forall i :: i in w ==> i in w' && w'[i] == w[i]
  }

  // Ids in use before the batch match themselves, and new ids match new ones, one to one.
  predicate WorldOk(tb: Tables, w: World) {
    && (forall i :: 0 <= i < tb.used ==> i in w && w[i] == i)
    && (forall i :: i in w && tb.used <= i ==> tb.used <= w[i])
    && (forall i, j :: i in w && j in w && w[i] == w[j] ==> i == j)
  }

  predicate OldIds(tb: Tables, vs: seq<Value>) {
    forall i :: 0 <= i < |vs| ==> OldId(tb, vs[i])
  }

  // Tables mention only ids in use.
  predicate RowsOk(tb: Tables) {
    forall c :: c in tb.rows ==> c.0 in tb.constructors && tb.rows[c] < tb.used && OldIds(tb, c.1)
  }

  // Primitives tell ids that a batch makes apart, but not by their numbers.
  ghost predicate NumbersDoNotMatter(tb: Tables) {
    forall w, h, ins, ins' :: WorldOk(tb, w) && h !in tb.constructors && AllMatched(w, ins, ins') ==>
      Agree(w, tb.primitive(h, ins), tb.primitive(h, ins'))
  }

  ghost predicate TablesOk(tb: Tables) {
    RowsOk(tb) && NumbersDoNotMatter(tb)
  }

  predicate Agree(w: World, a: Option<Value>, b: Option<Value>) {
    (a.Some? <==> b.Some?) && (a.Some? && b.Some? ==> Matched(w, a.value, b.value))
  }

  ghost predicate BatchOk(tb: Tables, s: Batch) {
    && tb.used <= s.next
    && (forall c :: c in s.predicted ==> c !in tb.rows && c.0 in tb.constructors && tb.used <= s.predicted[c] < s.next)
    && (forall c, d :: c in s.predicted && d in s.predicted && s.predicted[c] == s.predicted[d] ==> c == d)
  }

  predicate EffectsMatched(w: World, f: Effect, f': Effect) {
    match f
    case SetRow(h, ins, outs) => f'.SetRow? && f'.head == h && AllMatched(w, ins, f'.ins) && AllMatched(w, outs, f'.outs)
    case ChangeRow(d, h, ins) => f'.ChangeRow? && f'.isDelete == d && f'.head == h && AllMatched(w, ins, f'.ins)
    case Unify(a, b) => f'.Unify? && Matched(w, a, f'.a) && Matched(w, b, f'.b)
    case Abort(_) => f' == f
  }

  // A union with the call's id on one side stands against a set of the call's row to the other side.
  ghost predicate Rewritten(tb: Tables, w: World, s: Batch, f: Effect, f': Effect, c: Call) {
    && f.Unify? && f'.SetRow? && |f'.outs| == 1 && c.0 in tb.constructors && CallsMatched(w, c, (f'.head, f'.ins))
    && IdOf(tb, s, c).Some?
    && var n := Id(IdOf(tb, s, c).value);
    ((f.a == n && Matched(w, f.b, f'.outs[0])) || (f.b == n && Matched(w, f.a, f'.outs[0])))
  }

  ghost predicate StagedMatched(tb: Tables, w: World, s: Batch, f: Effect, f': Effect) {
    EffectsMatched(w, f, f') || exists c :: Rewritten(tb, w, s, f, f', c)
  }

  // A call whose id the lowered run has not needed: some set has its row.
  ghost predicate Hidden(tb: Tables, w: World, s: Batch, s': Batch, c: Call) {
    exists i :: 0 <= i < |s.staged| && i < |s'.staged| && Rewritten(tb, w, s, s.staged[i], s'.staged[i], c)
  }

  // Both runs have made an id for the call, and the two ids match.
  predicate MirroredAs(w: World, s: Batch, s': Batch, c: Call, c': Call) {
    && c in s.predicted && c' in s'.predicted && CallsMatched(w, c, c')
    && Matched(w, Id(s.predicted[c]), Id(s'.predicted[c']))
  }

  ghost predicate Mirrored(w: World, s: Batch, s': Batch, c: Call) {
    exists c' :: MirroredAs(w, s, s', c, c')
  }

  ghost predicate Known(w: World, s: Batch, s': Batch, c': Call) {
    exists c :: MirroredAs(w, s, s', c, c')
  }

  ghost predicate InBounds(w: World, s: Batch, s': Batch) {
    forall i :: i in w ==> i < s.next && w[i] < s'.next
  }

  ghost predicate AllMirrored(w: World, s: Batch, s': Batch) {
    forall c :: c in s.predicted && s.predicted[c] in w ==> Mirrored(w, s, s', c)
  }

  ghost predicate AllHidden(tb: Tables, w: World, s: Batch, s': Batch) {
    forall c :: c in s.predicted && s.predicted[c] !in w ==> Hidden(tb, w, s, s', c)
  }

  ghost predicate AllKnown(w: World, s: Batch, s': Batch) {
    forall c' :: c' in s'.predicted ==> Known(w, s, s', c')
  }

  ghost predicate AllStaged(tb: Tables, w: World, s: Batch, s': Batch) {
    |s.staged| == |s'.staged| && forall i :: 0 <= i < |s.staged| ==> StagedMatched(tb, w, s, s.staged[i], s'.staged[i])
  }

  ghost predicate States(tb: Tables, w: World, s: Batch, s': Batch) {
    && WorldOk(tb, w) && BatchOk(tb, s) && BatchOk(tb, s') && InBounds(w, s, s')
    && AllMirrored(w, s, s') && AllHidden(tb, w, s, s') && AllKnown(w, s, s') && AllStaged(tb, w, s, s')
  }

  // ---------------------------------------------------------------- matching

  lemma {:induction false} MatchedUnique(w: World, c: Call, c1: Call, c2: Call)
    requires CallsMatched(w, c, c1) && CallsMatched(w, c, c2)
    ensures c1 == c2
  {
    assert c1.1 == c2.1;
  }

  lemma {:induction false} MatchedInjective(tb: Tables, w: World, c1: Call, c2: Call, c: Call)
    requires WorldOk(tb, w) && CallsMatched(w, c1, c) && CallsMatched(w, c2, c)
    ensures c1 == c2
  {
    forall i | 0 <= i < |c.1| ensures c1.1[i] == c2.1[i] {
      assert Matched(w, c1.1[i], c.1[i]) && Matched(w, c2.1[i], c.1[i]);
    }
    assert c1.1 == c2.1;
  }

  predicate OldId(tb: Tables, v: Value) {
    v.Id? ==> v.n < tb.used
  }

  lemma {:induction false} OldIdsMatchThemselves(tb: Tables, w: World, a: Value, b: Value)
    requires WorldOk(tb, w) && Matched(w, a, b) && (OldId(tb, a) || OldId(tb, b))
    ensures a == b
  {
    if a.Id? && a.n < tb.used { assert w[a.n] == a.n; }
  }

  // Rows that were there before are the same for both runs.
  lemma {:induction false} SameRows(tb: Tables, w: World, c: Call, c': Call)
    requires TablesOk(tb) && WorldOk(tb, w) && CallsMatched(w, c, c')
    ensures c in tb.rows <==> c' in tb.rows
    ensures c in tb.rows ==> c == c'
  {
    if c in tb.rows || c' in tb.rows {
      forall i | 0 <= i < |c.1| ensures c.1[i] == c'.1[i] {
        OldIdsMatchThemselves(tb, w, c.1[i], c'.1[i]);
      }
      assert c.1 == c'.1;
    }
  }

  lemma {:induction false} GrowMatched(w: World, w': World, vs: seq<Value>, vs': seq<Value>)
    requires Grows(w, w') && AllMatched(w, vs, vs')
    ensures AllMatched(w', vs, vs')
  {
    forall i | 0 <= i < |vs| ensures Matched(w', vs[i], vs'[i]) { assert Matched(w, vs[i], vs'[i]); }
  }

  lemma {:induction false} GrowEffects(w: World, w': World, f: Effect, f': Effect)
    requires Grows(w, w') && EffectsMatched(w, f, f')
    ensures EffectsMatched(w', f, f')
  {
    match f
    case SetRow(_, ins, outs) => GrowMatched(w, w', ins, f'.ins); GrowMatched(w, w', outs, f'.outs);
    case ChangeRow(_, _, ins) => GrowMatched(w, w', ins, f'.ins);
    case _ =>
  }

  // Staged effects stay matched while results are only added.
  lemma {:induction false} GrowStaged(tb: Tables, w: World, w': World, s: Batch, t: Batch, f: Effect, f': Effect)
    requires Grows(w, w') && StagedMatched(tb, w, s, f, f')
    requires forall c :: IdOf(tb, s, c).Some? ==> IdOf(tb, t, c) == IdOf(tb, s, c)
    ensures StagedMatched(tb, w', t, f, f')
  {
    if EffectsMatched(w, f, f') {
      GrowEffects(w, w', f, f');
    } else {
      var c :| Rewritten(tb, w, s, f, f', c);
      GrowRewritten(tb, w, w', s, t, f, f', c);
    }
  }

  lemma {:induction false} GrowRewritten(tb: Tables, w: World, w': World, s: Batch, t: Batch, f: Effect, f': Effect, c: Call)
    requires Grows(w, w') && Rewritten(tb, w, s, f, f', c) && IdOf(tb, t, c) == IdOf(tb, s, c)
    ensures Rewritten(tb, w', t, f, f', c)
  {
    GrowMatched(w, w', c.1, f'.ins);
  }

  // ---------------------------------------------------------------- calls

  lemma {:induction false} AddWorld(tb: Tables, w: World, n: nat, n': nat)
    requires WorldOk(tb, w) && n !in w && tb.used <= n && tb.used <= n' && forall i :: i in w ==> w[i] < n'
    ensures WorldOk(tb, w[n := n']) && Grows(w, w[n := n'])
  {}

  function Predict(s: Batch, c: Call): Batch {
    s.(predicted := s.predicted[c := s.next], next := s.next + 1)
  }

  lemma {:induction false} PredictOk(tb: Tables, s: Batch, c: Call)
    requires BatchOk(tb, s) && c !in s.predicted && c !in tb.rows && c.0 in tb.constructors
    ensures BatchOk(tb, Predict(s, c))
  {}

  // The first run has an unmatched id for the call, or has just made one; the second has just made one.
  ghost predicate NewPair(tb: Tables, s: Batch, t: Batch, s': Batch, t': Batch, c: Call, c': Call) {
    && c' !in s'.predicted && t' == Predict(s', c') && t == (if c in s.predicted then s else Predict(s, c))
  }

  lemma {:induction false} NewPairMirrors(tb: Tables, w: World, w': World, s: Batch, t: Batch, s': Batch, t': Batch, c: Call, c': Call)
    requires NewPair(tb, s, t, s', t', c, c') && AllMirrored(w, s, s') && BatchOk(tb, t) && Grows(w, w')
    requires MirroredAs(w', t, t', c, c') && w'.Keys == w.Keys + {t.predicted[c]}
    ensures AllMirrored(w', t, t')
  {
    forall d | d in t.predicted && t.predicted[d] in w' ensures Mirrored(w', t, t', d) {
      if d != c {
        assert t.predicted[d] != t.predicted[c] && s.predicted[d] == t.predicted[d];
        assert Mirrored(w, s, s', d);
        var d' :| MirroredAs(w, s, s', d, d');
        GrowMatched(w, w', d.1, d'.1);
        assert MirroredAs(w', t, t', d, d');
      }
    }
  }

  lemma {:induction false} NewPairKnown(tb: Tables, w: World, w': World, s: Batch, t: Batch, s': Batch, t': Batch, c: Call, c': Call)
    requires NewPair(tb, s, t, s', t', c, c') && AllKnown(w, s, s') && Grows(w, w') && MirroredAs(w', t, t', c, c')
    ensures AllKnown(w', t, t')
  {
    forall d' | d' in t'.predicted ensures Known(w', t, t', d') {
      if d' != c' {
        assert Known(w, s, s', d');
        var d :| MirroredAs(w, s, s', d, d');
        GrowMatched(w, w', d.1, d'.1);
        assert MirroredAs(w', t, t', d, d');
      }
    }
  }

  lemma {:induction false} NewPairHidden(tb: Tables, w: World, w': World, s: Batch, t: Batch, s': Batch, t': Batch, c: Call, c': Call)
    requires NewPair(tb, s, t, s', t', c, c') && AllHidden(tb, w, s, s') && AllStaged(tb, w, s, s') && Grows(w, w')
    requires c in t.predicted && t.predicted[c] in w'
    ensures AllHidden(tb, w', t, t') && AllStaged(tb, w', t, t')
  {
    assert forall d :: IdOf(tb, s, d).Some? ==> IdOf(tb, t, d) == IdOf(tb, s, d);
    forall d | d in t.predicted && t.predicted[d] !in w' ensures Hidden(tb, w', t, t', d) {
      assert d != c && Hidden(tb, w, s, s', d);
      var i :| 0 <= i < |s.staged| && i < |s'.staged| && Rewritten(tb, w, s, s.staged[i], s'.staged[i], d);
      GrowRewritten(tb, w, w', s, t, s.staged[i], s'.staged[i], d);
      assert Rewritten(tb, w', t, t.staged[i], t'.staged[i], d);
    }
    forall i | 0 <= i < |t.staged| ensures StagedMatched(tb, w', t, t.staged[i], t'.staged[i]) {
      GrowStaged(tb, w, w', s, t, s.staged[i], s'.staged[i]);
    }
  }

  lemma {:induction false} NewPairOk(tb: Tables, s: Batch, t: Batch, s': Batch, t': Batch, c: Call, c': Call)
    requires BatchOk(tb, s) && BatchOk(tb, s') && c !in tb.rows && c' !in tb.rows && c.0 in tb.constructors && c'.0 in tb.constructors
    requires NewPair(tb, s, t, s', t', c, c')
    ensures BatchOk(tb, t) && BatchOk(tb, t') && c in t.predicted && tb.used <= t.predicted[c] < t.next && s.next <= t.next
  {
    if c !in s.predicted { PredictOk(tb, s, c); }
    PredictOk(tb, s', c');
  }

  lemma {:induction false} AddInBounds(w: World, s: Batch, t: Batch, s': Batch, t': Batch, n: nat)
    requires InBounds(w, s, s') && s.next <= t.next && n < t.next && s'.next < t'.next
    ensures InBounds(w[n := s'.next], t, t')
  {}

  lemma {:induction false} NewPairBounds(tb: Tables, w: World, s: Batch, t: Batch, s': Batch, t': Batch, c: Call, c': Call)
    requires WorldOk(tb, w) && BatchOk(tb, s) && BatchOk(tb, s') && InBounds(w, s, s')
    requires CallsMatched(w, c, c') && c !in tb.rows && c' !in tb.rows && c.0 in tb.constructors
    requires NewPair(tb, s, t, s', t', c, c') && t.predicted[c] !in w
    ensures var w' := w[t.predicted[c] := s'.next];
      && Grows(w, w') && WorldOk(tb, w') && BatchOk(tb, t) && BatchOk(tb, t') && InBounds(w', t, t') && MirroredAs(w', t, t', c, c')
  {
    NewPairOk(tb, s, t, s', t', c, c');
    var n := t.predicted[c];
    var w' := w[n := s'.next];
    AddWorld(tb, w, n, s'.next);
    AddInBounds(w, s, t, s', t', n);
    GrowMatched(w, w', c.1, c'.1);
  }

  lemma {:induction false} NewPairStates(tb: Tables, w: World, s: Batch, t: Batch, s': Batch, t': Batch, c: Call, c': Call)
    requires States(tb, w, s, s') && CallsMatched(w, c, c') && c !in tb.rows && c' !in tb.rows && c.0 in tb.constructors
    requires NewPair(tb, s, t, s', t', c, c') && t.predicted[c] !in w
    ensures var w' := w[t.predicted[c] := s'.next]; Grows(w, w') && States(tb, w', t, t')
  {
    var w' := w[t.predicted[c] := s'.next];
    NewPairBounds(tb, w, s, t, s', t', c, c');
    NewPairMirrors(tb, w, w', s, t, s', t', c, c');
    NewPairKnown(tb, w, w', s, t, s', t', c, c');
    NewPairHidden(tb, w, w', s, t, s', t', c, c');
  }

  // A call whose id the first run has not matched is new to the second.
  lemma {:induction false} UnmatchedIsNew(tb: Tables, w: World, s: Batch, s': Batch, c: Call, c': Call)
    requires States(tb, w, s, s') && CallsMatched(w, c, c') && (c in s.predicted ==> s.predicted[c] !in w)
    ensures c' !in s'.predicted
  {
    if c' in s'.predicted {
      assert Known(w, s, s', c');
      var d :| MirroredAs(w, s, s', d, c');
      MatchedInjective(tb, w, d, c, c');
    }
  }

  lemma {:induction false} CallsKeepStates(tb: Tables, w: World, s: Batch, s': Batch, h: Head, ins: seq<Value>, ins': seq<Value>) returns (w': World)
    requires TablesOk(tb) && States(tb, w, s, s') && AllMatched(w, ins, ins')
    ensures var r, r' := RunCall(tb, s, h, ins), RunCall(tb, s', h, ins');
      Grows(w, w') && States(tb, w', r.state, r'.state) && Agree(w', r.value, r'.value)
  {
    w' := w;
    var c, c' := (h, ins), (h, ins');
    if h in tb.constructors {
      SameRows(tb, w, c, c');
      if c !in tb.rows {
        if c in s.predicted && s.predicted[c] in w {
          assert Mirrored(w, s, s', c);
          var d' :| MirroredAs(w, s, s', c, d');
          MatchedUnique(w, c, c', d');
        } else {
          UnmatchedIsNew(tb, w, s, s', c, c');
          var t, t' := RunCall(tb, s, h, ins).state, RunCall(tb, s', h, ins').state;
          NewPairStates(tb, w, s, t, s', t', c, c');
          w' := w[t.predicted[c] := s'.next];
        }
      }
    }
  }

  // ---------------------------------------------------------------- effects

  // A pair of effects staged at the end; the first run may have made an id for a call on the way.
  ghost predicate StagedPair(tb: Tables, w: World, s: Batch, t: Batch, s': Batch, t': Batch, f: Effect, f': Effect) {
    && t' == s'.(staged := s'.staged + [f']) && t.staged == s.staged + [f] && StagedMatched(tb, w, t, f, f')
    && (forall c :: c in s.predicted ==> c in t.predicted && t.predicted[c] == s.predicted[c])
    && (forall c :: c in t.predicted && c !in s.predicted ==> t.predicted[c] !in w && Rewritten(tb, w, t, f, f', c))
  }

  lemma {:induction false} StagedPairMirrors(tb: Tables, w: World, s: Batch, t: Batch, s': Batch, t': Batch, f: Effect, f': Effect)
    requires StagedPair(tb, w, s, t, s', t', f, f') && AllMirrored(w, s, s') && AllKnown(w, s, s')
    ensures AllMirrored(w, t, t') && AllKnown(w, t, t')
  {
    forall d | d in t.predicted && t.predicted[d] in w ensures Mirrored(w, t, t', d) {
      assert Mirrored(w, s, s', d);
      var d' :| MirroredAs(w, s, s', d, d');
      assert MirroredAs(w, t, t', d, d');
    }
    forall d' | d' in t'.predicted ensures Known(w, t, t', d') {
      assert Known(w, s, s', d');
      var d :| MirroredAs(w, s, s', d, d');
      assert MirroredAs(w, t, t', d, d');
    }
  }

  lemma {:induction false} StaysHidden(tb: Tables, w: World, s: Batch, t: Batch, s': Batch, t': Batch, f: Effect, f': Effect, d: Call)
    requires t.staged == s.staged + [f] && t'.staged == s'.staged + [f'] && Hidden(tb, w, s, s', d)
    requires IdOf(tb, s, d).Some? ==> IdOf(tb, t, d) == IdOf(tb, s, d)
    ensures Hidden(tb, w, t, t', d)
  {
    var i :| 0 <= i < |s.staged| && i < |s'.staged| && Rewritten(tb, w, s, s.staged[i], s'.staged[i], d);
    GrowRewritten(tb, w, w, s, t, s.staged[i], s'.staged[i], d);
    assert Rewritten(tb, w, t, t.staged[i], t'.staged[i], d);
  }

  lemma {:induction false} StagedPairHidden(tb: Tables, w: World, s: Batch, t: Batch, s': Batch, t': Batch, f: Effect, f': Effect)
    requires StagedPair(tb, w, s, t, s', t', f, f') && AllHidden(tb, w, s, s') && AllStaged(tb, w, s, s')
    ensures AllHidden(tb, w, t, t') && AllStaged(tb, w, t, t')
  {
    assert forall d :: IdOf(tb, s, d).Some? ==> IdOf(tb, t, d) == IdOf(tb, s, d);
    var k := |s.staged|;
    assert t.staged[k] == f && t'.staged[k] == f';
    forall d | d in t.predicted && t.predicted[d] !in w ensures Hidden(tb, w, t, t', d) {
      if d in s.predicted {
        StaysHidden(tb, w, s, t, s', t', f, f', d);
      } else {
        assert Rewritten(tb, w, t, t.staged[k], t'.staged[k], d);
      }
    }
    forall i | 0 <= i < |t.staged| ensures StagedMatched(tb, w, t, t.staged[i], t'.staged[i]) {
      if i < k { GrowStaged(tb, w, w, s, t, s.staged[i], s'.staged[i]); }
    }
  }

  lemma {:induction false} StagedPairStates(tb: Tables, w: World, s: Batch, t: Batch, s': Batch, t': Batch, f: Effect, f': Effect)
    requires States(tb, w, s, s') && StagedPair(tb, w, s, t, s', t', f, f') && BatchOk(tb, t) && s.next <= t.next
    ensures States(tb, w, t, t')
  {
    StagedPairMirrors(tb, w, s, t, s', t', f, f');
    StagedPairHidden(tb, w, s, t, s', t', f, f');
  }

  lemma {:induction false} EffectsKeepStates(tb: Tables, w: World, s: Batch, s': Batch, f: Effect, f': Effect)
    requires States(tb, w, s, s') && EffectsMatched(w, f, f')
    ensures States(tb, w, Stage(s, f).state, Stage(s', f').state)
  {
    StagedPairStates(tb, w, s, Stage(s, f).state, s', Stage(s', f').state, f, f');
  }

  lemma {:induction false} SetsKeepStates(tb: Tables, w: World, s: Batch, s': Batch, h: Head, ins: seq<Value>, ins': seq<Value>,
                                          v: Value, v': Value, callFirst: bool)
    requires TablesOk(tb) && States(tb, w, s, s') && h in tb.constructors && AllMatched(w, ins, ins') && Matched(w, v, v')
    ensures var r := CallThenUnify(Staging(tb), s, h, ins, v, callFirst);
      r.value == Some(Base(Unit)) && States(tb, w, r.state, Stage(s', SetRow(h, ins', [v'])).state)
  {
    var c := (h, ins);
    var q := RunCall(tb, s, h, ins);
    var f := if callFirst then Unify(q.value.value, v) else Unify(v, q.value.value);
    var f' := SetRow(h, ins', [v']);
    var t := Stage(q.state, f).state;
    CallPredicts(tb, w, s, s', c);
    UnionIsStaged(tb, w, s, q.state, s', c, f, f');
    StagedPairStates(tb, w, s, t, s', Stage(s', f').state, f, f');
  }

  lemma {:induction false} UnionIsStaged(tb: Tables, w: World, s: Batch, q: Batch, s': Batch, c: Call, f: Effect, f': Effect)
    requires BatchOk(tb, q) && q.staged == s.staged && Rewritten(tb, w, q, f, f', c)
    requires forall d :: d in s.predicted ==> d in q.predicted && q.predicted[d] == s.predicted[d]
    requires forall d :: d in q.predicted && d !in s.predicted ==> d == c && q.predicted[d] !in w
    ensures BatchOk(tb, Stage(q, f).state) && StagedPair(tb, w, s, Stage(q, f).state, s', Stage(s', f').state, f, f')
  {
    var t := Stage(q, f).state;
    assert IdOf(tb, t, c) == IdOf(tb, q, c);
    assert Rewritten(tb, w, t, f, f', c);
  }

  // A constructor call answers with its result, and adds at most itself, with an unmatched id.
  lemma {:induction false} CallPredicts(tb: Tables, w: World, s: Batch, s': Batch, c: Call)
    requires BatchOk(tb, s) && InBounds(w, s, s') && c.0 in tb.constructors
    ensures var q := RunCall(tb, s, c.0, c.1);
      && IdOf(tb, q.state, c).Some? && q.value == Some(Id(IdOf(tb, q.state, c).value))
      && BatchOk(tb, q.state) && s.next <= q.state.next && q.state.staged == s.staged
      && (forall d :: d in s.predicted ==> d in q.state.predicted && q.state.predicted[d] == s.predicted[d])
      && (forall d :: d in q.state.predicted && d !in s.predicted ==> d == c && q.state.predicted[d] !in w)
  {
    if IdOf(tb, s, c).None? { PredictOk(tb, s, c); }
  }

  // ---------------------------------------------------------------- the laws

  ghost function Matching(tb: Tables): Link<Batch, World> {
    Link((w, s, s') => States(tb, w, s, s'), (w, a, b) => Matched(w, a, b), (w, w') => Grows(w, w'))
  }

  lemma {:induction false} LinkedIsMatched(tb: Tables, w: World, vs: seq<Value>, vs': seq<Value>)
    ensures AllLinked(Matching(tb), w, vs, vs') <==> AllMatched(w, vs, vs')
  {}

  lemma {:induction false} EffectsLinkedAreMatched(tb: Tables, w: World, f: Effect, f': Effect)
    ensures EffectsLinked(Matching(tb), w, f, f') <==> EffectsMatched(w, f, f')
  {
    match f
    case SetRow(_, ins, outs) =>
      if f'.SetRow? {
        LinkedIsMatched(tb, w, ins, f'.ins);
        LinkedIsMatched(tb, w, outs, f'.outs);
      }
    case ChangeRow(_, _, ins) => if f'.ChangeRow? { LinkedIsMatched(tb, w, ins, f'.ins); }
    case _ =>
  }

  lemma {:induction false} StagingWorlds(tb: Tables)
    ensures WorldLaw(Matching(tb))
  {}

  lemma {:induction false} StagingCalls(tb: Tables)
    requires TablesOk(tb)
    ensures CallLaw(Staging(tb), Matching(tb))
  {
    var m, link := Staging(tb), Matching(tb);
    forall w, s, s', h, ins, ins' | link.states(w, s, s') && AllLinked(link, w, ins, ins')
      ensures RepliesLinked(link, w, m.call(s, h, ins), m.call(s', h, ins'))
    {
      LinkedIsMatched(tb, w, ins, ins');
      var w' := CallsKeepStates(tb, w, s, s', h, ins, ins');
      assert ReplyAt(link, w, w', m.call(s, h, ins), m.call(s', h, ins'));
    }
  }

  lemma {:induction false} StagingEffects(tb: Tables)
    ensures EffectLaw(Staging(tb), Matching(tb))
  {
    var m, link := Staging(tb), Matching(tb);
    forall w, s, s', f, f' | link.states(w, s, s') && EffectsLinked(link, w, f, f')
      ensures RepliesLinked(link, w, m.effect(s, f), m.effect(s', f'))
    {
      EffectsLinkedAreMatched(tb, w, f, f');
      EffectsKeepStates(tb, w, s, s', f, f');
      assert ReplyAt(link, w, w, m.effect(s, f), m.effect(s', f'));
    }
  }

  lemma {:induction false} StagingSets(tb: Tables)
    requires TablesOk(tb)
    ensures SetLaw(Staging(tb), Matching(tb), tb.constructors)
  {
    var m, link := Staging(tb), Matching(tb);
    forall w, s, s', h, ins, ins', v, v', first
      | h in tb.constructors && link.states(w, s, s') && AllLinked(link, w, ins, ins') && link.values(w, v, v')
      ensures RepliesLinked(link, w, CallThenUnify(m, s, h, ins, v, first), m.effect(s', SetRow(h, ins', [v'])))
    {
      LinkedIsMatched(tb, w, ins, ins');
      SetsKeepStates(tb, w, s, s', h, ins, ins', v, v', first);
      assert ReplyAt(link, w, w, CallThenUnify(m, s, h, ins, v, first), m.effect(s', SetRow(h, ins', [v'])));
    }
  }

  // On staged tables a set of a constructor's row does what the call and the union do.
  lemma {:induction false} StagingIsLawful(tb: Tables, cfg: Config)
    requires TablesOk(tb) && cfg.constructors == tb.constructors
    ensures Laws(Staging(tb), Matching(tb), cfg)
  {
    StagingWorlds(tb);
    StagingCalls(tb);
    StagingEffects(tb);
    StagingSets(tb);
  }

  function Identity(n: nat): (w: World)
    ensures forall i :: i in w <==> 0 <= i < n
    ensures forall i :: i in w ==> w[i] == i
  {
    if n == 0 then map[] else Identity(n - 1)[n - 1 := n - 1]
  }

  function Empty(tb: Tables): Batch {
    Batch(map[], [], tb.used)
  }

  // Before a batch every id in use matches itself.
  lemma {:induction false} StagingStarts(tb: Tables, g: map<Leaf, Value>, x: Env)
    requires forall v :: v in g && g[v].Id? ==> g[v].n < tb.used
    requires forall t :: t in x && x[t].Id? ==> x[t].n < tb.used
    ensures StartsAt(Matching(tb), Identity(tb.used), g, Empty(tb), Empty(tb), x)
  {}

  // ---------------------------------------------------------------- primitives that see numbers

  // A primitive answers with base values, ids in use, or what it was given.
  predicate Invents(tb: Tables, ins: seq<Value>, r: Option<Value>) {
    r.Some? && r.value.Id? && !OldId(tb, r.value) && r.value !in ins
  }

  ghost predicate InventsNothing(tb: Tables) {
    forall h, ins :: h !in tb.constructors ==> !Invents(tb, ins, tb.primitive(h, ins))
  }

  ghost function Above(w: World): (n: nat)
    ensures forall i :: i in w ==> i < n && w[i] < n
    decreases |w|
  {
    if w == map[] then 0
    else
      assert w.Keys != {};
      var i :| i in w;
      assert |w - {i}| < |w|;
      var n := Above(w - {i});
      assert forall k :: k in w && k != i ==> k in w - {i};
      if i < n && w[i] < n then n else i + w[i] + n + 1
  }

  // Every matching of ids occurs between two runs.
  lemma {:induction false} WorldOccurs(tb: Tables, w: World) returns (s: Batch)
    requires WorldOk(tb, w)
    ensures States(tb, w, s, s)
  {
    s := Batch(map[], [], Above(w) + tb.used);
  }

  lemma {:induction false} AnswersAgree(tb: Tables, w: World, w': World, ins: seq<Value>, ins': seq<Value>, a: Option<Value>, b: Option<Value>)
    requires WorldOk(tb, w) && Grows(w, w') && AllMatched(w, ins, ins') && Agree(w', a, b) && !Invents(tb, ins, a)
    ensures Agree(w, a, b)
  {
    if a.Some? && a.value.Id? && a.value in ins {
      var i :| 0 <= i < |ins| && ins[i] == a.value;
      assert Matched(w, ins[i], ins'[i]);
    }
  }

  lemma {:induction false} CallsTell(tb: Tables, cfg: Config, w: World, h: Head, ins: seq<Value>, ins': seq<Value>)
    requires InventsNothing(tb) && Laws(Staging(tb), Matching(tb), cfg)
    requires WorldOk(tb, w) && h !in tb.constructors && AllMatched(w, ins, ins')
    ensures Agree(w, tb.primitive(h, ins), tb.primitive(h, ins'))
  {
    var m, link := Staging(tb), Matching(tb);
    var s := WorldOccurs(tb, w);
    LinkedIsMatched(tb, w, ins, ins');
    assert RepliesLinked(link, w, m.call(s, h, ins), m.call(s, h, ins'));
    var w' :| ReplyAt(link, w, w', m.call(s, h, ins), m.call(s, h, ins'));
    AnswersAgree(tb, w, w', ins, ins', tb.primitive(h, ins), tb.primitive(h, ins'));
  }

  // The laws hold exactly when no primitive looks at the numbers of ids made in the batch.
  lemma {:induction false} StagingIsLawfulIff(tb: Tables, cfg: Config)
    requires RowsOk(tb) && InventsNothing(tb) && cfg.constructors == tb.constructors
    ensures Laws(Staging(tb), Matching(tb), cfg) <==> NumbersDoNotMatter(tb)
  {
    if NumbersDoNotMatter(tb) { StagingIsLawful(tb, cfg); }
    if Laws(Staging(tb), Matching(tb), cfg) {
      forall w, h, ins, ins' | WorldOk(tb, w) && h !in tb.constructors && AllMatched(w, ins, ins')
        ensures Agree(w, tb.primitive(h, ins), tb.primitive(h, ins'))
      {
        CallsTell(tb, cfg, w, h, ins, ins');
      }
    }
  }

  function OrderingMin(ins: seq<Value>): Option<Value> {
    if |ins| == 2 && ins[0].Id? && ins[1].Id? then Some(if ins[0].n < ins[1].n then ins[0] else ins[1]) else None
  }

  // The lesser of two ids is such a look, when both are made in the batch.
  lemma {:induction false} OrderingMinLooks(tb: Tables, h: Head)
    requires h !in tb.constructors && forall ins :: tb.primitive(h, ins) == OrderingMin(ins)
    ensures !NumbersDoNotMatter(tb)
  {
    var n := tb.used;
    var w := Identity(n)[n := n + 1][n + 1 := n];
    var ins, ins' := [Id(n), Id(n + 1)], [Id(n + 1), Id(n)];
    assert WorldOk(tb, w) && AllMatched(w, ins, ins');
    assert tb.primitive(h, ins) == Some(Id(n)) && tb.primitive(h, ins') == Some(Id(n));
    assert !Agree(w, tb.primitive(h, ins), tb.primitive(h, ins'));
  }

  // With an id in use it is not.
  lemma {:induction false} OrderingMinOfOld(tb: Tables, w: World, a: Value, b: Value, a': Value, b': Value)
    requires WorldOk(tb, w) && Matched(w, a, a') && Matched(w, b, b') && (OldId(tb, a) || OldId(tb, b))
    ensures Agree(w, OrderingMin([a, b]), OrderingMin([a', b']))
  {
    if OldId(tb, a) { OldIdsMatchThemselves(tb, w, a, a'); }
    if OldId(tb, b) { OldIdsMatchThemselves(tb, w, b, b'); }
  }
}
