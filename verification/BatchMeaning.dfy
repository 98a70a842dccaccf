// What an applied batch means, and when unions that were lowered to sets mean the same.
module BatchMeaningModel {
  import opened CoreIR
  import opened Options
  import opened RuleModel
  import opened FlattenModel
  import opened LoweringModel
  import opened UnionToSetModel
  import opened BatchModel

  predicate Removed(s: Batch, c: Call) {
    exists i :: 0 <= i < |s.staged| && s.staged[i] == ChangeRow(true, c.0, c.1)
  }

  predicate IsSetRow(s: Batch, c: Call, v: Value) {
    exists i :: 0 <= i < |s.staged| && s.staged[i] == SetRow(c.0, c.1, [v])
  }

  // The constructor rows there are when the batch has been applied: removals first, then the new rows.
  predicate HasRow(tb: Tables, s: Batch, c: Call, v: Value) {
    || (c in tb.rows && !Removed(s, c) && v == Id(tb.rows[c]))
    || (c in s.predicted && v == Id(s.predicted[c]))
    || (c.0 in tb.constructors && IsSetRow(s, c, v))
  }

  type Rows = set<(Call, Value)>

  // Applying the staged writes one after the other: first the removals are carried out,
  function AfterRemovals(rows: Rows, staged: seq<Effect>): Rows {
    if staged == [] then rows
    else
      var r := AfterRemovals(rows, staged[..|staged| - 1]);
      match staged[|staged| - 1]
      case ChangeRow(true, h, ins) => set x | x in r && x.0 != (h, ins)
      case _ => r
  }

  // and then the rows set are added.
  function AfterSets(tb: Tables, rows: Rows, staged: seq<Effect>): Rows {
    if staged == [] then rows
    else
      var r := AfterSets(tb, rows, staged[..|staged| - 1]);
      match staged[|staged| - 1]
      case SetRow(h, ins, vals) => if h in tb.constructors && |vals| == 1 then r + {((h, ins), vals[0])} else r
      case _ => r
  }

  function RowsOf(rows: map<Call, nat>): Rows {
    set c | c in rows :: (c, Id(rows[c]))
  }

  // The rows said to be there are those that applying the writes leaves, beside those the batch has made.
  lemma {:induction false} HasRowIsApplied(tb: Tables, s: Batch, c: Call, v: Value)
    ensures HasRow(tb, s, c, v) <==> (c, v) in AfterSets(tb, AfterRemovals(RowsOf(tb.rows), s.staged) + RowsOf(s.predicted), s.staged)
  {
    RemovalsAre(RowsOf(tb.rows), s.staged, c, v);
    SetsAre(tb, AfterRemovals(RowsOf(tb.rows), s.staged) + RowsOf(s.predicted), s.staged, c, v);
  }

  lemma {:induction false} RemovalsAre(rows: Rows, staged: seq<Effect>, c: Call, v: Value)
    ensures (c, v) in AfterRemovals(rows, staged) <==> (c, v) in rows && ChangeRow(true, c.0, c.1) !in staged
  {
    if staged != [] {
      RemovalsAre(rows, staged[..|staged| - 1], c, v);
      assert staged == staged[..|staged| - 1] + [staged[|staged| - 1]];
    }
  }

  lemma {:induction false} SetsAre(tb: Tables, rows: Rows, staged: seq<Effect>, c: Call, v: Value)
    ensures (c, v) in AfterSets(tb, rows, staged) <==> (c, v) in rows || (c.0 in tb.constructors && SetRow(c.0, c.1, [v]) in staged)
  {
    if staged != [] {
      SetsAre(tb, rows, staged[..|staged| - 1], c, v);
      var last := staged[|staged| - 1];
      assert last.SetRow? && |last.outs| == 1 ==> last.outs == [last.outs[0]];
      assert staged == staged[..|staged| - 1] + [staged[|staged| - 1]];
    }
  }

  type Relation = iset<(Value, Value)>

  ghost predicate IsEquivalence(e: Relation) {
    && (forall a :: (a, a) in e)
    && (forall a, b :: (a, b) in e ==> (b, a) in e)
    && (forall a, b, c :: (a, b) in e && (b, c) in e ==> (a, c) in e)
  }

  ghost predicate Pairwise(e: Relation, vs: seq<Value>, us: seq<Value>) {
    |vs| == |us| && forall i :: 0 <= i < |vs| ==> (vs[i], us[i]) in e
  }

  ghost predicate Congruent(tb: Tables, s: Batch, e: Relation) {
    forall c, d, x, y :: HasRow(tb, s, c, x) && HasRow(tb, s, d, y) && c.0 == d.0 && Pairwise(e, c.1, d.1) ==> (x, y) in e
  }

  ghost predicate Unified(s: Batch, e: Relation) {
    forall i :: 0 <= i < |s.staged| && s.staged[i].Unify? ==> (s.staged[i].a, s.staged[i].b) in e
  }

  ghost predicate IsModel(tb: Tables, s: Batch, e: Relation) {
    IsEquivalence(e) && Unified(s, e) && Congruent(tb, s, e)
  }

  // What rebuilding makes equal: the least congruence that contains the unions.
  ghost predicate Equal(tb: Tables, s: Batch, a: Value, b: Value) {
    forall e :: IsModel(tb, s, e) ==> (a, b) in e
  }

  // The type checker rejects a `set` of a constructor.
  predicate NoConstructorSets(tb: Tables, s: Batch) {
    forall i :: 0 <= i < |s.staged| && s.staged[i].SetRow? ==> s.staged[i].head !in tb.constructors
  }

  function CallOf(f: Effect): Call
    requires f.SetRow?
  {
    (f.head, f.ins)
  }

  // A staged set of a row of before that the batch removes.
  predicate IsSetOfRemoved(tb: Tables, s: Batch, i: nat) {
    i < |s.staged| && s.staged[i].SetRow? && CallOf(s.staged[i]) in tb.rows && Removed(s, CallOf(s.staged[i]))
  }

  ghost predicate NoSetOfRemoved(tb: Tables, s: Batch) {
    forall i: nat :: !IsSetOfRemoved(tb, s, i)
  }

  ghost function Equality(tb: Tables, s: Batch): Relation {
    iset p: (Value, Value) | Equal(tb, s, p.0, p.1)
  }

  ghost predicate RowFor(tb: Tables, s: Batch, c: Call, v: Value, d: Call, y: Value) {
    HasRow(tb, s, d, y) && d.0 == c.0 && Pairwise(Equality(tb, s), d.1, c.1) && Equal(tb, s, y, v)
  }

  // The rows there are after rebuilding: those there were, up to what has become equal.
  ghost predicate InRebuilt(tb: Tables, s: Batch, c: Call, v: Value) {
    exists d, y :: RowFor(tb, s, c, v, d, y)
  }

  // A row of before is still there after rebuilding, though maybe under other names.
  ghost predicate Survives(tb: Tables, s: Batch, c: Call) {
    c in tb.rows && InRebuilt(tb, s, c, Id(tb.rows[c]))
  }

  // What the batch both sets and removes survives in both runs.
  ghost predicate RemovedSurvive(tb: Tables, s: Batch, s': Batch) {
    forall i: nat :: IsSetOfRemoved(tb, s', i) ==> Survives(tb, s, CallOf(s'.staged[i])) && Survives(tb, s', CallOf(s'.staged[i]))
  }

  lemma {:induction false} EqualityIsModel(tb: Tables, s: Batch)
    ensures IsModel(tb, s, Equality(tb, s))
  {
    var r := Equality(tb, s);
    forall a, b, c | (a, b) in r && (b, c) in r ensures (a, c) in r {
      forall e | IsModel(tb, s, e) ensures (a, c) in e { assert (a, b) in e && (b, c) in e; }
    }
    forall c, d, x, y | HasRow(tb, s, c, x) && HasRow(tb, s, d, y) && c.0 == d.0 && Pairwise(r, c.1, d.1) ensures (x, y) in r {
      forall e | IsModel(tb, s, e) ensures (x, y) in e {
        forall i | 0 <= i < |c.1| ensures (c.1[i], d.1[i]) in e { assert (c.1[i], d.1[i]) in r; }
        assert Pairwise(e, c.1, d.1);
      }
    }
  }

  lemma {:induction false} EqualIsEquivalence(tb: Tables, s: Batch, a: Value, b: Value, c: Value)
    ensures Equal(tb, s, a, a) && (Equal(tb, s, a, b) ==> Equal(tb, s, b, a))
    ensures Equal(tb, s, a, b) && Equal(tb, s, b, c) ==> Equal(tb, s, a, c)
  {
    var r := Equality(tb, s);
    EqualityIsModel(tb, s);
    assert (a, a) in r && ((a, b) in r ==> (b, a) in r) && ((a, b) in r && (b, c) in r ==> (a, c) in r);
  }

  lemma {:induction false} PairwiseTrans(e: Relation, us: seq<Value>, vs: seq<Value>, xs: seq<Value>)
    requires IsEquivalence(e) && Pairwise(e, us, vs) && Pairwise(e, vs, xs)
    ensures Pairwise(e, us, xs) && Pairwise(e, vs, us)
  {
    forall i | 0 <= i < |us| ensures (us[i], xs[i]) in e && (vs[i], us[i]) in e {
      assert (us[i], vs[i]) in e && (vs[i], xs[i]) in e;
    }
  }

  // Rows with equal inputs have equal outputs.
  lemma {:induction false} SameInputs(tb: Tables, s: Batch, e: Relation, c: Call, x: Value, d: Call, y: Value)
    requires IsModel(tb, s, e) && HasRow(tb, s, c, x) && HasRow(tb, s, d, y) && c.0 == d.0 && Pairwise(e, c.1, d.1)
    ensures (x, y) in e
  {}

  // A surviving row is in every model: some row with equal inputs has an equal output.
  lemma {:induction false} RebuiltInModel(tb: Tables, s: Batch, e: Relation, c: Call, v: Value) returns (d: Call, y: Value)
    requires IsModel(tb, s, e) && InRebuilt(tb, s, c, v)
    ensures HasRow(tb, s, d, y) && d.0 == c.0 && Pairwise(e, c.1, d.1) && Pairwise(e, d.1, c.1) && (y, v) in e
  {
    d, y :| RowFor(tb, s, c, v, d, y);
    forall i | 0 <= i < |d.1| ensures (d.1[i], c.1[i]) in e && (c.1[i], d.1[i]) in e {
      assert (d.1[i], c.1[i]) in Equality(tb, s);
    }
  }

  // ---------------------------------------------------------------- rows

  lemma {:induction false} SameRemovals(tb: Tables, w: World, s: Batch, s': Batch, c: Call, c': Call)
    requires WorldOk(tb, w) && AllStaged(tb, w, s, s') && CallsMatched(w, c, c')
    ensures Removed(s, c) <==> Removed(s', c')
  {
    if Removed(s, c) {
      var i :| 0 <= i < |s.staged| && s.staged[i] == ChangeRow(true, c.0, c.1);
      assert StagedMatched(tb, w, s, s.staged[i], s'.staged[i]);
      MatchedUnique(w, c, c', (c.0, s'.staged[i].ins));
      assert s'.staged[i] == ChangeRow(true, c'.0, c'.1);
    }
    if Removed(s', c') {
      var i :| 0 <= i < |s'.staged| && s'.staged[i] == ChangeRow(true, c'.0, c'.1);
      assert StagedMatched(tb, w, s, s.staged[i], s'.staged[i]);
      MatchedInjective(tb, w, c, (c.0, s.staged[i].ins), c');
      assert s.staged[i] == ChangeRow(true, c.0, c.1);
    }
  }

  lemma {:induction false} OldCallMatchesItself(tb: Tables, w: World, c: Call)
    requires TablesOk(tb) && WorldOk(tb, w) && c in tb.rows
    ensures CallsMatched(w, c, c) && Matched(w, Id(tb.rows[c]), Id(tb.rows[c]))
  {
    forall i | 0 <= i < |c.1| ensures Matched(w, c.1[i], c.1[i]) { assert OldId(tb, c.1[i]); }
  }

  // Two runs of a batch, as written and as lowered.
  ghost predicate Runs(tb: Tables, w: World, s: Batch, s': Batch) {
    TablesOk(tb) && States(tb, w, s, s') && NoConstructorSets(tb, s)
  }

  // The call of a rewritten union has a row in the run as written, unless its row of before is removed.
  lemma {:induction false} UnionHasRow(tb: Tables, w: World, s: Batch, s': Batch, i: nat, c: Call)
    requires TablesOk(tb) && States(tb, w, s, s')
    requires i < |s.staged| && Rewritten(tb, w, s, s.staged[i], s'.staged[i], c)
    ensures IsSetOfRemoved(tb, s', i) ==> c == CallOf(s'.staged[i]) && IdOf(tb, s, c) == Some(tb.rows[c])
    ensures !IsSetOfRemoved(tb, s', i) ==> HasRow(tb, s, c, Id(IdOf(tb, s, c).value))
  {
    var c' := (s'.staged[i].head, s'.staged[i].ins);
    SameRows(tb, w, c, c');
    SameRemovals(tb, w, s, s', c, c');
  }

  // ---------------------------------------------------------------- from the lowered run to the written one

  // A row of the lowered run stands for a row of the run as written, up to equality.
  ghost predicate StandsFor(tb: Tables, w: World, s: Batch, e: Relation, c: Call, x: Value, d: Call, y: Value, c': Call, x': Value) {
    && CallsMatched(w, c, c') && Matched(w, x, x')
    && HasRow(tb, s, d, y) && d.0 == c.0 && Pairwise(e, c.1, d.1) && Pairwise(e, d.1, c.1) && (x, y) in e
  }

  lemma {:induction false} PairwiseSelf(e: Relation, vs: seq<Value>)
    requires IsEquivalence(e)
    ensures Pairwise(e, vs, vs)
  {}

  lemma {:induction false} OldRowStandsFor(tb: Tables, w: World, s: Batch, s': Batch, e: Relation, c: Call)
    requires TablesOk(tb) && WorldOk(tb, w) && AllStaged(tb, w, s, s') && IsEquivalence(e)
    requires c in tb.rows && !Removed(s', c)
    ensures var n := Id(tb.rows[c]); StandsFor(tb, w, s, e, c, n, c, n, c, n)
  {
    OldCallMatchesItself(tb, w, c);
    SameRemovals(tb, w, s, s', c, c);
    PairwiseSelf(e, c.1);
  }

  // The other side of a rewritten union.
  function OtherSide(tb: Tables, w: World, s: Batch, f: Effect, f': Effect, c: Call): (x: Value)
    requires Rewritten(tb, w, s, f, f', c)
    ensures Matched(w, x, f'.outs[0])
    ensures var n := Id(IdOf(tb, s, c).value); (f.a == n && x == f.b) || (f.b == n && x == f.a)
  {
    if f.a == Id(IdOf(tb, s, c).value) && Matched(w, f.b, f'.outs[0]) then f.b else f.a
  }

  lemma {:induction false} OtherSideIsEqual(tb: Tables, w: World, s: Batch, e: Relation, i: nat, f': Effect, c: Call)
    requires IsEquivalence(e) && Unified(s, e) && i < |s.staged| && Rewritten(tb, w, s, s.staged[i], f', c)
    ensures var x, n := OtherSide(tb, w, s, s.staged[i], f', c), Id(IdOf(tb, s, c).value); (x, n) in e && (n, x) in e
  {
    assert (s.staged[i].a, s.staged[i].b) in e && (s.staged[i].b, s.staged[i].a) in e;
  }

  // A removed row that survives stands for what it is set to.
  lemma {:induction false} SurvivorStandsFor(tb: Tables, w: World, s: Batch, e: Relation, c: Call, x: Value, c': Call, x': Value)
    returns (d: Call, y: Value)
    requires IsModel(tb, s, e) && Survives(tb, s, c) && (x, Id(tb.rows[c])) in e && CallsMatched(w, c, c') && Matched(w, x, x')
    ensures StandsFor(tb, w, s, e, c, x, d, y, c', x')
  {
    var n := Id(tb.rows[c]);
    d, y := RebuiltInModel(tb, s, e, c, n);
    assert (n, y) in e;
  }

  lemma {:induction false} UnionRowStandsFor(tb: Tables, w: World, s: Batch, s': Batch, e: Relation, i: nat, c: Call)
    returns (x: Value, d: Call, y: Value)
    requires TablesOk(tb) && States(tb, w, s, s') && RemovedSurvive(tb, s, s') && IsModel(tb, s, e)
    requires i < |s.staged| && Rewritten(tb, w, s, s.staged[i], s'.staged[i], c)
    ensures StandsFor(tb, w, s, e, c, x, d, y, CallOf(s'.staged[i]), s'.staged[i].outs[0])
  {
    x := OtherSide(tb, w, s, s.staged[i], s'.staged[i], c);
    OtherSideIsEqual(tb, w, s, e, i, s'.staged[i], c);
    UnionHasRow(tb, w, s, s', i, c);
    if IsSetOfRemoved(tb, s', i) {
      d, y := SurvivorStandsFor(tb, w, s, e, c, x, CallOf(s'.staged[i]), s'.staged[i].outs[0]);
    } else {
      d, y := c, Id(IdOf(tb, s, c).value);
      PairwiseSelf(e, c.1);
    }
  }

  lemma {:induction false} MadeRowStandsFor(tb: Tables, w: World, s: Batch, s': Batch, e: Relation, c': Call) returns (c: Call, x: Value)
    requires AllKnown(w, s, s') && c' in s'.predicted && IsEquivalence(e)
    ensures StandsFor(tb, w, s, e, c, x, c, x, c', Id(s'.predicted[c']))
  {
    assert Known(w, s, s', c');
    c :| MirroredAs(w, s, s', c, c');
    x := Id(s.predicted[c]);
    PairwiseSelf(e, c.1);
  }

  lemma {:induction false} RowStandsFor(tb: Tables, w: World, s: Batch, s': Batch, e: Relation, c': Call, x': Value)
    returns (c: Call, x: Value, d: Call, y: Value)
    requires Runs(tb, w, s, s') && RemovedSurvive(tb, s, s') && IsModel(tb, s, e) && HasRow(tb, s', c', x')
    ensures StandsFor(tb, w, s, e, c, x, d, y, c', x')
  {
    if c' in tb.rows && !Removed(s', c') && x' == Id(tb.rows[c']) {
      OldRowStandsFor(tb, w, s, s', e, c');
      c, x, d, y := c', x', c', x';
    } else if c' in s'.predicted && x' == Id(s'.predicted[c']) {
      c, x := MadeRowStandsFor(tb, w, s, s', e, c');
      d, y := c, x;
    } else {
      var i: nat :| i < |s'.staged| && s'.staged[i] == SetRow(c'.0, c'.1, [x']);
      c := RewrittenAt(tb, w, s, s', i);
      x, d, y := UnionRowStandsFor(tb, w, s, s', e, i, c);
    }
  }

  // A staged set of a constructor's row stands for a union.
  lemma {:induction false} RewrittenAt(tb: Tables, w: World, s: Batch, s': Batch, i: nat) returns (c: Call)
    requires AllStaged(tb, w, s, s') && NoConstructorSets(tb, s) && i < |s'.staged|
    requires s'.staged[i].SetRow? && s'.staged[i].head in tb.constructors
    ensures Rewritten(tb, w, s, s.staged[i], s'.staged[i], c)
  {
    assert StagedMatched(tb, w, s, s.staged[i], s'.staged[i]);
    c :| Rewritten(tb, w, s, s.staged[i], s'.staged[i], c);
  }

  // The relation carried over to the lowered run's values.
  ghost function Carried(w: World, e: Relation): Relation {
    iset p: (Value, Value) | p.0 == p.1 || CarriedPair(w, e, p.0, p.1)
  }

  ghost predicate CarriedPair(w: World, e: Relation, a': Value, b': Value) {
    exists a, b :: Matched(w, a, a') && Matched(w, b, b') && (a, b) in e
  }

  lemma {:induction false} MatchedValueInjective(tb: Tables, w: World, a: Value, b: Value, c: Value)
    requires WorldOk(tb, w) && Matched(w, a, c) && Matched(w, b, c)
    ensures a == b
  {}

  lemma {:induction false} CarriedIs(tb: Tables, w: World, e: Relation, a: Value, a': Value, b: Value, b': Value)
    requires WorldOk(tb, w) && IsEquivalence(e) && Matched(w, a, a') && Matched(w, b, b')
    ensures (a', b') in Carried(w, e) <==> (a, b) in e
  {
    if a' == b' {
      MatchedValueInjective(tb, w, a, b, a');
    } else if CarriedPair(w, e, a', b') {
      var x, y :| Matched(w, x, a') && Matched(w, y, b') && (x, y) in e;
      MatchedValueInjective(tb, w, a, x, a');
      MatchedValueInjective(tb, w, b, y, b');
    }
  }

  lemma {:induction false} CarriedIsEquivalence(tb: Tables, w: World, e: Relation)
    requires WorldOk(tb, w) && IsEquivalence(e)
    ensures IsEquivalence(Carried(w, e))
  {
    var r := Carried(w, e);
    forall a, b | (a, b) in r ensures (b, a) in r {
      if a != b {
        var x, y :| Matched(w, x, a) && Matched(w, y, b) && (x, y) in e;
        assert (y, x) in e;
      }
    }
    forall a, b, c | (a, b) in r && (b, c) in r ensures (a, c) in r {
      if a != b && b != c {
        var x, y :| Matched(w, x, a) && Matched(w, y, b) && (x, y) in e;
        var z, u :| Matched(w, z, b) && Matched(w, u, c) && (z, u) in e;
        MatchedValueInjective(tb, w, y, z, b);
        assert (x, u) in e;
      }
    }
  }

  lemma {:induction false} CarriedUnified(tb: Tables, w: World, s: Batch, s': Batch, e: Relation)
    requires WorldOk(tb, w) && AllStaged(tb, w, s, s') && IsEquivalence(e) && Unified(s, e)
    ensures Unified(s', Carried(w, e))
  {
    forall i | 0 <= i < |s'.staged| && s'.staged[i].Unify? ensures (s'.staged[i].a, s'.staged[i].b) in Carried(w, e) {
      assert StagedMatched(tb, w, s, s.staged[i], s'.staged[i]);
      CarriedIs(tb, w, e, s.staged[i].a, s'.staged[i].a, s.staged[i].b, s'.staged[i].b);
    }
  }

  lemma {:induction false} CarriedPairwise(tb: Tables, w: World, e: Relation, c: Call, c': Call, d: Call, d': Call)
    requires WorldOk(tb, w) && IsEquivalence(e) && CallsMatched(w, c, c') && CallsMatched(w, d, d')
    requires Pairwise(Carried(w, e), c'.1, d'.1)
    ensures Pairwise(e, c.1, d.1)
  {
    forall i | 0 <= i < |c.1| ensures (c.1[i], d.1[i]) in e {
      CarriedIs(tb, w, e, c.1[i], c'.1[i], d.1[i], d'.1[i]);
    }
  }

  lemma {:induction false} CarriedCongruent(tb: Tables, w: World, s: Batch, e: Relation,
                                            c1: Call, x1: Value, d1: Call, y1: Value, c1': Call, x1': Value,
                                            c2: Call, x2: Value, d2: Call, y2: Value, c2': Call, x2': Value)
    requires WorldOk(tb, w) && IsModel(tb, s, e)
    requires StandsFor(tb, w, s, e, c1, x1, d1, y1, c1', x1') && StandsFor(tb, w, s, e, c2, x2, d2, y2, c2', x2')
    requires c1'.0 == c2'.0 && Pairwise(Carried(w, e), c1'.1, c2'.1)
    ensures (x1', x2') in Carried(w, e)
  {
    CarriedPairwise(tb, w, e, c1, c1', c2, c2');
    PairwiseTrans(e, d1.1, c1.1, c2.1);
    PairwiseTrans(e, d1.1, c2.1, d2.1);
    SameInputs(tb, s, e, d1, y1, d2, y2);
    assert (x1, y2) in e && (y2, x2) in e;
    CarriedIs(tb, w, e, x1, x1', x2, x2');
  }

  lemma {:induction false} CarriedIsCongruent(tb: Tables, w: World, s: Batch, s': Batch, e: Relation)
    requires Runs(tb, w, s, s') && RemovedSurvive(tb, s, s') && IsModel(tb, s, e)
    ensures Congruent(tb, s', Carried(w, e))
  {
    forall c', d', x', y' | HasRow(tb, s', c', x') && HasRow(tb, s', d', y') && c'.0 == d'.0 && Pairwise(Carried(w, e), c'.1, d'.1)
      ensures (x', y') in Carried(w, e)
    {
      var c1, x1, d1, y1 := RowStandsFor(tb, w, s, s', e, c', x');
      var c2, x2, d2, y2 := RowStandsFor(tb, w, s, s', e, d', y');
      CarriedCongruent(tb, w, s, e, c1, x1, d1, y1, c', x', c2, x2, d2, y2, d', y');
    }
  }

  lemma {:induction false} CarriedIsModel(tb: Tables, w: World, s: Batch, s': Batch, e: Relation)
    requires Runs(tb, w, s, s') && RemovedSurvive(tb, s, s') && IsModel(tb, s, e)
    ensures IsModel(tb, s', Carried(w, e))
  {
    CarriedIsEquivalence(tb, w, e);
    CarriedUnified(tb, w, s, s', e);
    CarriedIsCongruent(tb, w, s, s', e);
  }

  // ---------------------------------------------------------------- from the written run to the lowered one

  // The value in the lowered run that a value of the run as written ends up equal to: its match, or
  // for an id nobody has asked for, the value that its row was set to.
  ghost function Image(tb: Tables, w: World, s: Batch, s': Batch, v: Value): Value {
    if v.Base? then v
    else if v.n in w then Id(w[v.n])
    else if HiddenAt(tb, w, s, s', v.n) then SetTo(tb, w, s, s', v.n)
    else v
  }

  ghost predicate HiddenAt(tb: Tables, w: World, s: Batch, s': Batch, n: nat) {
    exists c, i: nat :: IsHidden(tb, w, s, s', n, c, i)
  }

  ghost predicate IsHidden(tb: Tables, w: World, s: Batch, s': Batch, n: nat, c: Call, i: nat) {
    && c in s.predicted && s.predicted[c] == n && i < |s.staged| && i < |s'.staged|
    && Rewritten(tb, w, s, s.staged[i], s'.staged[i], c)
  }

  ghost function SetTo(tb: Tables, w: World, s: Batch, s': Batch, n: nat): (v: Value)
    requires HiddenAt(tb, w, s, s', n)
    ensures exists c, i: nat :: IsHidden(tb, w, s, s', n, c, i) && v == s'.staged[i].outs[0]
  {
    var c: Call, i: nat :| IsHidden(tb, w, s, s', n, c, i);
    s'.staged[i].outs[0]
  }

  ghost function PulledBack(tb: Tables, w: World, s: Batch, s': Batch, e: Relation): Relation {
    iset p: (Value, Value) | (Image(tb, w, s, s', p.0), Image(tb, w, s, s', p.1)) in e
  }

  lemma {:induction false} MatchIsImage(tb: Tables, w: World, s: Batch, s': Batch, a: Value, a': Value)
    requires Matched(w, a, a')
    ensures Image(tb, w, s, s', a) == a'
  {}

  // The row of a rewritten union in the lowered run.
  lemma {:induction false} SetRowThere(tb: Tables, w: World, s: Batch, s': Batch, i: nat, c: Call)
    requires i < |s'.staged| && i < |s.staged| && Rewritten(tb, w, s, s.staged[i], s'.staged[i], c)
    ensures HasRow(tb, s', (s'.staged[i].head, s'.staged[i].ins), s'.staged[i].outs[0])
  {
    var f' := s'.staged[i];
    assert f'.outs == [f'.outs[0]];
  }

  // A row of the run as written has its inputs' row in the lowered run, with the image of its output.
  ghost predicate HasImage(tb: Tables, w: World, s: Batch, s': Batch, c: Call, x: Value, c': Call) {
    CallsMatched(w, c, c') && HasRow(tb, s', c', Image(tb, w, s, s', x))
  }

  // The row that a hidden id was set to is the one of its own call.
  lemma {:induction false} SetToIs(tb: Tables, w: World, s: Batch, s': Batch, c: Call) returns (i: nat)
    requires BatchOk(tb, s) && c in s.predicted && HiddenAt(tb, w, s, s', s.predicted[c])
    ensures IsHidden(tb, w, s, s', s.predicted[c], c, i) && SetTo(tb, w, s, s', s.predicted[c]) == s'.staged[i].outs[0]
  {
    var n := s.predicted[c];
    var v := SetTo(tb, w, s, s', n);
    var d: Call, j: nat :| IsHidden(tb, w, s, s', n, d, j) && v == s'.staged[j].outs[0];
    assert s.predicted[d] == s.predicted[c];
    assert d == c;
    i := j;
  }

  lemma {:induction false} MadeRowHasImage(tb: Tables, w: World, s: Batch, s': Batch, c: Call) returns (c': Call)
    requires TablesOk(tb) && States(tb, w, s, s') && c in s.predicted
    ensures HasImage(tb, w, s, s', c, Id(s.predicted[c]), c')
  {
    var n := s.predicted[c];
    if n in w {
      assert Mirrored(w, s, s', c);
      c' :| MirroredAs(w, s, s', c, c');
    } else {
      assert Hidden(tb, w, s, s', c);
      var j: nat :| j < |s.staged| && j < |s'.staged| && Rewritten(tb, w, s, s.staged[j], s'.staged[j], c);
      assert IsHidden(tb, w, s, s', n, c, j);
      var i := SetToIs(tb, w, s, s', c);
      SetRowThere(tb, w, s, s', i, c);
      c' := (s'.staged[i].head, s'.staged[i].ins);
    }
  }

  lemma {:induction false} RowHasImage(tb: Tables, w: World, s: Batch, s': Batch, c: Call, x: Value) returns (c': Call)
    requires TablesOk(tb) && States(tb, w, s, s') && NoConstructorSets(tb, s) && HasRow(tb, s, c, x)
    ensures HasImage(tb, w, s, s', c, x, c')
  {
    if c in s.predicted && x == Id(s.predicted[c]) {
      c' := MadeRowHasImage(tb, w, s, s', c);
    } else {
      OldCallMatchesItself(tb, w, c);
      SameRemovals(tb, w, s, s', c, c);
      MatchIsImage(tb, w, s, s', x, x);
      c' := c;
    }
  }

  lemma {:induction false} UnionPulledBack(tb: Tables, w: World, s: Batch, s': Batch, e: Relation, f: Effect, f': Effect, c: Call)
    requires IsEquivalence(e) && Rewritten(tb, w, s, f, f', c)
    requires (Image(tb, w, s, s', Id(IdOf(tb, s, c).value)), f'.outs[0]) in e
    ensures (Image(tb, w, s, s', f.a), Image(tb, w, s, s', f.b)) in e
  {
    var x := OtherSide(tb, w, s, f, f', c);
    MatchIsImage(tb, w, s, s', x, f'.outs[0]);
    assert (f'.outs[0], Image(tb, w, s, s', Id(IdOf(tb, s, c).value))) in e;
  }

  // A set of a removed row that survives: its output is equal to the row's id.
  lemma {:induction false} SurvivingIsSet(tb: Tables, s: Batch, e: Relation, c: Call, x: Value)
    requires IsModel(tb, s, e) && Survives(tb, s, c) && HasRow(tb, s, c, x)
    ensures (Id(tb.rows[c]), x) in e
  {
    var n := Id(tb.rows[c]);
    var d, y := RebuiltInModel(tb, s, e, c, n);
    SameInputs(tb, s, e, d, y, c, x);
    assert (n, y) in e;
  }

  // What a rewritten union makes equal is equal in the lowered run: its set is a second row for the
  // inputs of the call's own row, or that row survives.
  lemma {:induction false} RewrittenPulledBack(tb: Tables, w: World, s: Batch, s': Batch, e: Relation, i: nat, c: Call)
    requires Runs(tb, w, s, s') && RemovedSurvive(tb, s, s') && IsModel(tb, s', e)
    requires i < |s.staged| && Rewritten(tb, w, s, s.staged[i], s'.staged[i], c)
    ensures (Image(tb, w, s, s', s.staged[i].a), Image(tb, w, s, s', s.staged[i].b)) in e
  {
    var f, f', c' := s.staged[i], s'.staged[i], CallOf(s'.staged[i]);
    var n := Id(IdOf(tb, s, c).value);
    UnionHasRow(tb, w, s, s', i, c);
    SetRowThere(tb, w, s, s', i, c);
    if IsSetOfRemoved(tb, s', i) {
      SurvivingIsSet(tb, s', e, c, f'.outs[0]);
      OldCallMatchesItself(tb, w, c);
      MatchIsImage(tb, w, s, s', n, n);
    } else {
      var d' := RowHasImage(tb, w, s, s', c, n);
      MatchedUnique(w, c, d', c');
      PairwiseSelf(e, c'.1);
      SameInputs(tb, s', e, c', Image(tb, w, s, s', n), c', f'.outs[0]);
    }
    UnionPulledBack(tb, w, s, s', e, f, f', c);
  }

  lemma {:induction false} PulledBackIsEquivalence(tb: Tables, w: World, s: Batch, s': Batch, e: Relation)
    requires IsEquivalence(e)
    ensures IsEquivalence(PulledBack(tb, w, s, s', e))
  {}

  lemma {:induction false} EffectPulledBack(tb: Tables, w: World, s: Batch, s': Batch, e: Relation, i: nat)
    requires Runs(tb, w, s, s') && RemovedSurvive(tb, s, s') && IsModel(tb, s', e)
    requires i < |s.staged| && s.staged[i].Unify?
    ensures (Image(tb, w, s, s', s.staged[i].a), Image(tb, w, s, s', s.staged[i].b)) in e
  {
    assert StagedMatched(tb, w, s, s.staged[i], s'.staged[i]);
    if EffectsMatched(w, s.staged[i], s'.staged[i]) {
      MatchIsImage(tb, w, s, s', s.staged[i].a, s'.staged[i].a);
      MatchIsImage(tb, w, s, s', s.staged[i].b, s'.staged[i].b);
    } else {
      var c :| Rewritten(tb, w, s, s.staged[i], s'.staged[i], c);
      RewrittenPulledBack(tb, w, s, s', e, i, c);
    }
  }

  lemma {:induction false} PulledBackUnified(tb: Tables, w: World, s: Batch, s': Batch, e: Relation)
    requires Runs(tb, w, s, s') && RemovedSurvive(tb, s, s') && IsModel(tb, s', e)
    ensures Unified(s, PulledBack(tb, w, s, s', e))
  {
    forall i | 0 <= i < |s.staged| && s.staged[i].Unify? ensures (s.staged[i].a, s.staged[i].b) in PulledBack(tb, w, s, s', e) {
      EffectPulledBack(tb, w, s, s', e, i);
    }
  }

  lemma {:induction false} PulledBackPairwise(tb: Tables, w: World, s: Batch, s': Batch, e: Relation, c: Call, c': Call, d: Call, d': Call)
    requires CallsMatched(w, c, c') && CallsMatched(w, d, d') && Pairwise(PulledBack(tb, w, s, s', e), c.1, d.1)
    ensures Pairwise(e, c'.1, d'.1)
  {
    forall i | 0 <= i < |c'.1| ensures (c'.1[i], d'.1[i]) in e {
      assert (c.1[i], d.1[i]) in PulledBack(tb, w, s, s', e);
      MatchIsImage(tb, w, s, s', c.1[i], c'.1[i]);
      MatchIsImage(tb, w, s, s', d.1[i], d'.1[i]);
    }
  }

  lemma {:induction false} PulledBackCongruent(tb: Tables, w: World, s: Batch, s': Batch, e: Relation, c: Call, x: Value, d: Call, y: Value)
    requires Runs(tb, w, s, s') && Congruent(tb, s', e)
    requires HasRow(tb, s, c, x) && HasRow(tb, s, d, y) && c.0 == d.0 && Pairwise(PulledBack(tb, w, s, s', e), c.1, d.1)
    ensures (Image(tb, w, s, s', x), Image(tb, w, s, s', y)) in e
  {
    var c' := RowHasImage(tb, w, s, s', c, x);
    var d' := RowHasImage(tb, w, s, s', d, y);
    PulledBackPairwise(tb, w, s, s', e, c, c', d, d');
  }

  lemma {:induction false} PulledBackIsCongruent(tb: Tables, w: World, s: Batch, s': Batch, e: Relation)
    requires Runs(tb, w, s, s') && Congruent(tb, s', e)
    ensures Congruent(tb, s, PulledBack(tb, w, s, s', e))
  {
    forall c, d, x, y | HasRow(tb, s, c, x) && HasRow(tb, s, d, y) && c.0 == d.0 && Pairwise(PulledBack(tb, w, s, s', e), c.1, d.1)
      ensures (x, y) in PulledBack(tb, w, s, s', e)
    {
      PulledBackCongruent(tb, w, s, s', e, c, x, d, y);
    }
  }

  lemma {:induction false} PulledBackIsModel(tb: Tables, w: World, s: Batch, s': Batch, e: Relation)
    requires Runs(tb, w, s, s') && RemovedSurvive(tb, s, s') && IsModel(tb, s', e)
    ensures IsModel(tb, s, PulledBack(tb, w, s, s', e))
  {
    PulledBackIsEquivalence(tb, w, s, s', e);
    PulledBackUnified(tb, w, s, s', e);
    PulledBackIsCongruent(tb, w, s, s', e);
  }

  // ---------------------------------------------------------------- both runs mean the same

  ghost predicate SameEqualities(tb: Tables, w: World, s: Batch, s': Batch) {
    forall a, a', b, b' :: Matched(w, a, a') && Matched(w, b, b') ==> (Equal(tb, s, a, b) <==> Equal(tb, s', a', b'))
  }

  // Equal rows for the values that both runs have.
  ghost predicate SameRebuilt(tb: Tables, w: World, s: Batch, s': Batch) {
    forall c, c', v, v' :: CallsMatched(w, c, c') && Matched(w, v, v') ==> (InRebuilt(tb, s, c, v) <==> InRebuilt(tb, s', c', v'))
  }

  ghost predicate RowMatched(tb: Tables, w: World, s: Batch, c: Call, x: Value, c': Call, v: Value, v': Value) {
    CallsMatched(w, c, c') && Matched(w, v, v') && Equal(tb, s, x, v)
  }

  // Every row of either run is one for values that both runs have, up to equality.
  ghost predicate Covers(tb: Tables, w: World, s: Batch, s': Batch) {
    && (forall c, x :: HasRow(tb, s, c, x) ==> exists c', v, v' :: RowMatched(tb, w, s, c, x, c', v, v'))
    && (forall c', x' :: HasRow(tb, s', c', x') ==> exists c, x :: CallsMatched(w, c, c') && Matched(w, x, x'))
  }

  // Before rebuilding: rows for the same inputs, with the same outputs.
  ghost predicate Present(tb: Tables, s: Batch, c: Call) {
    exists x :: HasRow(tb, s, c, x)
  }

  ghost predicate SamePresence(tb: Tables, w: World, s: Batch, s': Batch) {
    forall c, c' :: CallsMatched(w, c, c') && c.0 in tb.constructors ==> (Present(tb, s, c) <==> Present(tb, s', c'))
  }

  ghost predicate SameOutputs(tb: Tables, w: World, s: Batch, s': Batch) {
    forall c, c', x, x', v, v' ::
      CallsMatched(w, c, c') && HasRow(tb, s, c, x) && HasRow(tb, s', c', x') && Matched(w, v, v') ==>
      (Equal(tb, s, x, v) <==> Equal(tb, s', x', v'))
  }

  ghost predicate SameBefore(tb: Tables, w: World, s: Batch, s': Batch) {
    SameEqualities(tb, w, s, s') && SamePresence(tb, w, s, s') && SameOutputs(tb, w, s, s')
  }

  ghost predicate SameAfter(tb: Tables, w: World, s: Batch, s': Batch) {
    SameEqualities(tb, w, s, s') && SameRebuilt(tb, w, s, s')
  }

  lemma {:induction false} EqualIsCarried(tb: Tables, w: World, s: Batch, s': Batch, a: Value, a': Value, b: Value, b': Value)
    requires Runs(tb, w, s, s') && RemovedSurvive(tb, s, s')
    requires Matched(w, a, a') && Matched(w, b, b') && Equal(tb, s', a', b')
    ensures Equal(tb, s, a, b)
  {
    forall e | IsModel(tb, s, e) ensures (a, b) in e {
      CarriedIsModel(tb, w, s, s', e);
      CarriedIs(tb, w, e, a, a', b, b');
    }
  }

  lemma {:induction false} EqualIsPulledBack(tb: Tables, w: World, s: Batch, s': Batch, a: Value, a': Value, b: Value, b': Value)
    requires Runs(tb, w, s, s') && RemovedSurvive(tb, s, s')
    requires Matched(w, a, a') && Matched(w, b, b') && Equal(tb, s, a, b)
    ensures Equal(tb, s', a', b')
  {
    forall e | IsModel(tb, s', e) ensures (a', b') in e {
      PulledBackIsModel(tb, w, s, s', e);
      assert (a, b) in PulledBack(tb, w, s, s', e);
      MatchIsImage(tb, w, s, s', a, a');
      MatchIsImage(tb, w, s, s', b, b');
    }
  }

  lemma {:induction false} EqualitiesAgree(tb: Tables, w: World, s: Batch, s': Batch)
    requires Runs(tb, w, s, s') && RemovedSurvive(tb, s, s')
    ensures SameEqualities(tb, w, s, s')
  {
    forall a, a', b, b' | Matched(w, a, a') && Matched(w, b, b') ensures Equal(tb, s, a, b) <==> Equal(tb, s', a', b') {
      if Equal(tb, s, a, b) { EqualIsPulledBack(tb, w, s, s', a, a', b, b'); }
      if Equal(tb, s', a', b') { EqualIsCarried(tb, w, s, s', a, a', b, b'); }
    }
  }

  // ---------------------------------------------------------------- the rows

  lemma {:induction false} CallIsOtherSide(tb: Tables, w: World, s: Batch, i: nat, f': Effect, c: Call)
    requires i < |s.staged| && Rewritten(tb, w, s, s.staged[i], f', c)
    ensures Equal(tb, s, Id(IdOf(tb, s, c).value), OtherSide(tb, w, s, s.staged[i], f', c))
  {
    UnionIsEqual(tb, s, i);
  }

  lemma {:induction false} HiddenIsMatched(tb: Tables, w: World, s: Batch, s': Batch, c: Call) returns (v: Value)
    requires BatchOk(tb, s) && Hidden(tb, w, s, s', c) && c in s.predicted && s.predicted[c] !in w
    ensures Equal(tb, s, Id(s.predicted[c]), v) && Matched(w, v, Image(tb, w, s, s', Id(s.predicted[c])))
  {
    var j: nat :| j < |s.staged| && j < |s'.staged| && Rewritten(tb, w, s, s.staged[j], s'.staged[j], c);
    assert IsHidden(tb, w, s, s', s.predicted[c], c, j);
    var i := SetToIs(tb, w, s, s', c);
    v := OtherSide(tb, w, s, s.staged[i], s'.staged[i], c);
    CallIsOtherSide(tb, w, s, i, s'.staged[i], c);
  }

  // A row's output is equal to a value that is matched with its image.
  lemma {:induction false} OutputIsMatched(tb: Tables, w: World, s: Batch, s': Batch, c: Call, x: Value) returns (v: Value)
    requires Runs(tb, w, s, s') && HasRow(tb, s, c, x)
    ensures Equal(tb, s, x, v) && Matched(w, v, Image(tb, w, s, s', x))
  {
    v := x;
    EqualIsEquivalence(tb, s, x, x, x);
    if c in s.predicted && x == Id(s.predicted[c]) {
      if x.n !in w { v := HiddenIsMatched(tb, w, s, s', c); }
    } else {
      OldCallMatchesItself(tb, w, c);
    }
  }

  lemma {:induction false} UnionIsEqual(tb: Tables, s: Batch, i: nat)
    requires i < |s.staged| && s.staged[i].Unify?
    ensures Equal(tb, s, s.staged[i].a, s.staged[i].b) && Equal(tb, s, s.staged[i].b, s.staged[i].a)
  {}

  lemma {:induction false} RowsAreCovered(tb: Tables, w: World, s: Batch, s': Batch)
    requires Runs(tb, w, s, s')
    ensures Covers(tb, w, s, s')
  {
    forall c, x | HasRow(tb, s, c, x) ensures exists c', v, v' :: RowMatched(tb, w, s, c, x, c', v, v') {
      var c' := RowHasImage(tb, w, s, s', c, x);
      var v := OutputIsMatched(tb, w, s, s', c, x);
      assert RowMatched(tb, w, s, c, x, c', v, Image(tb, w, s, s', x));
    }
    forall c', x' | HasRow(tb, s', c', x') ensures exists c, x :: CallsMatched(w, c, c') && Matched(w, x, x') {
      var c, x := LoweredRowIsMatched(tb, w, s, s', c', x');
    }
  }

  lemma {:induction false} LoweredRowIsMatched(tb: Tables, w: World, s: Batch, s': Batch, c': Call, x': Value) returns (c: Call, x: Value)
    requires Runs(tb, w, s, s') && HasRow(tb, s', c', x')
    ensures CallsMatched(w, c, c') && Matched(w, x, x')
  {
    if c' in tb.rows && x' == Id(tb.rows[c']) {
      OldCallMatchesItself(tb, w, c');
      c, x := c', x';
    } else if c' in s'.predicted && x' == Id(s'.predicted[c']) {
      assert Known(w, s, s', c');
      c :| MirroredAs(w, s, s', c, c');
      x := Id(s.predicted[c]);
    } else {
      var i: nat :| i < |s'.staged| && s'.staged[i] == SetRow(c'.0, c'.1, [x']);
      c := RewrittenAt(tb, w, s, s', i);
      x := OtherSide(tb, w, s, s.staged[i], s'.staged[i], c);
    }
  }

  lemma {:induction false} MatchedPairwise(tb: Tables, w: World, s: Batch, s': Batch, c: Call, c': Call, d: Call, d': Call)
    requires SameEqualities(tb, w, s, s') && CallsMatched(w, c, c') && CallsMatched(w, d, d')
    ensures Pairwise(Equality(tb, s), d.1, c.1) <==> Pairwise(Equality(tb, s'), d'.1, c'.1)
  {
    if |c.1| == |d.1| {
      forall i | 0 <= i < |c.1| ensures (d.1[i], c.1[i]) in Equality(tb, s) <==> (d'.1[i], c'.1[i]) in Equality(tb, s') {
        assert Matched(w, d.1[i], d'.1[i]) && Matched(w, c.1[i], c'.1[i]);
      }
    }
  }

  lemma {:induction false} RebuiltForward(tb: Tables, w: World, s: Batch, s': Batch, c: Call, c': Call, v: Value, v': Value)
    requires Runs(tb, w, s, s') && SameEqualities(tb, w, s, s')
    requires CallsMatched(w, c, c') && Matched(w, v, v') && InRebuilt(tb, s, c, v)
    ensures InRebuilt(tb, s', c', v')
  {
    var d, y :| RowFor(tb, s, c, v, d, y);
    var d' := RowHasImage(tb, w, s, s', d, y);
    var u := OutputIsMatched(tb, w, s, s', d, y);
    MatchedPairwise(tb, w, s, s', c, c', d, d');
    EqualIsEquivalence(tb, s, y, u, y);
    EqualIsEquivalence(tb, s, u, y, v);
    assert RowFor(tb, s', c', v', d', Image(tb, w, s, s', y));
  }

  lemma {:induction false} RebuiltBack(tb: Tables, w: World, s: Batch, s': Batch, c: Call, c': Call, v: Value, v': Value)
    requires Runs(tb, w, s, s') && RemovedSurvive(tb, s, s') && SameEqualities(tb, w, s, s')
    requires CallsMatched(w, c, c') && Matched(w, v, v') && InRebuilt(tb, s', c', v')
    ensures InRebuilt(tb, s, c, v)
  {
    var e := Equality(tb, s);
    EqualityIsModel(tb, s);
    var d', y' :| RowFor(tb, s', c', v', d', y');
    var d, y, d0, y0 := RowStandsFor(tb, w, s, s', e, d', y');
    MatchedPairwise(tb, w, s, s', c, c', d, d');
    assert Equal(tb, s, y, v);
    StandingRowFor(tb, w, s, c, v, d, y, d0, y0, d', y');
  }

  lemma {:induction false} StandingRowFor(tb: Tables, w: World, s: Batch, c: Call, v: Value, d: Call, y: Value, d0: Call, y0: Value, d': Call, y': Value)
    requires StandsFor(tb, w, s, Equality(tb, s), d, y, d0, y0, d', y') && d.0 == c.0
    requires Pairwise(Equality(tb, s), d.1, c.1) && (y, v) in Equality(tb, s)
    ensures InRebuilt(tb, s, c, v)
  {
    var e := Equality(tb, s);
    EqualityIsModel(tb, s);
    PairwiseTrans(e, d0.1, d.1, c.1);
    assert (y0, y) in e && (y0, v) in e;
    assert RowFor(tb, s, c, v, d0, y0);
  }

  lemma {:induction false} RebuiltOutput(tb: Tables, s: Batch, c: Call, x: Value, v: Value)
    requires HasRow(tb, s, c, x) && InRebuilt(tb, s, c, v)
    ensures Equal(tb, s, x, v)
  {
    var e := Equality(tb, s);
    EqualityIsModel(tb, s);
    var d, y := RebuiltInModel(tb, s, e, c, v);
    SameInputs(tb, s, e, c, x, d, y);
    assert (x, v) in e;
  }

  // Equal outputs are what a rebuilt row says.
  lemma {:induction false} OutputIsRebuilt(tb: Tables, s: Batch, c: Call, x: Value, v: Value)
    requires HasRow(tb, s, c, x)
    ensures InRebuilt(tb, s, c, v) <==> Equal(tb, s, x, v)
  {
    if Equal(tb, s, x, v) {
      EqualityIsModel(tb, s);
      PairwiseSelf(Equality(tb, s), c.1);
      assert RowFor(tb, s, c, v, c, x);
    }
    if InRebuilt(tb, s, c, v) { RebuiltOutput(tb, s, c, x, v); }
  }

  lemma {:induction false} OutputsAgree(tb: Tables, w: World, s: Batch, s': Batch)
    requires SameRebuilt(tb, w, s, s')
    ensures SameOutputs(tb, w, s, s')
  {
    forall c, c', x, x', v, v' | CallsMatched(w, c, c') && HasRow(tb, s, c, x) && HasRow(tb, s', c', x') && Matched(w, v, v')
      ensures Equal(tb, s, x, v) <==> Equal(tb, s', x', v')
    {
      OutputIsRebuilt(tb, s, c, x, v);
      OutputIsRebuilt(tb, s', c', x', v');
    }
  }

  // ---------------------------------------------------------------- after rebuilding

  lemma {:induction false} SurvivorsAreRebuilt(tb: Tables, w: World, s: Batch, s': Batch)
    requires Runs(tb, w, s, s') && RemovedSurvive(tb, s, s')
    ensures SameEqualities(tb, w, s, s') && SameRebuilt(tb, w, s, s')
  {
    EqualitiesAgree(tb, w, s, s');
    forall c, c', v, v' | CallsMatched(w, c, c') && Matched(w, v, v') ensures InRebuilt(tb, s, c, v) <==> InRebuilt(tb, s', c', v') {
      if InRebuilt(tb, s, c, v) { RebuiltForward(tb, w, s, s', c, c', v, v'); }
      if InRebuilt(tb, s', c', v') { RebuiltBack(tb, w, s, s', c, c', v, v'); }
    }
  }

  lemma {:induction false} SetEqualsOldId(tb: Tables, w: World, s: Batch, s': Batch, i: nat, c: Call)
    requires SameEqualities(tb, w, s, s') && i < |s.staged| && i < |s'.staged| && Rewritten(tb, w, s, s.staged[i], s'.staged[i], c)
    requires c in tb.rows && Matched(w, Id(tb.rows[c]), Id(tb.rows[c]))
    ensures Equal(tb, s', s'.staged[i].outs[0], Id(tb.rows[c]))
  {
    var x, n := OtherSide(tb, w, s, s.staged[i], s'.staged[i], c), Id(tb.rows[c]);
    CallIsOtherSide(tb, w, s, i, s'.staged[i], c);
    EqualIsEquivalence(tb, s, n, x, n);
  }

  lemma {:induction false} RebuiltSurvives(tb: Tables, w: World, s: Batch, s': Batch, i: nat)
    requires Runs(tb, w, s, s') && SameEqualities(tb, w, s, s') && SameRebuilt(tb, w, s, s') && IsSetOfRemoved(tb, s', i)
    ensures Survives(tb, s, CallOf(s'.staged[i])) && Survives(tb, s', CallOf(s'.staged[i]))
  {
    var c := RewrittenAt(tb, w, s, s', i);
    UnionHasRow(tb, w, s, s', i, c);
    SetRowThere(tb, w, s, s', i, c);
    OldCallMatchesItself(tb, w, c);
    SetEqualsOldId(tb, w, s, s', i, c);
    OutputIsRebuilt(tb, s', c, s'.staged[i].outs[0], Id(tb.rows[c]));
  }

  // The rebuilt databases are the same exactly when the rows of before that the batch both sets and
  // removes survive in both.
  lemma {:induction false} RebuiltTheSameIff(tb: Tables, w: World, s: Batch, s': Batch)
    requires Runs(tb, w, s, s')
    ensures SameAfter(tb, w, s, s') <==> RemovedSurvive(tb, s, s')
  {
    if RemovedSurvive(tb, s, s') { SurvivorsAreRebuilt(tb, w, s, s'); }
    if SameAfter(tb, w, s, s') {
      forall i: nat | IsSetOfRemoved(tb, s', i)
        ensures Survives(tb, s, CallOf(s'.staged[i])) && Survives(tb, s', CallOf(s'.staged[i]))
      {
        RebuiltSurvives(tb, w, s, s', i);
      }
    }
  }

  // ---------------------------------------------------------------- before rebuilding

  lemma {:induction false} PresentBack(tb: Tables, w: World, s: Batch, s': Batch, c: Call, c': Call, x': Value)
    requires Runs(tb, w, s, s') && NoSetOfRemoved(tb, s') && CallsMatched(w, c, c') && HasRow(tb, s', c', x')
    ensures Present(tb, s, c)
  {
    if c' in tb.rows && !Removed(s', c') {
      SameRows(tb, w, c, c');
      SameRemovals(tb, w, s, s', c, c');
      assert HasRow(tb, s, c, Id(tb.rows[c]));
    } else if c' in s'.predicted {
      assert Known(w, s, s', c');
      var d :| MirroredAs(w, s, s', d, c');
      MatchedInjective(tb, w, c, d, c');
      assert HasRow(tb, s, c, Id(s.predicted[c]));
    } else {
      var i: nat :| i < |s'.staged| && s'.staged[i] == SetRow(c'.0, c'.1, [x']);
      var d := RewrittenAt(tb, w, s, s', i);
      MatchedInjective(tb, w, c, d, c');
      UnionHasRow(tb, w, s, s', i, c);
    }
  }

  lemma {:induction false} PresenceAgrees(tb: Tables, w: World, s: Batch, s': Batch)
    requires Runs(tb, w, s, s') && NoSetOfRemoved(tb, s')
    ensures SamePresence(tb, w, s, s')
  {
    forall c, c' | CallsMatched(w, c, c') && c.0 in tb.constructors ensures Present(tb, s, c) <==> Present(tb, s', c') {
      if x :| HasRow(tb, s, c, x) {
        var d' := RowHasImage(tb, w, s, s', c, x);
        MatchedUnique(w, c, c', d');
      }
      if x' :| HasRow(tb, s', c', x') { PresentBack(tb, w, s, s', c, c', x'); }
    }
  }

  // A set that stands for a union brings back the row that the batch removes.
  lemma {:induction false} RemovedRowComesBack(tb: Tables, w: World, s: Batch, s': Batch, i: nat)
    requires Runs(tb, w, s, s') && IsSetOfRemoved(tb, s', i)
    ensures !SamePresence(tb, w, s, s')
  {
    var c := CallOf(s'.staged[i]);
    var d := RewrittenAt(tb, w, s, s', i);
    SetRowThere(tb, w, s, s', i, d);
    OldCallMatchesItself(tb, w, c);
    SameRemovals(tb, w, s, s', c, c);
    assert Present(tb, s', c) && !Present(tb, s, c);
  }

  // Before rebuilding, unions and the sets they were lowered to have made the same ids equal and left
  // the same rows with the same outputs exactly when no set is of a row that the batch removes.
  lemma {:induction false} RunsMeanTheSameIff(tb: Tables, w: World, s: Batch, s': Batch)
    requires Runs(tb, w, s, s')
    ensures SameBefore(tb, w, s, s') <==> NoSetOfRemoved(tb, s')
  {
    if NoSetOfRemoved(tb, s') {
      SurvivorsAreRebuilt(tb, w, s, s');
      PresenceAgrees(tb, w, s, s');
      OutputsAgree(tb, w, s, s');
    } else {
      var i: nat :| IsSetOfRemoved(tb, s', i);
      RemovedRowComesBack(tb, w, s, s', i);
    }
  }
}
