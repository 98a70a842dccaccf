// Whole batches of matches, as written and as compiled.
module BatchRunsModel {
  import opened CoreIR
  import opened Options
  import opened RuleModel
  import opened FlattenModel
  import opened LoweringModel
  import opened UnionToSetModel
  import opened BatchModel
  import opened BatchMeaningModel

  // One match of a rule: its statements under the user's valuation, and its compiled head under the
  // values of all variables.
  datatype Firing = Firing(sts: seq<Stmt>, env: Env, head: seq<Action>, full: Env)

  predicate SetsNoConstructor(tb: Tables, sts: seq<Stmt>) {
    forall i :: 0 <= i < |sts| && sts[i].SSet? ==> sts[i].head !in tb.constructors
  }

  ghost predicate AlikeFrom(tb: Tables, nm: Names, g: map<Leaf, Value>, f: Firing, w: World, s: Batch, s': Batch) {
    exists w' :: Grows(w, w') &&
      States(tb, w', RunStmts(Staging(tb), nm, g, s, f.env, f.sts).state, Exec(Staging(tb), g, s', f.full, f.head).state)
  }

  // Statements and head keep two runs matched.
  ghost predicate FiresAlike(tb: Tables, nm: Names, g: map<Leaf, Value>, f: Firing) {
    forall w, s, s' :: States(tb, w, s, s') ==> AlikeFrom(tb, nm, g, f, w, s, s')
  }

  ghost predicate FiringsOk(tb: Tables, nm: Names, g: map<Leaf, Value>, fs: seq<Firing>) {
    forall i :: 0 <= i < |fs| ==> SetsNoConstructor(tb, fs[i].sts) && FiresAlike(tb, nm, g, fs[i])
  }

  // One match after the other, as written and as compiled.
  function RunWritten(tb: Tables, nm: Names, g: map<Leaf, Value>, s: Batch, fs: seq<Firing>): Batch
    decreases |fs|
  {
    if fs == [] then s
    else RunWritten(tb, nm, g, RunStmts(Staging(tb), nm, g, s, fs[0].env, fs[0].sts).state, fs[1..])
  }

  function RunCompiled(tb: Tables, g: map<Leaf, Value>, s: Batch, fs: seq<Firing>): Batch
    decreases |fs|
  {
    if fs == [] then s
    else RunCompiled(tb, g, Exec(Staging(tb), g, s, fs[0].full, fs[0].head).state, fs[1..])
  }

  lemma {:induction false} BatchIsLinked(tb: Tables, w: World, nm: Names, g: map<Leaf, Value>, s: Batch, s': Batch, fs: seq<Firing>)
    returns (w': World)
    requires FiringsOk(tb, nm, g, fs) && States(tb, w, s, s')
    ensures Grows(w, w') && States(tb, w', RunWritten(tb, nm, g, s, fs), RunCompiled(tb, g, s', fs))
    decreases |fs|
  {
    w' := w;
    if fs != [] {
      var t, t' := RunStmts(Staging(tb), nm, g, s, fs[0].env, fs[0].sts).state, Exec(Staging(tb), g, s', fs[0].full, fs[0].head).state;
      var u := FirstIsLinked(tb, w, nm, g, s, s', fs[0]);
      var v := BatchIsLinked(tb, u, nm, g, t, t', fs[1..]);
      GrowsTrans(w, u, v);
      w' := v;
    }
  }

  lemma {:induction false} FirstIsLinked(tb: Tables, w: World, nm: Names, g: map<Leaf, Value>, s: Batch, s': Batch, f: Firing) returns (w': World)
    requires FiresAlike(tb, nm, g, f) && States(tb, w, s, s')
    ensures Grows(w, w')
    ensures States(tb, w', RunStmts(Staging(tb), nm, g, s, f.env, f.sts).state, Exec(Staging(tb), g, s', f.full, f.head).state)
  {
    assert AlikeFrom(tb, nm, g, f, w, s, s');
    w' :| Grows(w, w') && States(tb, w', RunStmts(Staging(tb), nm, g, s, f.env, f.sts).state, Exec(Staging(tb), g, s', f.full, f.head).state);
  }

  lemma {:induction false} GrowsTrans(u: World, v: World, w: World)
    requires Grows(u, v) && Grows(v, w)
    ensures Grows(u, w)
  {}

  lemma {:induction false} ExprStagesNothing(tb: Tables, nm: Names, g: map<Leaf, Value>, s: Batch, env: Env, e: Expr)
    ensures RunExpr(Staging(tb), nm, g, s, env, e).state.staged == s.staged
    decreases e, 0
  {
    if e.CallExpr? { ExprsStageNothing(tb, nm, g, s, env, e.args); }
  }

  lemma {:induction false} ExprsStageNothing(tb: Tables, nm: Names, g: map<Leaf, Value>, s: Batch, env: Env, es: seq<Expr>)
    ensures RunExprs(Staging(tb), nm, g, s, env, es).state.staged == s.staged
    decreases es, 1
  {
    if es != [] {
      ExprStagesNothing(tb, nm, g, s, env, es[0]);
      ExprsStageNothing(tb, nm, g, RunExpr(Staging(tb), nm, g, s, env, es[0]).state, env, es[1..]);
    }
  }

  predicate AtMostStages(s: Batch, o: Outcome<Batch>, f: Option<Effect>) {
    o.state.staged == s.staged || (f.Some? && o.state.staged == s.staged + [f.value])
  }

  lemma {:induction false} SetStages(tb: Tables, nm: Names, g: map<Leaf, Value>, s: Batch, env: Env, h: Head, args: seq<Expr>, cols: seq<Expr>)
    returns (f: Option<Effect>)
    ensures AtMostStages(s, RunSet(Staging(tb), nm, g, s, env, h, args, cols), f) && (f.Some? ==> f.value.SetRow? && f.value.head == h)
  {
    f := None;
    ExprsStageNothing(tb, nm, g, s, env, args);
    var r := RunExprs(Staging(tb), nm, g, s, env, args);
    if r.values.Some? {
      ExprsStageNothing(tb, nm, g, r.state, env, cols);
      var q := RunExprs(Staging(tb), nm, g, r.state, env, cols);
      if q.values.Some? { f := Some(SetRow(h, r.values.value, q.values.value)); }
    }
  }

  lemma {:induction false} UnionStages(tb: Tables, nm: Names, g: map<Leaf, Value>, s: Batch, env: Env, a: Expr, b: Expr) returns (f: Option<Effect>)
    ensures AtMostStages(s, RunStmt(Staging(tb), nm, g, s, env, SUnion(a, b)), f) && (f.Some? ==> f.value.Unify?)
  {
    f := None;
    ExprStagesNothing(tb, nm, g, s, env, a);
    var r := RunExpr(Staging(tb), nm, g, s, env, a);
    if r.value.Some? {
      ExprStagesNothing(tb, nm, g, r.state, env, b);
      var q := RunExpr(Staging(tb), nm, g, r.state, env, b);
      if q.value.Some? { f := Some(Unify(r.value.value, q.value.value)); }
    }
  }

  // A statement stages at most one effect, and a row only by a `set`.
  lemma {:induction false} StmtStages(tb: Tables, nm: Names, g: map<Leaf, Value>, s: Batch, env: Env, st: Stmt) returns (f: Option<Effect>)
    ensures AtMostStages(s, RunStmt(Staging(tb), nm, g, s, env, st), f)
    ensures f.Some? && f.value.SetRow? ==> st.SSet? && f.value.head == st.head
  {
    f := None;
    match st
    case SLet(_, e) => ExprStagesNothing(tb, nm, g, s, env, e);
    case SSet(h, args, value) => f := SetStages(tb, nm, g, s, env, h, args, Columns(value));
    case SChange(d, h, args) =>
      ExprsStageNothing(tb, nm, g, s, env, args);
      var r := RunExprs(Staging(tb), nm, g, s, env, args);
      if r.values.Some? { f := Some(ChangeRow(d, h, r.values.value)); }
    case SUnion(a, b) => f := UnionStages(tb, nm, g, s, env, a, b);
    case SPanic(msg) => f := Some(Abort(msg));
    case SExpr(e) => ExprStagesNothing(tb, nm, g, s, env, e);
  }

  lemma {:induction false} StmtsSetNoConstructor(tb: Tables, nm: Names, g: map<Leaf, Value>, s: Batch, env: Env, sts: seq<Stmt>)
    requires NoConstructorSets(tb, s) && SetsNoConstructor(tb, sts)
    ensures NoConstructorSets(tb, RunStmts(Staging(tb), nm, g, s, env, sts).state)
    decreases |sts|
  {
    if sts != [] {
      var f := StmtStages(tb, nm, g, s, env, sts[0]);
      var o := RunStmt(Staging(tb), nm, g, s, env, sts[0]);
      if o.Running? { StmtsSetNoConstructor(tb, nm, g, o.state, o.env, sts[1..]); }
    }
  }

  lemma {:induction false} BatchSetsNoConstructor(tb: Tables, nm: Names, g: map<Leaf, Value>, s: Batch, fs: seq<Firing>)
    requires NoConstructorSets(tb, s) && FiringsOk(tb, nm, g, fs)
    ensures NoConstructorSets(tb, RunWritten(tb, nm, g, s, fs))
    decreases |fs|
  {
    if fs != [] {
      StmtsSetNoConstructor(tb, nm, g, s, fs[0].env, fs[0].sts);
      BatchSetsNoConstructor(tb, nm, g, RunStmts(Staging(tb), nm, g, s, fs[0].env, fs[0].sts).state, fs[1..]);
    }
  }

  // Both runs of a batch, with the ids of one matched to those of the other, as far as both have them.
  lemma {:induction false} BatchRuns(tb: Tables, nm: Names, g: map<Leaf, Value>, fs: seq<Firing>) returns (w: World)
    requires TablesOk(tb) && FiringsOk(tb, nm, g, fs)
    ensures var s, s' := RunWritten(tb, nm, g, Empty(tb), fs), RunCompiled(tb, g, Empty(tb), fs);
      Runs(tb, w, s, s') && Covers(tb, w, s, s')
  {
    StagingStarts(tb, map[], map[]);
    w := BatchIsLinked(tb, Identity(tb.used), nm, g, Empty(tb), Empty(tb), fs);
    BatchSetsNoConstructor(tb, nm, g, Empty(tb), fs);
    RowsAreCovered(tb, w, RunWritten(tb, nm, g, Empty(tb), fs), RunCompiled(tb, g, Empty(tb), fs));
  }

  // Any batch of matches makes the same ids equal as written and as compiled. Before rebuilding it leaves
  // the same rows exactly when the compiled batch sets no row of before that it removes; after rebuilding,
  // exactly when the rows that it so sets and removes survive in both runs.
  lemma {:induction false} BatchMeansTheSameIff(tb: Tables, nm: Names, g: map<Leaf, Value>, fs: seq<Firing>) returns (w: World)
    requires TablesOk(tb) && FiringsOk(tb, nm, g, fs)
    ensures var s, s' := RunWritten(tb, nm, g, Empty(tb), fs), RunCompiled(tb, g, Empty(tb), fs);
      && Runs(tb, w, s, s') && Covers(tb, w, s, s')
      && (SameBefore(tb, w, s, s') <==> NoSetOfRemoved(tb, s'))
      && (SameAfter(tb, w, s, s') <==> RemovedSurvive(tb, s, s'))
  {
    w := BatchRuns(tb, nm, g, fs);
    RunsMeanTheSameIff(tb, w, RunWritten(tb, nm, g, Empty(tb), fs), RunCompiled(tb, g, Empty(tb), fs));
    RebuiltTheSameIff(tb, w, RunWritten(tb, nm, g, Empty(tb), fs), RunCompiled(tb, g, Empty(tb), fs));
  }

  // ---------------------------------------------------------------- heads that cannot meet

  // What a head may set and remove.
  predicate ActsOnly(acts: seq<Action>, sets: set<Head>, removes: set<Head>) {
    forall i :: 0 <= i < |acts| ==>
      (acts[i].Set? ==> acts[i].head in sets) && (acts[i].Change? && acts[i].isDelete ==> acts[i].head in removes)
  }

  predicate StagesOnly(s: Batch, sets: set<Head>, removes: set<Head>) {
    forall i :: 0 <= i < |s.staged| ==>
      (s.staged[i].SetRow? ==> s.staged[i].head in sets) && (s.staged[i].ChangeRow? && s.staged[i].isDelete ==> s.staged[i].head in removes)
  }

  lemma {:induction false} ExecStagesOnly(tb: Tables, g: map<Leaf, Value>, s: Batch, env: Env, acts: seq<Action>, sets: set<Head>, removes: set<Head>)
    requires StagesOnly(s, sets, removes) && ActsOnly(acts, sets, removes)
    ensures StagesOnly(Exec(Staging(tb), g, s, env, acts).state, sets, removes)
    decreases |acts|
  {
    if acts != [] {
      var o := Perform(Staging(tb), g, s, env, acts[0]);
      assert StagesOnly(o.state, sets, removes);
      if o.Running? { ExecStagesOnly(tb, g, o.state, o.env, acts[1..], sets, removes); }
    }
  }

  lemma {:induction false} RunStagesOnly(tb: Tables, g: map<Leaf, Value>, s: Batch, fs: seq<Firing>, sets: set<Head>, removes: set<Head>)
    requires StagesOnly(s, sets, removes) && forall i :: 0 <= i < |fs| ==> ActsOnly(fs[i].head, sets, removes)
    ensures StagesOnly(RunCompiled(tb, g, s, fs), sets, removes)
    decreases |fs|
  {
    if fs != [] {
      ExecStagesOnly(tb, g, s, fs[0].full, fs[0].head, sets, removes);
      RunStagesOnly(tb, g, Exec(Staging(tb), g, s, fs[0].full, fs[0].head).state, fs[1..], sets, removes);
    }
  }

  lemma {:induction false} SetOfRemovedMeets(tb: Tables, s: Batch, i: nat, sets: set<Head>, removes: set<Head>)
    requires TablesOk(tb) && StagesOnly(s, sets, removes) && IsSetOfRemoved(tb, s, i)
    ensures s.staged[i].head in sets * removes * tb.constructors
  {}

  // Heads that set no constructor that some head deletes: every batch of them means the same.
  lemma {:induction false} DisjointHeadsMeanTheSame(tb: Tables, nm: Names, g: map<Leaf, Value>, fs: seq<Firing>, sets: set<Head>, removes: set<Head>)
    returns (w: World)
    requires TablesOk(tb) && FiringsOk(tb, nm, g, fs)
    requires (forall i :: 0 <= i < |fs| ==> ActsOnly(fs[i].head, sets, removes)) && sets * removes * tb.constructors == {}
    ensures var s, s' := RunWritten(tb, nm, g, Empty(tb), fs), RunCompiled(tb, g, Empty(tb), fs);
      Runs(tb, w, s, s') && Covers(tb, w, s, s') && SameBefore(tb, w, s, s') && SameAfter(tb, w, s, s')
  {
    w := BatchMeansTheSameIff(tb, nm, g, fs);
    var s' := RunCompiled(tb, g, Empty(tb), fs);
    RunStagesOnly(tb, g, Empty(tb), fs, sets, removes);
    forall i: nat ensures !IsSetOfRemoved(tb, s', i) {
      if IsSetOfRemoved(tb, s', i) { SetOfRemovedMeets(tb, s', i, sets, removes); }
    }
  }

  // ---------------------------------------------------------------- a batch in which they do

  lemma {:induction false} NullaryUnion(tb: Tables, nm: Names, cfg: Config, g: map<Leaf, Value>, env: Env, h: Head, x: Leaf)
    requires h in tb.constructors && (h, []) in tb.rows && cfg == Config(tb.constructors, true)
    ensures var st := SUnion(VarExpr(x), CallExpr(h, []));
      var v, n := TermValue(g, env, TermFor(nm, x)), Id(tb.rows[(h, [])]);
      && RunStmt(Staging(tb), nm, g, Empty(tb), env, st) == Running(Batch(map[], [Unify(v, n)], tb.used), env)
      && RunRewritten(Staging(tb), nm, cfg, g, Empty(tb), env, st) == Running(Batch(map[], [SetRow(h, [], [v])], tb.used), env)
  {
    var m, s := Staging(tb), Empty(tb);
    var v, n := TermValue(g, env, TermFor(nm, x)), Id(tb.rows[(h, [])]);
    RunExprsOne(m, nm, g, s, env, VarExpr(x));
    assert RunExprs(m, nm, g, s, env, []) == Evaluated(s, Some([]));
    assert m.call(s, h, []) == Reply(s, Some(n));
    assert RunExpr(m, nm, g, s, env, CallExpr(h, [])) == Reply(s, Some(n));
    assert m.effect(s, Unify(v, n)).state.staged == [Unify(v, n)];
    assert m.effect(s, SetRow(h, [], [v])).state.staged == [SetRow(h, [], [v])];
  }

  lemma {:induction false} NullaryDelete(tb: Tables, nm: Names, g: map<Leaf, Value>, s: Batch, env: Env, h: Head)
    ensures RunStmt(Staging(tb), nm, g, s, env, SChange(true, h, [])) == Running(Stage(s, ChangeRow(true, h, [])).state, env)
  {
    assert RunExprs(Staging(tb), nm, g, s, env, []) == Evaluated(s, Some([]));
  }

  // `(union x (h)) (delete (h))` where `(h)` has a row: the union leaves it removed, the set does not.
  lemma {:induction false} UnionThenDelete(tb: Tables, nm: Names, cfg: Config, g: map<Leaf, Value>, env: Env, h: Head, x: Leaf)
    requires h in tb.constructors && (h, []) in tb.rows && cfg == Config(tb.constructors, true)
    ensures var sts := [SUnion(VarExpr(x), CallExpr(h, [])), SChange(true, h, [])];
      && !Present(tb, RunStmts(Staging(tb), nm, g, Empty(tb), env, sts).state, (h, []))
      && Present(tb, RunAllRewritten(Staging(tb), nm, cfg, g, Empty(tb), env, sts).state, (h, []))
  {
    var m := Staging(tb);
    var v, n := TermValue(g, env, TermFor(nm, x)), Id(tb.rows[(h, [])]);
    var a, b := SUnion(VarExpr(x), CallExpr(h, [])), SChange(true, h, []);
    var s, s' := Batch(map[], [Unify(v, n)], tb.used), Batch(map[], [SetRow(h, [], [v])], tb.used);
    var t, t' := Stage(s, ChangeRow(true, h, [])).state, Stage(s', ChangeRow(true, h, [])).state;
    NullaryUnion(tb, nm, cfg, g, env, h, x);
    NullaryDelete(tb, nm, g, s, env, h);
    NullaryDelete(tb, nm, g, s', env, h);
    assert [a, b][1..] == [b] && [b][1..] == [];
    assert RunStmts(m, nm, g, s, env, [b]) == Running(t, env);
    assert RunAllRewritten(m, nm, cfg, g, s', env, [b]) == Running(t', env);
    assert t.staged[1] == ChangeRow(true, h, []) && t'.staged[0] == SetRow(h, [], [v]);
    assert HasRow(tb, t', (h, []), v);
  }
}
