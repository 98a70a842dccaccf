// A rule from its surface form to the compiled one, and what running it then means.
module CompiledRuleModel {
  import opened CoreIR
  import opened Options
  import opened GroundedModel
  import opened RuleModel
  import opened FlattenModel
  import opened CanonicalizeModel
  import opened RemoveDupVarsModel
  import opened LoweringModel
  import opened ScopingModel
  import opened CoreActionsModel
  import opened UnionToSetModel
  import opened BatchModel
  import opened BatchMeaningModel
  import opened BatchRunsModel

  // ---------------------------------------------------------------- bindings in front of a head

  lemma {:induction false} ExecLets<S>(m: Machine<S>, g: map<Leaf, Value>, s: S, env: Env, lets: seq<Action>)
    requires AllLets(lets)
    ensures Exec(m, g, s, env, lets) == Running(s, RunLets(g, lets, env))
    decreases |lets|
  {
    if lets != [] {
      assert lets[0].LetTerm?;
      ExecLets(m, g, s, env[Var(lets[0].v) := TermValue(g, env, lets[0].t)], lets[1..]);
    }
  }

  lemma {:induction false} ExecBehindLets<S>(m: Machine<S>, g: map<Leaf, Value>, s: S, env: Env, lets: seq<Action>, head: seq<Action>)
    requires AllLets(lets)
    ensures Exec(m, g, s, env, lets + head) == Exec(m, g, s, RunLets(g, lets, env), head)
  {
    ExecConcat(m, g, s, env, lets, head);
    ExecLets(m, g, s, env, lets);
  }

  // ---------------------------------------------------------------- users' valuations

  ghost function UserVars(nm: Names, body: seq<Atom>): set<Term> {
    set t | t in BodyVars(body) && Older(nm, t, 0)
  }

  ghost function UserPart(nm: Names, e: Env): Env {
    map t | t in e && Older(nm, t, 0) :: e[t]
  }

  // A valuation of exactly the user's variables of the body that makes the facts hold.
  ghost predicate UserMatch(db: Db, nm: Names, facts: seq<Fact>, env: Env) {
    FactsHold(db, nm, env, facts) && env.Keys == UserVars(nm, FactsToQuery(nm, facts, 0).atoms)
  }

  lemma {:induction false} MatchIsUserMatch(db: Db, nm: Names, facts: seq<Fact>, full: Env)
    requires Distinct(nm) && UserFacts(nm, facts) && AllWellShaped(FactsToQuery(nm, facts, 0).atoms)
    requires Match(db, FactsToQuery(nm, facts, 0).atoms, full)
    ensures UserMatch(db, nm, facts, UserPart(nm, full)) && Extends(db, nm, facts, UserPart(nm, full), full)
  {
    var env := UserPart(nm, full);
    assert Extends(db, nm, facts, env, full);
    FlatteningIsExact(db, nm, facts, env);
  }

  lemma {:induction false} SameValuesHold(db: Db, x: Env, y: Env, body: seq<Atom>)
    requires AllWellShaped(body) && HoldsAll(db, x, body) && SameOnTerms(db.globals, x, y, BodyVars(body))
    ensures HoldsAll(db, y, body)
  {
    BodyVarsAre(body);
    forall i | 0 <= i < |body| ensures Holds(db, y, body[i]) {
      var a := body[i];
      assert Holds(db, x, a);
      forall k | 0 <= k < |a.args| ensures TermValue(db.globals, x, a.args[k]) == TermValue(db.globals, y, a.args[k]) {
        if a.args[k].Var? { assert a.args[k] in VarTerms(a.args); }
      }
      if a.head.Call? { assert TermValues(db.globals, x, Inputs(a)) == TermValues(db.globals, y, Inputs(a)); }
    }
  }

  lemma {:induction false} UserMatchExtends(db: Db, nm: Names, facts: seq<Fact>, env: Env) returns (f: Env)
    requires Distinct(nm) && UserFacts(nm, facts) && UserMatch(db, nm, facts, env)
    ensures AllWellShaped(FactsToQuery(nm, facts, 0).atoms)
    ensures Match(db, FactsToQuery(nm, facts, 0).atoms, f) && UserPart(nm, f) == env
  {
    var body := FactsToQuery(nm, facts, 0).atoms;
    FlatteningIsExact(db, nm, facts, env);
    var x :| Extends(db, nm, facts, env, x);
    f := map t | t in BodyVars(body) :: TermValue(db.globals, x, t);
    NoFixedVars(body);
    SameValuesHold(db, x, f, body);
    assert UserPart(nm, f) == env;
  }

  lemma {:induction false} SameUserPart(db: Db, nm: Names, facts: seq<Fact>, x: Env, y: Env)
    requires Distinct(nm) && UserFacts(nm, facts) && AllWellShaped(FactsToQuery(nm, facts, 0).atoms)
    requires Match(db, FactsToQuery(nm, facts, 0).atoms, x) && Match(db, FactsToQuery(nm, facts, 0).atoms, y)
    requires UserPart(nm, x) == UserPart(nm, y)
    ensures x == y
  {
    var body := FactsToQuery(nm, facts, 0).atoms;
    MatchIsUserMatch(db, nm, facts, x);
    MatchIsUserMatch(db, nm, facts, y);
    FlatteningIsExact(db, nm, facts, UserPart(nm, x));
    assert SameOn(db.globals, x, y, body);
    NoFixedVars(body);
    BodyVarsAre(body);
    forall t | t in x ensures x[t] == y[t] {
      var i :| 0 <= i < |body| && t in VarTerms(body[i].args);
      var k :| 0 <= k < |body[i].args| && body[i].args[k] == t;
      assert TermValue(db.globals, x, body[i].args[k]) == TermValue(db.globals, y, body[i].args[k]);
    }
  }

  // ---------------------------------------------------------------- the whole compilation

  function LeavesOf(body: seq<Atom>): set<Leaf> {
    set t | t in BodyVars(body) && t.Var? :: t.v
  }

  // The core rule of a surface rule, before any pass over it.
  function ToCoreRule(nm: Names, cfg: Config, facts: seq<Fact>, sts: seq<Stmt>): Result<Rule> {
    var q := FactsToQuery(nm, facts, 0);
    var low := LowerStmts(nm, cfg, sts, LeavesOf(q.atoms), q.next);
    if low.Err? then Err(low.error) else Ok(Rule(q.atoms, low.value.actions))
  }

  // The user's valuation that a match of the compiled rule stands for.
  ghost function ToUser(db: Db, nm: Names, lets: seq<Action>, e: Env): Env
    requires AllLets(lets)
  {
    UserPart(nm, RunLets(db.globals, lets, e))
  }

  lemma {:induction false} FiresTheSame<S(!new), W(!new)>(m: Machine<S>, link: Link<S, W>, w: W, db: Db, s: S, s': S, nm: Names, cfg: Config,
                                                          facts: seq<Fact>, sts: seq<Stmt>, lets: seq<Action>, r: Rule, e: Env)
    requires Distinct(nm) && UserFacts(nm, facts) && UserStmts(nm, cfg, sts) && ToCoreRule(nm, cfg, facts, sts).Ok?
    requires PreservesVia(ToCoreRule(nm, cfg, facts, sts).value, lets, r) && Match(db, r.body, e) && Laws(m, link, cfg)
    ensures FiresAsWritten(m, link, w, nm, facts, sts, lets, r, db, s, s', e)
  {
    var r0 := ToCoreRule(nm, cfg, facts, sts).value;
    var q := FactsToQuery(nm, facts, 0);
    var full := RunLets(db.globals, lets, e);
    assert Bijection(db, r0.body, lets, r.body);
    assert Forward(db, r0.body, lets, r.body, e);
    MatchIsUserMatch(db, nm, facts, full);
    ExecBehindLets(m, db.globals, s', e, lets, r0.head);
    if StartsAt(link, w, db.globals, s, s', UserPart(nm, full)) {
      LoweringIsFaithfulUpTo(m, link, w, nm, cfg, db.globals, s, s', UserPart(nm, full), full, sts, LeavesOf(q.atoms), q.next);
    }
  }

  lemma {:induction false} EveryUserMatchIsFound(db: Db, nm: Names, cfg: Config, facts: seq<Fact>, sts: seq<Stmt>,
                                                 lets: seq<Action>, r: Rule, env: Env) returns (e: Env)
    requires Distinct(nm) && UserFacts(nm, facts) && ToCoreRule(nm, cfg, facts, sts).Ok?
    requires PreservesVia(ToCoreRule(nm, cfg, facts, sts).value, lets, r) && UserMatch(db, nm, facts, env)
    ensures Match(db, r.body, e) && ToUser(db, nm, lets, e) == env
  {
    var r0 := ToCoreRule(nm, cfg, facts, sts).value;
    var f := UserMatchExtends(db, nm, facts, env);
    assert Bijection(db, r0.body, lets, r.body);
    assert Backward(db, r0.body, lets, r.body, f);
    e := Restrict(f, BodyVars(r.body));
  }

  lemma {:induction false} MatchesAreDifferent(db: Db, nm: Names, cfg: Config, facts: seq<Fact>, sts: seq<Stmt>,
                                               lets: seq<Action>, r: Rule, e: Env, f: Env)
    requires Distinct(nm) && UserFacts(nm, facts) && ToCoreRule(nm, cfg, facts, sts).Ok?
    requires PreservesVia(ToCoreRule(nm, cfg, facts, sts).value, lets, r)
    requires Match(db, r.body, e) && Match(db, r.body, f) && ToUser(db, nm, lets, e) == ToUser(db, nm, lets, f)
    ensures e == f
  {
    var r0 := ToCoreRule(nm, cfg, facts, sts).value;
    assert Bijection(db, r0.body, lets, r.body);
    assert Forward(db, r0.body, lets, r.body, e) && Forward(db, r0.body, lets, r.body, f);
    SameUserPart(db, nm, facts, RunLets(db.globals, lets, e), RunLets(db.globals, lets, f));
  }

  ghost predicate FiresAsWritten<S(!new), W(!new)>(m: Machine<S>, link: Link<S, W>, w: W, nm: Names, facts: seq<Fact>, sts: seq<Stmt>,
                                                   lets: seq<Action>, r: Rule, db: Db, s: S, s': S, e: Env)
    requires AllLets(lets)
  {
    var env := ToUser(db, nm, lets, e);
    && UserMatch(db, nm, facts, env)
    && (StartsAt(link, w, db.globals, s, s', env) ==>
        LinkedEffect(link, w, RunStmts(m, nm, db.globals, s, env, sts), Exec(m, db.globals, s', e, r.head)))
  }

  // The matches of the compiled rule stand one to one for the valuations of the user's variables that
  // make the facts hold.
  ghost predicate OneToOne(nm: Names, facts: seq<Fact>, lets: seq<Action>, r: Rule)
    requires AllLets(lets) && AllWellShaped(r.body)
  {
    && (forall db, env :: UserMatch(db, nm, facts, env) ==> exists e :: Match(db, r.body, e) && ToUser(db, nm, lets, e) == env)
    && (forall db, e, f :: Match(db, r.body, e) && Match(db, r.body, f) && ToUser(db, nm, lets, e) == ToUser(db, nm, lets, f) ==> e == f)
  }

  // Every match does, up to the link, what the user's statements do under its valuation.
  ghost predicate Faithful<S(!new), W(!new)>(m: Machine<S>, link: Link<S, W>, nm: Names, facts: seq<Fact>, sts: seq<Stmt>, lets: seq<Action>, r: Rule)
    requires AllLets(lets) && AllWellShaped(r.body)
  {
    && OneToOne(nm, facts, lets, r)
    && (forall db, w, s, s', e :: Match(db, r.body, e) ==> FiresAsWritten(m, link, w, nm, facts, sts, lets, r, db, s, s', e))
  }

  // On any machine, under any link under which a set of a constructor's row does what a call and a union
  // do, or under any link at all when unions stay unions.
  lemma {:induction false} CompiledRuleIsFaithful<S(!new), W(!new)>(m: Machine<S>, link: Link<S, W>, nm: Names, cfg: Config,
                                                                    facts: seq<Fact>, sts: seq<Stmt>, r: Rule) returns (lets: seq<Action>)
    requires Distinct(nm) && UserFacts(nm, facts) && UserStmts(nm, cfg, sts) && ToCoreRule(nm, cfg, facts, sts).Ok?
    requires Preserves(ToCoreRule(nm, cfg, facts, sts).value, r) && Laws(m, link, cfg)
    ensures AllLets(lets) && AllWellShaped(r.body) && Faithful(m, link, nm, facts, sts, lets, r)
  {
    lets :| PreservesVia(ToCoreRule(nm, cfg, facts, sts).value, lets, r);
    forall db, w, s, s', e | Match(db, r.body, e) ensures FiresAsWritten(m, link, w, nm, facts, sts, lets, r, db, s, s', e) {
      FiresTheSame(m, link, w, db, s, s', nm, cfg, facts, sts, lets, r, e);
    }
    forall db, env | UserMatch(db, nm, facts, env) ensures exists e :: Match(db, r.body, e) && ToUser(db, nm, lets, e) == env {
      var e := EveryUserMatchIsFound(db, nm, cfg, facts, sts, lets, r, env);
    }
    forall db, e, f | Match(db, r.body, e) && Match(db, r.body, f) && ToUser(db, nm, lets, e) == ToUser(db, nm, lets, f) ensures e == f {
      MatchesAreDifferent(db, nm, cfg, facts, sts, lets, r, e, f);
    }
  }

  // Where unions stay unions, every match does exactly what the user's statements do, on any machine.
  lemma {:induction false} CompiledRuleIsExact<S(!new)>(m: Machine<S>, nm: Names, cfg: Config, facts: seq<Fact>, sts: seq<Stmt>, r: Rule)
    returns (lets: seq<Action>)
    requires Distinct(nm) && UserFacts(nm, facts) && UserStmts(nm, cfg, sts) && ToCoreRule(nm, cfg, facts, sts).Ok?
    requires Preserves(ToCoreRule(nm, cfg, facts, sts).value, r) && !cfg.unionToSet
    ensures AllLets(lets) && AllWellShaped(r.body) && OneToOne(nm, facts, lets, r)
    ensures forall db, s, e :: Match(db, r.body, e) ==>
      SameEffect(RunStmts(m, nm, db.globals, s, ToUser(db, nm, lets, e), sts), Exec(m, db.globals, s, e, r.head))
  {
    SameIsLawful(m, cfg);
    lets := CompiledRuleIsFaithful(m, Same(), nm, cfg, facts, sts, r);
    forall db, s, e | Match(db, r.body, e)
      ensures SameEffect(RunStmts(m, nm, db.globals, s, ToUser(db, nm, lets, e), sts), Exec(m, db.globals, s, e, r.head))
    {
      assert FiresAsWritten(m, Same(), (), nm, facts, sts, lets, r, db, s, s, e);
      assert StartsAt(Same(), (), db.globals, s, s, ToUser(db, nm, lets, e));
    }
  }

  // ---------------------------------------------------------------- a batch of the rule's matches

  // Matches of the compiled rule, each with the user's valuation that it stands for.
  ghost function Firings(db: Db, nm: Names, sts: seq<Stmt>, lets: seq<Action>, r: Rule, es: seq<Env>): (fs: seq<Firing>)
    requires AllLets(lets)
    ensures |fs| == |es| && forall i :: 0 <= i < |es| ==> fs[i] == Firing(sts, ToUser(db, nm, lets, es[i]), r.head, es[i])
  {
    seq(|es|, i requires 0 <= i < |es| => Firing(sts, ToUser(db, nm, lets, es[i]), r.head, es[i]))
  }

  ghost predicate OldGlobals(tb: Tables, g: map<Leaf, Value>) {
    forall v :: v in g ==> OldId(tb, g[v])
  }

  ghost predicate OldEnv(tb: Tables, env: Env) {
    forall t :: t in env ==> OldId(tb, env[t])
  }

  lemma {:induction false} OldValuesMatched(tb: Tables, w: World, g: map<Leaf, Value>, s: Batch, s': Batch, env: Env)
    requires States(tb, w, s, s') && OldEnv(tb, env) && OldGlobals(tb, g)
    ensures StartsAt(Matching(tb), w, g, s, s', env)
  {}

  lemma {:induction false} MatchFiresAlike(tb: Tables, nm: Names, facts: seq<Fact>, sts: seq<Stmt>, lets: seq<Action>, r: Rule, db: Db, e: Env)
    requires AllLets(lets) && AllWellShaped(r.body) && Faithful(Staging(tb), Matching(tb), nm, facts, sts, lets, r)
    requires Match(db, r.body, e) && OldEnv(tb, ToUser(db, nm, lets, e)) && OldGlobals(tb, db.globals)
    ensures FiresAlike(tb, nm, db.globals, Firing(sts, ToUser(db, nm, lets, e), r.head, e))
  {
    var f, link := Firing(sts, ToUser(db, nm, lets, e), r.head, e), Matching(tb);
    forall w, s, s' | States(tb, w, s, s') ensures AlikeFrom(tb, nm, db.globals, f, w, s, s') {
      OldValuesMatched(tb, w, db.globals, s, s', f.env);
      assert FiresAsWritten(Staging(tb), link, w, nm, facts, sts, lets, r, db, s, s', e);
      var o, o' := RunStmts(Staging(tb), nm, db.globals, s, f.env, sts), Exec(Staging(tb), db.globals, s', e, r.head);
      var w' :| link.grows(w, w') && link.states(w', o.state, o'.state);
    }
  }

  // What a batch of matches starts from: ids in use, and no `set` of a constructor.
  ghost predicate BatchStarts(tb: Tables, nm: Names, cfg: Config, facts: seq<Fact>, sts: seq<Stmt>, r: Rule, db: Db, es: seq<Env>)
    requires AllWellShaped(r.body)
  {
    && TablesOk(tb) && cfg.constructors == tb.constructors && SetsNoConstructor(tb, sts) && OldGlobals(tb, db.globals)
    && (forall i :: 0 <= i < |es| ==> Match(db, r.body, es[i]))
    && (forall x, t :: UserMatch(db, nm, facts, x) && t in x ==> OldId(tb, x[t]))
  }

  // Each match stands for the user's valuation, and firing it keeps two runs matched.
  lemma {:induction false} MatchesFireAlike(tb: Tables, nm: Names, cfg: Config, facts: seq<Fact>, sts: seq<Stmt>, r: Rule, db: Db, es: seq<Env>)
    returns (lets: seq<Action>)
    requires Distinct(nm) && UserFacts(nm, facts) && UserStmts(nm, cfg, sts) && ToCoreRule(nm, cfg, facts, sts).Ok?
    requires Preserves(ToCoreRule(nm, cfg, facts, sts).value, r) && BatchStarts(tb, nm, cfg, facts, sts, r, db, es)
    ensures AllLets(lets) && OneToOne(nm, facts, lets, r)
    ensures forall i :: 0 <= i < |es| ==> UserMatch(db, nm, facts, ToUser(db, nm, lets, es[i]))
    ensures FiringsOk(tb, nm, db.globals, Firings(db, nm, sts, lets, r, es))
  {
    StagingIsLawful(tb, cfg);
    lets := CompiledRuleIsFaithful(Staging(tb), Matching(tb), nm, cfg, facts, sts, r);
    var fs := Firings(db, nm, sts, lets, r, es);
    forall i | 0 <= i < |es|
      ensures UserMatch(db, nm, facts, ToUser(db, nm, lets, es[i])) && FiresAlike(tb, nm, db.globals, fs[i])
    {
      assert FiresAsWritten(Staging(tb), Matching(tb), map[], nm, facts, sts, lets, r, db, Empty(tb), Empty(tb), es[i]);
      MatchFiresAlike(tb, nm, facts, sts, lets, r, db, es[i]);
    }
  }

  // Any batch of matches of a compiled rule against the user's statements under the valuations that the
  // matches stand for. Before rebuilding the same ids are equal and the same constructor rows are there,
  // with the same outputs, exactly when the batch sets no row of before that it removes; after rebuilding,
  // exactly when every row that it so sets and removes survives in both.
  lemma {:induction false} CompiledBatchMeansTheSameIff(tb: Tables, nm: Names, cfg: Config, facts: seq<Fact>, sts: seq<Stmt>, r: Rule,
                                                        db: Db, es: seq<Env>) returns (lets: seq<Action>, w: World)
    requires Distinct(nm) && UserFacts(nm, facts) && UserStmts(nm, cfg, sts) && ToCoreRule(nm, cfg, facts, sts).Ok?
    requires Preserves(ToCoreRule(nm, cfg, facts, sts).value, r) && BatchStarts(tb, nm, cfg, facts, sts, r, db, es)
    ensures AllLets(lets) && OneToOne(nm, facts, lets, r)
    ensures forall i :: 0 <= i < |es| ==> UserMatch(db, nm, facts, ToUser(db, nm, lets, es[i]))
    ensures var fs := Firings(db, nm, sts, lets, r, es);
      var s, s' := RunWritten(tb, nm, db.globals, Empty(tb), fs), RunCompiled(tb, db.globals, Empty(tb), fs);
      && Runs(tb, w, s, s') && Covers(tb, w, s, s')
      && (SameBefore(tb, w, s, s') <==> NoSetOfRemoved(tb, s'))
      && (SameAfter(tb, w, s, s') <==> RemovedSurvive(tb, s, s'))
  {
    lets := MatchesFireAlike(tb, nm, cfg, facts, sts, r, db, es);
    w := BatchMeansTheSameIff(tb, nm, db.globals, Firings(db, nm, sts, lets, r, es));
  }

  // ---------------------------------------------------------------- rules that delete nothing they unite

  // The constructor of a union that becomes a set.
  predicate Unites(cfg: Config, st: Stmt, h: Head) {
    st.SUnion? && BecomesSet(cfg, st.a, st.b) && h == (if st.a.CallExpr? then st.a.head else st.b.head)
  }

  predicate DeletesNothingUnited(cfg: Config, sts: seq<Stmt>) {
    forall i, j, h :: 0 <= i < |sts| && 0 <= j < |sts| && Unites(cfg, sts[i], h) ==> !(sts[j].SChange? && sts[j].isDelete && sts[j].head == h)
  }

  function HeadsSet(cfg: Config, st: Stmt): set<Head> {
    match st
    case SSet(h, _, _) => {h}
    case SUnion(a, b) => if !BecomesSet(cfg, a, b) then {} else if a.CallExpr? then {a.head} else {b.head}
    case _ => {}
  }

  function HeadsDeleted(st: Stmt): set<Head> {
    if st.SChange? && st.isDelete then {st.head} else {}
  }

  function AllHeadsSet(cfg: Config, sts: seq<Stmt>): (hs: set<Head>)
    ensures forall h :: h in hs <==> exists i :: 0 <= i < |sts| && h in HeadsSet(cfg, sts[i])
  {
    set i, h | 0 <= i < |sts| && h in HeadsSet(cfg, sts[i]) :: h
  }

  function AllHeadsDeleted(sts: seq<Stmt>): (hs: set<Head>)
    ensures forall h :: h in hs <==> exists i :: 0 <= i < |sts| && h in HeadsDeleted(sts[i])
  {
    set i, h | 0 <= i < |sts| && h in HeadsDeleted(sts[i]) :: h
  }

  lemma {:induction false} LoweredExprsAct(nm: Names, es: seq<Expr>, bound: set<Leaf>, n: nat)
    requires LowerExprs(nm, es, bound, n).Ok?
    ensures forall a :: a in LowerExprs(nm, es, bound, n).value.actions ==> a.Let?
    decreases es, 1
  {
    if es != [] {
      LoweredExprActs(nm, es[0], bound, n);
      var q := LowerExpr(nm, es[0], bound, n).value;
      LoweredExprsAct(nm, es[1..], q.bound, q.next);
    }
  }

  lemma {:induction false} LoweredExprActs(nm: Names, e: Expr, bound: set<Leaf>, n: nat)
    requires LowerExpr(nm, e, bound, n).Ok?
    ensures forall a :: a in LowerExpr(nm, e, bound, n).value.actions ==> a.Let?
    decreases e, 0
  {
    if e.CallExpr? { LoweredExprsAct(nm, e.args, bound, n); }
  }

  lemma {:induction false} LoweredStmtActs(nm: Names, cfg: Config, st: Stmt, bound: set<Leaf>, n: nat)
    requires LowerStmt(nm, cfg, st, bound, n).Ok?
    ensures ActsOnly(LowerStmt(nm, cfg, st, bound, n).value.actions, HeadsSet(cfg, st), HeadsDeleted(st))
  {
    LoweredExprsAct(nm, Operands(cfg, st), bound, n);
    var x := LowerExprs(nm, Operands(cfg, st), bound, n).value;
    assert forall i :: 0 <= i < |x.actions| ==> x.actions[i] in x.actions;
  }

  lemma {:induction false} LoweredStmtsAct(nm: Names, cfg: Config, sts: seq<Stmt>, bound: set<Leaf>, n: nat, sets: set<Head>, removes: set<Head>)
    requires LowerStmts(nm, cfg, sts, bound, n).Ok?
    requires forall i :: 0 <= i < |sts| ==> HeadsSet(cfg, sts[i]) <= sets && HeadsDeleted(sts[i]) <= removes
    ensures ActsOnly(LowerStmts(nm, cfg, sts, bound, n).value.actions, sets, removes)
    decreases |sts|
  {
    if sts != [] {
      LoweredStmtActs(nm, cfg, sts[0], bound, n);
      var q := LowerStmt(nm, cfg, sts[0], bound, n).value;
      LoweredStmtsAct(nm, cfg, sts[1..], q.bound, q.next, sets, removes);
    }
  }

  lemma {:induction false} CompiledHeadActs(nm: Names, cfg: Config, facts: seq<Fact>, sts: seq<Stmt>, r: Rule)
    requires ToCoreRule(nm, cfg, facts, sts).Ok? && Preserves(ToCoreRule(nm, cfg, facts, sts).value, r)
    ensures ActsOnly(r.head, AllHeadsSet(cfg, sts), AllHeadsDeleted(sts))
  {
    var q := FactsToQuery(nm, facts, 0);
    var core := ToCoreRule(nm, cfg, facts, sts).value;
    LoweredStmtsAct(nm, cfg, sts, LeavesOf(q.atoms), q.next, AllHeadsSet(cfg, sts), AllHeadsDeleted(sts));
    var lets :| PreservesVia(core, lets, r);
    assert r.head == lets + core.head;
  }

  lemma {:induction false} NothingUnitedIsDeleted(tb: Tables, cfg: Config, sts: seq<Stmt>)
    requires SetsNoConstructor(tb, sts) && DeletesNothingUnited(cfg, sts)
    ensures AllHeadsSet(cfg, sts) * AllHeadsDeleted(sts) * tb.constructors == {}
  {
    forall h | h in AllHeadsSet(cfg, sts) && h in tb.constructors ensures h !in AllHeadsDeleted(sts) {
      var i :| 0 <= i < |sts| && h in HeadsSet(cfg, sts[i]);
      assert Unites(cfg, sts[i], h);
    }
  }

  // A rule that deletes from no constructor that one of its unions is turned into a set of means the same,
  // before and after rebuilding, whatever its matches and the tables are.
  lemma {:induction false} CompiledBatchMeansTheSame(tb: Tables, nm: Names, cfg: Config, facts: seq<Fact>, sts: seq<Stmt>, r: Rule,
                                                     db: Db, es: seq<Env>) returns (lets: seq<Action>, w: World)
    requires Distinct(nm) && UserFacts(nm, facts) && UserStmts(nm, cfg, sts) && ToCoreRule(nm, cfg, facts, sts).Ok?
    requires Preserves(ToCoreRule(nm, cfg, facts, sts).value, r) && BatchStarts(tb, nm, cfg, facts, sts, r, db, es)
    requires DeletesNothingUnited(cfg, sts)
    ensures AllLets(lets) && OneToOne(nm, facts, lets, r)
    ensures forall i :: 0 <= i < |es| ==> UserMatch(db, nm, facts, ToUser(db, nm, lets, es[i]))
    ensures var fs := Firings(db, nm, sts, lets, r, es);
      var s, s' := RunWritten(tb, nm, db.globals, Empty(tb), fs), RunCompiled(tb, db.globals, Empty(tb), fs);
      Runs(tb, w, s, s') && Covers(tb, w, s, s') && SameBefore(tb, w, s, s') && SameAfter(tb, w, s, s')
  {
    lets := MatchesFireAlike(tb, nm, cfg, facts, sts, r, db, es);
    CompiledHeadActs(nm, cfg, facts, sts, r);
    NothingUnitedIsDeleted(tb, cfg, sts);
    w := DisjointHeadsMeanTheSame(tb, nm, db.globals, Firings(db, nm, sts, lets, r, es), AllHeadsSet(cfg, sts), AllHeadsDeleted(sts));
  }

  // ---------------------------------------------------------------- well-sorted rules

  function SortOfExpr(e: Expr): Sort {
    match e
    case LitExpr(l) => LiteralSort(l)
    case VarExpr(v) => v.sort
    case CallExpr(h, _) => h.output
  }

  // Primitives are called on expressions of the sorts they are specialized for.
  predicate Sorted(e: Expr)
    decreases e, 0
  {
    match e
    case CallExpr(h, args) =>
      && AllSorted(args)
      && (h.Primitive? ==> |args| == |h.inputs| && forall k :: 0 <= k < |args| ==> SortOfExpr(args[k]) == h.inputs[k])
    case _ => true
  }

  predicate AllSorted(es: seq<Expr>)
    decreases es, 1
  {
    es != [] ==> Sorted(es[0]) && AllSorted(es[1..])
  }

  predicate SortedFact(f: Fact) {
    match f
    case ExprFact(e) => Sorted(e)
    case EqFact(a, b) => Sorted(a) && Sorted(b) && SortOfExpr(a) == SortOfExpr(b)
    case TupleFact(h, args, values, last) => h.Func? && AllSorted(args + values + [last]) && SortOfExpr(last) == h.output
  }

  predicate SortedFacts(facts: seq<Fact>) {
    forall i :: 0 <= i < |facts| ==> SortedFact(facts[i])
  }

  lemma {:induction false} QuerySorted(nm: Names, e: Expr, n: nat)
    requires Sorted(e)
    ensures var q := ToQuery(nm, e, n); WellSorted(q.atoms) && SortOf(q.term) == SortOfExpr(e)
    decreases e, 0
  {
    if e.CallExpr? {
      QueriesSorted(nm, e.args, n + 1);
      var q := ToQueries(nm, e.args, n + 1);
      var last := Atom(Call(e.head), q.terms + [Var(Fresh(nm, n, e.head))]);
      assert Inputs(last) == q.terms;
      assert WellSortedAtom(last);
    }
  }

  lemma {:induction false} QueriesSorted(nm: Names, es: seq<Expr>, n: nat)
    requires AllSorted(es)
    ensures var q := ToQueries(nm, es, n); WellSorted(q.atoms) && forall k :: 0 <= k < |es| ==> SortOf(q.terms[k]) == SortOfExpr(es[k])
    decreases es, 1
  {
    if es != [] {
      QuerySorted(nm, es[0], n);
      var q := ToQuery(nm, es[0], n);
      QueriesSorted(nm, es[1..], q.next);
    }
  }

  lemma {:induction false} FactSorted(nm: Names, f: Fact, n: nat)
    requires SortedFact(f)
    ensures WellSorted(FactAtoms(nm, f, n))
  {
    match f
    case ExprFact(e) => QuerySorted(nm, e, n);
    case EqFact(a, b) =>
      var q := ToQuery(nm, a, n);
      QuerySorted(nm, a, n);
      QuerySorted(nm, b, q.next);
    case TupleFact(h, args, values, last) =>
      var cols := args + values + [last];
      QueriesSorted(nm, cols, n);
      assert cols[|cols| - 1] == last;
      assert WellSortedAtom(Atom(Call(h), ToQueries(nm, cols, n).terms));
  }

  lemma {:induction false} FactsSorted(nm: Names, facts: seq<Fact>, n: nat)
    requires SortedFacts(facts)
    ensures WellSorted(FactsToQuery(nm, facts, n).atoms)
  {
    if facts != [] {
      var k := |facts| - 1;
      var init := FactsToQuery(nm, facts[..k], n);
      assert forall i :: 0 <= i < k ==> facts[..k][i] == facts[i];
      FactsSorted(nm, facts[..k], n);
      FactSorted(nm, facts[k], init.next);
    }
  }

  // Every name that lowering takes for a call has the sort of the call.
  lemma {:induction false} LoweredTermSort(nm: Names, e: Expr, bound: set<Leaf>, n: nat)
    requires LowerExpr(nm, e, bound, n).Ok?
    ensures SortOf(LowerExpr(nm, e, bound, n).value.terms[0]) == SortOfExpr(e)
  {}

  // ---------------------------------------------------------------- the whole pass

  datatype Failure = Type(error: Error) | Ungrounded

  lemma {:induction false} BodyVarsUntaken(nm: Names, facts: seq<Fact>)
    requires Distinct(nm) && UserFacts(nm, facts)
    ensures var q := FactsToQuery(nm, facts, 0); Untaken(nm, LeavesOf(q.atoms), q.next)
  {
    var q := FactsToQuery(nm, facts, 0);
    FactsNames(nm, facts, 0);
    BodyVarsAre(q.atoms);
    forall t | t in BodyVars(q.atoms) && t.Var? ensures Older(nm, Var(t.v), q.next) {
      var i :| 0 <= i < |q.atoms| && t in VarTerms(q.atoms[i].args);
      assert AllOlder(nm, q.atoms[i].args, q.next);
      var k :| 0 <= k < |q.atoms[i].args| && q.atoms[i].args[k] == t;
      assert Older(nm, q.atoms[i].args[k], q.next);
    }
  }

  // The head of a core rule uses only variables of its body, and no action uses its own variable.
  lemma {:induction false} CoreRuleIsBound(nm: Names, cfg: Config, facts: seq<Fact>, sts: seq<Stmt>)
    requires Distinct(nm) && UserFacts(nm, facts) && UserStmts(nm, cfg, sts) && ToCoreRule(nm, cfg, facts, sts).Ok?
    ensures var r := ToCoreRule(nm, cfg, facts, sts).value; HeadBound(r) && NoSelfUse(r.head)
  {
    var q := FactsToQuery(nm, facts, 0);
    var bound := LeavesOf(q.atoms);
    BodyVarsUntaken(nm, facts);
    LoweringIsSingleAssignment(nm, cfg, sts, bound, q.next);
    SingleAssignmentFree(bound, LowerStmts(nm, cfg, sts, bound, q.next).value.actions);
  }

  lemma {:induction false} BoundByFacts(nm: Names, facts: seq<Fact>, v: Leaf)
    requires Older(nm, Var(v), 0)
    ensures v in LeavesOf(FactsToQuery(nm, facts, 0).atoms) <==> FactsBind(nm, facts, v)
  {
    BodyBinds(nm, facts, 0, v);
  }

  // Fails on a misuse of a name in the first statement that has one, and only then; else exactly on an
  // ungrounded body. Otherwise the result is canonical, free of duplicates and faithful.
  method CompileRule(nm: Names, cfg: Config, facts: seq<Fact>, sts: seq<Stmt>) returns (failed: Option<Failure>, r: Rule)
    requires Distinct(nm) && UserFacts(nm, facts) && UserStmts(nm, cfg, sts)
    ensures AllWellShaped(FactsToQuery(nm, facts, 0).atoms)
    ensures failed.None? && SortedFacts(facts) ==> WellSorted(r.body)
    ensures failed.Some? && failed.value.Type? ==> exists i :: FirstMisused(nm, facts, sts, i, failed.value.error)
    ensures (exists i, e :: 0 <= i < |sts| && Misused(nm, facts, sts, i, e)) ==> failed.Some? && failed.value.Type?
    ensures failed.Some? && failed.value.Type? ==>
      FirstError(nm, cfg, sts, LeavesOf(FactsToQuery(nm, facts, 0).atoms)) == Some(failed.value.error)
    ensures !(failed.Some? && failed.value.Type?) ==> (failed.None? <==> Grounded(FactsToQuery(nm, facts, 0).atoms))
    ensures failed.None? ==>
      (&& ToCoreRule(nm, cfg, facts, sts).Ok? && Preserves(ToCoreRule(nm, cfg, facts, sts).value, r)
       && Calls(r.body) && NoDuplicates(r.body) && HeadBound(r) && NoSelfUse(r.head))
  {
    var q := FactsToQuery(nm, facts, 0);
    var bound := LeavesOf(q.atoms);
    r := Rule(q.atoms, []);
    FactsShape(nm, facts, 0);
    if SortedFacts(facts) { FactsSorted(nm, facts, 0); }
    LoweringReportsFirstError(nm, cfg, sts, bound, bound, q.next);
    forall v | Older(nm, Var(v), 0) ensures v in bound <==> FactsBind(nm, facts, v) { BoundByFacts(nm, facts, v); }
    ghost var i := ErrorsAreMisuses(nm, cfg, facts, sts, bound);
    var ctx := new CoreActionContext(nm, cfg, bound, q.next);
    var done := ctx.ToCoreActions(sts);
    if done.Err? { return Some(Type(done.error)), r; }
    var core := Rule(q.atoms, ctx.actions);
    var ok;
    ok, r := Compile(core);
    if !ok { return Some(Ungrounded), r; }
    CoreRuleIsBound(nm, cfg, facts, sts);
    assert core == ToCoreRule(nm, cfg, facts, sts).value;
    failed := None;
  }
}
