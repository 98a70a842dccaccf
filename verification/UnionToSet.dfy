// Lowered statements on machines on which a set of a constructor's row stands for a call and a union.
module UnionToSetModel {
  import opened CoreIR
  import opened Options
  import opened RuleModel
  import opened FlattenModel
  import opened LoweringModel

  // How the states and values of two runs correspond. A world records which values have been
  // matched so far; it only grows.
  datatype Link<!S, !W> = Link(
    states: (W, S, S) -> bool,
    values: (W, Value, Value) -> bool,
    grows: (W, W) -> bool)

  ghost predicate AllLinked<S, W>(link: Link<S, W>, w: W, vs: seq<Value>, vs': seq<Value>) {
    |vs| == |vs'| && forall i :: 0 <= i < |vs| ==> link.values(w, vs[i], vs'[i])
  }

  ghost predicate ReplyAt<S, W>(link: Link<S, W>, w: W, w': W, r: Reply<S>, r': Reply<S>) {
    && link.grows(w, w') && link.states(w', r.state, r'.state)
    && (r.value.Some? <==> r'.value.Some?)
    && (r.value.Some? && r'.value.Some? ==> link.values(w', r.value.value, r'.value.value))
  }

  ghost predicate RepliesLinked<S, W(!new)>(link: Link<S, W>, w: W, r: Reply<S>, r': Reply<S>) {
    exists w' :: ReplyAt(link, w, w', r, r')
  }

  ghost predicate EffectsLinked<S, W>(link: Link<S, W>, w: W, f: Effect, f': Effect) {
    match f
    case SetRow(h, ins, outs) => f'.SetRow? && f'.head == h && AllLinked(link, w, ins, f'.ins) && AllLinked(link, w, outs, f'.outs)
    case ChangeRow(d, h, ins) => f'.ChangeRow? && f'.isDelete == d && f'.head == h && AllLinked(link, w, ins, f'.ins)
    case Unify(a, b) => f'.Unify? && link.values(w, a, f'.a) && link.values(w, b, f'.b)
    case Abort(_) => f' == f
  }

  // What a union of a value and a constructor call does, in the order in which they are written.
  function CallThenUnify<S>(m: Machine<S>, s: S, h: Head, ins: seq<Value>, v: Value, callFirst: bool): Reply<S> {
    var r := m.call(s, h, ins);
    if r.value.None? then r
    else m.effect(r.state, if callFirst then Unify(r.value.value, v) else Unify(v, r.value.value))
  }

  // ---------------------------------------------------------------- laws

  ghost predicate WorldLaw<S(!new), W(!new)>(link: Link<S, W>) {
    && (forall w :: link.grows(w, w))
    && (forall u, v, w :: link.grows(u, v) && link.grows(v, w) ==> link.grows(u, w))
    && (forall v, w, a, b :: link.grows(v, w) && link.values(v, a, b) ==> link.values(w, a, b))
    && (forall w, l :: link.values(w, Base(l), Base(l)))
  }

  ghost predicate CallLaw<S(!new), W(!new)>(m: Machine<S>, link: Link<S, W>) {
    forall w, s, s', h, ins, ins' :: link.states(w, s, s') && AllLinked(link, w, ins, ins') ==>
      RepliesLinked(link, w, m.call(s, h, ins), m.call(s', h, ins'))
  }

  ghost predicate EffectLaw<S(!new), W(!new)>(m: Machine<S>, link: Link<S, W>) {
    forall w, s, s', f, f' :: link.states(w, s, s') && EffectsLinked(link, w, f, f') ==>
      RepliesLinked(link, w, m.effect(s, f), m.effect(s', f'))
  }

  // A set of a constructor's row does what the call and the union do.
  ghost predicate SetLaw<S(!new), W(!new)>(m: Machine<S>, link: Link<S, W>, constructors: set<Head>) {
    forall w, s, s', h, ins, ins', v, v', first ::
      h in constructors && link.states(w, s, s') && AllLinked(link, w, ins, ins') && link.values(w, v, v') ==>
      RepliesLinked(link, w, CallThenUnify(m, s, h, ins, v, first), m.effect(s', SetRow(h, ins', [v'])))
  }

  ghost predicate Laws<S(!new), W(!new)>(m: Machine<S>, link: Link<S, W>, cfg: Config) {
    && WorldLaw(link) && CallLaw(m, link) && EffectLaw(m, link)
    && (cfg.unionToSet ==> SetLaw(m, link, cfg.constructors))
  }

  // ---------------------------------------------------------------- linked runs

  ghost predicate EnvsLinked<S, W>(link: Link<S, W>, w: W, x: Env, y: Env) {
    x.Keys == y.Keys && forall t :: t in x ==> link.values(w, x[t], y[t])
  }

  ghost predicate GlobalsLinked<S, W>(link: Link<S, W>, w: W, g: map<Leaf, Value>) {
    forall v :: v in g ==> link.values(w, g[v], g[v])
  }

  ghost predicate EvaluatedAt<S, W>(link: Link<S, W>, w: W, w': W, r: Evaluated<S>, r': Evaluated<S>) {
    && link.grows(w, w') && link.states(w', r.state, r'.state)
    && (r.values.Some? <==> r'.values.Some?)
    && (r.values.Some? && r'.values.Some? ==> AllLinked(link, w', r.values.value, r'.values.value))
  }

  ghost predicate OutcomeAt<S, W>(link: Link<S, W>, w: W, w': W, o: Outcome<S>, o': Outcome<S>) {
    && link.grows(w, w') && link.states(w', o.state, o'.state)
    && (o.Running? <==> o'.Running?)
    && (o.Running? && o'.Running? ==> EnvsLinked(link, w', o.env, o'.env))
  }

  lemma {:induction false} GrowAll<S(!new), W(!new)>(link: Link<S, W>, w: W, w': W, vs: seq<Value>, vs': seq<Value>)
    requires WorldLaw(link) && link.grows(w, w') && AllLinked(link, w, vs, vs')
    ensures AllLinked(link, w', vs, vs')
  {}

  lemma {:induction false} GrowEnvs<S(!new), W(!new)>(link: Link<S, W>, w: W, w': W, x: Env, y: Env)
    requires WorldLaw(link) && link.grows(w, w') && EnvsLinked(link, w, x, y)
    ensures EnvsLinked(link, w', x, y)
  {}

  lemma {:induction false} GrowGlobals<S(!new), W(!new)>(link: Link<S, W>, w: W, w': W, g: map<Leaf, Value>)
    requires WorldLaw(link) && link.grows(w, w') && GlobalsLinked(link, w, g)
    ensures GlobalsLinked(link, w', g)
  {}

  lemma {:induction false} LinkedTerm<S(!new), W(!new)>(link: Link<S, W>, w: W, g: map<Leaf, Value>, x: Env, y: Env, t: Term)
    requires WorldLaw(link) && EnvsLinked(link, w, x, y) && GlobalsLinked(link, w, g)
    ensures link.values(w, TermValue(g, x, t), TermValue(g, y, t))
  {}

  lemma {:induction false} LinkedExpr<S(!new), W(!new)>(m: Machine<S>, link: Link<S, W>, nm: Names, g: map<Leaf, Value>, w: W,
                                                        s: S, s': S, x: Env, y: Env, e: Expr) returns (w': W)
    requires WorldLaw(link) && CallLaw(m, link)
    requires link.states(w, s, s') && EnvsLinked(link, w, x, y) && GlobalsLinked(link, w, g)
    ensures ReplyAt(link, w, w', RunExpr(m, nm, g, s, x, e), RunExpr(m, nm, g, s', y, e))
    decreases e, 0
  {
    match e
    case LitExpr(_) => w' := w;
    case VarExpr(v) =>
      LinkedTerm(link, w, g, x, y, TermFor(nm, v));
      w' := w;
    case CallExpr(h, args) =>
      var u := LinkedExprs(m, link, nm, g, w, s, s', x, y, args);
      var r, r' := RunExprs(m, nm, g, s, x, args), RunExprs(m, nm, g, s', y, args);
      w' := u;
      if r.values.Some? {
        assert RepliesLinked(link, u, m.call(r.state, h, r.values.value), m.call(r'.state, h, r'.values.value));
        w' :| ReplyAt(link, u, w', m.call(r.state, h, r.values.value), m.call(r'.state, h, r'.values.value));
      }
  }

  lemma {:induction false} LinkedExprs<S(!new), W(!new)>(m: Machine<S>, link: Link<S, W>, nm: Names, g: map<Leaf, Value>, w: W,
                                                         s: S, s': S, x: Env, y: Env, es: seq<Expr>) returns (w': W)
    requires WorldLaw(link) && CallLaw(m, link)
    requires link.states(w, s, s') && EnvsLinked(link, w, x, y) && GlobalsLinked(link, w, g)
    ensures EvaluatedAt(link, w, w', RunExprs(m, nm, g, s, x, es), RunExprs(m, nm, g, s', y, es))
    decreases es, 1
  {
    w' := w;
    if es != [] {
      var u := LinkedExpr(m, link, nm, g, w, s, s', x, y, es[0]);
      var v, v' := RunExpr(m, nm, g, s, x, es[0]), RunExpr(m, nm, g, s', y, es[0]);
      w' := u;
      if v.value.Some? {
        GrowEnvs(link, w, u, x, y);
        GrowGlobals(link, w, u, g);
        w' := LinkedExprs(m, link, nm, g, u, v.state, v'.state, x, y, es[1..]);
      }
    }
  }

  lemma {:induction false} LinkedDo<S(!new), W(!new)>(m: Machine<S>, link: Link<S, W>, w: W, s: S, s': S, x: Env, y: Env, f: Effect, f': Effect)
    returns (w': W)
    requires WorldLaw(link) && EffectLaw(m, link) && link.states(w, s, s') && EnvsLinked(link, w, x, y) && EffectsLinked(link, w, f, f')
    ensures OutcomeAt(link, w, w', Do(m, s, x, f), Do(m, s', y, f'))
  {
    assert RepliesLinked(link, w, m.effect(s, f), m.effect(s', f'));
    w' :| ReplyAt(link, w, w', m.effect(s, f), m.effect(s', f'));
    GrowEnvs(link, w, w', x, y);
  }

  lemma {:induction false} LinkedSetRow<S(!new), W(!new)>(m: Machine<S>, link: Link<S, W>, nm: Names, g: map<Leaf, Value>, w: W,
                                                          s: S, s': S, x: Env, y: Env, h: Head, args: seq<Expr>, cols: seq<Expr>)
    returns (w': W)
    requires WorldLaw(link) && CallLaw(m, link) && EffectLaw(m, link)
    requires link.states(w, s, s') && EnvsLinked(link, w, x, y) && GlobalsLinked(link, w, g)
    ensures OutcomeAt(link, w, w', RunSet(m, nm, g, s, x, h, args, cols), RunSet(m, nm, g, s', y, h, args, cols))
  {
    var u := LinkedExprs(m, link, nm, g, w, s, s', x, y, args);
    var ins, ins' := RunExprs(m, nm, g, s, x, args), RunExprs(m, nm, g, s', y, args);
    w' := u;
    if ins.values.Some? {
      GrowEnvs(link, w, u, x, y);
      GrowGlobals(link, w, u, g);
      var v := LinkedExprs(m, link, nm, g, u, ins.state, ins'.state, x, y, cols);
      var outs, outs' := RunExprs(m, nm, g, ins.state, x, cols), RunExprs(m, nm, g, ins'.state, y, cols);
      w' := v;
      if outs.values.Some? {
        GrowEnvs(link, u, v, x, y);
        GrowAll(link, u, v, ins.values.value, ins'.values.value);
        w' := LinkedDo(m, link, v, outs.state, outs'.state, x, y,
                       SetRow(h, ins.values.value, outs.values.value), SetRow(h, ins'.values.value, outs'.values.value));
      }
    }
  }

  // The union as written against the set it is rewritten to.
  lemma {:induction false} LinkedRewriting<S(!new), W(!new)>(m: Machine<S>, link: Link<S, W>, nm: Names, cfg: Config, g: map<Leaf, Value>, w: W,
                                                             s: S, s': S, x: Env, y: Env, a: Expr, b: Expr) returns (w': W)
    requires Laws(m, link, cfg) && BecomesSet(cfg, a, b)
    requires link.states(w, s, s') && EnvsLinked(link, w, x, y) && GlobalsLinked(link, w, g)
    ensures OutcomeAt(link, w, w', RunStmt(m, nm, g, s, x, SUnion(a, b)), RunRewritten(m, nm, cfg, g, s', y, SUnion(a, b)))
  {
    var f, u := if a.CallExpr? then a else b, if a.CallExpr? then b else a;
    var v := LinkedExprs(m, link, nm, g, w, s, s', x, y, f.args);
    var ins, ins' := RunExprs(m, nm, g, s, x, f.args), RunExprs(m, nm, g, s', y, f.args);
    w' := v;
    if ins.values.Some? {
      GrowEnvs(link, w, v, x, y);
      GrowGlobals(link, w, v, g);
      LinkedTerm(link, v, g, x, y, TermFor(nm, u.v));
      var c, c' := TermValue(g, x, TermFor(nm, u.v)), TermValue(g, y, TermFor(nm, u.v));
      RunExprsOne(m, nm, g, ins'.state, y, u);
      var r := CallThenUnify(m, ins.state, f.head, ins.values.value, c, a.CallExpr?);
      var r' := m.effect(ins'.state, SetRow(f.head, ins'.values.value, [c']));
      assert RepliesLinked(link, v, r, r');
      w' :| ReplyAt(link, v, w', r, r');
      GrowEnvs(link, v, w', x, y);
    }
  }

  lemma {:induction false} LinkedStmt<S(!new), W(!new)>(m: Machine<S>, link: Link<S, W>, nm: Names, cfg: Config, g: map<Leaf, Value>, w: W,
                                                        s: S, s': S, x: Env, y: Env, st: Stmt) returns (w': W)
    requires Laws(m, link, cfg)
    requires link.states(w, s, s') && EnvsLinked(link, w, x, y) && GlobalsLinked(link, w, g)
    ensures OutcomeAt(link, w, w', RunStmt(m, nm, g, s, x, st), RunRewritten(m, nm, cfg, g, s', y, st))
  {
    match st
    case SLet(v, e) =>
      w' := LinkedExpr(m, link, nm, g, w, s, s', x, y, e);
      GrowEnvs(link, w, w', x, y);
    case SSet(h, args, value) => w' := LinkedSetRow(m, link, nm, g, w, s, s', x, y, h, args, Columns(value));
    case SChange(d, h, args) =>
      var u := LinkedExprs(m, link, nm, g, w, s, s', x, y, args);
      var r, r' := RunExprs(m, nm, g, s, x, args), RunExprs(m, nm, g, s', y, args);
      w' := u;
      if r.values.Some? {
        GrowEnvs(link, w, u, x, y);
        w' := LinkedDo(m, link, u, r.state, r'.state, x, y, ChangeRow(d, h, r.values.value), ChangeRow(d, h, r'.values.value));
      }
    case SUnion(a, b) =>
      if BecomesSet(cfg, a, b) {
        w' := LinkedRewriting(m, link, nm, cfg, g, w, s, s', x, y, a, b);
      } else {
        w' := LinkedUnion(m, link, nm, g, w, s, s', x, y, a, b);
      }
    case SPanic(msg) => w' := LinkedDo(m, link, w, s, s', x, y, Abort(msg), Abort(msg));
    case SExpr(e) =>
      w' := LinkedExpr(m, link, nm, g, w, s, s', x, y, e);
      GrowEnvs(link, w, w', x, y);
  }

  lemma {:induction false} LinkedUnion<S(!new), W(!new)>(m: Machine<S>, link: Link<S, W>, nm: Names, g: map<Leaf, Value>, w: W,
                                                         s: S, s': S, x: Env, y: Env, a: Expr, b: Expr) returns (w': W)
    requires WorldLaw(link) && CallLaw(m, link) && EffectLaw(m, link)
    requires link.states(w, s, s') && EnvsLinked(link, w, x, y) && GlobalsLinked(link, w, g)
    ensures OutcomeAt(link, w, w', RunStmt(m, nm, g, s, x, SUnion(a, b)), RunStmt(m, nm, g, s', y, SUnion(a, b)))
  {
    var u := LinkedExpr(m, link, nm, g, w, s, s', x, y, a);
    var r, r' := RunExpr(m, nm, g, s, x, a), RunExpr(m, nm, g, s', y, a);
    w' := u;
    if r.value.Some? {
      GrowEnvs(link, w, u, x, y);
      GrowGlobals(link, w, u, g);
      var v := LinkedExpr(m, link, nm, g, u, r.state, r'.state, x, y, b);
      var q, q' := RunExpr(m, nm, g, r.state, x, b), RunExpr(m, nm, g, r'.state, y, b);
      w' := v;
      if q.value.Some? {
        GrowEnvs(link, u, v, x, y);
        w' := LinkedDo(m, link, v, q.state, q'.state, x, y, Unify(r.value.value, q.value.value), Unify(r'.value.value, q'.value.value));
      }
    }
  }

  lemma {:induction false} LinkedStmts<S(!new), W(!new)>(m: Machine<S>, link: Link<S, W>, nm: Names, cfg: Config, g: map<Leaf, Value>, w: W,
                                                         s: S, s': S, x: Env, y: Env, sts: seq<Stmt>) returns (w': W)
    requires Laws(m, link, cfg)
    requires link.states(w, s, s') && EnvsLinked(link, w, x, y) && GlobalsLinked(link, w, g)
    ensures OutcomeAt(link, w, w', RunStmts(m, nm, g, s, x, sts), RunAllRewritten(m, nm, cfg, g, s', y, sts))
    decreases |sts|
  {
    w' := w;
    if sts != [] {
      var u := LinkedStmt(m, link, nm, cfg, g, w, s, s', x, y, sts[0]);
      var o, o' := RunStmt(m, nm, g, s, x, sts[0]), RunRewritten(m, nm, cfg, g, s', y, sts[0]);
      w' := u;
      if o.Running? {
        GrowGlobals(link, w, u, g);
        w' := LinkedStmts(m, link, nm, cfg, g, u, o.state, o'.state, o.env, o'.env, sts[1..]);
      }
    }
  }

  // ---------------------------------------------------------------- lowering up to a link

  // Linked databases, stopped or not alike.
  ghost predicate LinkedEffect<S, W(!new)>(link: Link<S, W>, w: W, o: Outcome<S>, o': Outcome<S>) {
    exists w' :: link.grows(w, w') && link.states(w', o.state, o'.state) && (o.Running? <==> o'.Running?)
  }

  // The two runs start from linked databases, with values that are linked to themselves.
  ghost predicate StartsAt<S, W>(link: Link<S, W>, w: W, g: map<Leaf, Value>, s: S, s': S, x: Env) {
    link.states(w, s, s') && EnvsLinked(link, w, x, x) && GlobalsLinked(link, w, g)
  }

  // On a lawful machine the lowered actions do what the statements say, up to the link, with unions
  // turned into sets or not.
  lemma {:induction false} LoweringIsFaithfulUpTo<S(!new), W(!new)>(m: Machine<S>, link: Link<S, W>, w: W, nm: Names, cfg: Config,
                                                                    g: map<Leaf, Value>, s: S, s': S, x: Env, y: Env,
                                                                    sts: seq<Stmt>, bound: set<Leaf>, n: nat)
    requires Distinct(nm) && UserStmts(nm, cfg, sts) && LowerStmts(nm, cfg, sts, bound, n).Ok? && AgreeBelow(nm, x, y, 0)
    requires Laws(m, link, cfg) && StartsAt(link, w, g, s, s', x)
    ensures LinkedEffect(link, w, RunStmts(m, nm, g, s, x, sts), Exec(m, g, s', y, LowerStmts(nm, cfg, sts, bound, n).value.actions))
  {
    LoweringRuns(m, nm, cfg, g, s', x, y, sts, bound, n);
    var w' := LinkedStmts(m, link, nm, cfg, g, w, s, s', x, x, sts);
    assert link.grows(w, w');
  }

  // Equality is a lawful link of any machine when unions stay unions.
  ghost function Same<S>(): Link<S, ()> {
    Link((_, s, s') => s == s', (_, a, b) => a == b, (_, _) => true)
  }

  lemma {:induction false} SameIsLawful<S(!new)>(m: Machine<S>, cfg: Config)
    requires !cfg.unionToSet
    ensures Laws(m, Same(), cfg)
  {
    forall w: (), s, s', h, ins, ins' | Same<S>().states(w, s, s') && AllLinked(Same<S>(), w, ins, ins')
      ensures RepliesLinked(Same(), w, m.call(s, h, ins), m.call(s', h, ins'))
    {
      assert ins == ins';
      assert ReplyAt(Same(), w, w, m.call(s, h, ins), m.call(s', h, ins'));
    }
    forall w: (), s, s', f, f' | Same<S>().states(w, s, s') && EffectsLinked(Same<S>(), w, f, f')
      ensures RepliesLinked(Same(), w, m.effect(s, f), m.effect(s', f'))
    {
      assert f == f';
      assert ReplyAt(Same(), w, w, m.effect(s, f), m.effect(s', f'));
    }
  }
}
