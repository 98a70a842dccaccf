// Surface actions lowered to core actions, in which every call is named.
module LoweringModel {
  import opened CoreIR
  import opened Options
  import opened GroundedModel
  import opened RuleModel
  import opened FlattenModel

  // The value of a `set`: one column, or the columns of a `values` tuple.
  datatype SetValue = Single(e: Expr) | Values(es: seq<Expr>)

  datatype Stmt =
    | SLet(v: Leaf, e: Expr)
    | SSet(head: Head, args: seq<Expr>, value: SetValue)
    | SChange(isDelete: bool, head: Head, args: seq<Expr>)
    | SUnion(a: Expr, b: Expr)
    | SPanic(message: string)
    | SExpr(e: Expr)

  datatype Error = Unbound(name: string) | AlreadyDefined(name: string)
  datatype Result<T> = Ok(value: T) | Err(error: Error)

  // Which heads are constructors, and whether a union with one may become a set.
  datatype Config = Config(constructors: set<Head>, unionToSet: bool)

  // The actions emitted, the terms standing for the expressions, and the state left behind.
  datatype Lowered = Lowered(actions: seq<Action>, terms: seq<Term>, bound: set<Leaf>, next: nat)

  // ---------------------------------------------------------------- lowering

  // Unlike in a query, the name for a call is taken after those for its arguments.
  function LowerExpr(nm: Names, e: Expr, bound: set<Leaf>, n: nat): (r: Result<Lowered>)
    ensures r.Ok? ==> |r.value.terms| == 1
    decreases e, 0
  {
    match e
    case LitExpr(l) => Ok(Lowered([], [Lit(l)], bound, n))
    case VarExpr(v) =>
      if v in bound || v.name in nm.globals then Ok(Lowered([], [TermFor(nm, v)], bound, n))
      else Err(Unbound(v.name))
    case CallExpr(h, args) =>
      var q := LowerExprs(nm, args, bound, n);
      if q.Err? then q
      else
        var x := q.value;
        var out := Fresh(nm, x.next, h);
        Ok(Lowered(x.actions + [Let(out, h, x.terms)], [Var(out)], x.bound + {out}, x.next + 1))
  }

  function LowerExprs(nm: Names, es: seq<Expr>, bound: set<Leaf>, n: nat): (r: Result<Lowered>)
    ensures r.Ok? ==> |r.value.terms| == |es|
    decreases es, 1
  {
    if es == [] then Ok(Lowered([], [], bound, n))
    else
      var q := LowerExpr(nm, es[0], bound, n);
      if q.Err? then q else Prefixed(q.value, LowerExprs(nm, es[1..], q.value.bound, q.value.next))
  }

  function Prefixed(x: Lowered, r: Result<Lowered>): Result<Lowered> {
    if r.Err? then r
    else Ok(Lowered(x.actions + r.value.actions, x.terms + r.value.terms, r.value.bound, r.value.next))
  }

  // A union of a variable and a constructor call may be lowered to a set.
  predicate BecomesSet(cfg: Config, a: Expr, b: Expr) {
    && cfg.unionToSet
    && ((a.VarExpr? && b.CallExpr? && b.head in cfg.constructors) || (a.CallExpr? && b.VarExpr? && a.head in cfg.constructors))
  }

  function Columns(value: SetValue): seq<Expr> {
    match value case Single(e) => [e] case Values(es) => es
  }

  // The expressions a statement evaluates, in order.
  function Operands(cfg: Config, st: Stmt): seq<Expr> {
    match st
    case SLet(_, e) => [e]
    case SSet(_, args, value) => args + Columns(value)
    case SChange(_, _, args) => args
    case SUnion(a, b) =>
      if !BecomesSet(cfg, a, b) then [a, b] else if a.CallExpr? then a.args + [b] else b.args + [a]
    case SPanic(_) => []
    case SExpr(e) => [e]
  }

  // The action emitted once the operands are named by terms.
  function Emit(cfg: Config, st: Stmt, ts: seq<Term>): seq<Action>
    requires |ts| == |Operands(cfg, st)|
  {
    match st
    case SLet(v, _) => [LetTerm(v, ts[0])]
    case SSet(h, args, _) => [Set(h, ts[..|args|], ts[|args|..])]
    case SChange(d, h, _) => [Change(d, h, ts)]
    case SUnion(a, b) =>
      if !BecomesSet(cfg, a, b) then [Union(ts[0], ts[1])]
      else
        var f := if a.CallExpr? then a else b;
        [Set(f.head, ts[..|f.args|], [ts[|f.args|]])]
    case SPanic(msg) => [Panic(msg)]
    case SExpr(_) => []
  }

  // Names the statement takes from the supply beyond those of its operands.
  function ExtraNames(cfg: Config, st: Stmt): nat {
    match st
    case SSet(_, _, value) => if value.Values? then 2 else 1
    case SChange(_, _, _) => 1
    case SUnion(a, b) => if BecomesSet(cfg, a, b) then 1 else 0
    case _ => 0
  }

  function Defines(st: Stmt): set<Leaf> {
    if st.SLet? then {st.v} else {}
  }

  function LowerStmt(nm: Names, cfg: Config, st: Stmt, bound: set<Leaf>, n: nat): Result<Lowered> {
    if st.SLet? && st.v in bound then Err(AlreadyDefined(st.v.name))
    else
      var q := LowerExprs(nm, Operands(cfg, st), bound, n);
      if q.Err? then q
      else
        var x := q.value;
        Ok(Lowered(x.actions + Emit(cfg, st, x.terms), [], x.bound + Defines(st), x.next + ExtraNames(cfg, st)))
  }

  function LowerStmts(nm: Names, cfg: Config, sts: seq<Stmt>, bound: set<Leaf>, n: nat): Result<Lowered> {
    if sts == [] then Ok(Lowered([], [], bound, n))
    else
      var q := LowerStmt(nm, cfg, sts[0], bound, n);
      if q.Err? then q else Prefixed(q.value, LowerStmts(nm, cfg, sts[1..], q.value.bound, q.value.next))
  }

  ghost predicate UserStmt(nm: Names, cfg: Config, st: Stmt) {
    UserExprs(nm, Operands(cfg, st)) && (st.SLet? ==> Older(nm, Var(st.v), 0))
  }

  ghost predicate UserStmts(nm: Names, cfg: Config, sts: seq<Stmt>) {
    forall i :: 0 <= i < |sts| ==> UserStmt(nm, cfg, sts[i])
  }

  // ---------------------------------------------------------------- what actions do

  datatype Effect =
    | SetRow(head: Head, ins: seq<Value>, outs: seq<Value>)
    | ChangeRow(isDelete: bool, head: Head, ins: seq<Value>)
    | Unify(a: Value, b: Value)
    | Abort(message: string)

  // A call may change the database, as a constructor's does; no value means that it failed.
  datatype Reply<S> = Reply(state: S, value: Option<Value>)

  datatype Machine<!S> = Machine(call: (S, Head, seq<Value>) -> Reply<S>, effect: (S, Effect) -> Reply<S>)

  datatype Outcome<S> = Running(state: S, env: Env) | Halted(state: S)

  function Do<S>(m: Machine<S>, s: S, env: Env, f: Effect): Outcome<S> {
    var r := m.effect(s, f);
    if f.Abort? || r.value.None? then Halted(r.state) else Running(r.state, env)
  }

  function Perform<S>(m: Machine<S>, g: map<Leaf, Value>, s: S, env: Env, a: Action): Outcome<S> {
    match a
    case Let(v, h, args) =>
      var r := m.call(s, h, TermValues(g, env, args));
      if r.value.None? then Halted(r.state) else Running(r.state, env[Var(v) := r.value.value])
    case LetTerm(v, t) => Running(s, env[Var(v) := TermValue(g, env, t)])
    case Set(h, args, vals) => Do(m, s, env, SetRow(h, TermValues(g, env, args), TermValues(g, env, vals)))
    case Change(d, h, args) => Do(m, s, env, ChangeRow(d, h, TermValues(g, env, args)))
    case Union(a, b) => Do(m, s, env, Unify(TermValue(g, env, a), TermValue(g, env, b)))
    case Panic(msg) => Do(m, s, env, Abort(msg))
  }

  function Exec<S>(m: Machine<S>, g: map<Leaf, Value>, s: S, env: Env, acts: seq<Action>): Outcome<S>
    decreases |acts|
  {
    if acts == [] then Running(s, env)
    else
      var o := Perform(m, g, s, env, acts[0]);
      if o.Halted? then o else Exec(m, g, o.state, o.env, acts[1..])
  }

  lemma {:induction false} ExecConcat<S>(m: Machine<S>, g: map<Leaf, Value>, s: S, env: Env, a: seq<Action>, b: seq<Action>)
    ensures var o := Exec(m, g, s, env, a);
      Exec(m, g, s, env, a + b) == if o.Halted? then o else Exec(m, g, o.state, o.env, b)
    decreases |a|
  {
    if a == [] {
      assert a + b == b;
    } else {
      assert (a + b)[1..] == a[1..] + b;
      var o := Perform(m, g, s, env, a[0]);
      if o.Running? { ExecConcat(m, g, o.state, o.env, a[1..], b); }
    }
  }

  lemma {:induction false} ExecOne<S>(m: Machine<S>, g: map<Leaf, Value>, s: S, env: Env, a: Action)
    ensures Exec(m, g, s, env, [a]) == Perform(m, g, s, env, a)
  {
    assert [a][1..] == [];
  }

  // ---------------------------------------------------------------- direct meaning

  datatype Evaluated<S> = Evaluated(state: S, values: Option<seq<Value>>)

  // Arguments from left to right, then the call.
  function RunExpr<S>(m: Machine<S>, nm: Names, g: map<Leaf, Value>, s: S, env: Env, e: Expr): Reply<S>
    decreases e, 0
  {
    match e
    case LitExpr(l) => Reply(s, Some(Base(l)))
    case VarExpr(v) => Reply(s, Some(VarValue(nm, g, env, v)))
    case CallExpr(h, args) =>
      var r := RunExprs(m, nm, g, s, env, args);
      if r.values.None? then Reply(r.state, None) else m.call(r.state, h, r.values.value)
  }

  function RunExprs<S>(m: Machine<S>, nm: Names, g: map<Leaf, Value>, s: S, env: Env, es: seq<Expr>): (r: Evaluated<S>)
    ensures r.values.Some? ==> |r.values.value| == |es|
    decreases es, 1
  {
    if es == [] then Evaluated(s, Some([]))
    else
      var v := RunExpr(m, nm, g, s, env, es[0]);
      if v.value.None? then Evaluated(v.state, None)
      else
        var r := RunExprs(m, nm, g, v.state, env, es[1..]);
        if r.values.None? then r else Evaluated(r.state, Some([v.value.value] + r.values.value))
  }

  // A set of evaluated arguments to evaluated columns.
  function RunSet<S>(m: Machine<S>, nm: Names, g: map<Leaf, Value>, s: S, env: Env, h: Head, args: seq<Expr>, cols: seq<Expr>): Outcome<S> {
    var ins := RunExprs(m, nm, g, s, env, args);
    if ins.values.None? then Halted(ins.state)
    else
      var outs := RunExprs(m, nm, g, ins.state, env, cols);
      if outs.values.None? then Halted(outs.state)
      else Do(m, outs.state, env, SetRow(h, ins.values.value, outs.values.value))
  }

  // A union evaluates both sides, whatever lowering will make of it.
  function RunStmt<S>(m: Machine<S>, nm: Names, g: map<Leaf, Value>, s: S, env: Env, st: Stmt): Outcome<S> {
    match st
    case SLet(v, e) =>
      var r := RunExpr(m, nm, g, s, env, e);
      if r.value.None? then Halted(r.state) else Running(r.state, env[Var(v) := r.value.value])
    case SSet(h, args, Single(e)) => RunSet(m, nm, g, s, env, h, args, [e])
    case SSet(h, args, Values(es)) => RunSet(m, nm, g, s, env, h, args, es)
    case SChange(d, h, args) =>
      var r := RunExprs(m, nm, g, s, env, args);
      if r.values.None? then Halted(r.state) else Do(m, r.state, env, ChangeRow(d, h, r.values.value))
    case SUnion(a, b) =>
      var x := RunExpr(m, nm, g, s, env, a);
      if x.value.None? then Halted(x.state)
      else
        var y := RunExpr(m, nm, g, x.state, env, b);
        if y.value.None? then Halted(y.state) else Do(m, y.state, env, Unify(x.value.value, y.value.value))
    case SPanic(msg) => Do(m, s, env, Abort(msg))
    case SExpr(e) =>
      var r := RunExpr(m, nm, g, s, env, e);
      if r.value.None? then Halted(r.state) else Running(r.state, env)
  }

  function RunStmts<S>(m: Machine<S>, nm: Names, g: map<Leaf, Value>, s: S, env: Env, sts: seq<Stmt>): Outcome<S>
    decreases |sts|
  {
    if sts == [] then Running(s, env)
    else
      var o := RunStmt(m, nm, g, s, env, sts[0]);
      if o.Halted? then o else RunStmts(m, nm, g, o.state, o.env, sts[1..])
  }

  // The same with some unions turned into sets, as the configuration says.
  function RunRewritten<S>(m: Machine<S>, nm: Names, cfg: Config, g: map<Leaf, Value>, s: S, env: Env, st: Stmt): Outcome<S> {
    if !(st.SUnion? && BecomesSet(cfg, st.a, st.b)) then RunStmt(m, nm, g, s, env, st)
    else if st.a.CallExpr? then RunSet(m, nm, g, s, env, st.a.head, st.a.args, [st.b])
    else RunSet(m, nm, g, s, env, st.b.head, st.b.args, [st.a])
  }

  function RunAllRewritten<S>(m: Machine<S>, nm: Names, cfg: Config, g: map<Leaf, Value>, s: S, env: Env, sts: seq<Stmt>): Outcome<S>
    decreases |sts|
  {
    if sts == [] then Running(s, env)
    else
      var o := RunRewritten(m, nm, cfg, g, s, env, sts[0]);
      if o.Halted? then o else RunAllRewritten(m, nm, cfg, g, o.state, o.env, sts[1..])
  }

  // ---------------------------------------------------------------- lowering keeps the meaning

  // Names only grow, and the terms are users' names or ones taken so far.
  lemma {:induction false} LowerExprNames(nm: Names, e: Expr, bound: set<Leaf>, n: nat)
    requires Distinct(nm) && UserExpr(nm, e) && LowerExpr(nm, e, bound, n).Ok?
    ensures var x := LowerExpr(nm, e, bound, n).value; n <= x.next && AllOlder(nm, x.terms, x.next)
    decreases e, 0
  {
    if e.CallExpr? { LowerExprsNames(nm, e.args, bound, n); }
  }

  lemma {:induction false} LowerExprsNames(nm: Names, es: seq<Expr>, bound: set<Leaf>, n: nat)
    requires Distinct(nm) && UserExprs(nm, es) && LowerExprs(nm, es, bound, n).Ok?
    ensures var x := LowerExprs(nm, es, bound, n).value; n <= x.next && AllOlder(nm, x.terms, x.next)
    decreases es, 1
  {
    if es != [] {
      LowerExprNames(nm, es[0], bound, n);
      var x := LowerExpr(nm, es[0], bound, n).value;
      LowerExprsNames(nm, es[1..], x.bound, x.next);
    }
  }

  // The core actions do what evaluation does, and the terms then have the values.
  ghost predicate Simulates<S>(nm: Names, g: map<Leaf, Value>, r: Evaluated<S>, o: Outcome<S>, y: Env, n: nat, ts: seq<Term>) {
    && o.state == r.state
    && (r.values.None? <==> o.Halted?)
    && (o.Running? ==> AgreeBelow(nm, y, o.env, n) && r.values == Some(TermValues(g, o.env, ts)))
  }

  lemma {:induction false} LowerExprRuns<S>(m: Machine<S>, nm: Names, g: map<Leaf, Value>, s: S, x: Env, y: Env, e: Expr, bound: set<Leaf>, n: nat)
    requires Distinct(nm) && UserExpr(nm, e) && LowerExpr(nm, e, bound, n).Ok? && AgreeBelow(nm, x, y, 0)
    ensures var q := LowerExpr(nm, e, bound, n).value; var r := RunExpr(m, nm, g, s, x, e);
      Simulates(nm, g, Evaluated(r.state, if r.value.None? then None else Some([r.value.value])), Exec(m, g, s, y, q.actions), y, n, q.terms)
    decreases e, 0
  {
    if !e.CallExpr? {
      var t := LowerExpr(nm, e, bound, n).value.terms[0];
      AgreeValue(nm, g, x, y, 0, t);
      assert TermValues(g, y, [t]) == [TermValue(g, x, t)];
    } else {
      LowerExprsRun(m, nm, g, s, x, y, e.args, bound, n);
      LowerExprsNames(nm, e.args, bound, n);
      var q := LowerExprs(nm, e.args, bound, n).value;
      var last := Let(Fresh(nm, q.next, e.head), e.head, q.terms);
      ExecConcat(m, g, s, y, q.actions, [last]);
      var o := Exec(m, g, s, y, q.actions);
      if o.Running? {
        ExecOne(m, g, o.state, o.env, last);
        var v := m.call(o.state, e.head, TermValues(g, o.env, q.terms)).value;
        if v.Some? { NameCall(nm, g, y, o.env, n, q.next, e.head, v.value); }
      }
    }
  }

  lemma {:induction false} NameCall(nm: Names, g: map<Leaf, Value>, y: Env, env: Env, n: nat, k: nat, h: Head, v: Value)
    requires n <= k && AgreeBelow(nm, y, env, n)
    ensures var out := Var(Fresh(nm, k, h)); var env1 := env[out := v];
      AgreeBelow(nm, y, env1, n) && TermValues(g, env1, [out]) == [v]
  {
    var out := Var(Fresh(nm, k, h));
    assert TermValues(g, env[out := v], [out])[0] == v;
  }

  lemma {:induction false} LowerExprsRun<S>(m: Machine<S>, nm: Names, g: map<Leaf, Value>, s: S, x: Env, y: Env, es: seq<Expr>, bound: set<Leaf>, n: nat)
    requires Distinct(nm) && UserExprs(nm, es) && LowerExprs(nm, es, bound, n).Ok? && AgreeBelow(nm, x, y, 0)
    ensures var q := LowerExprs(nm, es, bound, n).value;
      Simulates(nm, g, RunExprs(m, nm, g, s, x, es), Exec(m, g, s, y, q.actions), y, n, q.terms)
    decreases es, 1
  {
    if es != [] {
      LowerExprRuns(m, nm, g, s, x, y, es[0], bound, n);
      LowerExprNames(nm, es[0], bound, n);
      var q := LowerExpr(nm, es[0], bound, n).value;
      var rest := LowerExprs(nm, es[1..], q.bound, q.next).value;
      var o := Exec(m, g, s, y, q.actions);
      ExecConcat(m, g, s, y, q.actions, rest.actions);
      if o.Running? {
        AgreeTrans(nm, y, o.env, o.env, n, n);
        AgreeTrans(nm, x, y, o.env, 0, 0);
        LowerExprsRun(m, nm, g, o.state, x, o.env, es[1..], q.bound, q.next);
        var o1 := Exec(m, g, o.state, o.env, rest.actions);
        if o1.Running? {
          AgreeValues(nm, g, o.env, o1.env, q.next, q.terms);
          AgreeTrans(nm, y, o.env, o1.env, n, q.next);
          assert (q.terms + rest.terms)[1..] == rest.terms;
        }
      }
    }
  }

  // Evaluating two lists one after the other is evaluating their concatenation.
  lemma {:induction false} ConsConcat(v: Value, a: seq<Value>, b: seq<Value>)
    ensures ([v] + a) + b == [v] + (a + b)
  {}

  lemma {:induction false} RunExprsConcat<S>(m: Machine<S>, nm: Names, g: map<Leaf, Value>, s: S, env: Env, a: seq<Expr>, b: seq<Expr>)
    ensures var r := RunExprs(m, nm, g, s, env, a);
      RunExprs(m, nm, g, s, env, a + b) ==
      if r.values.None? then r
      else
        var q := RunExprs(m, nm, g, r.state, env, b);
        Evaluated(q.state, if q.values.None? then None else Some(r.values.value + q.values.value))
    decreases |a|
  {
    if a == [] {
      assert a + b == b;
      var q := RunExprs(m, nm, g, s, env, b);
      if q.values.Some? { assert [] + q.values.value == q.values.value; }
    } else {
      assert (a + b)[1..] == a[1..] + b;
      var v := RunExpr(m, nm, g, s, env, a[0]);
      if v.value.Some? {
        RunExprsConcat(m, nm, g, v.state, env, a[1..], b);
        var r := RunExprs(m, nm, g, v.state, env, a[1..]);
        if r.values.Some? {
          var q := RunExprs(m, nm, g, r.state, env, b);
          if q.values.Some? { ConsConcat(v.value.value, r.values.value, q.values.value); }
        }
      }
    }
  }

  lemma {:induction false} RunExprsOne<S>(m: Machine<S>, nm: Names, g: map<Leaf, Value>, s: S, env: Env, e: Expr)
    ensures var v := RunExpr(m, nm, g, s, env, e);
      RunExprs(m, nm, g, s, env, [e]) == Evaluated(v.state, if v.value.None? then None else Some([v.value.value]))
  {
    assert [e][1..] == [];
    var v := RunExpr(m, nm, g, s, env, e);
    if v.value.Some? {
      assert RunExprs(m, nm, g, v.state, env, []) == Evaluated(v.state, Some([]));
      assert [v.value.value] + [] == [v.value.value];
    }
  }

  // What a statement does with the values of its operands.
  function Act<S>(m: Machine<S>, cfg: Config, s: S, env: Env, st: Stmt, vs: seq<Value>): Outcome<S>
    requires |vs| == |Operands(cfg, st)|
  {
    match st
    case SLet(v, _) => Running(s, env[Var(v) := vs[0]])
    case SSet(h, args, _) => Do(m, s, env, SetRow(h, vs[..|args|], vs[|args|..]))
    case SChange(d, h, _) => Do(m, s, env, ChangeRow(d, h, vs))
    case SUnion(a, b) =>
      if !BecomesSet(cfg, a, b) then Do(m, s, env, Unify(vs[0], vs[1]))
      else
        var f := if a.CallExpr? then a else b;
        Do(m, s, env, SetRow(f.head, vs[..|f.args|], [vs[|f.args|]]))
    case SPanic(msg) => Do(m, s, env, Abort(msg))
    case SExpr(_) => Running(s, env)
  }

  lemma {:induction false} RunSetByOperands<S>(m: Machine<S>, nm: Names, g: map<Leaf, Value>, s: S, env: Env, h: Head, args: seq<Expr>, cols: seq<Expr>)
    ensures var r := RunExprs(m, nm, g, s, env, args + cols);
      RunSet(m, nm, g, s, env, h, args, cols) ==
      if r.values.None? then Halted(r.state)
      else Do(m, r.state, env, SetRow(h, r.values.value[..|args|], r.values.value[|args|..]))
  {
    RunExprsConcat(m, nm, g, s, env, args, cols);
  }

  // A statement evaluates its operands in order and then acts on their values.
  lemma {:induction false} RunByOperands<S>(m: Machine<S>, nm: Names, cfg: Config, g: map<Leaf, Value>, s: S, env: Env, st: Stmt)
    ensures var r := RunExprs(m, nm, g, s, env, Operands(cfg, st));
      RunRewritten(m, nm, cfg, g, s, env, st) ==
      if r.values.None? then Halted(r.state) else Act(m, cfg, r.state, env, st, r.values.value)
  {
    match st
    case SLet(_, e) => RunExprsOne(m, nm, g, s, env, e);
    case SExpr(e) => RunExprsOne(m, nm, g, s, env, e);
    case SSet(h, args, value) => RunSetByOperands(m, nm, g, s, env, h, args, Columns(value));
    case SUnion(a, b) =>
      if !BecomesSet(cfg, a, b) {
        RunExprsConcat(m, nm, g, s, env, [a], [b]);
        assert [a] + [b] == [a, b];
        RunExprsOne(m, nm, g, s, env, a);
        RunExprsOne(m, nm, g, RunExpr(m, nm, g, s, env, a).state, env, b);
      } else {
        var f := if a.CallExpr? then a else b;
        var u := if a.CallExpr? then b else a;
        RunSetByOperands(m, nm, g, s, env, f.head, f.args, [u]);
        var r := RunExprs(m, nm, g, s, env, f.args + [u]);
        if r.values.Some? { assert r.values.value[|f.args|..] == [r.values.value[|f.args|]]; }
      }
    case _ =>
  }

  lemma {:induction false} TermValuesSplit(g: map<Leaf, Value>, env: Env, ts: seq<Term>, k: nat)
    requires k <= |ts|
    ensures TermValues(g, env, ts[..k]) == TermValues(g, env, ts)[..k]
    ensures TermValues(g, env, ts[k..]) == TermValues(g, env, ts)[k..]
  {}

  // The emitted action acts on the values of its terms.
  lemma {:induction false} SetActs<S>(m: Machine<S>, g: map<Leaf, Value>, s: S, env: Env, h: Head, ts: seq<Term>, k: nat)
    requires k <= |ts|
    ensures Exec(m, g, s, env, [Set(h, ts[..k], ts[k..])])
      == var vs := TermValues(g, env, ts); Do(m, s, env, SetRow(h, vs[..k], vs[k..]))
  {
    ExecOne(m, g, s, env, Set(h, ts[..k], ts[k..]));
    TermValuesSplit(g, env, ts, k);
  }

  lemma {:induction false} UnionActs<S>(m: Machine<S>, cfg: Config, g: map<Leaf, Value>, s: S, env: Env, st: Stmt, ts: seq<Term>)
    requires st.SUnion? && |ts| == |Operands(cfg, st)|
    ensures Exec(m, g, s, env, Emit(cfg, st, ts)) == Act(m, cfg, s, env, st, TermValues(g, env, ts))
  {
    if BecomesSet(cfg, st.a, st.b) {
      var f := if st.a.CallExpr? then st.a else st.b;
      var k := |f.args|;
      var vs := TermValues(g, env, ts);
      assert [ts[k]] == ts[k..] && [vs[k]] == vs[k..];
      SetActs(m, g, s, env, f.head, ts, k);
    } else {
      ExecOne(m, g, s, env, Union(ts[0], ts[1]));
    }
  }

  lemma {:induction false} EmitActs<S>(m: Machine<S>, cfg: Config, g: map<Leaf, Value>, s: S, env: Env, st: Stmt, ts: seq<Term>)
    requires |ts| == |Operands(cfg, st)|
    ensures Exec(m, g, s, env, Emit(cfg, st, ts)) == Act(m, cfg, s, env, st, TermValues(g, env, ts))
  {
    match st
    case SLet(v, _) => ExecOne(m, g, s, env, LetTerm(v, ts[0]));
    case SSet(h, args, _) => SetActs(m, g, s, env, h, ts, |args|);
    case SChange(d, h, _) => ExecOne(m, g, s, env, Change(d, h, ts));
    case SUnion(_, _) => UnionActs(m, cfg, g, s, env, st, ts);
    case SPanic(msg) => ExecOne(m, g, s, env, Panic(msg));
    case SExpr(_) =>
  }

  // The same database, stopped or not alike, and the same values for the user's variables.
  ghost predicate SameRun<S>(nm: Names, a: Outcome<S>, b: Outcome<S>) {
    && a.state == b.state && (a.Running? <==> b.Running?)
    && (a.Running? && b.Running? ==> AgreeBelow(nm, a.env, b.env, 0))
  }

  lemma {:induction false} LowerStmtRuns<S>(m: Machine<S>, nm: Names, cfg: Config, g: map<Leaf, Value>, s: S, x: Env, y: Env,
                                            st: Stmt, bound: set<Leaf>, n: nat)
    requires Distinct(nm) && UserStmt(nm, cfg, st) && LowerStmt(nm, cfg, st, bound, n).Ok? && AgreeBelow(nm, x, y, 0)
    ensures SameRun(nm, RunRewritten(m, nm, cfg, g, s, x, st), Exec(m, g, s, y, LowerStmt(nm, cfg, st, bound, n).value.actions))
  {
    var es := Operands(cfg, st);
    var q := LowerExprs(nm, es, bound, n).value;
    RunByOperands(m, nm, cfg, g, s, x, st);
    LowerExprsRun(m, nm, g, s, x, y, es, bound, n);
    ExecConcat(m, g, s, y, q.actions, Emit(cfg, st, q.terms));
    var o := Exec(m, g, s, y, q.actions);
    if o.Running? {
      EmitActs(m, cfg, g, o.state, o.env, st, q.terms);
      AgreeTrans(nm, y, o.env, o.env, n, n);
      AgreeTrans(nm, x, y, o.env, 0, 0);
      ActAgrees(m, nm, cfg, o.state, x, o.env, st, TermValues(g, o.env, q.terms));
    }
  }

  lemma {:induction false} ActAgrees<S>(m: Machine<S>, nm: Names, cfg: Config, s: S, x: Env, y: Env, st: Stmt, vs: seq<Value>)
    requires |vs| == |Operands(cfg, st)| && AgreeBelow(nm, x, y, 0)
    ensures SameRun(nm, Act(m, cfg, s, x, st, vs), Act(m, cfg, s, y, st, vs))
  {}

  // Running the lowered actions does to the database exactly what running the rewritten statements
  // does, and stops exactly when that stops.
  lemma {:induction false} LoweringRuns<S>(m: Machine<S>, nm: Names, cfg: Config, g: map<Leaf, Value>, s: S, x: Env, y: Env,
                                           sts: seq<Stmt>, bound: set<Leaf>, n: nat)
    requires Distinct(nm) && UserStmts(nm, cfg, sts) && LowerStmts(nm, cfg, sts, bound, n).Ok? && AgreeBelow(nm, x, y, 0)
    ensures SameRun(nm, RunAllRewritten(m, nm, cfg, g, s, x, sts), Exec(m, g, s, y, LowerStmts(nm, cfg, sts, bound, n).value.actions))
    decreases |sts|
  {
    if sts != [] {
      assert UserStmt(nm, cfg, sts[0]);
      forall i | 0 <= i < |sts| - 1 ensures UserStmt(nm, cfg, sts[1..][i]) { assert UserStmt(nm, cfg, sts[i + 1]); }
      LowerStmtRuns(m, nm, cfg, g, s, x, y, sts[0], bound, n);
      var q := LowerStmt(nm, cfg, sts[0], bound, n).value;
      var rest := LowerStmts(nm, cfg, sts[1..], q.bound, q.next).value;
      ExecConcat(m, g, s, y, q.actions, rest.actions);
      var o := Exec(m, g, s, y, q.actions);
      if o.Running? {
        var p := RunRewritten(m, nm, cfg, g, s, x, sts[0]);
        LoweringRuns(m, nm, cfg, g, p.state, p.env, o.env, sts[1..], q.bound, q.next);
      }
    }
  }

  // ---------------------------------------------------------------- scoping

  // The first name that is used unbound or bound twice, reading from left to right.
  function FirstUnbound(nm: Names, e: Expr, bound: set<Leaf>): Option<Error>
    decreases e, 0
  {
    match e
    case LitExpr(_) => None
    case VarExpr(v) => if v in bound || v.name in nm.globals then None else Some(Unbound(v.name))
    case CallExpr(_, args) => FirstUnboundIn(nm, args, bound)
  }

  function FirstUnboundIn(nm: Names, es: seq<Expr>, bound: set<Leaf>): Option<Error>
    decreases es, 1
  {
    if es == [] then None
    else
      var f := FirstUnbound(nm, es[0], bound);
      if f.Some? then f else FirstUnboundIn(nm, es[1..], bound)
  }

  // What the user has bound: the variables of the body and those of earlier lets.
  function FirstError(nm: Names, cfg: Config, sts: seq<Stmt>, bound: set<Leaf>): Option<Error> {
    if sts == [] then None
    else if sts[0].SLet? && sts[0].v in bound then Some(AlreadyDefined(sts[0].v.name))
    else
      var f := FirstUnboundIn(nm, Operands(cfg, sts[0]), bound);
      if f.Some? then f else FirstError(nm, cfg, sts[1..], bound + Defines(sts[0]))
  }

  ghost predicate SameUserNames(nm: Names, a: set<Leaf>, b: set<Leaf>) {
    forall v :: Older(nm, Var(v), 0) ==> (v in a <==> v in b)
  }

  function ErrorOf(r: Result<Lowered>): Option<Error> {
    if r.Err? then Some(r.error) else None
  }

  lemma {:induction false} LowerExprScoping(nm: Names, e: Expr, user: set<Leaf>, bound: set<Leaf>, n: nat)
    requires UserExpr(nm, e) && SameUserNames(nm, user, bound)
    ensures var r := LowerExpr(nm, e, bound, n);
      ErrorOf(r) == FirstUnbound(nm, e, user) && (r.Ok? ==> SameUserNames(nm, user, r.value.bound))
    decreases e, 0
  {
    if e.CallExpr? { LowerExprsScoping(nm, e.args, user, bound, n); }
  }

  lemma {:induction false} LowerExprsScoping(nm: Names, es: seq<Expr>, user: set<Leaf>, bound: set<Leaf>, n: nat)
    requires UserExprs(nm, es) && SameUserNames(nm, user, bound)
    ensures var r := LowerExprs(nm, es, bound, n);
      ErrorOf(r) == FirstUnboundIn(nm, es, user) && (r.Ok? ==> SameUserNames(nm, user, r.value.bound))
    decreases es, 1
  {
    if es != [] {
      LowerExprScoping(nm, es[0], user, bound, n);
      var q := LowerExpr(nm, es[0], bound, n);
      if q.Ok? { LowerExprsScoping(nm, es[1..], user, q.value.bound, q.value.next); }
    }
  }

  // Lowering fails exactly on the first name misused, whatever fresh names it has bound meanwhile.
  lemma {:induction false} LoweringReportsFirstError(nm: Names, cfg: Config, sts: seq<Stmt>, user: set<Leaf>, bound: set<Leaf>, n: nat)
    requires UserStmts(nm, cfg, sts) && SameUserNames(nm, user, bound)
    ensures ErrorOf(LowerStmts(nm, cfg, sts, bound, n)) == FirstError(nm, cfg, sts, user)
    decreases |sts|
  {
    if sts != [] {
      assert UserStmt(nm, cfg, sts[0]);
      forall i | 0 <= i < |sts| - 1 ensures UserStmt(nm, cfg, sts[1..][i]) { assert UserStmt(nm, cfg, sts[i + 1]); }
      LowerExprsScoping(nm, Operands(cfg, sts[0]), user, bound, n);
      var q := LowerStmt(nm, cfg, sts[0], bound, n);
      if q.Ok? { LoweringReportsFirstError(nm, cfg, sts[1..], user + Defines(sts[0]), q.value.bound, q.value.next); }
    }
  }

  // ---------------------------------------------------------------- single assignment

  function Uses(a: Action): set<Term> {
    match a
    case Let(_, _, args) => VarTerms(args)
    case LetTerm(_, t) => VarTerms([t])
    case Set(_, args, vals) => VarTerms(args) + VarTerms(vals)
    case Change(_, _, args) => VarTerms(args)
    case Union(x, y) => VarTerms([x]) + VarTerms([y])
    case Panic(_) => {}
  }

  function Introduces(a: Action): set<Leaf> {
    if a.Let? || a.LetTerm? then {a.v} else {}
  }

  function AllIntroduced(acts: seq<Action>): set<Leaf> {
    if acts == [] then {} else Introduces(acts[0]) + AllIntroduced(acts[1..])
  }

  function VarsOf(bound: set<Leaf>): set<Term> {
    set v | v in bound :: Var(v)
  }

  // Every variable used is bound before, and every variable introduced is new.
  predicate SingleAssignment(bound: set<Leaf>, acts: seq<Action>)
    decreases |acts|
  {
    acts != [] ==>
      (&& Uses(acts[0]) <= VarsOf(bound) && Introduces(acts[0]) !! bound
       && SingleAssignment(bound + Introduces(acts[0]), acts[1..]))
  }

  lemma {:induction false} SingleAssignmentConcat(bound: set<Leaf>, a: seq<Action>, b: seq<Action>)
    requires SingleAssignment(bound, a) && SingleAssignment(bound + AllIntroduced(a), b)
    ensures SingleAssignment(bound, a + b) && AllIntroduced(a + b) == AllIntroduced(a) + AllIntroduced(b)
    decreases |a|
  {
    if a == [] {
      assert a + b == b;
      assert bound + AllIntroduced(a) == bound;
    } else {
      assert (a + b)[1..] == a[1..] + b;
      var bound1 := bound + Introduces(a[0]);
      assert bound1 + AllIntroduced(a[1..]) == bound + AllIntroduced(a);
      SingleAssignmentConcat(bound1, a[1..], b);
    }
  }

  // No name from the n-th on is taken.
  ghost predicate Untaken(nm: Names, bound: set<Leaf>, n: nat) {
    forall v :: v in bound ==> Older(nm, Var(v), n)
  }

  ghost predicate GoodLowering(nm: Names, bound: set<Leaf>, n: nat, x: Lowered) {
    && SingleAssignment(bound, x.actions) && x.bound == bound + AllIntroduced(x.actions)
    && VarTerms(x.terms) <= VarsOf(x.bound) && n <= x.next && Untaken(nm, x.bound, x.next)
  }

  lemma {:induction false} GoodPrefix(nm: Names, bound: set<Leaf>, n: nat, x: Lowered, y: Lowered)
    requires GoodLowering(nm, bound, n, x) && GoodLowering(nm, x.bound, x.next, y)
    ensures GoodLowering(nm, bound, n, Prefixed(x, Ok(y)).value)
  {
    SingleAssignmentConcat(bound, x.actions, y.actions);
  }

  // One more action that uses what is bound and introduces at most a new name.
  lemma {:induction false} GoodLast(nm: Names, bound: set<Leaf>, n: nat, x: Lowered, a: Action, ts: seq<Term>, next: nat)
    requires GoodLowering(nm, bound, n, x) && Uses(a) <= VarsOf(x.bound) && Introduces(a) !! x.bound
    requires VarTerms(ts) <= VarsOf(x.bound + Introduces(a)) && x.next <= next && Untaken(nm, Introduces(a), next)
    ensures GoodLowering(nm, bound, n, Lowered(x.actions + [a], ts, x.bound + Introduces(a), next))
  {
    assert SingleAssignment(x.bound + Introduces(a), [a][1..]);
    assert AllIntroduced([a]) == Introduces(a) by { assert AllIntroduced([a][1..]) == {}; }
    SingleAssignmentConcat(bound, x.actions, [a]);
  }

  lemma {:induction false} LowerExprGood(nm: Names, e: Expr, bound: set<Leaf>, n: nat)
    requires Distinct(nm) && Untaken(nm, bound, n) && LowerExpr(nm, e, bound, n).Ok?
    ensures GoodLowering(nm, bound, n, LowerExpr(nm, e, bound, n).value)
    decreases e, 0
  {
    if e.CallExpr? {
      LowerExprsGood(nm, e.args, bound, n);
      var x := LowerExprs(nm, e.args, bound, n).value;
      var out := Fresh(nm, x.next, e.head);
      assert VarTerms([Var(out)]) == {Var(out)};
      GoodLast(nm, bound, n, x, Let(out, e.head, x.terms), [Var(out)], x.next + 1);
    }
  }

  lemma {:induction false} LowerExprsGood(nm: Names, es: seq<Expr>, bound: set<Leaf>, n: nat)
    requires Distinct(nm) && Untaken(nm, bound, n) && LowerExprs(nm, es, bound, n).Ok?
    ensures GoodLowering(nm, bound, n, LowerExprs(nm, es, bound, n).value)
    decreases es, 1
  {
    if es != [] {
      LowerExprGood(nm, es[0], bound, n);
      var x := LowerExpr(nm, es[0], bound, n).value;
      LowerExprsGood(nm, es[1..], x.bound, x.next);
      GoodPrefix(nm, bound, n, x, LowerExprs(nm, es[1..], x.bound, x.next).value);
    }
  }

  lemma {:induction false} EmitUses(cfg: Config, st: Stmt, ts: seq<Term>)
    requires |ts| == |Operands(cfg, st)|
    ensures forall i :: 0 <= i < |Emit(cfg, st, ts)| ==> Uses(Emit(cfg, st, ts)[i]) <= VarTerms(ts) && Introduces(Emit(cfg, st, ts)[i]) == Defines(st)
    ensures Emit(cfg, st, ts) == [] ==> Defines(st) == {}
  {}

  lemma {:induction false} LowerStmtGood(nm: Names, cfg: Config, st: Stmt, bound: set<Leaf>, n: nat)
    requires Distinct(nm) && UserStmt(nm, cfg, st) && Untaken(nm, bound, n) && LowerStmt(nm, cfg, st, bound, n).Ok?
    ensures GoodLowering(nm, bound, n, LowerStmt(nm, cfg, st, bound, n).value)
  {
    var es := Operands(cfg, st);
    LowerExprsGood(nm, es, bound, n);
    LowerExprsScoping(nm, es, bound, bound, n);
    var x := LowerExprs(nm, es, bound, n).value;
    var acts := Emit(cfg, st, x.terms);
    EmitUses(cfg, st, x.terms);
    if acts == [] {
      assert x.actions + acts == x.actions;
      assert x.bound + Defines(st) == x.bound;
    } else {
      assert acts == [acts[0]];
      GoodLast(nm, bound, n, x, acts[0], [], x.next + ExtraNames(cfg, st));
    }
  }

  // Lowered actions use only bound variables and introduce only new ones.
  lemma {:induction false} LoweringIsSingleAssignment(nm: Names, cfg: Config, sts: seq<Stmt>, bound: set<Leaf>, n: nat)
    requires Distinct(nm) && UserStmts(nm, cfg, sts) && Untaken(nm, bound, n) && LowerStmts(nm, cfg, sts, bound, n).Ok?
    ensures GoodLowering(nm, bound, n, LowerStmts(nm, cfg, sts, bound, n).value)
    decreases |sts|
  {
    if sts != [] {
      assert UserStmt(nm, cfg, sts[0]);
      forall i | 0 <= i < |sts| - 1 ensures UserStmt(nm, cfg, sts[1..][i]) { assert UserStmt(nm, cfg, sts[i + 1]); }
      LowerStmtGood(nm, cfg, sts[0], bound, n);
      var x := LowerStmt(nm, cfg, sts[0], bound, n).value;
      LoweringIsSingleAssignment(nm, cfg, sts[1..], x.bound, x.next);
      GoodPrefix(nm, bound, n, x, LowerStmts(nm, cfg, sts[1..], x.bound, x.next).value);
    }
  }

  // ---------------------------------------------------------------- free variables

  // In single assignment form the free variables are bound outside, and no action uses its own variable.
  lemma {:induction false} SingleAssignmentFree(bound: set<Leaf>, acts: seq<Action>)
    requires SingleAssignment(bound, acts)
    ensures FreeVars(acts) <= VarsOf(bound) && NoSelfUse(acts)
    decreases |acts|
  {
    if acts != [] {
      SingleAssignmentFree(bound + Introduces(acts[0]), acts[1..]);
      forall i | 0 <= i < |acts| ensures OthersOnly(acts[i]) {
        if i > 0 { assert OthersOnly(acts[1..][i - 1]); }
      }
    }
  }

  ghost predicate SameOnTerms(g: map<Leaf, Value>, x: Env, y: Env, ts: set<Term>) {
    forall t :: t in ts ==> TermValue(g, x, t) == TermValue(g, y, t)
  }

  lemma {:induction false} SameTermValues(g: map<Leaf, Value>, x: Env, y: Env, ts: seq<Term>)
    requires SameOnTerms(g, x, y, VarTerms(ts))
    ensures TermValues(g, x, ts) == TermValues(g, y, ts)
  {
    forall k | 0 <= k < |ts| ensures TermValue(g, x, ts[k]) == TermValue(g, y, ts[k]) {
      if ts[k].Var? { assert ts[k] in VarTerms(ts); }
    }
  }

  ghost predicate SameEffect<S>(a: Outcome<S>, b: Outcome<S>) {
    a.state == b.state && (a.Running? <==> b.Running?)
  }

  // An action's uses are free unless bound by an earlier action.
  lemma {:induction false} UsesAreFree(acts: seq<Action>)
    requires acts != [] && OthersOnly(acts[0])
    ensures Uses(acts[0]) <= FreeVars(acts)
    ensures forall t :: t in FreeVars(acts[1..]) ==> t in FreeVars(acts) || (exists v :: v in Introduces(acts[0]) && t == Var(v))
  {
    var a := acts[0];
    if a.LetTerm? { assert Var(a.v) !in VarTerms([a.t]); }
  }

  lemma {:induction false} PerformSame<S>(m: Machine<S>, g: map<Leaf, Value>, s: S, x: Env, y: Env, a: Action)
    requires SameOnTerms(g, x, y, Uses(a))
    ensures var p := Perform(m, g, s, x, a); var q := Perform(m, g, s, y, a);
      SameEffect(p, q) && (p.Running? ==>
        forall t: Term :: t.Var? && (TermValue(g, x, t) == TermValue(g, y, t) || t.v in Introduces(a)) ==>
          TermValue(g, p.env, t) == TermValue(g, q.env, t))
  {
    match a
    case Let(_, _, args) => SameTermValues(g, x, y, args);
    case LetTerm(_, t) => SameTermValues(g, x, y, [t]); assert TermValues(g, x, [t])[0] == TermValues(g, y, [t])[0];
    case Set(_, args, vals) => SameTermValues(g, x, y, args); SameTermValues(g, x, y, vals);
    case Change(_, _, args) => SameTermValues(g, x, y, args);
    case Union(b, c) =>
      SameTermValues(g, x, y, [b]);
      SameTermValues(g, x, y, [c]);
      assert TermValues(g, x, [b])[0] == TermValues(g, y, [b])[0];
      assert TermValues(g, x, [c])[0] == TermValues(g, y, [c])[0];
    case Panic(_) =>
  }

  // Two environments that agree on the free variables run a head with the same effects.
  lemma {:induction false} FreeVarsSuffice<S>(m: Machine<S>, g: map<Leaf, Value>, s: S, x: Env, y: Env, acts: seq<Action>)
    requires NoSelfUse(acts) && SameOnTerms(g, x, y, FreeVars(acts))
    ensures SameEffect(Exec(m, g, s, x, acts), Exec(m, g, s, y, acts))
    decreases |acts|
  {
    if acts != [] {
      assert OthersOnly(acts[0]);
      UsesAreFree(acts);
      PerformSame(m, g, s, x, y, acts[0]);
      var p := Perform(m, g, s, x, acts[0]);
      var q := Perform(m, g, s, y, acts[0]);
      if p.Running? {
        FreeVarsAreVars(acts[1..]);
        forall i | 0 <= i < |acts| - 1 ensures OthersOnly(acts[1..][i]) { assert OthersOnly(acts[i + 1]); }
        FreeVarsSuffice(m, g, p.state, p.env, q.env, acts[1..]);
      }
    }
  }

  lemma {:induction false} FreeVarsAreVars(acts: seq<Action>)
    ensures forall t :: t in FreeVars(acts) ==> t.Var?
  {
    if acts != [] { FreeVarsAreVars(acts[1..]); }
  }

  // ---------------------------------------------------------------- which unions become sets

  // The last action of a union is a set of the call's row exactly if the optimization is on and one side is
  // a variable and the other a call of a constructor, in either order; else it is a union.
  lemma {:induction false} UnionBecomesSetIff(nm: Names, cfg: Config, a: Expr, b: Expr, bound: set<Leaf>, n: nat)
    requires LowerStmt(nm, cfg, SUnion(a, b), bound, n).Ok?
    ensures var acts := LowerStmt(nm, cfg, SUnion(a, b), bound, n).value.actions;
      && acts != [] && (acts[|acts| - 1].Set? || acts[|acts| - 1].Union?)
      && (acts[|acts| - 1].Set? <==>
            cfg.unionToSet && ((a.VarExpr? && b.CallExpr? && b.head in cfg.constructors) || (b.VarExpr? && a.CallExpr? && a.head in cfg.constructors)))
      && (acts[|acts| - 1].Set? ==> |acts[|acts| - 1].vals| == 1 && acts[|acts| - 1].head == (if a.CallExpr? then a.head else b.head))
  {}
}
