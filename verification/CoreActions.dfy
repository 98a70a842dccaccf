// The lowering as it runs: one context, whose bound names, fresh names and emitted actions grow.
module CoreActionsModel {
  import opened CoreIR
  import opened Options
  import opened RuleModel
  import opened FlattenModel
  import opened LoweringModel

  lemma {:induction false} LowerExprsConcat(nm: Names, a: seq<Expr>, b: seq<Expr>, bound: set<Leaf>, n: nat)
    ensures var q := LowerExprs(nm, a, bound, n);
      LowerExprs(nm, a + b, bound, n) == if q.Err? then q else Prefixed(q.value, LowerExprs(nm, b, q.value.bound, q.value.next))
    decreases |a|
  {
    if a == [] {
      assert a + b == b;
      PrefixedNothing(LowerExprs(nm, b, bound, n), bound, n);
    } else {
      assert (a + b)[1..] == a[1..] + b;
      var q := LowerExpr(nm, a[0], bound, n);
      if q.Ok? {
        LowerExprsConcat(nm, a[1..], b, q.value.bound, q.value.next);
        var r := LowerExprs(nm, a[1..], q.value.bound, q.value.next);
        if r.Ok? { PrefixedAssociates(q.value, r.value, LowerExprs(nm, b, r.value.bound, r.value.next)); }
      }
    }
  }

  lemma {:induction false} PrefixedNothing(r: Result<Lowered>, bound: set<Leaf>, n: nat)
    ensures Prefixed(Lowered([], [], bound, n), r) == r
  {
    if r.Ok? { assert [] + r.value.actions == r.value.actions && [] + r.value.terms == r.value.terms; }
  }

  lemma {:induction false} PrefixedAssociates(x: Lowered, y: Lowered, r: Result<Lowered>)
    ensures Prefixed(Prefixed(x, Ok(y)).value, r) == Prefixed(x, Prefixed(y, r))
  {
    if r.Ok? {
      assert (x.actions + y.actions) + r.value.actions == x.actions + (y.actions + r.value.actions);
      assert (x.terms + y.terms) + r.value.terms == x.terms + (y.terms + r.value.terms);
    }
  }

  lemma {:induction false} LowerExprsOne(nm: Names, e: Expr, bound: set<Leaf>, n: nat)
    ensures LowerExprs(nm, [e], bound, n) == LowerExpr(nm, e, bound, n)
  {
    assert [e][1..] == [];
    var q := LowerExpr(nm, e, bound, n);
    if q.Ok? { assert q.value.actions + [] == q.value.actions && q.value.terms + [] == q.value.terms; }
  }

  // Lowering the list from its i-th expression on, after what has been lowered already.
  ghost predicate Resumes(nm: Names, es: seq<Expr>, i: nat, x: Lowered, whole: Result<Lowered>) {
    i <= |es| && whole == Prefixed(x, LowerExprs(nm, es[i..], x.bound, x.next))
  }

  lemma {:induction false} ResumesNext(nm: Names, es: seq<Expr>, i: nat, x: Lowered, whole: Result<Lowered>)
    requires Resumes(nm, es, i, x, whole) && i < |es|
    ensures var q := LowerExpr(nm, es[i], x.bound, x.next);
      if q.Err? then whole == q else Resumes(nm, es, i + 1, Prefixed(x, q).value, whole)
  {
    assert es[i..][1..] == es[i + 1..];
    var q := LowerExpr(nm, es[i], x.bound, x.next);
    if q.Ok? { PrefixedAssociates(x, q.value, LowerExprs(nm, es[i + 1..], q.value.bound, q.value.next)); }
  }

  class CoreActionContext {
    const nm: Names
    const cfg: Config
    var binding: set<Leaf>
    var next: nat
    var actions: seq<Action>

    constructor (nm: Names, cfg: Config, binding: set<Leaf>, next: nat)
      ensures this.nm == nm && this.cfg == cfg && this.binding == binding && this.next == next && actions == []
    {
      this.nm, this.cfg, this.binding, this.next, this.actions := nm, cfg, binding, next, [];
    }

    // The context has moved from the given state to the one the result describes.
    ghost predicate Reached(before: seq<Action>, x: Lowered)
      reads this
    {
      actions == before + x.actions && binding == x.bound && next == x.next
    }

    // An action at the end of what has been emitted.
    method Push(ghost before: seq<Action>, ghost x: Lowered, a: Action)
      requires Reached(before, x)
      modifies this`actions
      ensures Reached(before, Lowered(x.actions + [a], [], x.bound, x.next))
    {
      actions := actions + [a];
      assert before + (x.actions + [a]) == (before + x.actions) + [a];
    }

    method ToCoreTerm(e: Expr) returns (r: Result<Term>)
      modifies this
      ensures var q := LowerExpr(nm, e, old(binding), old(next));
        if q.Err? then r == Err(q.error) else r == Ok(q.value.terms[0]) && Reached(old(actions), q.value)
      decreases e, 0
    {
      match e
      case LitExpr(l) => r := Ok(Lit(l));
      case VarExpr(v) =>
        if v in binding || v.name in nm.globals {
          r := Ok(TermFor(nm, v));
        } else {
          r := Err(Unbound(v.name));
        }
      case CallExpr(h, args) =>
        var ts := ToCoreTerms(args);
        if ts.Err? { return Err(ts.error); }
        var out := Fresh(nm, next, h);
        Push(old(actions), LowerExprs(nm, args, old(binding), old(next)).value, Let(out, h, ts.value));
        next := next + 1;
        binding := binding + {out};
        r := Ok(Var(out));
    }

    method ToCoreTerms(es: seq<Expr>) returns (r: Result<seq<Term>>)
      modifies this
      ensures var q := LowerExprs(nm, es, old(binding), old(next));
        if q.Err? then r == Err(q.error) else r == Ok(q.value.terms) && Reached(old(actions), q.value)
      decreases es, 1
    {
      ghost var whole := LowerExprs(nm, es, binding, next);
      ghost var x := Lowered([], [], binding, next);
      var ts: seq<Term> := [];
      PrefixedNothing(whole, binding, next);
      assert es[0..] == es;
      for i := 0 to |es|
        invariant Reached(old(actions), x) && ts == x.terms
        invariant Resumes(nm, es, i, x, whole)
      {
        ResumesNext(nm, es, i, x, whole);
        ghost var q := LowerExpr(nm, es[i], binding, next);
        var t := ToCoreTerm(es[i]);
        if t.Err? { return Err(t.error); }
        ts := ts + [t.value];
        ReachedThen(old(actions), x, q.value);
        x := Prefixed(x, q).value;
      }
      ResumedAll(nm, es, x, whole);
      r := Ok(ts);
    }

    lemma {:induction false} ReachedThen(before: seq<Action>, x: Lowered, y: Lowered)
      requires Reached(before + x.actions, y)
      ensures Reached(before, Prefixed(x, Ok(y)).value)
    {
      assert before + (x.actions + y.actions) == (before + x.actions) + y.actions;
    }

    // Lowers both lists of operands, then emits the set; `extra` names go to its annotation.
    method ToCoreSet(h: Head, args: seq<Expr>, cols: seq<Expr>, extra: nat) returns (r: Result<()>)
      modifies this
      ensures var q := LowerExprs(nm, args + cols, old(binding), old(next));
        if q.Err? then r == Err(q.error)
        else r == Ok(()) && Reached(old(actions), Lowered(
          q.value.actions + [Set(h, q.value.terms[..|args|], q.value.terms[|args|..])], [], q.value.bound, q.value.next + extra))
    {
      ghost var x := LowerExprs(nm, args, binding, next);
      LowerExprsConcat(nm, args, cols, binding, next);
      var ins := ToCoreTerms(args);
      if ins.Err? { return Err(ins.error); }
      ghost var y := LowerExprs(nm, cols, binding, next);
      var outs := ToCoreTerms(cols);
      if outs.Err? { return Err(outs.error); }
      ReachedThen(old(actions), x.value, y.value);
      Push(old(actions), Prefixed(x.value, y).value, Set(h, ins.value, outs.value));
      next := next + extra;
      r := Ok(());
    }

    method ToCoreUnion(a: Expr, b: Expr) returns (r: Result<()>)
      modifies this
      ensures var q := LowerStmt(nm, cfg, SUnion(a, b), old(binding), old(next));
        if q.Err? then r == Err(q.error) else r == Ok(()) && Reached(old(actions), q.value)
    {
      assert forall bound: set<Leaf> :: bound + {} == bound;
      if BecomesSet(cfg, a, b) {
        var f, u := if a.CallExpr? then a else b, if a.CallExpr? then b else a;
        r := ToCoreSet(f.head, f.args, [u], 1);
        ghost var q := LowerExprs(nm, f.args + [u], old(binding), old(next));
        if r.Ok? { assert q.value.terms[|f.args|..] == [q.value.terms[|f.args|]]; }
      } else {
        ghost var x := LowerExpr(nm, a, binding, next);
        LowerBoth(nm, a, b, binding, next);
        var t := ToCoreTerm(a);
        if t.Err? { return Err(t.error); }
        ghost var y := LowerExpr(nm, b, binding, next);
        var u := ToCoreTerm(b);
        if u.Err? { return Err(u.error); }
        ReachedThen(old(actions), x.value, y.value);
        Push(old(actions), Prefixed(x.value, y).value, Union(t.value, u.value));
        r := Ok(());
      }
    }

    method ToCoreAction(st: Stmt) returns (r: Result<()>)
      modifies this
      ensures var q := LowerStmt(nm, cfg, st, old(binding), old(next));
        if q.Err? then r == Err(q.error) else r == Ok(()) && Reached(old(actions), q.value)
    {
      assert forall bound: set<Leaf> :: bound + {} == bound;
      match st
      case SLet(v, e) =>
        if v in binding { return Err(AlreadyDefined(v.name)); }
        LowerExprsOne(nm, e, binding, next);
        ghost var q := LowerExpr(nm, e, binding, next);
        var t := ToCoreTerm(e);
        if t.Err? { return Err(t.error); }
        Push(old(actions), q.value, LetTerm(v, t.value));
        binding := binding + {v};
        r := Ok(());
      case SSet(h, args, Single(e)) => r := ToCoreSet(h, args, [e], 1);
      case SSet(h, args, Values(es)) => r := ToCoreSet(h, args, es, 2);
      case SChange(d, h, args) =>
        ghost var q := LowerExprs(nm, args, binding, next);
        var ts := ToCoreTerms(args);
        if ts.Err? { return Err(ts.error); }
        Push(old(actions), q.value, Change(d, h, ts.value));
        next := next + 1;
        r := Ok(());
      case SUnion(a, b) => r := ToCoreUnion(a, b);
      case SPanic(msg) =>
        Push(old(actions), Lowered([], [], binding, next), Panic(msg));
        r := Ok(());
      case SExpr(e) =>
        LowerExprsOne(nm, e, binding, next);
        ghost var q := LowerExpr(nm, e, binding, next);
        var t := ToCoreTerm(e);
        if t.Err? { return Err(t.error); }
        assert q.value.actions + [] == q.value.actions;
        r := Ok(());
    }

    method ToCoreActions(sts: seq<Stmt>) returns (r: Result<()>)
      modifies this
      ensures var q := LowerStmts(nm, cfg, sts, old(binding), old(next));
        if q.Err? then r == Err(q.error) else r == Ok(()) && Reached(old(actions), q.value)
    {
      ghost var whole := LowerStmts(nm, cfg, sts, binding, next);
      ghost var x := Lowered([], [], binding, next);
      PrefixedNothing(whole, binding, next);
      assert sts[0..] == sts;
      for i := 0 to |sts|
        invariant Reached(old(actions), x) && x.terms == []
        invariant StmtsResume(nm, cfg, sts, i, x, whole)
      {
        StmtsResumeNext(nm, cfg, sts, i, x, whole);
        ghost var q := LowerStmt(nm, cfg, sts[i], binding, next);
        var t := ToCoreAction(sts[i]);
        if t.Err? { return Err(t.error); }
        ReachedThen(old(actions), x, q.value);
        x := Prefixed(x, q).value;
      }
      StmtsResumedAll(nm, cfg, sts, x, whole);
      r := Ok(());
    }
  }

  lemma {:induction false} LowerBoth(nm: Names, a: Expr, b: Expr, bound: set<Leaf>, n: nat)
    ensures var q := LowerExpr(nm, a, bound, n);
      LowerExprs(nm, [a, b], bound, n) == if q.Err? then q else Prefixed(q.value, LowerExpr(nm, b, q.value.bound, q.value.next))
  {
    assert [a, b][1..] == [b];
    var q := LowerExpr(nm, a, bound, n);
    if q.Ok? { LowerExprsOne(nm, b, q.value.bound, q.value.next); }
  }

  lemma {:induction false} ResumedAll(nm: Names, es: seq<Expr>, x: Lowered, whole: Result<Lowered>)
    requires Resumes(nm, es, |es|, x, whole)
    ensures whole == Ok(x)
  {
    assert es[|es|..] == [];
    assert x.actions + [] == x.actions && x.terms + [] == x.terms;
  }

  ghost predicate StmtsResume(nm: Names, cfg: Config, sts: seq<Stmt>, i: nat, x: Lowered, whole: Result<Lowered>) {
    i <= |sts| && whole == Prefixed(x, LowerStmts(nm, cfg, sts[i..], x.bound, x.next))
  }

  lemma {:induction false} StmtsResumeNext(nm: Names, cfg: Config, sts: seq<Stmt>, i: nat, x: Lowered, whole: Result<Lowered>)
    requires StmtsResume(nm, cfg, sts, i, x, whole) && i < |sts|
    ensures var q := LowerStmt(nm, cfg, sts[i], x.bound, x.next);
      if q.Err? then whole == q else StmtsResume(nm, cfg, sts, i + 1, Prefixed(x, q).value, whole)
  {
    assert sts[i..][1..] == sts[i + 1..];
    var q := LowerStmt(nm, cfg, sts[i], x.bound, x.next);
    if q.Ok? { PrefixedAssociates(x, q.value, LowerStmts(nm, cfg, sts[i + 1..], q.value.bound, q.value.next)); }
  }

  lemma {:induction false} StmtsResumedAll(nm: Names, cfg: Config, sts: seq<Stmt>, x: Lowered, whole: Result<Lowered>)
    requires StmtsResume(nm, cfg, sts, |sts|, x, whole) && x.terms == []
    ensures whole == Ok(x)
  {
    assert sts[|sts|..] == [];
    assert x.actions + [] == x.actions && x.terms + [] == x.terms;
  }
}
