// Which names a rule's facts bind and its statements use, read off the surface rule.
module ScopingModel {
  import opened CoreIR
  import opened Options
  import opened GroundedModel
  import opened RuleModel
  import opened CanonicalizeModel
  import opened FlattenModel
  import opened LoweringModel

  predicate Mentions(e: Expr, v: Leaf) {
    match e
    case LitExpr(_) => false
    case VarExpr(u) => u == v
    case CallExpr(_, args) => exists i :: 0 <= i < |args| && Mentions(args[i], v)
  }

  predicate AnyMentions(es: seq<Expr>, v: Leaf) {
    exists i :: 0 <= i < |es| && Mentions(es[i], v)
  }

  predicate StmtMentions(st: Stmt, v: Leaf) {
    match st
    case SLet(_, e) => Mentions(e, v)
    case SSet(_, args, Single(e)) => AnyMentions(args, v) || Mentions(e, v)
    case SSet(_, args, Values(es)) => AnyMentions(args, v) || AnyMentions(es, v)
    case SChange(_, _, args) => AnyMentions(args, v)
    case SUnion(a, b) => Mentions(a, v) || Mentions(b, v)
    case SPanic(_) => false
    case SExpr(e) => Mentions(e, v)
  }

  // A variable alone is no constraint, and binds nothing.
  predicate FactBinds(f: Fact, v: Leaf) {
    match f
    case ExprFact(e) => e.CallExpr? && Mentions(e, v)
    case EqFact(a, b) => Mentions(a, v) || Mentions(b, v)
    case TupleFact(_, args, values, last) => AnyMentions(args, v) || AnyMentions(values, v) || Mentions(last, v)
  }

  predicate FactsBind(nm: Names, facts: seq<Fact>, v: Leaf) {
    v.name !in nm.globals && exists i :: 0 <= i < |facts| && FactBinds(facts[i], v)
  }

  // ---------------------------------------------------------------- what a body binds

  predicate IsUser(nm: Names, e: Expr, v: Leaf) {
    v.name !in nm.globals && Mentions(e, v)
  }

  predicate AnyUser(nm: Names, es: seq<Expr>, v: Leaf) {
    v.name !in nm.globals && AnyMentions(es, v)
  }

  lemma {:induction false} AnyMentionsCons(es: seq<Expr>, v: Leaf)
    requires es != []
    ensures AnyMentions(es, v) <==> Mentions(es[0], v) || AnyMentions(es[1..], v)
  {
    if AnyMentions(es[1..], v) {
      var i :| 0 <= i < |es| - 1 && Mentions(es[1..][i], v);
      assert Mentions(es[i + 1], v);
    }
    if AnyMentions(es, v) && !Mentions(es[0], v) {
      var i :| 0 <= i < |es| && Mentions(es[i], v);
      assert Mentions(es[1..][i - 1], v);
    }
  }

  lemma {:induction false} AnyMentionsConcat(a: seq<Expr>, b: seq<Expr>, v: Leaf)
    ensures AnyMentions(a + b, v) <==> AnyMentions(a, v) || AnyMentions(b, v)
  {
    if AnyMentions(a, v) {
      var i :| 0 <= i < |a| && Mentions(a[i], v);
      assert Mentions((a + b)[i], v);
    }
    if AnyMentions(b, v) {
      var i :| 0 <= i < |b| && Mentions(b[i], v);
      assert Mentions((a + b)[|a| + i], v);
    }
  }

  lemma {:induction false} BodyVarsSnoc(atoms: seq<Atom>, a: Atom)
    ensures BodyVars(atoms + [a]) == BodyVars(atoms) + VarTerms(a.args)
  {
    assert (atoms + [a])[..|atoms|] == atoms;
  }

  lemma {:induction false} QueryBinds(nm: Names, e: Expr, n: nat, v: Leaf)
    requires Older(nm, Var(v), 0)
    ensures var q := ToQuery(nm, e, n);
      && (Var(v) in BodyVars(q.atoms) || q.term == Var(v) <==> IsUser(nm, e, v))
      && (Var(v) in BodyVars(q.atoms) <==> e.CallExpr? && IsUser(nm, e, v))
    decreases e, 0
  {
    if e.CallExpr? {
      var q := ToQueries(nm, e.args, n + 1);
      var out := Var(Fresh(nm, n, e.head));
      QueriesBind(nm, e.args, n + 1, v);
      BodyVarsSnoc(q.atoms, Atom(Call(e.head), q.terms + [out]));
    }
  }

  lemma {:induction false} QueriesBind(nm: Names, es: seq<Expr>, n: nat, v: Leaf)
    requires Older(nm, Var(v), 0)
    ensures var q := ToQueries(nm, es, n); Var(v) in BodyVars(q.atoms) || Var(v) in q.terms <==> AnyUser(nm, es, v)
    decreases es, 1
  {
    if es != [] {
      var q := ToQuery(nm, es[0], n);
      QueryBinds(nm, es[0], n, v);
      QueriesBind(nm, es[1..], q.next, v);
      BodyVarsConcat(q.atoms, ToQueries(nm, es[1..], q.next).atoms);
      AnyMentionsCons(es, v);
    }
  }

  lemma {:induction false} FactAtomsBind(nm: Names, f: Fact, n: nat, v: Leaf)
    requires Older(nm, Var(v), 0)
    ensures Var(v) in BodyVars(FactAtoms(nm, f, n)) <==> v.name !in nm.globals && FactBinds(f, v)
  {
    match f
    case ExprFact(e) => QueryBinds(nm, e, n, v);
    case EqFact(a, b) =>
      var q := ToQuery(nm, a, n);
      var r := ToQuery(nm, b, q.next);
      QueryBinds(nm, a, n, v);
      QueryBinds(nm, b, q.next, v);
      BodyVarsConcat(q.atoms, r.atoms);
      BodyVarsSnoc(q.atoms + r.atoms, Atom(Eq, [q.term, r.term]));
    case TupleFact(h, args, values, last) =>
      var cols := args + values + [last];
      var q := ToQueries(nm, cols, n);
      QueriesBind(nm, cols, n, v);
      BodyVarsSnoc(q.atoms, Atom(Call(h), q.terms));
      AnyMentionsConcat(args, values, v);
      AnyMentionsConcat(args + values, [last], v);
      assert AnyMentions([last], v) <==> Mentions([last][0], v);
  }

  // A variable of the user is in the flattened body exactly when some fact binds it.
  lemma {:induction false} BodyBinds(nm: Names, facts: seq<Fact>, n: nat, v: Leaf)
    requires Older(nm, Var(v), 0)
    ensures Var(v) in BodyVars(FactsToQuery(nm, facts, n).atoms) <==> FactsBind(nm, facts, v)
  {
    if facts != [] {
      var k := |facts| - 1;
      var init := FactsToQuery(nm, facts[..k], n);
      BodyBinds(nm, facts[..k], n, v);
      FactAtomsBind(nm, facts[k], init.next, v);
      BodyVarsConcat(init.atoms, FactAtoms(nm, facts[k], init.next));
      FactsBindSnoc(nm, facts, v);
    }
  }

  lemma {:induction false} FactsBindSnoc(nm: Names, facts: seq<Fact>, v: Leaf)
    requires facts != []
    ensures var k := |facts| - 1; FactsBind(nm, facts, v) <==> FactsBind(nm, facts[..k], v) || (v.name !in nm.globals && FactBinds(facts[k], v))
  {
    var k := |facts| - 1;
    if FactsBind(nm, facts[..k], v) {
      var i :| 0 <= i < k && FactBinds(facts[..k][i], v);
      assert FactBinds(facts[i], v);
    }
    if FactsBind(nm, facts, v) && !FactBinds(facts[k], v) {
      var i :| 0 <= i < |facts| && FactBinds(facts[i], v);
      assert FactBinds(facts[..k][i], v);
    }
  }

  // ---------------------------------------------------------------- misuses of names

  // Bound at the start, or by an earlier let.
  ghost predicate Known(bound: set<Leaf>, sts: seq<Stmt>, i: nat, v: Leaf) {
    v in bound || exists j :: 0 <= j < i && j < |sts| && sts[j].SLet? && sts[j].v == v
  }

  ghost predicate MisusedIn(nm: Names, bound: set<Leaf>, sts: seq<Stmt>, i: nat, e: Error)
    requires i < |sts|
  {
    if sts[i].SLet? && Known(bound, sts, i, sts[i].v) then e == AlreadyDefined(sts[i].v.name)
    else exists v :: StmtMentions(sts[i], v) && v.name !in nm.globals && !Known(bound, sts, i, v) && e == Unbound(v.name)
  }

  lemma {:induction false} UnboundIsMention(nm: Names, e: Expr, bound: set<Leaf>)
    ensures FirstUnbound(nm, e, bound).None? <==> forall v :: Mentions(e, v) ==> v in bound || v.name in nm.globals
    ensures FirstUnbound(nm, e, bound).Some? ==>
      exists v :: Mentions(e, v) && v !in bound && v.name !in nm.globals && FirstUnbound(nm, e, bound) == Some(Unbound(v.name))
    decreases e, 0
  {
    match e
    case LitExpr(_) =>
    case VarExpr(v) => assert Mentions(e, v);
    case CallExpr(_, args) =>
      UnboundIsMentions(nm, args, bound);
      assert forall v :: Mentions(e, v) <==> AnyMentions(args, v);
  }

  lemma {:induction false} UnboundIsMentions(nm: Names, es: seq<Expr>, bound: set<Leaf>)
    ensures FirstUnboundIn(nm, es, bound).None? <==> forall v :: AnyMentions(es, v) ==> v in bound || v.name in nm.globals
    ensures FirstUnboundIn(nm, es, bound).Some? ==>
      exists v :: AnyMentions(es, v) && v !in bound && v.name !in nm.globals && FirstUnboundIn(nm, es, bound) == Some(Unbound(v.name))
    decreases es, 1
  {
    if es != [] {
      UnboundIsMention(nm, es[0], bound);
      UnboundIsMentions(nm, es[1..], bound);
      forall v ensures AnyMentions(es, v) <==> Mentions(es[0], v) || AnyMentions(es[1..], v) { AnyMentionsCons(es, v); }
    }
  }

  lemma {:induction false} OperandsAreMentions(cfg: Config, st: Stmt, v: Leaf)
    ensures AnyMentions(Operands(cfg, st), v) <==> StmtMentions(st, v)
  {
    match st
    case SLet(_, e) => OneMentions(e, v);
    case SSet(_, args, value) =>
      AnyMentionsConcat(args, Columns(value), v);
      if value.Single? { OneMentions(value.e, v); }
    case SChange(_, _, _) =>
    case SUnion(a, b) => UnionMentions(cfg, a, b, v);
    case SPanic(_) =>
    case SExpr(e) => OneMentions(e, v);
  }

  lemma {:induction false} OneMentions(e: Expr, v: Leaf)
    ensures AnyMentions([e], v) <==> Mentions(e, v)
  {
    assert Mentions(e, v) ==> Mentions([e][0], v);
  }

  lemma {:induction false} UnionMentions(cfg: Config, a: Expr, b: Expr, v: Leaf)
    ensures AnyMentions(Operands(cfg, SUnion(a, b)), v) <==> Mentions(a, v) || Mentions(b, v)
  {
    OneMentions(a, v);
    OneMentions(b, v);
    if !BecomesSet(cfg, a, b) {
      assert [a, b] == [a] + [b];
      AnyMentionsConcat([a], [b], v);
    } else if a.CallExpr? {
      AnyMentionsConcat(a.args, [b], v);
    } else {
      AnyMentionsConcat(b.args, [a], v);
    }
  }

  lemma {:induction false} KnownLater(bound: set<Leaf>, sts: seq<Stmt>, i: nat, v: Leaf)
    requires 0 < |sts|
    ensures Known(bound, sts, i + 1, v) <==> Known(bound + Defines(sts[0]), sts[1..], i, v)
  {
    if j :| 0 <= j < i + 1 && j < |sts| && sts[j].SLet? && sts[j].v == v {
      if j > 0 { assert sts[1..][j - 1] == sts[j]; }
    }
    if j :| 0 <= j < i && j < |sts| - 1 && sts[1..][j].SLet? && sts[1..][j].v == v { assert sts[j + 1] == sts[1..][j]; }
  }

  lemma {:induction false} MisusedLater(nm: Names, bound: set<Leaf>, sts: seq<Stmt>, i: nat, e: Error)
    requires i + 1 < |sts|
    ensures MisusedIn(nm, bound, sts, i + 1, e) <==> MisusedIn(nm, bound + Defines(sts[0]), sts[1..], i, e)
  {
    forall v ensures Known(bound, sts, i + 1, v) <==> Known(bound + Defines(sts[0]), sts[1..], i, v) { KnownLater(bound, sts, i, v); }
  }

  lemma {:induction false} FirstStmtMisused(nm: Names, cfg: Config, sts: seq<Stmt>, bound: set<Leaf>, e: Error)
    requires sts != []
    ensures var f := FirstUnboundIn(nm, Operands(cfg, sts[0]), bound);
      var rebinds := sts[0].SLet? && sts[0].v in bound;
      && (rebinds ==> (MisusedIn(nm, bound, sts, 0, e) <==> e == AlreadyDefined(sts[0].v.name)))
      && (!rebinds && f.None? ==> !MisusedIn(nm, bound, sts, 0, e))
      && (!rebinds && f.Some? ==> MisusedIn(nm, bound, sts, 0, f.value))
  {
    UnboundIsMentions(nm, Operands(cfg, sts[0]), bound);
    forall v ensures AnyMentions(Operands(cfg, sts[0]), v) <==> StmtMentions(sts[0], v) { OperandsAreMentions(cfg, sts[0], v); }
    assert forall v :: Known(bound, sts, 0, v) <==> v in bound;
  }

  // The first error is a misuse in the first statement that has one.
  ghost predicate IsFirstMisuse(nm: Names, bound: set<Leaf>, sts: seq<Stmt>, i: nat, e: Error) {
    i < |sts| && MisusedIn(nm, bound, sts, i, e) && forall j, e' :: 0 <= j < i ==> !MisusedIn(nm, bound, sts, j, e')
  }

  lemma {:induction false} FirstErrorIsMisuse(nm: Names, cfg: Config, sts: seq<Stmt>, bound: set<Leaf>) returns (i: nat)
    ensures var f := FirstError(nm, cfg, sts, bound);
      if f.Some? then IsFirstMisuse(nm, bound, sts, i, f.value) else forall j, e :: 0 <= j < |sts| ==> !MisusedIn(nm, bound, sts, j, e)
    decreases |sts|
  {
    i := 0;
    if sts != [] {
      forall e { FirstStmtMisused(nm, cfg, sts, bound, e); }
      if !(sts[0].SLet? && sts[0].v in bound) && FirstUnboundIn(nm, Operands(cfg, sts[0]), bound).None? {
        i := FirstErrorIsMisuse(nm, cfg, sts[1..], bound + Defines(sts[0]));
        forall j: nat, e | 0 < j < |sts|
          ensures MisusedIn(nm, bound, sts, j, e) <==> MisusedIn(nm, bound + Defines(sts[0]), sts[1..], j - 1, e)
        {
          MisusedLater(nm, bound, sts, j - 1, e);
        }
        i := i + 1;
      }
    }
  }

  // ---------------------------------------------------------------- by the facts

  // A name that a statement may use: a global, a variable that some fact binds, or one of an earlier let.
  ghost predicate InScope(nm: Names, facts: seq<Fact>, sts: seq<Stmt>, i: nat, v: Leaf) {
    FactsBind(nm, facts, v) || exists j :: 0 <= j < i && j < |sts| && sts[j].SLet? && sts[j].v == v
  }

  // The i-th statement binds a name again, or else uses one that is not bound.
  ghost predicate Misused(nm: Names, facts: seq<Fact>, sts: seq<Stmt>, i: nat, e: Error)
    requires i < |sts|
  {
    if sts[i].SLet? && InScope(nm, facts, sts, i, sts[i].v) then e == AlreadyDefined(sts[i].v.name)
    else exists v :: StmtMentions(sts[i], v) && v.name !in nm.globals && !InScope(nm, facts, sts, i, v) && e == Unbound(v.name)
  }

  lemma {:induction false} UserMention(nm: Names, e: Expr, v: Leaf)
    requires UserExpr(nm, e) && IsUser(nm, e, v)
    ensures Older(nm, Var(v), 0)
    decreases e, 0
  {
    if e.CallExpr? {
      UserMentions(nm, e.args, v);
    }
  }

  lemma {:induction false} UserMentions(nm: Names, es: seq<Expr>, v: Leaf)
    requires UserExprs(nm, es) && AnyUser(nm, es, v)
    ensures Older(nm, Var(v), 0)
    decreases es, 1
  {
    AnyMentionsCons(es, v);
    if Mentions(es[0], v) { UserMention(nm, es[0], v); } else { UserMentions(nm, es[1..], v); }
  }

  lemma {:induction false} MisusedByFacts(nm: Names, cfg: Config, facts: seq<Fact>, sts: seq<Stmt>, bound: set<Leaf>, i: nat, e: Error)
    requires UserStmts(nm, cfg, sts) && i < |sts|
    requires forall v :: Older(nm, Var(v), 0) ==> (v in bound <==> FactsBind(nm, facts, v))
    ensures MisusedIn(nm, bound, sts, i, e) <==> Misused(nm, facts, sts, i, e)
  {
    assert UserStmt(nm, cfg, sts[i]);
    forall v | Older(nm, Var(v), 0) ensures Known(bound, sts, i, v) <==> InScope(nm, facts, sts, i, v) {}
    forall v | StmtMentions(sts[i], v) && v.name !in nm.globals ensures Known(bound, sts, i, v) <==> InScope(nm, facts, sts, i, v) {
      OperandsAreMentions(cfg, sts[i], v);
      UserMentions(nm, Operands(cfg, sts[i]), v);
    }
  }

  ghost predicate FirstMisused(nm: Names, facts: seq<Fact>, sts: seq<Stmt>, i: nat, e: Error) {
    i < |sts| && Misused(nm, facts, sts, i, e) && forall j, e' :: 0 <= j < i ==> !Misused(nm, facts, sts, j, e')
  }

  // An error names a misuse in the first statement that has one; without an error there is none.
  lemma {:induction false} ErrorsAreMisuses(nm: Names, cfg: Config, facts: seq<Fact>, sts: seq<Stmt>, bound: set<Leaf>) returns (i: nat)
    requires UserStmts(nm, cfg, sts) && forall v :: Older(nm, Var(v), 0) ==> (v in bound <==> FactsBind(nm, facts, v))
    ensures var f := FirstError(nm, cfg, sts, bound);
      if f.Some? then FirstMisused(nm, facts, sts, i, f.value) else forall j, e :: 0 <= j < |sts| ==> !Misused(nm, facts, sts, j, e)
  {
    i := FirstErrorIsMisuse(nm, cfg, sts, bound);
    forall j: nat, e | j < |sts| ensures MisusedIn(nm, bound, sts, j, e) <==> Misused(nm, facts, sts, j, e) {
      MisusedByFacts(nm, cfg, facts, sts, bound, j, e);
    }
  }
}
