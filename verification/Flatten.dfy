// Nested query expressions flattened into atoms over fresh variables.
module FlattenModel {
  import opened CoreIR
  import opened Options
  import opened GroundedModel
  import opened RuleModel
  import opened CanonicalizeModel

  datatype Expr = LitExpr(l: Literal) | VarExpr(v: Leaf) | CallExpr(head: Head, args: seq<Expr>)

  // A tuple fact is `(= (values values... last) (head args...))`, in either order.
  datatype Fact = EqFact(a: Expr, b: Expr) | ExprFact(e: Expr) | TupleFact(head: Head, args: seq<Expr>, values: seq<Expr>, last: Expr)

  // The names that are globals, and a supply of names none of which a user writes.
  datatype Names = Names(globals: set<string>, supply: nat -> string)

  ghost predicate Distinct(nm: Names) {
    forall i, j :: nm.supply(i) == nm.supply(j) ==> i == j
  }

  function Fresh(nm: Names, i: nat, h: Head): Leaf { Leaf(nm.supply(i), h.output) }

  function TermFor(nm: Names, v: Leaf): Term {
    if v.name in nm.globals then Global(v) else Var(v)
  }

  // The term is not a variable named by the supply from the n-th name on.
  ghost predicate Older(nm: Names, t: Term, n: nat) {
    t.Var? ==> forall i :: n <= i ==> t.v.name != nm.supply(i)
  }

  ghost predicate AllOlder(nm: Names, ts: seq<Term>, n: nat) {
    forall k :: 0 <= k < |ts| ==> Older(nm, ts[k], n)
  }

  // The expression's variables are not names of the supply.
  ghost predicate UserExpr(nm: Names, e: Expr)
    decreases e, 0
  {
    match e
    case LitExpr(_) => true
    case VarExpr(v) => Older(nm, TermFor(nm, v), 0)
    case CallExpr(_, args) => UserExprs(nm, args)
  }

  ghost predicate UserExprs(nm: Names, es: seq<Expr>)
    decreases es, 1
  {
    es != [] ==> UserExpr(nm, es[0]) && UserExprs(nm, es[1..])
  }

  // ---------------------------------------------------------------- flattening

  datatype Query = Query(atoms: seq<Atom>, term: Term, next: nat)
  datatype Queries = Queries(atoms: seq<Atom>, terms: seq<Term>, next: nat)

  // The name for a call is taken before those for its arguments.
  function ToQuery(nm: Names, e: Expr, n: nat): Query
    decreases e, 0
  {
    match e
    case LitExpr(l) => Query([], Lit(l), n)
    case VarExpr(v) => Query([], TermFor(nm, v), n)
    case CallExpr(h, args) =>
      var q := ToQueries(nm, args, n + 1);
      var out := Var(Fresh(nm, n, h));
      Query(q.atoms + [Atom(Call(h), q.terms + [out])], out, q.next)
  }

  function ToQueries(nm: Names, es: seq<Expr>, n: nat): (r: Queries)
    ensures |r.terms| == |es|
    decreases es, 1
  {
    if es == [] then Queries([], [], n)
    else
      var q := ToQuery(nm, es[0], n);
      var rest := ToQueries(nm, es[1..], q.next);
      Queries(q.atoms + rest.atoms, [q.term] + rest.terms, rest.next)
  }

  function FactsToQuery(nm: Names, facts: seq<Fact>, n: nat): Queries {
    if facts == [] then Queries([], [], n)
    else
      var init := FactsToQuery(nm, facts[..|facts| - 1], n);
      var f := facts[|facts| - 1];
      Queries(init.atoms + FactAtoms(nm, f, init.next), [], FactNext(nm, f, init.next))
  }

  // The columns of the atom that a tuple fact becomes: its targets are the call's outputs.
  function TupleColumns(args: seq<Expr>, values: seq<Expr>, last: Expr): seq<Expr> {
    args + values + [last]
  }

  // The atoms one fact adds, starting with the n-th name.
  function FactAtoms(nm: Names, f: Fact, n: nat): seq<Atom> {
    match f
    case ExprFact(e) => ToQuery(nm, e, n).atoms
    case EqFact(a, b) =>
      var q := ToQuery(nm, a, n);
      var r := ToQuery(nm, b, q.next);
      q.atoms + r.atoms + [Atom(Eq, [q.term, r.term])]
    case TupleFact(h, args, values, last) =>
      var q := ToQueries(nm, TupleColumns(args, values, last), n);
      q.atoms + [Atom(Call(h), q.terms)]
  }

  // A tuple fact takes two more names, which no atom mentions.
  function FactNext(nm: Names, f: Fact, n: nat): nat {
    match f
    case ExprFact(e) => ToQuery(nm, e, n).next
    case EqFact(a, b) => ToQuery(nm, b, ToQuery(nm, a, n).next).next
    case TupleFact(_, args, values, last) => ToQueries(nm, TupleColumns(args, values, last), n).next + 2
  }

  // ---------------------------------------------------------------- direct meaning

  // A global's value, or the valuation's for any other name.
  function VarValue(nm: Names, globals: map<Leaf, Value>, env: Env, v: Leaf): Value {
    if v.name in nm.globals then (if v in globals then globals[v] else Base(Unit))
    else if Var(v) in env then env[Var(v)] else Base(Unit)
  }

  ghost function Eval(db: Db, nm: Names, env: Env, e: Expr): Option<Value>
    decreases e, 0
  {
    match e
    case LitExpr(l) => Some(Base(l))
    case VarExpr(v) => Some(VarValue(nm, db.globals, env, v))
    case CallExpr(h, args) =>
      var vs := EvalAll(db, nm, env, args);
      if vs.None? then None else Apply(db, h, vs.value)
  }

  ghost function EvalAll(db: Db, nm: Names, env: Env, es: seq<Expr>): (r: Option<seq<Value>>)
    ensures r.Some? ==> |r.value| == |es|
    decreases es, 1
  {
    if es == [] then Some([])
    else
      var v := Eval(db, nm, env, es[0]);
      var vs := EvalAll(db, nm, env, es[1..]);
      if v.None? || vs.None? then None else Some([v.value] + vs.value)
  }

  ghost predicate FactHolds(db: Db, nm: Names, env: Env, f: Fact) {
    match f
    case ExprFact(e) => Eval(db, nm, env, e).Some?
    case EqFact(a, b) => Eval(db, nm, env, a).Some? && Eval(db, nm, env, a) == Eval(db, nm, env, b)
    case TupleFact(h, args, values, last) =>
      var vs, us, u := EvalAll(db, nm, env, args), EvalAll(db, nm, env, values), Eval(db, nm, env, last);
      vs.Some? && us.Some? && u.Some? && Apply(db, h, vs.value + us.value) == u
  }

  // The row is in the table: its last column is what the others determine.
  ghost predicate RowHolds(db: Db, h: Head, row: seq<Value>)
    requires row != []
  {
    Apply(db, h, row[..|row| - 1]) == Some(row[|row| - 1])
  }

  ghost predicate FactsHold(db: Db, nm: Names, env: Env, facts: seq<Fact>) {
    forall i :: 0 <= i < |facts| ==> FactHolds(db, nm, env, facts[i])
  }

  lemma {:induction false} EvalAllConcat(db: Db, nm: Names, env: Env, a: seq<Expr>, b: seq<Expr>)
    ensures var vs, us, r := EvalAll(db, nm, env, a), EvalAll(db, nm, env, b), EvalAll(db, nm, env, a + b);
      r == if vs.Some? && us.Some? then Some(vs.value + us.value) else None
  {
    var us := EvalAll(db, nm, env, b);
    if a == [] {
      assert a + b == b;
      if us.Some? { assert [] + us.value == us.value; }
    } else {
      assert (a + b)[1..] == a[1..] + b;
      EvalAllConcat(db, nm, env, a[1..], b);
      var v, vs := Eval(db, nm, env, a[0]), EvalAll(db, nm, env, a[1..]);
      if v.Some? && vs.Some? && us.Some? { assert [v.value] + (vs.value + us.value) == [v.value] + vs.value + us.value; }
    }
  }

  // A tuple fact is a row of all its columns: the arguments, then the values.
  lemma {:induction false} TupleIsRow(db: Db, nm: Names, env: Env, f: Fact)
    requires f.TupleFact?
    ensures var row := EvalAll(db, nm, env, TupleColumns(f.args, f.values, f.last));
      FactHolds(db, nm, env, f) <==> row.Some? && RowHolds(db, f.head, row.value)
  {
    EvalAllConcat(db, nm, env, f.args, f.values);
    EvalAllConcat(db, nm, env, f.args + f.values, [f.last]);
    assert [f.last][1..] == [];
    var row := EvalAll(db, nm, env, TupleColumns(f.args, f.values, f.last));
    if row.Some? {
      var vs, us := EvalAll(db, nm, env, f.args).value, EvalAll(db, nm, env, f.values).value;
      assert row.value[..|row.value| - 1] == vs + us;
    }
  }

  // ---------------------------------------------------------------- shape

  lemma {:induction false} QueryShape(nm: Names, e: Expr, n: nat)
    ensures var q := ToQuery(nm, e, n); n <= q.next && AllWellShaped(q.atoms)
    decreases e, 0
  {
    if e.CallExpr? { QueriesShape(nm, e.args, n + 1); }
  }

  lemma {:induction false} QueriesShape(nm: Names, es: seq<Expr>, n: nat)
    ensures var q := ToQueries(nm, es, n); n <= q.next && AllWellShaped(q.atoms)
    decreases es, 1
  {
    if es != [] {
      QueryShape(nm, es[0], n);
      QueriesShape(nm, es[1..], ToQuery(nm, es[0], n).next);
    }
  }

  ghost predicate AtomsOlder(nm: Names, atoms: seq<Atom>, n: nat) {
    forall i :: 0 <= i < |atoms| ==> AllOlder(nm, atoms[i].args, n)
  }

  lemma {:induction false} OlderLater(nm: Names, atoms: seq<Atom>, m: nat, n: nat)
    requires m <= n && AtomsOlder(nm, atoms, m)
    ensures AtomsOlder(nm, atoms, n)
  {
    forall i | 0 <= i < |atoms| ensures AllOlder(nm, atoms[i].args, n) {
      assert AllOlder(nm, atoms[i].args, m);
    }
  }

  // Everything a query mentions is a user's name or a fresh one taken so far.
  lemma {:induction false} QueryNames(nm: Names, e: Expr, n: nat)
    requires Distinct(nm) && UserExpr(nm, e)
    ensures var q := ToQuery(nm, e, n); n <= q.next && AtomsOlder(nm, q.atoms, q.next) && Older(nm, q.term, q.next)
    decreases e, 0
  {
    QueryShape(nm, e, n);
    if e.CallExpr? {
      QueriesNames(nm, e.args, n + 1);
      QueriesShape(nm, e.args, n + 1);
      var q := ToQueries(nm, e.args, n + 1);
      var out := Var(Fresh(nm, n, e.head));
      assert Older(nm, out, n + 1);
      assert AllOlder(nm, q.terms + [out], q.next);
    }
  }

  lemma {:induction false} QueriesNames(nm: Names, es: seq<Expr>, n: nat)
    requires Distinct(nm) && UserExprs(nm, es)
    ensures var q := ToQueries(nm, es, n); n <= q.next && AtomsOlder(nm, q.atoms, q.next) && AllOlder(nm, q.terms, q.next)
    decreases es, 1
  {
    if es != [] {
      var q := ToQuery(nm, es[0], n);
      QueryNames(nm, es[0], n);
      QueriesNames(nm, es[1..], q.next);
      OlderLater(nm, q.atoms, q.next, ToQueries(nm, es[1..], q.next).next);
    }
  }

  // ---------------------------------------------------------------- soundness

  // Where the atoms hold, the expression has the value of its root term.
  lemma {:induction false} QuerySound(db: Db, nm: Names, env: Env, e: Expr, n: nat)
    requires AllWellShaped(ToQuery(nm, e, n).atoms) && HoldsAll(db, env, ToQuery(nm, e, n).atoms)
    ensures Eval(db, nm, env, e) == Some(TermValue(db.globals, env, ToQuery(nm, e, n).term))
    decreases e, 0
  {
    if e.CallExpr? {
      var q := ToQueries(nm, e.args, n + 1);
      var out := Var(Fresh(nm, n, e.head));
      var last := Atom(Call(e.head), q.terms + [out]);
      QueriesShape(nm, e.args, n + 1);
      HoldsAllConcat(db, env, q.atoms, [last]);
      HoldsOne(db, env, last);
      QueriesSound(db, nm, env, e.args, n + 1);
      assert Inputs(last) == q.terms;
    }
  }

  lemma {:induction false} QueriesSound(db: Db, nm: Names, env: Env, es: seq<Expr>, n: nat)
    requires AllWellShaped(ToQueries(nm, es, n).atoms) && HoldsAll(db, env, ToQueries(nm, es, n).atoms)
    ensures EvalAll(db, nm, env, es) == Some(TermValues(db.globals, env, ToQueries(nm, es, n).terms))
    decreases es, 1
  {
    if es != [] {
      var q := ToQuery(nm, es[0], n);
      var rest := ToQueries(nm, es[1..], q.next);
      QueryShape(nm, es[0], n);
      QueriesShape(nm, es[1..], q.next);
      HoldsAllConcat(db, env, q.atoms, rest.atoms);
      QuerySound(db, nm, env, es[0], n);
      QueriesSound(db, nm, env, es[1..], q.next);
      assert ([q.term] + rest.terms)[1..] == rest.terms;
    }
  }

  // ---------------------------------------------------------------- completeness

  // Equal on every variable that is not one of the fresh names from the n-th on.
  ghost predicate AgreeBelow(nm: Names, x: Env, y: Env, n: nat) {
    forall t: Term :: t.Var? && Older(nm, t, n) ==> (t in x <==> t in y) && (t in x ==> x[t] == y[t])
  }

  lemma {:induction false} AgreeValue(nm: Names, globals: map<Leaf, Value>, x: Env, y: Env, n: nat, t: Term)
    requires AgreeBelow(nm, x, y, n) && Older(nm, t, n)
    ensures TermValue(globals, x, t) == TermValue(globals, y, t)
  {}

  lemma {:induction false} AgreeValues(nm: Names, globals: map<Leaf, Value>, x: Env, y: Env, n: nat, ts: seq<Term>)
    requires AgreeBelow(nm, x, y, n) && AllOlder(nm, ts, n)
    ensures TermValues(globals, x, ts) == TermValues(globals, y, ts)
  {
    forall k | 0 <= k < |ts| ensures TermValue(globals, x, ts[k]) == TermValue(globals, y, ts[k]) {
      AgreeValue(nm, globals, x, y, n, ts[k]);
    }
  }

  lemma {:induction false} AgreeHolds(db: Db, nm: Names, x: Env, y: Env, n: nat, atoms: seq<Atom>)
    requires AgreeBelow(nm, x, y, n) && AtomsOlder(nm, atoms, n) && AllWellShaped(atoms) && HoldsAll(db, x, atoms)
    ensures HoldsAll(db, y, atoms)
  {
    forall i | 0 <= i < |atoms| ensures Holds(db, y, atoms[i]) {
      assert AllOlder(nm, atoms[i].args, n) && Holds(db, x, atoms[i]);
      forall k | 0 <= k < |atoms[i].args| ensures TermValue(db.globals, x, atoms[i].args[k]) == TermValue(db.globals, y, atoms[i].args[k]) {
        AgreeValue(nm, db.globals, x, y, n, atoms[i].args[k]);
      }
      if atoms[i].head.Call? {
        assert TermValues(db.globals, x, Inputs(atoms[i])) == TermValues(db.globals, y, Inputs(atoms[i]));
      }
    }
  }

  lemma {:induction false} EvalAgree(db: Db, nm: Names, x: Env, y: Env, e: Expr)
    requires AgreeBelow(nm, x, y, 0) && UserExpr(nm, e)
    ensures Eval(db, nm, x, e) == Eval(db, nm, y, e)
    decreases e, 0
  {
    if e.CallExpr? { EvalAllAgree(db, nm, x, y, e.args); }
  }

  lemma {:induction false} EvalAllAgree(db: Db, nm: Names, x: Env, y: Env, es: seq<Expr>)
    requires AgreeBelow(nm, x, y, 0) && UserExprs(nm, es)
    ensures EvalAll(db, nm, x, es) == EvalAll(db, nm, y, es)
    decreases es, 1
  {
    if es != [] {
      EvalAgree(db, nm, x, y, es[0]);
      EvalAllAgree(db, nm, x, y, es[1..]);
    }
  }

  lemma {:induction false} AgreeTrans(nm: Names, x: Env, y: Env, z: Env, m: nat, n: nat)
    requires m <= n && AgreeBelow(nm, x, y, m) && AgreeBelow(nm, y, z, n)
    ensures AgreeBelow(nm, x, z, m) && AgreeBelow(nm, x, y, 0)
  {}

  // Where the expression has a value, the fresh variables can be given values that make the atoms
  // hold, without touching older variables.
  lemma {:induction false} QueryComplete(db: Db, nm: Names, env: Env, e: Expr, n: nat) returns (x: Env)
    requires Distinct(nm) && UserExpr(nm, e) && Eval(db, nm, env, e).Some?
    ensures AgreeBelow(nm, env, x, n)
    ensures AllWellShaped(ToQuery(nm, e, n).atoms) && HoldsAll(db, x, ToQuery(nm, e, n).atoms)
    decreases e, 0
  {
    QueryShape(nm, e, n);
    if !e.CallExpr? {
      x := env;
    } else {
      var q := ToQueries(nm, e.args, n + 1);
      var y := QueriesComplete(db, nm, env, e.args, n + 1);
      QueriesNames(nm, e.args, n + 1);
      var out := Var(Fresh(nm, n, e.head));
      var last := Atom(Call(e.head), q.terms + [out]);
      x := y[out := Eval(db, nm, env, e).value];
      FreshOutHolds(db, nm, env, e, n, y);
      HoldsOne(db, x, last);
      HoldsAllConcat(db, x, q.atoms, [last]);
    }
  }

  // A name taken earlier does not occur in what is flattened later.
  lemma {:induction false} SkipNames(nm: Names, es: seq<Expr>, n: nat, m: nat, out: Term)
    requires Distinct(nm) && UserExprs(nm, es) && m < n && out.Var? && out.v.name == nm.supply(m)
    ensures var q := ToQueries(nm, es, n);
      && (forall i :: 0 <= i < |q.atoms| ==> out !in q.atoms[i].args) && out !in q.terms
    decreases es, 1
  {
    if es != [] {
      var q := ToQuery(nm, es[0], n);
      SkipName(nm, es[0], n, m, out);
      QueryShape(nm, es[0], n);
      SkipNames(nm, es[1..], q.next, m, out);
    }
  }

  lemma {:induction false} SkipName(nm: Names, e: Expr, n: nat, m: nat, out: Term)
    requires Distinct(nm) && UserExpr(nm, e) && m < n && out.Var? && out.v.name == nm.supply(m)
    ensures var q := ToQuery(nm, e, n);
      && (forall i :: 0 <= i < |q.atoms| ==> out !in q.atoms[i].args) && out != q.term
    decreases e, 0
  {
    if e.CallExpr? { SkipNames(nm, e.args, n + 1, m, out); }
  }

  // Giving a value to a variable that occurs nowhere changes nothing.
  lemma {:induction false} UnusedVarHolds(db: Db, y: Env, out: Term, v: Value, atoms: seq<Atom>)
    requires AllWellShaped(atoms) && HoldsAll(db, y, atoms)
    requires forall i :: 0 <= i < |atoms| ==> out !in atoms[i].args
    ensures HoldsAll(db, y[out := v], atoms)
  {
    var x := y[out := v];
    forall i | 0 <= i < |atoms| ensures Holds(db, x, atoms[i]) {
      var a := atoms[i];
      assert Holds(db, y, a) && out !in a.args;
      assert forall k :: 0 <= k < |a.args| ==> TermValue(db.globals, x, a.args[k]) == TermValue(db.globals, y, a.args[k]);
      if a.head.Call? { assert TermValues(db.globals, x, Inputs(a)) == TermValues(db.globals, y, Inputs(a)); }
    }
  }

  // A call's own atom holds once its output variable has the call's value.
  lemma {:induction false} CallHolds(db: Db, h: Head, terms: seq<Term>, out: Term, y: Env)
    requires out.Var? && out !in terms && Apply(db, h, TermValues(db.globals, y, terms)).Some?
    ensures var v := Apply(db, h, TermValues(db.globals, y, terms)).value;
      Holds(db, y[out := v], Atom(Call(h), terms + [out]))
  {
    var x := y[out := Apply(db, h, TermValues(db.globals, y, terms)).value];
    assert Inputs(Atom(Call(h), terms + [out])) == terms;
    assert TermValues(db.globals, x, terms) == TermValues(db.globals, y, terms);
  }

  lemma {:induction false} FreshOutHolds(db: Db, nm: Names, env: Env, e: Expr, n: nat, y: Env)
    requires Distinct(nm) && UserExpr(nm, e) && e.CallExpr? && Eval(db, nm, env, e).Some?
    requires AgreeBelow(nm, env, y, n + 1)
    requires var q := ToQueries(nm, e.args, n + 1); AllWellShaped(q.atoms) && HoldsAll(db, y, q.atoms)
    ensures var q := ToQueries(nm, e.args, n + 1); var out := Var(Fresh(nm, n, e.head));
            var x := y[out := Eval(db, nm, env, e).value];
      && AgreeBelow(nm, env, x, n) && HoldsAll(db, x, q.atoms)
      && Holds(db, x, Atom(Call(e.head), q.terms + [out]))
  {
    var q := ToQueries(nm, e.args, n + 1);
    var out := Var(Fresh(nm, n, e.head));
    var v := Eval(db, nm, env, e).value;
    SkipNames(nm, e.args, n + 1, n, out);
    UnusedVarHolds(db, y, out, v, q.atoms);
    QueriesSound(db, nm, y, e.args, n + 1);
    AgreeTrans(nm, env, y, y, n + 1, n + 1);
    EvalAllAgree(db, nm, env, y, e.args);
    CallHolds(db, e.head, q.terms, out, y);
  }

  lemma {:induction false} QueriesComplete(db: Db, nm: Names, env: Env, es: seq<Expr>, n: nat) returns (x: Env)
    requires Distinct(nm) && UserExprs(nm, es) && EvalAll(db, nm, env, es).Some?
    ensures AgreeBelow(nm, env, x, n)
    ensures AllWellShaped(ToQueries(nm, es, n).atoms) && HoldsAll(db, x, ToQueries(nm, es, n).atoms)
    decreases es, 1
  {
    if es == [] {
      x := env;
    } else {
      var q := ToQuery(nm, es[0], n);
      QueryNames(nm, es[0], n);
      QueryShape(nm, es[0], n);
      var y := QueryComplete(db, nm, env, es[0], n);
      AgreeTrans(nm, env, y, y, n, n);
      EvalAllAgree(db, nm, env, y, es[1..]);
      x := QueriesComplete(db, nm, y, es[1..], q.next);
      AgreeTrans(nm, env, y, x, n, q.next);
      AgreeHolds(db, nm, y, x, q.next, q.atoms);
      HoldsAllConcat(db, x, q.atoms, ToQueries(nm, es[1..], q.next).atoms);
    }
  }

  // ---------------------------------------------------------------- uniqueness

  ghost predicate SameOn(globals: map<Leaf, Value>, x: Env, y: Env, atoms: seq<Atom>) {
    forall i, k :: 0 <= i < |atoms| && 0 <= k < |atoms[i].args| ==>
      TermValue(globals, x, atoms[i].args[k]) == TermValue(globals, y, atoms[i].args[k])
  }

  lemma {:induction false} TermValuesSnoc(globals: map<Leaf, Value>, x: Env, ts: seq<Term>, t: Term)
    ensures TermValues(globals, x, ts + [t]) == TermValues(globals, x, ts) + [TermValue(globals, x, t)]
  {}

  // Two ways to make the atoms hold that agree on the user's variables agree on all variables.
  lemma {:induction false} QueryUnique(db: Db, nm: Names, x: Env, y: Env, e: Expr, n: nat)
    requires UserExpr(nm, e) && AgreeBelow(nm, x, y, 0) && AllWellShaped(ToQuery(nm, e, n).atoms)
    requires HoldsAll(db, x, ToQuery(nm, e, n).atoms) && HoldsAll(db, y, ToQuery(nm, e, n).atoms)
    ensures SameOn(db.globals, x, y, ToQuery(nm, e, n).atoms)
    ensures TermValue(db.globals, x, ToQuery(nm, e, n).term) == TermValue(db.globals, y, ToQuery(nm, e, n).term)
    decreases e, 0
  {
    QuerySound(db, nm, x, e, n);
    QuerySound(db, nm, y, e, n);
    EvalAgree(db, nm, x, y, e);
    if e.CallExpr? {
      var q := ToQueries(nm, e.args, n + 1);
      var out := Var(Fresh(nm, n, e.head));
      var last := Atom(Call(e.head), q.terms + [out]);
      QueriesShape(nm, e.args, n + 1);
      HoldsAllConcat(db, x, q.atoms, [last]);
      HoldsAllConcat(db, y, q.atoms, [last]);
      QueriesUnique(db, nm, x, y, e.args, n + 1);
      TermValuesSnoc(db.globals, x, q.terms, out);
      TermValuesSnoc(db.globals, y, q.terms, out);
      SameOnSnoc(db.globals, x, y, q.atoms, last);
    }
  }

  lemma {:induction false} QueriesUnique(db: Db, nm: Names, x: Env, y: Env, es: seq<Expr>, n: nat)
    requires UserExprs(nm, es) && AgreeBelow(nm, x, y, 0) && AllWellShaped(ToQueries(nm, es, n).atoms)
    requires HoldsAll(db, x, ToQueries(nm, es, n).atoms) && HoldsAll(db, y, ToQueries(nm, es, n).atoms)
    ensures SameOn(db.globals, x, y, ToQueries(nm, es, n).atoms)
    ensures TermValues(db.globals, x, ToQueries(nm, es, n).terms) == TermValues(db.globals, y, ToQueries(nm, es, n).terms)
    decreases es, 1
  {
    if es != [] {
      var q := ToQuery(nm, es[0], n);
      var rest := ToQueries(nm, es[1..], q.next);
      QueryShape(nm, es[0], n);
      QueriesShape(nm, es[1..], q.next);
      HoldsAllConcat(db, x, q.atoms, rest.atoms);
      HoldsAllConcat(db, y, q.atoms, rest.atoms);
      QueryUnique(db, nm, x, y, es[0], n);
      QueriesUnique(db, nm, x, y, es[1..], q.next);
      assert ([q.term] + rest.terms)[1..] == rest.terms;
    }
  }

  // ---------------------------------------------------------------- rule bodies

  ghost predicate UserFact(nm: Names, f: Fact) {
    match f
    case ExprFact(e) => UserExpr(nm, e)
    case EqFact(a, b) => UserExpr(nm, a) && UserExpr(nm, b)
    case TupleFact(_, args, values, last) => UserExprs(nm, TupleColumns(args, values, last))
  }

  ghost predicate UserFacts(nm: Names, facts: seq<Fact>) {
    forall i :: 0 <= i < |facts| ==> UserFact(nm, facts[i])
  }

  lemma {:induction false} FactShape(nm: Names, f: Fact, n: nat)
    ensures n <= FactNext(nm, f, n) && AllWellShaped(FactAtoms(nm, f, n))
  {
    match f
    case ExprFact(e) => QueryShape(nm, e, n);
    case EqFact(a, b) =>
      QueryShape(nm, a, n);
      QueryShape(nm, b, ToQuery(nm, a, n).next);
    case TupleFact(_, args, values, last) => QueriesShape(nm, TupleColumns(args, values, last), n);
  }

  lemma {:induction false} FactNames(nm: Names, f: Fact, n: nat)
    requires Distinct(nm) && UserFact(nm, f)
    ensures AtomsOlder(nm, FactAtoms(nm, f, n), FactNext(nm, f, n))
  {
    match f
    case ExprFact(e) => QueryNames(nm, e, n);
    case EqFact(a, b) =>
      var q := ToQuery(nm, a, n);
      QueryNames(nm, a, n);
      QueryNames(nm, b, q.next);
      OlderLater(nm, q.atoms, q.next, FactNext(nm, f, n));
    case TupleFact(_, args, values, last) =>
      var q := ToQueries(nm, TupleColumns(args, values, last), n);
      QueriesNames(nm, TupleColumns(args, values, last), n);
      assert AtomsOlder(nm, FactAtoms(nm, f, n), q.next);
      OlderLater(nm, FactAtoms(nm, f, n), q.next, q.next + 2);
  }

  lemma {:induction false} RowAtomHolds(db: Db, env: Env, h: Head, terms: seq<Term>)
    requires terms != []
    ensures WellShaped(Atom(Call(h), terms))
    ensures Holds(db, env, Atom(Call(h), terms)) <==> RowHolds(db, h, TermValues(db.globals, env, terms))
  {
    var row := TermValues(db.globals, env, terms);
    assert TermValues(db.globals, env, Inputs(Atom(Call(h), terms))) == row[..|row| - 1];
  }

  lemma {:induction false} TupleFactHolds(db: Db, nm: Names, env: Env, f: Fact, n: nat)
    requires f.TupleFact?
    ensures var q := ToQueries(nm, TupleColumns(f.args, f.values, f.last), n);
      && AllWellShaped(q.atoms) && AllWellShaped(FactAtoms(nm, f, n))
      && (HoldsAll(db, env, FactAtoms(nm, f, n)) <==> HoldsAll(db, env, q.atoms) && RowHolds(db, f.head, TermValues(db.globals, env, q.terms)))
  {
    var cols := TupleColumns(f.args, f.values, f.last);
    var q := ToQueries(nm, cols, n);
    var last := Atom(Call(f.head), q.terms);
    QueriesShape(nm, cols, n);
    RowAtomHolds(db, env, f.head, q.terms);
    HoldsOne(db, env, last);
    HoldsAllConcat(db, env, q.atoms, [last]);
  }

  lemma {:induction false} EqFactHolds(db: Db, nm: Names, env: Env, a: Expr, b: Expr, n: nat)
    requires AllWellShaped(FactAtoms(nm, EqFact(a, b), n))
    ensures var q := ToQuery(nm, a, n); var r := ToQuery(nm, b, q.next);
      && AllWellShaped(q.atoms) && AllWellShaped(r.atoms)
      && (HoldsAll(db, env, FactAtoms(nm, EqFact(a, b), n)) <==>
            && HoldsAll(db, env, q.atoms) && HoldsAll(db, env, r.atoms)
            && TermValue(db.globals, env, q.term) == TermValue(db.globals, env, r.term))
  {
    var q := ToQuery(nm, a, n);
    var r := ToQuery(nm, b, q.next);
    QueryShape(nm, a, n);
    QueryShape(nm, b, q.next);
    var eq := Atom(Eq, [q.term, r.term]);
    HoldsOne(db, env, eq);
    HoldsAllConcat(db, env, q.atoms, r.atoms);
    HoldsAllConcat(db, env, q.atoms + r.atoms, [eq]);
  }

  lemma {:induction false} FactSound(db: Db, nm: Names, env: Env, f: Fact, n: nat)
    requires AllWellShaped(FactAtoms(nm, f, n)) && HoldsAll(db, env, FactAtoms(nm, f, n))
    ensures FactHolds(db, nm, env, f)
  {
    match f
    case ExprFact(e) => QuerySound(db, nm, env, e, n);
    case EqFact(a, b) =>
      EqFactHolds(db, nm, env, a, b, n);
      QuerySound(db, nm, env, a, n);
      QuerySound(db, nm, env, b, ToQuery(nm, a, n).next);
    case TupleFact(_, args, values, last) =>
      TupleFactHolds(db, nm, env, f, n);
      QueriesSound(db, nm, env, TupleColumns(args, values, last), n);
      TupleIsRow(db, nm, env, f);
  }

  lemma {:induction false} FactComplete(db: Db, nm: Names, env: Env, f: Fact, n: nat) returns (x: Env)
    requires Distinct(nm) && UserFact(nm, f) && FactHolds(db, nm, env, f)
    ensures AgreeBelow(nm, env, x, n)
    ensures AllWellShaped(FactAtoms(nm, f, n)) && HoldsAll(db, x, FactAtoms(nm, f, n))
  {
    FactShape(nm, f, n);
    match f
    case ExprFact(e) => x := QueryComplete(db, nm, env, e, n);
    case EqFact(a, b) =>
      var q := ToQuery(nm, a, n);
      var y := QueryComplete(db, nm, env, a, n);
      QueryNames(nm, a, n);
      AgreeTrans(nm, env, y, y, n, n);
      EvalAgree(db, nm, env, y, a);
      EvalAgree(db, nm, env, y, b);
      x := QueryComplete(db, nm, y, b, q.next);
      AgreeTrans(nm, env, y, x, n, q.next);
      AgreeHolds(db, nm, y, x, q.next, q.atoms);
      QuerySound(db, nm, y, a, n);
      AgreeValue(nm, db.globals, y, x, q.next, q.term);
      AgreeTrans(nm, y, x, x, q.next, q.next);
      EvalAgree(db, nm, y, x, b);
      QuerySound(db, nm, x, b, q.next);
      EqFactHolds(db, nm, x, a, b, n);
    case TupleFact(_, args, values, last) =>
      var cols := TupleColumns(args, values, last);
      TupleIsRow(db, nm, env, f);
      x := QueriesComplete(db, nm, env, cols, n);
      AgreeTrans(nm, env, x, x, n, n);
      EvalAllAgree(db, nm, env, x, cols);
      QueriesSound(db, nm, x, cols, n);
      TupleFactHolds(db, nm, x, f, n);
  }

  lemma {:induction false} FactUnique(db: Db, nm: Names, x: Env, y: Env, f: Fact, n: nat)
    requires UserFact(nm, f) && AgreeBelow(nm, x, y, 0) && AllWellShaped(FactAtoms(nm, f, n))
    requires HoldsAll(db, x, FactAtoms(nm, f, n)) && HoldsAll(db, y, FactAtoms(nm, f, n))
    ensures SameOn(db.globals, x, y, FactAtoms(nm, f, n))
  {
    match f
    case ExprFact(e) => QueryUnique(db, nm, x, y, e, n);
    case EqFact(a, b) =>
      var q := ToQuery(nm, a, n);
      var r := ToQuery(nm, b, q.next);
      EqFactHolds(db, nm, x, a, b, n);
      EqFactHolds(db, nm, y, a, b, n);
      QueryUnique(db, nm, x, y, a, n);
      QueryUnique(db, nm, x, y, b, q.next);
    case TupleFact(_, args, values, last) => TupleUnique(db, nm, x, y, f, n);
  }

  lemma {:induction false} SameOnSnoc(globals: map<Leaf, Value>, x: Env, y: Env, atoms: seq<Atom>, last: Atom)
    requires SameOn(globals, x, y, atoms) && TermValues(globals, x, last.args) == TermValues(globals, y, last.args)
    ensures SameOn(globals, x, y, atoms + [last])
  {
    forall k | 0 <= k < |last.args| ensures TermValue(globals, x, last.args[k]) == TermValue(globals, y, last.args[k]) {
      assert TermValues(globals, x, last.args)[k] == TermValues(globals, y, last.args)[k];
    }
  }

  lemma {:induction false} TupleUnique(db: Db, nm: Names, x: Env, y: Env, f: Fact, n: nat)
    requires f.TupleFact? && UserFact(nm, f) && AgreeBelow(nm, x, y, 0) && AllWellShaped(FactAtoms(nm, f, n))
    requires HoldsAll(db, x, FactAtoms(nm, f, n)) && HoldsAll(db, y, FactAtoms(nm, f, n))
    ensures SameOn(db.globals, x, y, FactAtoms(nm, f, n))
  {
    var cols := TupleColumns(f.args, f.values, f.last);
    var q := ToQueries(nm, cols, n);
    TupleFactHolds(db, nm, x, f, n);
    TupleFactHolds(db, nm, y, f, n);
    QueriesUnique(db, nm, x, y, cols, n);
    SameOnSnoc(db.globals, x, y, q.atoms, Atom(Call(f.head), q.terms));
  }

  lemma {:induction false} FactsShape(nm: Names, facts: seq<Fact>, n: nat)
    ensures n <= FactsToQuery(nm, facts, n).next && AllWellShaped(FactsToQuery(nm, facts, n).atoms)
  {
    if facts != [] {
      FactsShape(nm, facts[..|facts| - 1], n);
      FactShape(nm, facts[|facts| - 1], FactsToQuery(nm, facts[..|facts| - 1], n).next);
    }
  }

  lemma {:induction false} FactsNames(nm: Names, facts: seq<Fact>, n: nat)
    requires Distinct(nm) && UserFacts(nm, facts)
    ensures AtomsOlder(nm, FactsToQuery(nm, facts, n).atoms, FactsToQuery(nm, facts, n).next)
  {
    if facts != [] {
      var init := FactsToQuery(nm, facts[..|facts| - 1], n);
      var f := facts[|facts| - 1];
      FactsNames(nm, facts[..|facts| - 1], n);
      FactShape(nm, f, init.next);
      FactNames(nm, f, init.next);
      OlderLater(nm, init.atoms, init.next, FactNext(nm, f, init.next));
    }
  }

  // Where the flattened body holds, so do the facts.
  lemma {:induction false} BodySound(db: Db, nm: Names, env: Env, facts: seq<Fact>, n: nat)
    requires AllWellShaped(FactsToQuery(nm, facts, n).atoms) && HoldsAll(db, env, FactsToQuery(nm, facts, n).atoms)
    ensures FactsHold(db, nm, env, facts)
  {
    if facts != [] {
      var k := |facts| - 1;
      var init := FactsToQuery(nm, facts[..k], n);
      FactsShape(nm, facts[..k], n);
      FactShape(nm, facts[k], init.next);
      HoldsAllConcat(db, env, init.atoms, FactAtoms(nm, facts[k], init.next));
      BodySound(db, nm, env, facts[..k], n);
      FactSound(db, nm, env, facts[k], init.next);
      FactsHoldSnoc(db, nm, env, facts);
    }
  }

  lemma {:induction false} FactsHoldSnoc(db: Db, nm: Names, env: Env, facts: seq<Fact>)
    requires facts != [] && FactsHold(db, nm, env, facts[..|facts| - 1]) && FactHolds(db, nm, env, facts[|facts| - 1])
    ensures FactsHold(db, nm, env, facts)
  {
    forall i | 0 <= i < |facts| ensures FactHolds(db, nm, env, facts[i]) {
      if i < |facts| - 1 { assert FactHolds(db, nm, env, facts[..|facts| - 1][i]); }
    }
  }

  // Where the facts hold, the fresh variables have values that make the flattened body hold.
  lemma {:induction false} BodyComplete(db: Db, nm: Names, env: Env, facts: seq<Fact>, n: nat) returns (x: Env)
    requires Distinct(nm) && UserFacts(nm, facts) && FactsHold(db, nm, env, facts)
    ensures AgreeBelow(nm, env, x, n)
    ensures AllWellShaped(FactsToQuery(nm, facts, n).atoms) && HoldsAll(db, x, FactsToQuery(nm, facts, n).atoms)
  {
    if facts == [] {
      x := env;
    } else {
      var k := |facts| - 1;
      var f := facts[k];
      var init := FactsToQuery(nm, facts[..k], n);
      FactsShape(nm, facts[..k], n);
      assert FactHolds(db, nm, env, f) && UserFact(nm, f);
      forall i | 0 <= i < k ensures FactHolds(db, nm, env, facts[..k][i]) && UserFact(nm, facts[..k][i]) {
        assert facts[..k][i] == facts[i];
      }
      var y := BodyComplete(db, nm, env, facts[..k], n);
      AgreeTrans(nm, env, y, y, n, n);
      FactAgree(db, nm, env, y, f);
      x := FactComplete(db, nm, y, f, init.next);
      FactsNames(nm, facts[..k], n);
      AgreeTrans(nm, env, y, x, n, init.next);
      AgreeHolds(db, nm, y, x, init.next, init.atoms);
      HoldsAllConcat(db, x, init.atoms, FactAtoms(nm, f, init.next));
    }
  }

  lemma {:induction false} FactAgree(db: Db, nm: Names, x: Env, y: Env, f: Fact)
    requires AgreeBelow(nm, x, y, 0) && UserFact(nm, f)
    ensures FactHolds(db, nm, x, f) <==> FactHolds(db, nm, y, f)
  {
    match f
    case ExprFact(e) => EvalAgree(db, nm, x, y, e);
    case EqFact(a, b) =>
      EvalAgree(db, nm, x, y, a);
      EvalAgree(db, nm, x, y, b);
    case TupleFact(_, args, values, last) =>
      TupleIsRow(db, nm, x, f);
      TupleIsRow(db, nm, y, f);
      EvalAllAgree(db, nm, x, y, TupleColumns(args, values, last));
  }

  lemma {:induction false} BodyUnique(db: Db, nm: Names, x: Env, y: Env, facts: seq<Fact>, n: nat)
    requires UserFacts(nm, facts) && AgreeBelow(nm, x, y, 0) && AllWellShaped(FactsToQuery(nm, facts, n).atoms)
    requires HoldsAll(db, x, FactsToQuery(nm, facts, n).atoms) && HoldsAll(db, y, FactsToQuery(nm, facts, n).atoms)
    ensures SameOn(db.globals, x, y, FactsToQuery(nm, facts, n).atoms)
  {
    if facts != [] {
      var k := |facts| - 1;
      var init := FactsToQuery(nm, facts[..k], n);
      FactsShape(nm, facts[..k], n);
      FactShape(nm, facts[k], init.next);
      HoldsAllConcat(db, x, init.atoms, FactAtoms(nm, facts[k], init.next));
      HoldsAllConcat(db, y, init.atoms, FactAtoms(nm, facts[k], init.next));
      forall i | 0 <= i < k ensures UserFact(nm, facts[..k][i]) { assert facts[..k][i] == facts[i]; }
      BodyUnique(db, nm, x, y, facts[..k], n);
      FactUnique(db, nm, x, y, facts[k], init.next);
    }
  }

  ghost predicate Extends(db: Db, nm: Names, facts: seq<Fact>, env: Env, x: Env) {
    var body := FactsToQuery(nm, facts, 0).atoms;
    AgreeBelow(nm, env, x, 0) && AllWellShaped(body) && HoldsAll(db, x, body)
  }

  // Flattening keeps the meaning of a rule body: facts hold under a valuation of the user's
  // variables exactly when it extends to the fresh ones so that the atoms hold, and in one way only.
  lemma {:induction false} FlatteningIsExact(db: Db, nm: Names, facts: seq<Fact>, env: Env)
    requires Distinct(nm) && UserFacts(nm, facts)
    ensures AllWellShaped(FactsToQuery(nm, facts, 0).atoms)
    ensures FactsHold(db, nm, env, facts) <==> exists x :: Extends(db, nm, facts, env, x)
    ensures forall x, y :: Extends(db, nm, facts, env, x) && Extends(db, nm, facts, env, y) ==>
      SameOn(db.globals, x, y, FactsToQuery(nm, facts, 0).atoms)
  {
    var body := FactsToQuery(nm, facts, 0).atoms;
    FactsShape(nm, facts, 0);
    if FactsHold(db, nm, env, facts) {
      var x := BodyComplete(db, nm, env, facts, 0);
      assert Extends(db, nm, facts, env, x);
    }
    forall x | Extends(db, nm, facts, env, x) ensures FactsHold(db, nm, env, facts) {
      BodySound(db, nm, x, facts, 0);
      forall i | 0 <= i < |facts| ensures FactHolds(db, nm, env, facts[i]) {
        assert FactHolds(db, nm, x, facts[i]) && UserFact(nm, facts[i]);
        FactAgree(db, nm, env, x, facts[i]);
      }
    }
    forall x, y | Extends(db, nm, facts, env, x) && Extends(db, nm, facts, env, y) ensures SameOn(db.globals, x, y, body) {
      BodyUnique(db, nm, x, y, facts, 0);
    }
  }

  // The same for one expression: it has value v exactly when its atoms hold in some extension that
  // gives the root term the value v.
  ghost predicate RootIs(db: Db, nm: Names, e: Expr, env: Env, v: Value, x: Env) {
    var q := ToQuery(nm, e, 0);
    AgreeBelow(nm, env, x, 0) && AllWellShaped(q.atoms) && HoldsAll(db, x, q.atoms) && TermValue(db.globals, x, q.term) == v
  }

  lemma {:induction false} ExpressionFlatteningIsExact(db: Db, nm: Names, e: Expr, env: Env, v: Value)
    requires Distinct(nm) && UserExpr(nm, e)
    ensures Eval(db, nm, env, e) == Some(v) <==> exists x :: RootIs(db, nm, e, env, v, x)
  {
    if Eval(db, nm, env, e) == Some(v) {
      var x := QueryComplete(db, nm, env, e, 0);
      QuerySound(db, nm, x, e, 0);
      EvalAgree(db, nm, env, x, e);
      assert RootIs(db, nm, e, env, v, x);
    }
    forall x | RootIs(db, nm, e, env, v, x) ensures Eval(db, nm, env, e) == Some(v) {
      QuerySound(db, nm, x, e, 0);
      EvalAgree(db, nm, env, x, e);
    }
  }
}
