// Core rules, what they mean over a database, and what compilation does to them.
module RuleModel {
  import opened CoreIR
  import opened Options
  import opened GroundedModel

  datatype Value = Base(lit: Literal) | Id(n: nat)

  // Every head denotes a partial function from its inputs to its output.
  datatype Db = Db(rows: imap<(Head, seq<Value>), Value>, globals: map<Leaf, Value>)

  // Keys are variables.
  type Env = map<Term, Value>

  datatype Action =
    | Let(v: Leaf, head: Head, args: seq<Term>)
    | LetTerm(v: Leaf, t: Term)
    | Set(head: Head, args: seq<Term>, vals: seq<Term>)
    | Change(isDelete: bool, head: Head, args: seq<Term>)
    | Union(a: Term, b: Term)
    | Panic(message: string)

  datatype Rule = Rule(body: seq<Atom>, head: seq<Action>)

  // Matching gives every variable a value; the default is never looked at.
  function TermValue(globals: map<Leaf, Value>, env: Env, t: Term): Value {
    match t
    case Var(_) => if t in env then env[t] else Base(Unit)
    case Lit(l) => Base(l)
    case Global(g) => if g in globals then globals[g] else Base(Unit)
  }

  function TermValues(globals: map<Leaf, Value>, env: Env, ts: seq<Term>): (r: seq<Value>)
    ensures |r| == |ts| && forall i :: 0 <= i < |ts| ==> r[i] == TermValue(globals, env, ts[i])
  {
    if ts == [] then [] else [TermValue(globals, env, ts[0])] + TermValues(globals, env, ts[1..])
  }

  // The output of a head on inputs, if any; `value-eq` is equality with a unit output.
  ghost function Apply(db: Db, h: Head, ins: seq<Value>): Option<Value> {
    if IsValueEq(h) then (if |ins| == 2 && ins[0] == ins[1] then Some(Base(Unit)) else None)
    else if (h, ins) in db.rows then Some(db.rows[(h, ins)])
    else None
  }

  // The primitive of that name alone is built in; every other head is what the database says.
  lemma {:induction false} OnlyValueEqIsBuiltIn(db: Db, h: Head, ins: seq<Value>, v: Value)
    ensures h.Primitive? && h.name == "value-eq" ==> (Apply(db, h, ins) == Some(v) <==> v == Base(Unit) && |ins| == 2 && ins[0] == ins[1])
    ensures h.Func? || h.name != "value-eq" ==> (Apply(db, h, ins) == Some(v) <==> (h, ins) in db.rows && db.rows[(h, ins)] == v)
  {}

  ghost predicate Holds(db: Db, env: Env, a: Atom)
    requires WellShaped(a)
  {
    match a.head
    case Eq => TermValue(db.globals, env, a.args[0]) == TermValue(db.globals, env, a.args[1])
    case Call(h) => Apply(db, h, TermValues(db.globals, env, Inputs(a))) == Some(TermValue(db.globals, env, Output(a)))
  }

  ghost predicate HoldsAll(db: Db, env: Env, body: seq<Atom>)
    requires AllWellShaped(body)
  {
    forall i :: 0 <= i < |body| ==> Holds(db, env, body[i])
  }

  // A match binds exactly the variables of the body.
  ghost predicate Match(db: Db, body: seq<Atom>, env: Env)
    requires AllWellShaped(body)
  {
    env.Keys == BodyVars(body) && HoldsAll(db, env, body)
  }

  function Restrict(env: Env, vars: set<Term>): (r: Env)
    ensures r.Keys == env.Keys * vars && forall t :: t in r ==> r[t] == env[t]
  {
    map t | t in env && t in vars :: env[t]
  }

  predicate AllLets(head: seq<Action>) {
    forall i :: 0 <= i < |head| ==> head[i].LetTerm?
  }

  function RunLets(globals: map<Leaf, Value>, lets: seq<Action>, env: Env): Env
    requires AllLets(lets)
  {
    if lets == [] then env
    else RunLets(globals, lets[1..], env[Var(lets[0].v) := TermValue(globals, env, lets[0].t)])
  }

  lemma {:induction false} RunLetsConcat(globals: map<Leaf, Value>, a: seq<Action>, b: seq<Action>, env: Env)
    requires AllLets(a) && AllLets(b)
    ensures AllLets(a + b) && RunLets(globals, a + b, env) == RunLets(globals, b, RunLets(globals, a, env))
  {
    assert AllLets(a + b);
    if a == [] {
      assert a + b == b;
    } else {
      assert (a + b)[1..] == a[1..] + b;
      RunLetsConcat(globals, a[1..], b, env[Var(a[0].v) := TermValue(globals, env, a[0].t)]);
    }
  }

  // ---------------------------------------------------------------- preservation of meaning

  // Matches of the new body, extended by the bindings, are exactly the matches of the old body, and
  // restricting to the new body's variables is the inverse.
  ghost predicate Bijection(db: Db, body: seq<Atom>, lets: seq<Action>, body': seq<Atom>)
    requires AllWellShaped(body) && AllWellShaped(body') && AllLets(lets)
  {
    && BodyVars(body') <= BodyVars(body)
    && (forall e :: Match(db, body', e) ==> Forward(db, body, lets, body', e))
    && (forall e :: Match(db, body, e) ==> Backward(db, body, lets, body', e))
  }

  ghost predicate Forward(db: Db, body: seq<Atom>, lets: seq<Action>, body': seq<Atom>, e: Env)
    requires AllWellShaped(body) && AllWellShaped(body') && AllLets(lets)
  {
    var full := RunLets(db.globals, lets, e);
    Match(db, body, full) && Restrict(full, BodyVars(body')) == e
  }

  ghost predicate Backward(db: Db, body: seq<Atom>, lets: seq<Action>, body': seq<Atom>, e: Env)
    requires AllWellShaped(body) && AllWellShaped(body') && AllLets(lets)
  {
    var part := Restrict(e, BodyVars(body'));
    Match(db, body', part) && RunLets(db.globals, lets, part) == e
  }

  lemma {:induction false} ForwardCompose(db: Db, b0: seq<Atom>, l1: seq<Action>, b1: seq<Atom>, l2: seq<Action>, b2: seq<Atom>, e: Env)
    requires AllWellShaped(b0) && AllWellShaped(b1) && AllWellShaped(b2) && AllLets(l1) && AllLets(l2)
    requires BodyVars(b2) <= BodyVars(b1)
    requires Forward(db, b1, l2, b2, e) && Forward(db, b0, l1, b1, RunLets(db.globals, l2, e))
    ensures AllLets(l2 + l1) && Forward(db, b0, l2 + l1, b2, e)
  {
    RunLetsConcat(db.globals, l2, l1, e);
    var e1 := RunLets(db.globals, l2, e);
    var e0 := RunLets(db.globals, l1, e1);
    assert Restrict(e0, BodyVars(b2)) == Restrict(Restrict(e0, BodyVars(b1)), BodyVars(b2));
  }

  lemma {:induction false} BackwardCompose(db: Db, b0: seq<Atom>, l1: seq<Action>, b1: seq<Atom>, l2: seq<Action>, b2: seq<Atom>, e: Env)
    requires AllWellShaped(b0) && AllWellShaped(b1) && AllWellShaped(b2) && AllLets(l1) && AllLets(l2)
    requires BodyVars(b2) <= BodyVars(b1)
    requires Backward(db, b0, l1, b1, e) && Backward(db, b1, l2, b2, Restrict(e, BodyVars(b1)))
    ensures AllLets(l2 + l1) && Backward(db, b0, l2 + l1, b2, e)
  {
    var part := Restrict(e, BodyVars(b2));
    assert Restrict(Restrict(e, BodyVars(b1)), BodyVars(b2)) == part;
    RunLetsConcat(db.globals, l2, l1, part);
  }

  // The bindings of the later step come first: their values are what the earlier ones refer to.
  lemma {:induction false} BijectionCompose(db: Db, b0: seq<Atom>, l1: seq<Action>, b1: seq<Atom>, l2: seq<Action>, b2: seq<Atom>)
    requires AllWellShaped(b0) && AllWellShaped(b1) && AllWellShaped(b2) && AllLets(l1) && AllLets(l2)
    requires Bijection(db, b0, l1, b1) && Bijection(db, b1, l2, b2)
    ensures AllLets(l2 + l1) && Bijection(db, b0, l2 + l1, b2)
  {
    assert AllLets(l2 + l1);
    forall e | Match(db, b2, e) ensures Forward(db, b0, l2 + l1, b2, e) {
      assert Forward(db, b1, l2, b2, e);
      ForwardCompose(db, b0, l1, b1, l2, b2, e);
    }
    forall e | Match(db, b0, e) ensures Backward(db, b0, l2 + l1, b2, e) {
      assert Backward(db, b0, l1, b1, e);
      BackwardCompose(db, b0, l1, b1, l2, b2, e);
    }
  }

  // The free variables of a head, computed back to front: a binding's own variable is removed after its arguments have been added.
  function FreeVars(head: seq<Action>): set<Term> {
    if head == [] then {}
    else
      var rest := FreeVars(head[1..]);
      match head[0]
      case Let(v, _, args) => rest + VarTerms(args) - {Var(v)}
      case LetTerm(v, t) => rest + VarTerms([t]) - {Var(v)}
      case Set(_, args, vals) => rest + VarTerms(args) + VarTerms(vals)
      case Change(_, _, args) => rest + VarTerms(args)
      case Union(a, b) => rest + VarTerms([a]) + VarTerms([b])
      case Panic(_) => rest
  }

  // No action's own variable is among its arguments.
  predicate NoSelfUse(head: seq<Action>) {
    forall i :: 0 <= i < |head| ==> OthersOnly(head[i])
  }

  predicate OthersOnly(a: Action) {
    (a.Let? ==> Var(a.v) !in VarTerms(a.args)) && (a.LetTerm? ==> Var(a.v) != a.t)
  }

  ghost predicate HeadBound(r: Rule) {
    FreeVars(r.head) <= BodyVars(r.body)
  }

  // The new rule has the old head behind bindings that restore the old match, on every database.
  ghost predicate PreservesVia(before: Rule, lets: seq<Action>, after: Rule) {
    && AllWellShaped(before.body) && AllWellShaped(after.body)
    && AllLets(lets) && NoSelfUse(lets) && after.head == lets + before.head
    && (forall db :: Bijection(db, before.body, lets, after.body))
    && (HeadBound(before) ==> HeadBound(after))
  }

  ghost predicate Preserves(before: Rule, after: Rule) {
    exists lets :: PreservesVia(before, lets, after)
  }

  lemma {:induction false} PreservesSelf(r: Rule)
    requires AllWellShaped(r.body)
    ensures Preserves(r, r)
  {
    forall db ensures Bijection(db, r.body, [], r.body) {
      forall e | Match(db, r.body, e)
        ensures Forward(db, r.body, [], r.body, e) && Backward(db, r.body, [], r.body, e)
      {
        assert Restrict(e, BodyVars(r.body)) == e;
      }
    }
    assert PreservesVia(r, [], r);
  }

  lemma {:induction false} PreservesTrans(a: Rule, b: Rule, c: Rule)
    requires Preserves(a, b) && Preserves(b, c)
    ensures Preserves(a, c)
  {
    var l1 :| PreservesVia(a, l1, b);
    var l2 :| PreservesVia(b, l2, c);
    assert c.head == (l2 + l1) + a.head;
    assert AllLets(l2 + l1);
    forall db ensures Bijection(db, a.body, l2 + l1, c.body) {
      assert Bijection(db, a.body, l1, b.body) && Bijection(db, b.body, l2, c.body);
      BijectionCompose(db, a.body, l1, b.body, l2, c.body);
    }
    assert PreservesVia(a, l2 + l1, c);
  }
}
