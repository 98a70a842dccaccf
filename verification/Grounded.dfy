// The check that every variable of a rule body is grounded, as an instance of the solver.
module GroundedModel {
  import opened CoreIR
  import opened Options
  import opened SolverModel
  import SolverLoop

  const GROUNDED: Key := "grounded"

  predicate AllWellShaped(body: seq<Atom>) {
    forall i :: 0 <= i < |body| ==> WellShaped(body[i])
  }

  // The variables of a body, as terms.
  function VarTerms(ts: seq<Term>): (r: set<Term>)
    ensures forall t :: t in r <==> t in ts && t.Var?
  {
    set t | t in ts && t.Var?
  }

  function BodyVars(body: seq<Atom>): set<Term> {
    if body == [] then {} else BodyVars(body[..|body| - 1]) + VarTerms(body[|body| - 1].args)
  }

  lemma {:induction false} BodyVarsAre(body: seq<Atom>)
    ensures forall t :: t in BodyVars(body) <==> exists i :: 0 <= i < |body| && t in VarTerms(body[i].args)
  {
    if body != [] {
      var n := |body| - 1;
      BodyVarsAre(body[..n]);
      assert forall i :: 0 <= i < n ==> body[..n][i] == body[i];
    }
  }

  // ---------------------------------------------------------------- the meaning

  ghost predicate AllIn(ts: seq<Term>, s: set<Term>) {
    forall i :: 0 <= i < |ts| ==> ts[i] in s
  }

  ghost predicate FixedIn(ts: seq<Term>, s: set<Term>) {
    forall i :: 0 <= i < |ts| ==> ts[i].Var? || ts[i] in s
  }

  // Tables ground all their columns, primitives their output once the inputs are grounded, and
  // equalities either side by the other; literals and globals are grounded.
  ghost predicate AtomClosed(a: Atom, s: set<Term>)
    requires WellShaped(a)
  {
    match a.head
    case Eq => FixedIn(a.args, s) && (a.args[0] in s <==> a.args[1] in s)
    case Call(Func(_, _)) => AllIn(a.args, s)
    case Call(Primitive(_, _, _)) => FixedIn(a.args, s) && (AllIn(Inputs(a), s) ==> Output(a) in s)
  }

  ghost predicate GroundClosed(body: seq<Atom>, s: set<Term>)
    requires AllWellShaped(body)
  {
    forall i :: 0 <= i < |body| ==> AtomClosed(body[i], s)
  }

  // Every variable is in the least closed set.
  ghost predicate Grounded(body: seq<Atom>)
    requires AllWellShaped(body)
  {
    forall s :: GroundClosed(body, s) ==> BodyVars(body) <= s
  }

  // ---------------------------------------------------------------- the constraints

  function Assigns(ts: seq<Term>): seq<Constraint> {
    if ts == [] then [] else [Basic(Assign(ts[0], GROUNDED))] + Assigns(ts[1..])
  }

  function FixedAssigns(ts: seq<Term>): seq<Constraint> {
    if ts == [] then []
    else (if ts[0].Var? then [] else [Basic(Assign(ts[0], GROUNDED))]) + FixedAssigns(ts[1..])
  }

  function OutputWhenInputs(a: Atom): Constraint
    requires WellShaped(a) && a.head.Call?
  {
    Implies(Inputs(a), Delayed(_ => [Assign(Output(a), GROUNDED)]))
  }

  function AtomConstraints(a: Atom): seq<Constraint>
    requires WellShaped(a)
  {
    match a.head
    case Eq => [Basic(Same(a.args[0], a.args[1]))] + FixedAssigns(a.args)
    case Call(Func(_, _)) => Assigns(a.args)
    case Call(Primitive(_, _, _)) => [OutputWhenInputs(a)] + FixedAssigns(a.args)
  }

  function BodyConstraints(body: seq<Atom>): seq<Constraint>
    requires AllWellShaped(body)
  {
    if body == [] then []
    else BodyConstraints(body[..|body| - 1]) + AtomConstraints(body[|body| - 1])
  }

  ghost function AsMap(s: set<Term>): Assigned {
    map t | t in s :: GROUNDED
  }

  lemma {:induction false} StableOne(c: Constraint, m: Assigned)
    ensures Stable([c], m) <==> Update(c, m).Ok? && Update(c, m).m == m
  {
    assert c in [c];
  }

  lemma {:induction false} AssignStable(t: Term, s: set<Term>)
    ensures Stable([Basic(Assign(t, GROUNDED))], AsMap(s)) <==> t in s
  {
    StableOne(Basic(Assign(t, GROUNDED)), AsMap(s));
  }

  lemma {:induction false} AssignsStable(ts: seq<Term>, s: set<Term>)
    ensures Stable(Assigns(ts), AsMap(s)) <==> AllIn(ts, s)
  {
    if ts != [] {
      AssignStable(ts[0], s);
      AssignsStable(ts[1..], s);
      assert AllIn(ts, s) <==> ts[0] in s && AllIn(ts[1..], s);
    }
  }

  lemma {:induction false} FixedAssignsStable(ts: seq<Term>, s: set<Term>)
    ensures Stable(FixedAssigns(ts), AsMap(s)) <==> FixedIn(ts, s)
  {
    if ts != [] {
      AssignStable(ts[0], s);
      FixedAssignsStable(ts[1..], s);
      assert FixedIn(ts, s) <==> (ts[0].Var? || ts[0] in s) && FixedIn(ts[1..], s);
    }
  }

  lemma {:induction false} WatchedIn(ts: seq<Term>, s: set<Term>)
    ensures Watched(ts, AsMap(s)).Some? <==> AllIn(ts, s)
  {
    if ts != [] {
      WatchedIn(ts[1..], s);
      assert AllIn(ts, s) <==> ts[0] in s && AllIn(ts[1..], s);
    }
  }

  lemma {:induction false} OutputStable(a: Atom, s: set<Term>)
    requires WellShaped(a) && a.head.Call?
    ensures Stable([OutputWhenInputs(a)], AsMap(s)) <==> (AllIn(Inputs(a), s) ==> Output(a) in s)
  {
    StableOne(OutputWhenInputs(a), AsMap(s));
    WatchedIn(Inputs(a), s);
    var b := Assign(Output(a), GROUNDED);
    assert [b][1..] == [];
    assert UpdateBasics([b], AsMap(s)) == UpdateBasic(b, AsMap(s));
  }

  lemma {:induction false} AtomStable(a: Atom, s: set<Term>)
    requires WellShaped(a)
    ensures Stable(AtomConstraints(a), AsMap(s)) <==> AtomClosed(a, s)
  {
    FixedAssignsStable(a.args, s);
    match a.head
    case Eq =>
      var c := Basic(Same(a.args[0], a.args[1]));
      StableOne(c, AsMap(s));
    case Call(Func(_, _)) => AssignsStable(a.args, s);
    case Call(Primitive(_, _, _)) =>
      OutputStable(a, s);
  }

  lemma {:induction false} ClosedSplit(body: seq<Atom>, s: set<Term>, n: nat)
    requires AllWellShaped(body) && |body| == n + 1
    ensures GroundClosed(body, s) <==> GroundClosed(body[..n], s) && AtomClosed(body[n], s)
  {
    var init := body[..n];
    assert forall i :: 0 <= i < n ==> init[i] == body[i];
    if GroundClosed(init, s) && AtomClosed(body[n], s) {
      forall i | 0 <= i < |body| ensures AtomClosed(body[i], s) {
        if i < n { assert AtomClosed(init[i], s); }
      }
    }
  }

  lemma {:induction false} BodyStable(body: seq<Atom>, s: set<Term>)
    requires AllWellShaped(body)
    ensures Stable(BodyConstraints(body), AsMap(s)) <==> GroundClosed(body, s)
  {
    if body != [] {
      var n := |body| - 1;
      BodyStable(body[..n], s);
      AtomStable(body[n], s);
      ClosedSplit(body, s, n);
    }
  }

  function AllTerms(body: seq<Atom>): set<Term> {
    if body == [] then {} else
      var n := |body| - 1;
      AllTerms(body[..n]) + (set t | t in body[n].args)
  }

  lemma {:induction false} AllTermsAre(body: seq<Atom>)
    ensures forall i, k :: 0 <= i < |body| && 0 <= k < |body[i].args| ==> body[i].args[k] in AllTerms(body)
  {
    if body != [] {
      var n := |body| - 1;
      AllTermsAre(body[..n]);
      assert forall i :: 0 <= i < n ==> body[..n][i] == body[i];
    }
  }

  // The solver never fails here, and assigns exactly the terms of the least closed set.
  lemma {:induction false} SolveIsLeastClosed(body: seq<Atom>)
    requires AllWellShaped(body)
    ensures var r := Solve(BodyConstraints(body), map[]);
      && r.Some? && GroundClosed(body, r.value.Keys)
      && (forall s :: GroundClosed(body, s) ==> r.value.Keys <= s)
  {
    var cs := BodyConstraints(body);
    var all := AllTerms(body);
    AllTermsAre(body);
    assert GroundClosed(body, all);
    BodyStable(body, all);
    SolveIsLeast(cs);
    var m := Solve(cs, map[]).value;
    assert Extends(m, AsMap(all));
    assert m == AsMap(m.Keys);
    BodyStable(body, m.Keys);
    forall s | GroundClosed(body, s) ensures m.Keys <= s {
      BodyStable(body, s);
      assert Extends(m, AsMap(s));
    }
  }

  // The check passes exactly for grounded bodies; the solver's other errors cannot occur.
  method GroundedCheck(body: seq<Atom>) returns (ok: bool, ungrounded: Option<Term>)
    requires AllWellShaped(body)
    ensures ok <==> Grounded(body)
    ensures !ok ==> ungrounded.Some? && ungrounded.value in BodyVars(body)
    ensures !ok ==> exists s :: GroundClosed(body, s) && ungrounded.value !in s
  {
    var constraints: seq<Constraint> := [];
    for i := 0 to |body|
      invariant constraints == BodyConstraints(body[..i])
    {
      assert body[..i + 1][..i] == body[..i];
      constraints := constraints + AtomConstraints(body[i]);
    }
    assert body[..|body|] == body;
    var problem := new SolverLoop.Problem(constraints, BodyVars(body));
    var r, assignment := problem.SolveProblem();
    SolveIsLeastClosed(body);
    ok := r.Solved?;
    ungrounded := if r.Unconstrained? then Some(r.term) else None;
  }
}
