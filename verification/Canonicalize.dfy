// Equalities are substituted away; what remains of them becomes `value-eq`.
module CanonicalizeModel {
  import opened CoreIR
  import opened Options
  import opened GroundedModel
  import opened RuleModel

  function SubstTerm(x: Leaf, y: Term, t: Term): Term {
    if t == Var(x) then y else t
  }

  function SubstAtom(x: Leaf, y: Term, a: Atom): Atom {
    Atom(a.head, seq(|a.args|, i requires 0 <= i < |a.args| => SubstTerm(x, y, a.args[i])))
  }

  function SubstBody(x: Leaf, y: Term, body: seq<Atom>): seq<Atom> {
    seq(|body|, i requires 0 <= i < |body| => SubstAtom(x, y, body[i]))
  }

  // The variable an equality eliminates, and the term put in its place.
  function Candidate(a: Atom): Option<(Leaf, Term)>
    requires WellShaped(a)
  {
    if !a.head.Eq? || a.args[0] == a.args[1] then None
    else if a.args[0].Var? then Some((a.args[0].v, a.args[1]))
    else if a.args[1].Var? then Some((a.args[1].v, a.args[0]))
    else None
  }

  predicate NoCandidate(body: seq<Atom>)
    requires AllWellShaped(body)
  {
    forall i :: 0 <= i < |body| ==> Candidate(body[i]).None?
  }

  // ---------------------------------------------------------------- one substitution

  lemma {:induction false} SubstVars(x: Leaf, y: Term, body: seq<Atom>)
    requires Var(x) in BodyVars(body) && y != Var(x) && (y.Var? ==> y in BodyVars(body))
    requires exists i :: 0 <= i < |body| && Var(x) in body[i].args && y in body[i].args
    ensures BodyVars(SubstBody(x, y, body)) == BodyVars(body) - {Var(x)}
  {
    var body1 := SubstBody(x, y, body);
    BodyVarsAre(body);
    BodyVarsAre(body1);
    forall t | t in BodyVars(body1) ensures t in BodyVars(body) - {Var(x)} {
      var j :| 0 <= j < |body1| && t in VarTerms(body1[j].args);
      var k :| 0 <= k < |body1[j].args| && body1[j].args[k] == t;
      assert t == SubstTerm(x, y, body[j].args[k]);
      if body[j].args[k] != Var(x) { assert t in VarTerms(body[j].args); }
    }
    forall t | t in BodyVars(body) - {Var(x)} ensures t in BodyVars(body1) {
      var j :| 0 <= j < |body| && t in VarTerms(body[j].args);
      var k :| 0 <= k < |body[j].args| && body[j].args[k] == t;
      assert body1[j].args[k] == t;
      assert t in VarTerms(body1[j].args);
    }
  }

  // Binding the variable to the term has the same effect as substituting it.
  lemma {:induction false} HoldsSubst(db: Db, env: Env, x: Leaf, y: Term, a: Atom)
    requires y != Var(x) && WellShaped(a)
    ensures WellShaped(SubstAtom(x, y, a))
    ensures Holds(db, env[Var(x) := TermValue(db.globals, env, y)], a) <==> Holds(db, env, SubstAtom(x, y, a))
  {
    var full := env[Var(x) := TermValue(db.globals, env, y)];
    forall i | 0 <= i < |a.args|
      ensures TermValue(db.globals, full, a.args[i]) == TermValue(db.globals, env, SubstAtom(x, y, a).args[i])
    {
    }
    if a.head.Call? {
      assert TermValues(db.globals, full, Inputs(a)) == TermValues(db.globals, env, Inputs(SubstAtom(x, y, a)));
    }
  }

  lemma {:induction false} HoldsAllSubst(db: Db, env: Env, x: Leaf, y: Term, body: seq<Atom>)
    requires y != Var(x) && AllWellShaped(body)
    ensures AllWellShaped(SubstBody(x, y, body))
    ensures HoldsAll(db, env[Var(x) := TermValue(db.globals, env, y)], body) <==> HoldsAll(db, env, SubstBody(x, y, body))
  {
    var body1 := SubstBody(x, y, body);
    forall i | 0 <= i < |body|
      ensures WellShaped(body1[i])
      ensures Holds(db, env[Var(x) := TermValue(db.globals, env, y)], body[i]) <==> Holds(db, env, body1[i])
    {
      HoldsSubst(db, env, x, y, body[i]);
    }
    assert AllWellShaped(body1);
    if HoldsAll(db, env, body1) {
      assert forall i :: 0 <= i < |body| ==> Holds(db, env, body1[i]);
    }
  }

  lemma {:induction false} CandidateVars(body: seq<Atom>, i: nat)
    requires AllWellShaped(body) && i < |body| && Candidate(body[i]).Some?
    ensures var (x, y) := Candidate(body[i]).value;
      && y != Var(x) && Var(x) in BodyVars(body) && (y.Var? ==> y in BodyVars(body))
      && AllWellShaped(SubstBody(x, y, body))
      && BodyVars(SubstBody(x, y, body)) == BodyVars(body) - {Var(x)}
  {
    var (x, y) := Candidate(body[i]).value;
    BodyVarsAre(body);
    assert Var(x) in VarTerms(body[i].args) && (y.Var? ==> y in VarTerms(body[i].args));
    SubstVars(x, y, body);
    forall j | 0 <= j < |body| ensures WellShaped(SubstBody(x, y, body)[j]) { assert WellShaped(body[j]); }
  }

  // The body after the substitution has one variable less.
  ghost predicate IsStep(body: seq<Atom>, x: Leaf, y: Term, body1: seq<Atom>) {
    && AllWellShaped(body) && AllWellShaped(body1) && body1 == SubstBody(x, y, body)
    && y != Var(x) && Var(x) in BodyVars(body) && BodyVars(body1) == BodyVars(body) - {Var(x)}
  }

  lemma {:induction false} StepForward(db: Db, body: seq<Atom>, x: Leaf, y: Term, body1: seq<Atom>, e: Env)
    requires IsStep(body, x, y, body1) && Match(db, body1, e)
    ensures AllLets([LetTerm(x, y)]) && Forward(db, body, [LetTerm(x, y)], body1, e)
  {
    var full := e[Var(x) := TermValue(db.globals, e, y)];
    HoldsAllSubst(db, e, x, y, body);
    assert full.Keys == BodyVars(body);
    assert Restrict(full, BodyVars(body1)) == e;
  }

  lemma {:induction false} StepBackward(db: Db, body: seq<Atom>, x: Leaf, y: Term, body1: seq<Atom>, e: Env)
    requires IsStep(body, x, y, body1) && Match(db, body, e) && (y.Var? ==> y in BodyVars(body))
    requires TermValue(db.globals, e, y) == TermValue(db.globals, e, Var(x))
    ensures AllLets([LetTerm(x, y)]) && Backward(db, body, [LetTerm(x, y)], body1, e)
  {
    var part := Restrict(e, BodyVars(body1));
    assert TermValue(db.globals, part, y) == TermValue(db.globals, e, y);
    assert e == part[Var(x) := TermValue(db.globals, part, y)];
    HoldsAllSubst(db, part, x, y, body);
  }

  lemma {:induction false} StepBijection(db: Db, body: seq<Atom>, i: nat)
    requires AllWellShaped(body) && i < |body| && Candidate(body[i]).Some?
    ensures var (x, y) := Candidate(body[i]).value;
            AllWellShaped(SubstBody(x, y, body)) && AllLets([LetTerm(x, y)]) && Bijection(db, body, [LetTerm(x, y)], SubstBody(x, y, body))
  {
    var (x, y) := Candidate(body[i]).value;
    CandidateVars(body, i);
    var body1 := SubstBody(x, y, body);
    assert AllLets([LetTerm(x, y)]);
    forall e | Match(db, body1, e) ensures Forward(db, body, [LetTerm(x, y)], body1, e) {
      StepForward(db, body, x, y, body1, e);
    }
    forall e | Match(db, body, e) ensures Backward(db, body, [LetTerm(x, y)], body1, e) {
      assert Holds(db, e, body[i]);
      StepBackward(db, body, x, y, body1, e);
    }
  }

  // One substitution keeps the meaning of the rule.
  lemma {:induction false} StepPreserves(r: Rule, i: nat)
    requires AllWellShaped(r.body) && i < |r.body| && Candidate(r.body[i]).Some?
    ensures var (x, y) := Candidate(r.body[i]).value;
            Preserves(r, Rule(SubstBody(x, y, r.body), [LetTerm(x, y)] + r.head))
  {
    var (x, y) := Candidate(r.body[i]).value;
    var after := Rule(SubstBody(x, y, r.body), [LetTerm(x, y)] + r.head);
    CandidateVars(r.body, i);
    forall db ensures Bijection(db, r.body, [LetTerm(x, y)], after.body) { StepBijection(db, r.body, i); }
    assert after.head[1..] == r.head;
    assert PreservesVia(r, [LetTerm(x, y)], after);
  }

  // ---------------------------------------------------------------- anchoring

  // Like the closure of the groundedness check, but every call grounds all its arguments.
  ghost predicate AtomAnchors(a: Atom, s: set<Term>)
    requires WellShaped(a)
  {
    if a.head.Eq? then FixedIn(a.args, s) && (a.args[0] in s <==> a.args[1] in s) else AllIn(a.args, s)
  }

  ghost predicate Anchors(body: seq<Atom>, s: set<Term>)
    requires AllWellShaped(body)
  {
    forall i :: 0 <= i < |body| ==> AtomAnchors(body[i], s)
  }

  // Every variable is linked by equalities to a call or to a literal or global.
  ghost predicate Anchored(body: seq<Atom>)
    requires AllWellShaped(body)
  {
    forall s :: Anchors(body, s) ==> BodyVars(body) <= s
  }

  lemma {:induction false} GroundedIsAnchored(body: seq<Atom>)
    requires AllWellShaped(body) && Grounded(body)
    ensures Anchored(body)
  {
    forall s | Anchors(body, s) ensures BodyVars(body) <= s {
      forall i | 0 <= i < |body| ensures AtomClosed(body[i], s) {
        assert AtomAnchors(body[i], s);
        if body[i].head.Call? { assert Output(body[i]) == body[i].args[|body[i].args| - 1]; }
      }
      assert GroundClosed(body, s);
    }
  }

  lemma {:induction false} StepKeepsAnchored(body: seq<Atom>, i: nat)
    requires AllWellShaped(body) && Anchored(body) && i < |body| && Candidate(body[i]).Some?
    ensures var (x, y) := Candidate(body[i]).value;
            AllWellShaped(SubstBody(x, y, body)) && Anchored(SubstBody(x, y, body))
  {
    var (x, y) := Candidate(body[i]).value;
    var body1 := SubstBody(x, y, body);
    CandidateVars(body, i);
    forall s1 | Anchors(body1, s1) ensures BodyVars(body1) <= s1 {
      var s := set t | t in AllTerms(body) && SubstTerm(x, y, t) in s1;
      AllTermsAre(body);
      forall j | 0 <= j < |body| ensures AtomAnchors(body[j], s) {
        assert AtomAnchors(body1[j], s1);
        assert forall k :: 0 <= k < |body[j].args| ==> body1[j].args[k] == SubstTerm(x, y, body[j].args[k]);
      }
      assert Anchors(body, s);
    }
  }

  // ---------------------------------------------------------------- what remains of equalities

  function FinishAtom(a: Atom): seq<Atom>
    requires WellShaped(a)
  {
    if a.head.Call? then [a]
    else if a.args[0] == a.args[1] then []
    else [Atom(Call(ValueEq(a.args[0], a.args[1])), [a.args[0], a.args[1], Lit(Unit)])]
  }

  function Finish(body: seq<Atom>): seq<Atom>
    requires AllWellShaped(body)
  {
    if body == [] then [] else Finish(body[..|body| - 1]) + FinishAtom(body[|body| - 1])
  }

  predicate AllCalls(body: seq<Atom>) {
    forall i :: 0 <= i < |body| ==> body[i].head.Call?
  }

  lemma {:induction false} HoldsAllConcat(db: Db, env: Env, a: seq<Atom>, b: seq<Atom>)
    requires AllWellShaped(a) && AllWellShaped(b)
    ensures AllWellShaped(a + b)
    ensures HoldsAll(db, env, a + b) <==> HoldsAll(db, env, a) && HoldsAll(db, env, b)
  {
    var c := a + b;
    assert forall i :: 0 <= i < |a| ==> c[i] == a[i];
    assert forall i :: 0 <= i < |b| ==> c[|a| + i] == b[i];
    if HoldsAll(db, env, c) {
      forall i | 0 <= i < |a| ensures Holds(db, env, a[i]) { assert Holds(db, env, c[i]); }
      forall i | 0 <= i < |b| ensures Holds(db, env, b[i]) { assert Holds(db, env, c[|a| + i]); }
    }
  }

  lemma {:induction false} HoldsOne(db: Db, env: Env, a: Atom)
    requires WellShaped(a)
    ensures AllWellShaped([a]) && (HoldsAll(db, env, [a]) <==> Holds(db, env, a))
  {
    assert [a][0] == a;
  }

  // A dropped equality holds anyway, and a `value-eq` atom holds exactly when the equality does,
  // whether or not the two terms are written differently.
  lemma {:induction false} FinishAtomHolds(db: Db, env: Env, a: Atom)
    requires WellShaped(a)
    ensures AllWellShaped(FinishAtom(a)) && AllCalls(FinishAtom(a))
    ensures HoldsAll(db, env, FinishAtom(a)) <==> Holds(db, env, a)
  {
    if a.head.Eq? && a.args[0] != a.args[1] {
      var b := FinishAtom(a)[0];
      assert Inputs(b) == [a.args[0], a.args[1]];
      var vs := TermValues(db.globals, env, Inputs(b));
      assert vs[0] == TermValue(db.globals, env, a.args[0]) && vs[1] == TermValue(db.globals, env, a.args[1]);
      HoldsOne(db, env, b);
    } else if a.head.Call? {
      HoldsOne(db, env, a);
    }
  }

  lemma {:induction false} FinishHolds(db: Db, env: Env, body: seq<Atom>)
    requires AllWellShaped(body)
    ensures AllWellShaped(Finish(body)) && AllCalls(Finish(body))
    ensures HoldsAll(db, env, Finish(body)) <==> HoldsAll(db, env, body)
  {
    if body != [] {
      var n := |body| - 1;
      FinishHolds(db, env, body[..n]);
      FinishAtomHolds(db, env, body[n]);
      HoldsAllConcat(db, env, Finish(body[..n]), FinishAtom(body[n]));
      HoldsAllConcat(db, env, body[..n], [body[n]]);
      assert body == body[..n] + [body[n]];
      HoldsOne(db, env, body[n]);
    }
  }

  function CallVars(body: seq<Atom>): set<Term> {
    if body == [] then {} else
      var n := |body| - 1;
      CallVars(body[..n]) + (if body[n].head.Call? then VarTerms(body[n].args) else {})
  }

  lemma {:induction false} CallVarsNth(body: seq<Atom>, i: nat)
    requires i < |body| && body[i].head.Call?
    ensures VarTerms(body[i].args) <= CallVars(body)
  {
    var n := |body| - 1;
    if i < n { CallVarsNth(body[..n], i); }
  }

  lemma {:induction false} CallVarsInBody(body: seq<Atom>)
    ensures CallVars(body) <= BodyVars(body)
  {
    if body != [] { CallVarsInBody(body[..|body| - 1]); }
  }

  lemma {:induction false} BodyVarsConcat(a: seq<Atom>, b: seq<Atom>)
    ensures BodyVars(a + b) == BodyVars(a) + BodyVars(b)
  {
    if b == [] {
      assert a + b == a;
    } else {
      var n := |b| - 1;
      BodyVarsConcat(a, b[..n]);
      assert (a + b)[..|a + b| - 1] == a + b[..n];
    }
  }

  lemma {:induction false} FinishAtomVars(a: Atom)
    requires WellShaped(a) && Candidate(a).None?
    ensures BodyVars(FinishAtom(a)) == if a.head.Call? then VarTerms(a.args) else {}
  {
    if |FinishAtom(a)| == 1 {
      var b := FinishAtom(a)[0];
      assert FinishAtom(a)[..0] == [] && BodyVars([]) == {};
      assert BodyVars(FinishAtom(a)) == VarTerms(b.args);
    }
  }

  lemma {:induction false} FinishVars(body: seq<Atom>)
    requires AllWellShaped(body) && NoCandidate(body)
    ensures BodyVars(Finish(body)) == CallVars(body)
  {
    if body != [] {
      var n := |body| - 1;
      FinishVars(body[..n]);
      BodyVarsConcat(Finish(body[..n]), FinishAtom(body[n]));
      FinishAtomVars(body[n]);
    }
  }

  lemma {:induction false} NoFixedVars(body: seq<Atom>)
    ensures forall t :: t in BodyVars(body) ==> t.Var?
  {
    if body != [] { NoFixedVars(body[..|body| - 1]); }
  }

  // Once no equality can be substituted, every anchored variable occurs in a call.
  lemma {:induction false} AnchoredVarsAreInCalls(body: seq<Atom>)
    requires AllWellShaped(body) && NoCandidate(body) && Anchored(body)
    ensures BodyVars(body) == CallVars(body)
  {
    var s := AllTerms(body) - (BodyVars(body) - CallVars(body));
    AllTermsAre(body);
    CallVarsInBody(body);
    forall i | 0 <= i < |body| ensures AtomAnchors(body[i], s) {
      assert Candidate(body[i]).None?;
      forall k | 0 <= k < |body[i].args| && (body[i].head.Call? || !body[i].args[k].Var?) ensures body[i].args[k] in s {
        if body[i].args[k].Var? {
          CallVarsNth(body, i);
          assert body[i].args[k] in VarTerms(body[i].args);
        } else {
          NoFixedVars(body);
        }
      }
    }
    assert Anchors(body, s);
  }

  lemma {:induction false} FinishPreserves(r: Rule)
    requires AllWellShaped(r.body) && NoCandidate(r.body) && Anchored(r.body)
    ensures Preserves(r, Rule(Finish(r.body), r.head))
    ensures AllCalls(Finish(r.body)) && BodyVars(Finish(r.body)) == BodyVars(r.body)
  {
    FinishVars(r.body);
    AnchoredVarsAreInCalls(r.body);
    FinishHolds(Db(imap[], map[]), map[], r.body);
    forall db, e ensures HoldsAll(db, e, Finish(r.body)) <==> HoldsAll(db, e, r.body) { FinishHolds(db, e, r.body); }
    SameMatchesPreserve(r, Finish(r.body));
  }

  // A body with the same variables and the same matches needs no bindings.
  lemma {:induction false} SameMatchesPreserve(r: Rule, body1: seq<Atom>)
    requires AllWellShaped(r.body) && AllWellShaped(body1) && BodyVars(body1) == BodyVars(r.body)
    requires forall db, e :: HoldsAll(db, e, body1) <==> HoldsAll(db, e, r.body)
    ensures Preserves(r, Rule(body1, r.head))
  {
    forall db ensures Bijection(db, r.body, [], body1) {
      forall e | Match(db, r.body, e) || Match(db, body1, e)
        ensures Forward(db, r.body, [], body1, e) && Backward(db, r.body, [], body1, e)
      {
        assert HoldsAll(db, e, body1) <==> HoldsAll(db, e, r.body);
        assert Restrict(e, BodyVars(body1)) == e;
      }
    }
    assert [] + r.head == r.head;
    assert PreservesVia(r, [], Rule(body1, r.head));
  }

  // ---------------------------------------------------------------- sorts

  // Equal terms have equal sorts, outputs the sort of their head, and primitives, which are specialized by
  // sorts, inputs of theirs.
  predicate WellSortedAtom(a: Atom) {
    && WellShaped(a)
    && match a.head
       case Eq => SortOf(a.args[0]) == SortOf(a.args[1])
       case Call(Func(_, output)) => SortOf(Output(a)) == output
       case Call(Primitive(_, inputs, output)) => HaveSorts(Inputs(a), inputs) && SortOf(Output(a)) == output
  }

  predicate HaveSorts(ts: seq<Term>, sorts: seq<Sort>) {
    |ts| == |sorts| && forall k :: 0 <= k < |ts| ==> SortOf(ts[k]) == sorts[k]
  }

  predicate WellSorted(body: seq<Atom>) {
    forall i :: 0 <= i < |body| ==> WellSortedAtom(body[i])
  }

  lemma {:induction false} StepKeepsWellSorted(body: seq<Atom>, i: nat)
    requires AllWellShaped(body) && WellSorted(body) && i < |body| && Candidate(body[i]).Some?
    ensures var (x, y) := Candidate(body[i]).value; WellSorted(SubstBody(x, y, body))
  {
    var (x, y) := Candidate(body[i]).value;
    assert WellSortedAtom(body[i]) && SortOf(y) == SortOf(Var(x));
    forall j | 0 <= j < |body| ensures WellSortedAtom(SubstBody(x, y, body)[j]) {
      assert WellSortedAtom(body[j]);
      var a1 := SubstAtom(x, y, body[j]);
      forall k | 0 <= k < |a1.args| ensures SortOf(a1.args[k]) == SortOf(body[j].args[k]) {}
    }
  }

  lemma {:induction false} FinishAtomSorted(a: Atom)
    requires WellSortedAtom(a)
    ensures WellSorted(FinishAtom(a))
  {
    if |FinishAtom(a)| == 1 && a.head.Eq? {
      var b := FinishAtom(a)[0];
      assert Inputs(b) == a.args;
    }
  }

  lemma {:induction false} FinishKeepsWellSorted(body: seq<Atom>)
    requires AllWellShaped(body) && WellSorted(body)
    ensures WellSorted(Finish(body))
  {
    if body != [] {
      FinishKeepsWellSorted(body[..|body| - 1]);
      assert WellSortedAtom(body[|body| - 1]);
      FinishAtomSorted(body[|body| - 1]);
    }
  }

  // ---------------------------------------------------------------- counts

  function Count(p: Atom -> bool, body: seq<Atom>): nat {
    if body == [] then 0 else Count(p, body[..|body| - 1]) + (if p(body[|body| - 1]) then 1 else 0)
  }

  // A call other than `value-eq`.
  predicate ProperCall(a: Atom) {
    a.head.Call? && !IsValueEq(a.head.head)
  }

  lemma {:induction false} CountConcat(p: Atom -> bool, a: seq<Atom>, b: seq<Atom>)
    ensures Count(p, a + b) == Count(p, a) + Count(p, b)
  {
    if b == [] {
      assert a + b == a;
    } else {
      CountConcat(p, a, b[..|b| - 1]);
      assert (a + b)[..|a + b| - 1] == a + b[..|b| - 1];
    }
  }

  lemma {:induction false} SubstCount(x: Leaf, y: Term, body: seq<Atom>)
    ensures Count(ProperCall, SubstBody(x, y, body)) == Count(ProperCall, body)
  {
    if body != [] {
      SubstCount(x, y, body[..|body| - 1]);
      assert SubstBody(x, y, body)[..|body| - 1] == SubstBody(x, y, body[..|body| - 1]);
    }
  }

  lemma {:induction false} FinishCount(body: seq<Atom>)
    requires AllWellShaped(body)
    ensures Count(ProperCall, Finish(body)) == Count(ProperCall, body)
  {
    if body != [] {
      var n := |body| - 1;
      FinishCount(body[..n]);
      CountConcat(ProperCall, Finish(body[..n]), FinishAtom(body[n]));
      if |FinishAtom(body[n])| == 1 {
        assert FinishAtom(body[n])[..0] == [];
      }
    }
  }

  // ---------------------------------------------------------------- the pass

  method SubstInPlace(x: Leaf, y: Term, body: seq<Atom>) returns (atoms: seq<Atom>)
    ensures atoms == SubstBody(x, y, body)
  {
    atoms := body;
    for i := 0 to |atoms|
      invariant |atoms| == |body|
      invariant forall j :: 0 <= j < i ==> atoms[j] == SubstAtom(x, y, body[j])
      invariant forall j :: i <= j < |body| ==> atoms[j] == body[j]
    {
      var args := atoms[i].args;
      for k := 0 to |args|
        invariant |args| == |body[i].args|
        invariant forall j :: 0 <= j < k ==> args[j] == SubstTerm(x, y, body[i].args[j])
        invariant forall j :: k <= j < |args| ==> args[j] == body[i].args[j]
      {
        if args[k] == Var(x) {
          args := args[k := y];
        }
      }
      assert args == SubstAtom(x, y, body[i]).args;
      atoms := atoms[i := Atom(atoms[i].head, args)];
    }
  }

  // Substitutes equalities away, one at a time, and turns the rest into `value-eq` atoms. The two
  // panics of the code are the branches below that cannot be reached.
  method Canonicalize(rule: Rule) returns (r: Rule)
    requires AllWellShaped(rule.body) && Anchored(rule.body)
    ensures AllWellShaped(r.body) && AllCalls(r.body) && Preserves(rule, r)
    ensures WellSorted(rule.body) ==> WellSorted(r.body)
    ensures Count(ProperCall, r.body) == Count(ProperCall, rule.body)
    ensures BodyVars(r.body) <= BodyVars(rule.body)
    ensures if NoCandidate(rule.body) then r.body == Finish(rule.body) else BodyVars(r.body) < BodyVars(rule.body)
  {
    r := rule;
    PreservesSelf(rule);
    var searching := true;
    while searching
      invariant AllWellShaped(r.body) && Anchored(r.body) && Preserves(rule, r)
      invariant WellSorted(rule.body) ==> WellSorted(r.body)
      invariant Count(ProperCall, r.body) == Count(ProperCall, rule.body)
      invariant r == rule || (!NoCandidate(rule.body) && BodyVars(r.body) < BodyVars(rule.body))
      invariant !searching ==> NoCandidate(r.body)
      decreases searching, BodyVars(r.body)
    {
      var i := FindCandidate(r.body);
      if i == |r.body| {
        searching := false;
      } else {
        r := SubstStep(r, i, rule);
      }
    }
    var atoms := FinishLoop(r.body);
    FinishPreserves(r);
    FinishKeeps(r.body);
    if WellSorted(r.body) { FinishKeepsWellSorted(r.body); }
    PreservesTrans(rule, r, Rule(Finish(r.body), r.head));
    r := Rule(atoms, r.head);
  }

  lemma {:induction false} FinishKeeps(body: seq<Atom>)
    requires AllWellShaped(body)
    ensures AllWellShaped(Finish(body)) && Count(ProperCall, Finish(body)) == Count(ProperCall, body)
  {
    FinishHolds(Db(imap[], map[]), map[], body);
    FinishCount(body);
  }

  method FindCandidate(body: seq<Atom>) returns (i: nat)
    requires AllWellShaped(body)
    ensures i <= |body| && (i < |body| ==> Candidate(body[i]).Some?)
    ensures forall j :: 0 <= j < i ==> Candidate(body[j]).None?
  {
    i := 0;
    while i < |body| && Candidate(body[i]).None?
      invariant i <= |body| && forall j :: 0 <= j < i ==> Candidate(body[j]).None?
    {
      i := i + 1;
    }
  }

  method SubstStep(r0: Rule, i: nat, ghost rule: Rule) returns (r: Rule)
    requires AllWellShaped(r0.body) && Anchored(r0.body) && Preserves(rule, r0)
    requires i < |r0.body| && Candidate(r0.body[i]).Some?
    ensures AllWellShaped(r.body) && Anchored(r.body) && Preserves(rule, r)
    ensures WellSorted(r0.body) ==> WellSorted(r.body)
    ensures Count(ProperCall, r.body) == Count(ProperCall, r0.body) && BodyVars(r.body) < BodyVars(r0.body)
  {
    var (x, y) := Candidate(r0.body[i]).value;
    var atoms := SubstInPlace(x, y, r0.body);
    r := Rule(atoms, [LetTerm(x, y)] + r0.head);
    CandidateVars(r0.body, i);
    StepPreserves(r0, i);
    StepKeepsAnchored(r0.body, i);
    SubstCount(x, y, r0.body);
    if WellSorted(r0.body) { StepKeepsWellSorted(r0.body, i); }
    PreservesTrans(rule, r0, r);
  }

  method FinishLoop(body: seq<Atom>) returns (atoms: seq<Atom>)
    requires AllWellShaped(body) && NoCandidate(body)
    ensures atoms == Finish(body)
  {
    atoms := [];
    for i := 0 to |body|
      invariant atoms == Finish(body[..i])
    {
      var atom := body[i];
      assert Candidate(atom).None? && body[..i + 1][..i] == body[..i];
      match atom.head {
        case Call(_) =>
          atoms := atoms + [atom];
        case Eq =>
          if atom.args[0].Var? && atom.args[1].Var? {
            assert atom.args[0] == atom.args[1];
          } else if atom.args[0].Var? || atom.args[1].Var? {
            assert false;
          } else if atom.args[0] != atom.args[1] {
            atoms := atoms + [Atom(Call(ValueEq(atom.args[0], atom.args[1])), [atom.args[0], atom.args[1], Lit(Unit)])];
          }
      }
    }
    assert body[..|body|] == body;
  }
}
