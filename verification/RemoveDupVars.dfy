// Calls of one head on the same inputs have the same output: one goes, and the outputs are equated.
module RemoveDupVarsModel {
  import opened CoreIR
  import opened Options
  import opened GroundedModel
  import opened RuleModel
  import opened CanonicalizeModel

  type CallKey = (Head, seq<Term>)
  type Groups = map<CallKey, seq<Term>>

  predicate Calls(body: seq<Atom>) {
    AllWellShaped(body) && AllCalls(body)
  }

  function KeyOf(a: Atom): CallKey
    requires WellShaped(a) && a.head.Call?
  {
    (a.head.head, Inputs(a))
  }

  function AddOutput(g: Groups, a: Atom): Groups
    requires WellShaped(a) && a.head.Call?
  {
    g[KeyOf(a) := (if KeyOf(a) in g then g[KeyOf(a)] else []) + [Output(a)]]
  }

  lemma {:induction false} CallsInit(body: seq<Atom>)
    requires Calls(body) && body != []
    ensures Calls(body[..|body| - 1]) && WellShaped(body[|body| - 1]) && body[|body| - 1].head.Call?
  {
    assert forall i :: 0 <= i < |body| - 1 ==> body[..|body| - 1][i] == body[i];
  }

  // The outputs of the calls with the same head and inputs, in order.
  function GroupsOf(body: seq<Atom>): Groups
    requires Calls(body)
  {
    if body == [] then map[] else CallsInit(body); AddOutput(GroupsOf(body[..|body| - 1]), body[|body| - 1])
  }

  // The first call of each group.
  function Kept(body: seq<Atom>): seq<Atom>
    requires Calls(body)
  {
    if body == [] then []
    else
      CallsInit(body);
      var n := |body| - 1;
      if KeyOf(body[n]) in GroupsOf(body[..n]) then Kept(body[..n]) else Kept(body[..n]) + [body[n]]
  }

  // No two calls of one head on the same inputs.
  predicate NoDuplicates(body: seq<Atom>)
    requires Calls(body)
  {
    forall i, j :: 0 <= i < j < |body| ==> body[i].head != body[j].head || Inputs(body[i]) != Inputs(body[j])
  }

  // ---------------------------------------------------------------- the groups

  // A kept atom is the first of its group.
  ghost predicate IsFirst(g: Groups, a: Atom) {
    WellShaped(a) && a.head.Call? && KeyOf(a) in g && g[KeyOf(a)] != [] && g[KeyOf(a)][0] == Output(a)
  }

  lemma {:induction false} KeptIsFirst(body: seq<Atom>, a: Atom)
    requires Calls(body) && a in Kept(body)
    ensures a in body && IsFirst(GroupsOf(body), a)
  {
    CallsInit(body);
    var n := |body| - 1;
    if a in Kept(body[..n]) { KeptIsFirst(body[..n], a); }
  }

  lemma {:induction false} KeptAreCalls(body: seq<Atom>)
    requires Calls(body)
    ensures Calls(Kept(body))
  {
    var kept := Kept(body);
    forall i | 0 <= i < |kept| ensures WellShaped(kept[i]) && kept[i].head.Call? {
      assert kept[i] in kept;
      KeptIsFirst(body, kept[i]);
    }
  }

  lemma {:induction false} KeptAreDistinct(body: seq<Atom>)
    requires Calls(body)
    ensures Calls(Kept(body)) && NoDuplicates(Kept(body))
  {
    KeptAreCalls(body);
    if body != [] {
      CallsInit(body);
      var init, last := body[..|body| - 1], body[|body| - 1];
      KeptAreDistinct(init);
      var kept := Kept(init);
      forall i | 0 <= i < |kept| && KeyOf(last) !in GroupsOf(init) ensures KeyOf(kept[i]) != KeyOf(last) {
        assert kept[i] in kept;
        KeptIsFirst(init, kept[i]);
      }
    }
  }

  lemma {:induction false} KeptHasGroup(body: seq<Atom>, k: CallKey) returns (a: Atom)
    requires Calls(body) && k in GroupsOf(body)
    ensures a in Kept(body) && WellShaped(a) && a.head.Call? && KeyOf(a) == k
  {
    CallsInit(body);
    var init, last := body[..|body| - 1], body[|body| - 1];
    if k in GroupsOf(init) {
      a := KeptHasGroup(init, k);
    } else {
      a := last;
      assert (Kept(init) + [last])[|Kept(init)|] == last;
    }
  }

  lemma {:induction false} KeptAreFirsts(body: seq<Atom>)
    requires Calls(body)
    ensures Calls(Kept(body)) && NoDuplicates(Kept(body))
    ensures forall a :: a in Kept(body) ==> a in body && IsFirst(GroupsOf(body), a)
    ensures forall k :: k in GroupsOf(body) ==> exists a :: a in Kept(body) && KeyOf(a) == k
  {
    KeptAreDistinct(body);
    forall a | a in Kept(body) ensures a in body && IsFirst(GroupsOf(body), a) { KeptIsFirst(body, a); }
    forall k | k in GroupsOf(body) ensures exists a :: a in Kept(body) && KeyOf(a) == k { var a := KeptHasGroup(body, k); }
  }

  lemma {:induction false} EveryOutputIsGrouped(body: seq<Atom>, i: nat)
    requires Calls(body) && i < |body|
    ensures KeyOf(body[i]) in GroupsOf(body) && Output(body[i]) in GroupsOf(body)[KeyOf(body[i])]
  {
    CallsInit(body);
    var n := |body| - 1;
    if i < n { EveryOutputIsGrouped(body[..n], i); }
  }

  lemma {:induction false} GroupedOutputsComeFrom(body: seq<Atom>, k: CallKey, j: nat) returns (i: nat)
    requires Calls(body) && k in GroupsOf(body) && j < |GroupsOf(body)[k]|
    ensures i < |body| && KeyOf(body[i]) == k && Output(body[i]) == GroupsOf(body)[k][j]
  {
    CallsInit(body);
    var n := |body| - 1;
    var g := GroupsOf(body[..n]);
    if k in g && j < |g[k]| {
      i := GroupedOutputsComeFrom(body[..n], k, j);
    } else {
      i := n;
    }
  }

  // ---------------------------------------------------------------- the equalities

  // Equalities between the first output of a group and each output that is written differently.
  ghost predicate IsGroupEquality(g: Groups, e: Atom) {
    exists k, j :: k in g && 0 < j < |g[k]| && g[k][0] != g[k][j] && e == Atom(Eq, [g[k][0], g[k][j]])
  }

  ghost predicate AreGroupEqualities(g: Groups, eqs: seq<Atom>) {
    && (forall e :: e in eqs ==> IsGroupEquality(g, e))
    && (forall k, j :: k in g && 0 < j < |g[k]| && g[k][0] != g[k][j] ==> Atom(Eq, [g[k][0], g[k][j]]) in eqs)
  }

  // The groups are visited in whatever order the hash map gives them.
  method EquivGroupsToEqs(g: Groups) returns (eqs: seq<Atom>)
    requires forall k :: k in g ==> g[k] != []
    ensures AreGroupEqualities(g, eqs)
  {
    eqs := [];
    var todo := g.Keys;
    while todo != {}
      invariant todo <= g.Keys
      invariant forall e :: e in eqs ==> IsGroupEquality(g, e)
      invariant forall k, j :: k in g && k !in todo && 0 < j < |g[k]| && g[k][0] != g[k][j] ==> Atom(Eq, [g[k][0], g[k][j]]) in eqs
      decreases todo
    {
      var k :| k in todo;
      todo := todo - {k};
      var group := g[k];
      var first := group[0];
      for i := 1 to |group|
        invariant forall e :: e in eqs ==> IsGroupEquality(g, e)
        invariant forall k', j :: k' in g && k' !in todo && k' != k && 0 < j < |g[k']| && g[k'][0] != g[k'][j] ==>
                    Atom(Eq, [g[k'][0], g[k'][j]]) in eqs
        invariant forall j :: 0 < j < i && first != group[j] ==> Atom(Eq, [first, group[j]]) in eqs
      {
        if first != group[i] {
          eqs := eqs + [Atom(Eq, [first, group[i]])];
        }
      }
    }
  }

  lemma {:induction false} PrefixCalls(body: seq<Atom>, i: nat)
    requires Calls(body) && i < |body|
    ensures WellShaped(body[i]) && body[i].head.Call? && Calls(body[..i]) && Calls(body[..i + 1])
    ensures GroupsOf(body[..i + 1]) == AddOutput(GroupsOf(body[..i]), body[i])
    ensures Kept(body[..i + 1]) == if KeyOf(body[i]) in GroupsOf(body[..i]) then Kept(body[..i]) else Kept(body[..i]) + [body[i]]
  {
    var next := body[..i + 1];
    assert forall j :: 0 <= j < i + 1 ==> next[j] == body[j];
    assert next[..|next| - 1] == body[..i] && next[|next| - 1] == body[i];
  }

  method Retain(body: seq<Atom>) returns (kept: seq<Atom>, groups: Groups)
    requires Calls(body)
    ensures kept == Kept(body) && groups == GroupsOf(body)
  {
    kept, groups := [], map[];
    for i := 0 to |body|
      invariant Calls(body[..i]) && kept == Kept(body[..i]) && groups == GroupsOf(body[..i])
    {
      PrefixCalls(body, i);
      var key := KeyOf(body[i]);
      var group := if key in groups then groups[key] else [];
      if key !in groups {
        kept := kept + [body[i]];
      }
      groups := groups[key := group + [Output(body[i])]];
    }
    assert body[..|body|] == body;
  }

  // ---------------------------------------------------------------- meaning

  lemma {:induction false} EqualitiesShaped(g: Groups, eqs: seq<Atom>)
    requires AreGroupEqualities(g, eqs)
    ensures AllWellShaped(eqs) && forall i :: 0 <= i < |eqs| ==> eqs[i].head.Eq?
    ensures Count(ProperCall, eqs) == 0 && Count(NamedValueEq, eqs) == 0
  {
    forall i | 0 <= i < |eqs| ensures WellShaped(eqs[i]) && eqs[i].head.Eq? {
      assert eqs[i] in eqs;
    }
    NoCallsCount(ProperCall, eqs);
    NoCallsCount(NamedValueEq, eqs);
  }

  lemma {:induction false} NoCallsCount(p: Atom -> bool, body: seq<Atom>)
    requires forall i :: 0 <= i < |body| ==> !p(body[i])
    ensures Count(p, body) == 0
  {
    if body != [] { NoCallsCount(p, body[..|body| - 1]); }
  }

  // Two calls with one key that both hold have outputs of equal value.
  lemma {:induction false} FunctionalDependency(db: Db, e: Env, a: Atom, b: Atom)
    requires WellShaped(a) && WellShaped(b) && a.head.Call? && b.head.Call? && KeyOf(a) == KeyOf(b)
    requires Holds(db, e, a)
    ensures Holds(db, e, b) <==> TermValue(db.globals, e, Output(a)) == TermValue(db.globals, e, Output(b))
  {}

  lemma {:induction false} KeptImplyAll(db: Db, e: Env, body: seq<Atom>, eqs: seq<Atom>, i: nat)
    requires Calls(body) && AreGroupEqualities(GroupsOf(body), eqs) && i < |body|
    requires AllWellShaped(eqs) && HoldsAll(db, e, eqs) && AllWellShaped(Kept(body)) && HoldsAll(db, e, Kept(body))
    ensures WellShaped(body[i]) && Holds(db, e, body[i])
  {
    KeptAreFirsts(body);
    EveryOutputIsGrouped(body, i);
    var b := body[i];
    var g := GroupsOf(body);
    var a :| a in Kept(body) && KeyOf(a) == KeyOf(b);
    assert IsFirst(g, a);
    var j :| 0 <= j < |g[KeyOf(b)]| && g[KeyOf(b)][j] == Output(b);
    if Output(a) != Output(b) {
    }
    FunctionalDependency(db, e, a, b);
  }

  lemma {:induction false} AllImplyEquality(db: Db, e: Env, body: seq<Atom>, eq: Atom)
    requires Calls(body) && IsGroupEquality(GroupsOf(body), eq) && HoldsAll(db, e, body)
    ensures WellShaped(eq) && Holds(db, e, eq)
  {
    var g := GroupsOf(body);
    var k, j :| k in g && 0 < j < |g[k]| && g[k][0] != g[k][j] && eq == Atom(Eq, [g[k][0], g[k][j]]);
    var i0 := GroupedOutputsComeFrom(body, k, 0);
    var i1 := GroupedOutputsComeFrom(body, k, j);
    FunctionalDependency(db, e, body[i0], body[i1]);
  }

  lemma {:induction false} DedupHolds(db: Db, e: Env, body: seq<Atom>, eqs: seq<Atom>)
    requires Calls(body) && AreGroupEqualities(GroupsOf(body), eqs)
    ensures AllWellShaped(eqs + Kept(body))
    ensures HoldsAll(db, e, eqs + Kept(body)) <==> HoldsAll(db, e, body)
  {
    var kept := Kept(body);
    EqualitiesShaped(GroupsOf(body), eqs);
    KeptAreFirsts(body);
    HoldsAllConcat(db, e, eqs, kept);
    if HoldsAll(db, e, eqs) && HoldsAll(db, e, kept) {
      forall i | 0 <= i < |body| ensures Holds(db, e, body[i]) { KeptImplyAll(db, e, body, eqs, i); }
    }
    if HoldsAll(db, e, body) {
      forall i | 0 <= i < |eqs| ensures Holds(db, e, eqs[i]) {
        assert eqs[i] in eqs;
        AllImplyEquality(db, e, body, eqs[i]);
      }
      forall i | 0 <= i < |kept| ensures Holds(db, e, kept[i]) {
        assert kept[i] in kept;
      }
    }
  }

  // ---------------------------------------------------------------- variables

  lemma {:induction false} VarsOf(body: seq<Atom>, a: Atom)
    requires a in body
    ensures VarTerms(a.args) <= BodyVars(body)
  {
    BodyVarsAre(body);
    var i :| 0 <= i < |body| && body[i] == a;
    forall t | t in VarTerms(a.args) ensures t in BodyVars(body) { assert t in VarTerms(body[i].args); }
  }

  lemma {:induction false} EqualityVars(body: seq<Atom>, eq: Atom)
    requires Calls(body) && IsGroupEquality(GroupsOf(body), eq)
    ensures VarTerms(eq.args) <= BodyVars(body)
  {
    var g := GroupsOf(body);
    var k, j :| k in g && 0 < j < |g[k]| && g[k][0] != g[k][j] && eq == Atom(Eq, [g[k][0], g[k][j]]);
    var i0 := GroupedOutputsComeFrom(body, k, 0);
    var i1 := GroupedOutputsComeFrom(body, k, j);
    VarsOf(body, body[i0]);
    VarsOf(body, body[i1]);
  }

  // A variable of the body is in the inputs of the kept call of its atom, or is an output, which is
  // the kept call's output or equated with it.
  lemma {:induction false} ArgsAreLinked(body: seq<Atom>, eqs: seq<Atom>, i: nat) returns (a: Atom)
    requires Calls(body) && AreGroupEqualities(GroupsOf(body), eqs) && i < |body|
    ensures a in Kept(body) && WellShaped(a) && a.head.Call? && KeyOf(a) == KeyOf(body[i])
    ensures Output(a) == Output(body[i]) || Atom(Eq, [Output(a), Output(body[i])]) in eqs
  {
    KeptAreFirsts(body);
    EveryOutputIsGrouped(body, i);
    var g := GroupsOf(body);
    var k := KeyOf(body[i]);
    a :| a in Kept(body) && KeyOf(a) == k;
    assert IsFirst(g, a);
    var j :| 0 <= j < |g[k]| && g[k][j] == Output(body[i]);
  }

  lemma {:induction false} ArgsSplit(a: Atom, t: Term)
    requires WellShaped(a) && a.head.Call?
    ensures t in a.args <==> t in Inputs(a) || t == Output(a)
  {
    assert a.args == Inputs(a) + [Output(a)];
  }

  lemma {:induction false} DedupVars(body: seq<Atom>, eqs: seq<Atom>)
    requires Calls(body) && AreGroupEqualities(GroupsOf(body), eqs)
    ensures BodyVars(eqs + Kept(body)) == BodyVars(body)
  {
    var after := eqs + Kept(body);
    KeptAreFirsts(body);
    BodyVarsAre(body);
    BodyVarsAre(after);
    forall t | t in BodyVars(after) ensures t in BodyVars(body) {
      var i :| 0 <= i < |after| && t in VarTerms(after[i].args);
      assert after[i] in eqs || after[i] in Kept(body);
      if after[i] in eqs { EqualityVars(body, after[i]); } else { VarsOf(body, after[i]); }
    }
    forall t | t in BodyVars(body) ensures t in BodyVars(after) {
      var i :| 0 <= i < |body| && t in VarTerms(body[i].args);
      var a := ArgsAreLinked(body, eqs, i);
      ArgsSplit(body[i], t);
      ArgsSplit(a, t);
      assert a in after;
      VarsOf(after, a);
      if t == Output(body[i]) && t != Output(a) {
        var eq := Atom(Eq, [Output(a), Output(body[i])]);
        assert eq in after;
        VarsOf(after, eq);
        assert t in eq.args;
      }
    }
  }

  lemma {:induction false} DedupAnchored(body: seq<Atom>, eqs: seq<Atom>)
    requires Calls(body) && AreGroupEqualities(GroupsOf(body), eqs)
    requires AllWellShaped(eqs + Kept(body))
    ensures Anchored(eqs + Kept(body))
  {
    var after := eqs + Kept(body);
    DedupVars(body, eqs);
    BodyVarsAre(body);
    forall s, t | Anchors(after, s) && t in BodyVars(after) ensures t in s {
      var i :| 0 <= i < |body| && t in VarTerms(body[i].args);
      var a := ArgsAreLinked(body, eqs, i);
      AnchorsIn(after, s, a);
      ArgsSplit(body[i], t);
      ArgsSplit(a, t);
      if t in a.args {
        var k :| 0 <= k < |a.args| && a.args[k] == t;
      } else {
        AnchorsIn(after, s, Atom(Eq, [Output(a), Output(body[i])]));
        assert a.args[|a.args| - 1] in s;
      }
    }
  }

  lemma {:induction false} AnchorsIn(body: seq<Atom>, s: set<Term>, a: Atom)
    requires AllWellShaped(body) && Anchors(body, s) && a in body
    ensures WellShaped(a) && AtomAnchors(a, s)
  {}

  // ---------------------------------------------------------------- sorts

  lemma {:induction false} DedupWellSorted(body: seq<Atom>, eqs: seq<Atom>)
    requires Calls(body) && AreGroupEqualities(GroupsOf(body), eqs) && WellSorted(body)
    ensures WellSorted(eqs + Kept(body))
  {
    var g := GroupsOf(body);
    KeptAreFirsts(body);
    var after := eqs + Kept(body);
    forall i | 0 <= i < |after| ensures WellSortedAtom(after[i]) {
      if after[i] in eqs {
        var k, j :| k in g && 0 < j < |g[k]| && g[k][0] != g[k][j] && after[i] == Atom(Eq, [g[k][0], g[k][j]]);
        OutputSort(body, k, 0);
        OutputSort(body, k, j);
      } else {
        assert after[i] in Kept(body);
      }
    }
  }

  lemma {:induction false} OutputSort(body: seq<Atom>, k: CallKey, j: nat)
    requires Calls(body) && WellSorted(body) && k in GroupsOf(body) && j < |GroupsOf(body)[k]|
    ensures SortOf(GroupsOf(body)[k][j]) == k.0.output
  {
    var i := GroupedOutputsComeFrom(body, k, j);
    assert WellSortedAtom(body[i]);
  }

  // ---------------------------------------------------------------- progress

  // The last call goes if there is one with its key before it.
  lemma {:induction false} KeptSnoc(p: Atom -> bool, body: seq<Atom>)
    requires Calls(body) && body != []
    ensures Calls(body[..|body| - 1])
    ensures var n := |body| - 1;
      Count(p, Kept(body)) == Count(p, Kept(body[..n])) + (if KeyOf(body[n]) !in GroupsOf(body[..n]) && p(body[n]) then 1 else 0)
  {
    CallsInit(body);
    var n := |body| - 1;
    CountConcat(p, Kept(body[..n]), [body[n]]);
    assert [body[n]][..0] == [];
  }

  lemma {:induction false} KeptCount(p: Atom -> bool, body: seq<Atom>)
    requires Calls(body)
    ensures Count(p, Kept(body)) <= Count(p, body)
  {
    if body != [] {
      KeptSnoc(p, body);
      KeptCount(p, body[..|body| - 1]);
    }
  }

  // Every output after the first is that of a call that goes.
  lemma {:induction false} DroppedCount(p: Atom -> bool, body: seq<Atom>, k: CallKey, j: nat)
    requires Calls(body) && k in GroupsOf(body) && 0 < j < |GroupsOf(body)[k]| && p(Atom(Call(k.0), k.1 + [GroupsOf(body)[k][j]]))
    ensures Count(p, Kept(body)) < Count(p, body)
  {
    CallsInit(body);
    var n := |body| - 1;
    var g := GroupsOf(body[..n]);
    KeptSnoc(p, body);
    if k in g && j < |g[k]| {
      DroppedCount(p, body[..n], k, j);
    } else {
      KeptCount(p, body[..n]);
      assert body[n].args == Inputs(body[n]) + [Output(body[n])];
    }
  }

  // A `value-eq` that is not just a condition: its output is not the unit literal.
  predicate NamedValueEq(a: Atom) {
    a.head.Call? && IsValueEq(a.head.head) && |a.args| > 0 && a.args[|a.args| - 1] != Lit(Unit)
  }

  // Where the outputs of a group differ, the first is the unit literal.
  predicate UnitFirst(body: seq<Atom>)
    requires Calls(body)
  {
    var g := GroupsOf(body);
    forall k, j :: k in g && 0 < j < |g[k]| && g[k][0] != g[k][j] ==> g[k][0] == Lit(Unit)
  }

  // An equality comes with a call that goes: a proper one, a named `value-eq`, or else a unit literal
  // behind a named output, which a pass without substitutions does not leave.
  lemma {:induction false} DedupProgress(body: seq<Atom>, eqs: seq<Atom>)
    requires Calls(body) && AreGroupEqualities(GroupsOf(body), eqs)
    ensures Count(ProperCall, eqs + Kept(body)) <= Count(ProperCall, body)
    ensures Count(NamedValueEq, eqs + Kept(body)) <= Count(NamedValueEq, body)
    ensures eqs != [] ==>
      (|| Count(ProperCall, eqs + Kept(body)) < Count(ProperCall, body)
       || Count(NamedValueEq, eqs + Kept(body)) < Count(NamedValueEq, body)
       || !UnitFirst(body))
  {
    var g := GroupsOf(body);
    EqualitiesShaped(g, eqs);
    CountConcat(ProperCall, eqs, Kept(body));
    CountConcat(NamedValueEq, eqs, Kept(body));
    KeptCount(ProperCall, body);
    KeptCount(NamedValueEq, body);
    if eqs != [] && UnitFirst(body) {
      assert eqs[0] in eqs;
      var k, j :| k in g && 0 < j < |g[k]| && g[k][0] != g[k][j] && eqs[0] == Atom(Eq, [g[k][0], g[k][j]]);
      DroppedCount(if IsValueEq(k.0) then NamedValueEq else ProperCall, body, k, j);
    }
  }

  lemma {:induction false} Regroup(a: seq<Atom>, b: seq<Atom>, c: seq<Atom>)
    ensures a + (b + c) == a + b + c
  {}

  lemma {:induction false} FinishConcat(a: seq<Atom>, b: seq<Atom>)
    requires AllWellShaped(a) && AllWellShaped(b) && AllWellShaped(a + b)
    ensures Finish(a + b) == Finish(a) + Finish(b)
  {
    if b == [] {
      assert a + b == a;
    } else {
      var n := |b| - 1;
      assert (a + b)[..|a + b| - 1] == a + b[..n];
      FinishConcat(a, b[..n]);
      Regroup(Finish(a), Finish(b[..n]), FinishAtom(b[n]));
    }
  }

  lemma {:induction false} FinishCalls(body: seq<Atom>)
    requires Calls(body)
    ensures Finish(body) == body
  {
    if body != [] {
      CallsInit(body);
      FinishCalls(body[..|body| - 1]);
    }
  }

  predicate IsUnitCall(a: Atom)
    requires WellShaped(a)
  {
    a.head.Call? && Output(a) == Lit(Unit)
  }

  predicate UnitCalls(body: seq<Atom>) {
    AllWellShaped(body) && forall i :: 0 <= i < |body| ==> IsUnitCall(body[i])
  }

  lemma {:induction false} FinishedEqualities(eqs: seq<Atom>)
    requires AllWellShaped(eqs) && forall i :: 0 <= i < |eqs| ==> eqs[i].head.Eq?
    ensures UnitCalls(Finish(eqs))
  {
    if eqs != [] {
      var n := |eqs| - 1;
      var init, last := Finish(eqs[..n]), FinishAtom(eqs[n]);
      FinishedEqualities(eqs[..n]);
      assert UnitCalls(last);
      assert Finish(eqs) == init + last;
      forall i | 0 <= i < |init + last| ensures WellShaped((init + last)[i]) && IsUnitCall((init + last)[i]) {
        if i < |init| { assert (init + last)[i] == init[i]; } else { assert (init + last)[i] == last[i - |init|]; }
      }
    }
  }

  lemma {:induction false} UnitCallsCount(body: seq<Atom>)
    requires UnitCalls(body)
    ensures Count(NamedValueEq, body) == 0
  {
    NoCallsCount(NamedValueEq, body);
  }

  // Calls with one key are found again only behind a finished equality.
  lemma {:induction false} GroupsBehind(front: seq<Atom>, kept: seq<Atom>, k: CallKey)
    requires UnitCalls(front) && Calls(kept) && NoDuplicates(kept)
    ensures Calls(front + kept)
    ensures k in GroupsOf(front + kept) && |GroupsOf(front + kept)[k]| > 1 ==> GroupsOf(front + kept)[k][0] == Lit(Unit)
  {
    var all := front + kept;
    if k in GroupsOf(all) && |GroupsOf(all)[k]| > 1 {
      if kept == [] {
        var i := GroupedOutputsComeFrom(all, k, 0);
      } else {
        var n := |kept| - 1;
        CallsInit(kept);
        CallsInit(all);
        assert all[..|all| - 1] == front + kept[..n] && all[|all| - 1] == kept[n];
        GroupsBehind(front, kept[..n], k);
        var g := GroupsOf(front + kept[..n]);
        if k in g && |g[k]| == 1 {
          var i := GroupedOutputsComeFrom(front + kept[..n], k, 0);
          assert i < |front|;
        }
      }
    }
  }

  lemma {:induction false} BehindIsUnitFirst(front: seq<Atom>, kept: seq<Atom>)
    requires UnitCalls(front) && Calls(kept) && NoDuplicates(kept)
    ensures Calls(front + kept) && UnitFirst(front + kept)
  {
    var all := front + kept;
    forall i | 0 <= i < |all| ensures WellShaped(all[i]) && all[i].head.Call? {
      if i < |front| { assert IsUnitCall(front[i]); } else { assert all[i] == kept[i - |front|]; }
    }
    var g := GroupsOf(all);
    forall k, j | k in g && 0 < j < |g[k]| && g[k][0] != g[k][j] ensures g[k][0] == Lit(Unit) {
      GroupsBehind(front, kept, k);
    }
  }

  lemma {:induction false} FinishedPass(eqs: seq<Atom>, kept: seq<Atom>)
    requires AllWellShaped(eqs) && (forall i :: 0 <= i < |eqs| ==> eqs[i].head.Eq?) && Calls(kept) && AllWellShaped(eqs + kept)
    ensures UnitCalls(Finish(eqs)) && Finish(eqs + kept) == Finish(eqs) + kept
    ensures Count(NamedValueEq, Finish(eqs) + kept) == Count(NamedValueEq, eqs + kept)
  {
    FinishConcat(eqs, kept);
    FinishCalls(kept);
    FinishedEqualities(eqs);
    UnitCallsCount(Finish(eqs));
    NoCallsCount(NamedValueEq, eqs);
    CountConcat(NamedValueEq, eqs, kept);
    CountConcat(NamedValueEq, Finish(eqs), kept);
  }

  // What a pass without substitutions leaves.
  lemma {:induction false} PassLeaves(body: seq<Atom>, eqs: seq<Atom>)
    requires Calls(body) && AreGroupEqualities(GroupsOf(body), eqs) && AllWellShaped(eqs + Kept(body))
    ensures var after := Finish(eqs + Kept(body));
      Calls(after) && UnitFirst(after) && Count(NamedValueEq, after) == Count(NamedValueEq, eqs + Kept(body))
  {
    KeptAreFirsts(body);
    EqualitiesShaped(GroupsOf(body), eqs);
    FinishedPass(eqs, Kept(body));
    BehindIsUnitFirst(Finish(eqs), Kept(body));
  }

  lemma {:induction false} GroupsNonEmpty(body: seq<Atom>)
    requires Calls(body)
    ensures forall k :: k in GroupsOf(body) ==> GroupsOf(body)[k] != []
  {
    if body != [] {
      CallsInit(body);
      GroupsNonEmpty(body[..|body| - 1]);
    }
  }

  lemma {:induction false} DedupPreserves(r: Rule, eqs: seq<Atom>)
    requires Calls(r.body) && AreGroupEqualities(GroupsOf(r.body), eqs)
    ensures AllWellShaped(eqs + Kept(r.body)) && Anchored(eqs + Kept(r.body))
    ensures Preserves(r, Rule(eqs + Kept(r.body), r.head))
  {
    var after := eqs + Kept(r.body);
    DedupHolds(Db(imap[], map[]), map[], r.body, eqs);
    forall db, e ensures HoldsAll(db, e, after) <==> HoldsAll(db, e, r.body) { DedupHolds(db, e, r.body, eqs); }
    DedupVars(r.body, eqs);
    DedupAnchored(r.body, eqs);
    SameMatchesPreserve(r, after);
  }

  lemma {:induction false} SmallerVars(a: set<Term>, b: set<Term>)
    requires a <= b
    ensures |a| <= |b| && (a != b ==> |a| < |b|)
  {
    if a != b {
      var t :| t in b && t !in a;
      SmallerVars(a, b - {t});
    }
  }

  // ---------------------------------------------------------------- the pass

  // Stops, keeps the meaning of the rule, and leaves no two calls with the same head and inputs.
  method RemoveDupVars(rule: Rule) returns (r: Rule)
    requires Calls(rule.body)
    ensures Calls(r.body) && Preserves(rule, r) && NoDuplicates(r.body)
    ensures WellSorted(rule.body) ==> WellSorted(r.body)
    decreases |BodyVars(rule.body)| + Count(ProperCall, rule.body), Count(NamedValueEq, rule.body), if UnitFirst(rule.body) then 0 else 1
  {
    var kept, groups := Retain(rule.body);
    GroupsNonEmpty(rule.body);
    var eqs := EquivGroupsToEqs(groups);
    KeptAreFirsts(rule.body);
    DedupPreserves(rule, eqs);
    if WellSorted(rule.body) { DedupWellSorted(rule.body, eqs); }
    if eqs == [] {
      assert eqs + kept == kept;
      return Rule(kept, rule.head);
    }
    var merged := Rule(eqs + kept, rule.head);
    DedupProgress(rule.body, eqs);
    DedupVars(rule.body, eqs);
    PassLeaves(rule.body, eqs);
    var canonical := Canonicalize(merged);
    SmallerVars(BodyVars(canonical.body), BodyVars(rule.body));
    r := RemoveDupVars(canonical);
    PreservesTrans(rule, merged, canonical);
    PreservesTrans(rule, canonical, r);
  }

  // Both passes on a rule that passed the groundedness check.
  method Compile(rule: Rule) returns (ok: bool, r: Rule)
    requires AllWellShaped(rule.body)
    ensures ok <==> Grounded(rule.body)
    ensures ok ==> Calls(r.body) && Preserves(rule, r) && NoDuplicates(r.body)
    ensures ok && WellSorted(rule.body) ==> WellSorted(r.body)
  {
    r := rule;
    var ungrounded;
    ok, ungrounded := GroundedCheck(rule.body);
    if ok {
      GroundedIsAnchored(rule.body);
      var canonical := Canonicalize(rule);
      r := RemoveDupVars(canonical);
      PreservesTrans(rule, canonical, r);
    }
  }
}
