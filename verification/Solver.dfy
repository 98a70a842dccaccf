// The constraint solver: propagation with rollback and pruning, on values represented by their keys.
module SolverModel {
  import opened CoreIR
  import opened Options

  type Key = string
  type Assigned = map<Term, Key>

  datatype Basic = Same(x: Term, y: Term) | Assign(x: Term, key: Key)

  // A delayed constraint turns into a conjunction of basic ones once its watched terms have values.
  datatype Implied = Delayed(make: seq<Key> -> seq<Basic>) | Immediate(cs: seq<Basic>)

  datatype Constraint =
    | Basic(b: Basic)
    | And(cs: seq<Constraint>)
    | Xor(cs: seq<Constraint>)
    | Implies(watch: seq<Term>, implied: Implied)
    | Impossible

  // ---------------------------------------------------------------- one update

  datatype BasicOutcome = Did(m: Assigned, updated: bool) | Clash

  function UpdateBasic(b: Basic, m: Assigned): BasicOutcome {
    match b
    case Same(x, y) =>
      if x in m && y in m then (if m[x] == m[y] then Did(m, false) else Clash)
      else if x in m then Did(m[y := m[x]], true)
      else if y in m then Did(m[x := m[y]], true)
      else Did(m, false)
    case Assign(x, k) =>
      if x in m then (if m[x] == k then Did(m, false) else Clash) else Did(m[x := k], true)
  }

  function UpdateBasics(bs: seq<Basic>, m: Assigned): BasicOutcome {
    if bs == [] then Did(m, false)
    else
      var first := UpdateBasic(bs[0], m);
      if first.Clash? then Clash
      else
        var rest := UpdateBasics(bs[1..], first.m);
        if rest.Clash? then Clash else Did(rest.m, first.updated || rest.updated)
  }

  // The constraint after the update, the assignment after it, and whether anything changed.
  datatype Outcome = Ok(c: Constraint, m: Assigned, updated: bool) | Fail
  datatype AllOutcome = AllOk(cs: seq<Constraint>, m: Assigned, updated: bool) | AllFail

  function Watched(watch: seq<Term>, m: Assigned): Option<seq<Key>> {
    if watch == [] then Some([])
    else
      var rest := Watched(watch[1..], m);
      if watch[0] !in m || rest.None? then None else Some([m[watch[0]]] + rest.value)
  }

  function Update(c: Constraint, m: Assigned): Outcome
    decreases c, 0
  {
    match c
    case Basic(b) =>
      var r := UpdateBasic(b, m);
      if r.Clash? then Fail else Ok(c, r.m, r.updated)
    case And(cs) =>
      var r := UpdateAll(cs, m);
      if r.AllFail? then Fail else Ok(And(r.cs), r.m, r.updated)
    case Xor(cs) =>
      var i := NextOk(cs, m, 0);
      if i == |cs| then Fail
      else if NextOk(cs, m, i + 1) < |cs| then Ok(c, m, false)
      else
        var r := Update(cs[i], m);
        Ok(Xor([r.c]), r.m, r.updated)
    case Implies(watch, Delayed(make)) =>
      var vals := Watched(watch, m);
      if vals.None? then Ok(c, m, false)
      else
        var r := UpdateBasics(make(vals.value), m);
        if r.Clash? then Fail else Ok(Implies(watch, Immediate(make(vals.value))), r.m, true)
    case Implies(_, Immediate(bs)) =>
      var r := UpdateBasics(bs, m);
      if r.Clash? then Fail else Ok(c, r.m, r.updated)
    case Impossible => Fail
  }

  // One after the other, each on the assignment the previous one left.
  function UpdateAll(cs: seq<Constraint>, m: Assigned): (r: AllOutcome)
    ensures r.AllOk? ==> |r.cs| == |cs|
    decreases cs, 1
  {
    if cs == [] then AllOk([], m, false)
    else
      var first := Update(cs[0], m);
      if first.Fail? then AllFail
      else
        var rest := UpdateAll(cs[1..], first.m);
        if rest.AllFail? then AllFail
        else AllOk([first.c] + rest.cs, rest.m, first.updated || rest.updated)
  }

  // The first alternative from the k-th on that can be updated.
  function NextOk(cs: seq<Constraint>, m: Assigned, k: nat): (r: nat)
    requires k <= |cs|
    ensures k <= r <= |cs|
    ensures r < |cs| ==> Update(cs[r], m).Ok?
    ensures forall j :: k <= j < r ==> Update(cs[j], m).Fail?
    decreases cs, 1, |cs| - k
  {
    if k == |cs| then k
    else if Update(cs[k], m).Ok? then k
    else NextOk(cs, m, k + 1)
  }

  // ---------------------------------------------------------------- growing assignments

  ghost predicate Extends(a: Assigned, b: Assigned) {
    forall t :: t in a ==> t in b && b[t] == a[t]
  }

  lemma {:induction false} UpdateBasicsGrows(bs: seq<Basic>, m: Assigned)
    ensures var r := UpdateBasics(bs, m);
            r.Did? ==> Extends(m, r.m) && (!r.updated ==> r.m == m) && (r.updated ==> m.Keys < r.m.Keys)
  {
    if bs != [] {
      var first := UpdateBasic(bs[0], m);
      if first.Did? { UpdateBasicsGrows(bs[1..], first.m); }
    }
  }

  // Updates only add assignments, and report no change only when there is none.
  lemma {:induction false} UpdateGrows(c: Constraint, m: Assigned)
    ensures var r := Update(c, m); r.Ok? ==> Extends(m, r.m) && (!r.updated ==> r.m == m)
    decreases c, 0
  {
    match c
    case Basic(_) =>
    case And(cs) => UpdateAllGrows(cs, m);
    case Xor(cs) =>
      var i := NextOk(cs, m, 0);
      if i < |cs| { UpdateGrows(cs[i], m); }
    case Implies(watch, Delayed(make)) =>
      var vals := Watched(watch, m);
      if vals.Some? { UpdateBasicsGrows(make(vals.value), m); }
    case Implies(_, Immediate(bs)) => UpdateBasicsGrows(bs, m);
    case Impossible =>
  }

  lemma {:induction false} UpdateAllGrows(cs: seq<Constraint>, m: Assigned)
    ensures var r := UpdateAll(cs, m); r.AllOk? ==> Extends(m, r.m) && (!r.updated ==> r.m == m)
    decreases cs, 1
  {
    if cs != [] {
      UpdateGrows(cs[0], m);
      var first := Update(cs[0], m);
      if first.Ok? { UpdateAllGrows(cs[1..], first.m); }
    }
  }

  // With an alternative that can be updated, either it is the only one and is kept with its update,
  // or nothing changes.
  lemma {:induction false} XorCases(cs: seq<Constraint>, m: Assigned, k: nat)
    requires k < |cs| && Update(cs[k], m).Ok?
    ensures var r := Update(Xor(cs), m); var d := Update(cs[k], m);
            r == Ok(Xor(cs), m, false) || r == Ok(Xor([d.c]), d.m, d.updated)
  {
    var i := NextOk(cs, m, 0);
    assert i <= k;
    if i < k { assert NextOk(cs, m, i + 1) <= k; }
  }

  lemma {:induction false} XorUnique(cs: seq<Constraint>, m: Assigned, i: nat)
    requires i < |cs| && forall j :: 0 <= j < |cs| && j != i ==> Update(cs[j], m).Fail?
    ensures Update(cs[i], m).Fail? ==> Update(Xor(cs), m).Fail?
    ensures var d := Update(cs[i], m); d.Ok? ==> Update(Xor(cs), m) == Ok(Xor([d.c]), d.m, d.updated)
  {
    if Update(cs[i], m).Ok? {
      assert NextOk(cs, m, 0) == i && NextOk(cs, m, i + 1) == |cs|;
    }
  }

  // ---------------------------------------------------------------- monotonicity

  lemma {:induction false} BasicsMonotone(bs: seq<Basic>, a: Assigned, b: Assigned)
    requires Extends(a, b) && UpdateBasics(bs, b).Did?
    ensures UpdateBasics(bs, a).Did? && Extends(UpdateBasics(bs, a).m, UpdateBasics(bs, b).m)
  {
    if bs != [] {
      BasicsMonotone(bs[1..], UpdateBasic(bs[0], a).m, UpdateBasic(bs[0], b).m);
    }
  }

  lemma {:induction false} WatchedMonotone(watch: seq<Term>, a: Assigned, b: Assigned)
    requires Extends(a, b) && Watched(watch, a).Some?
    ensures Watched(watch, b) == Watched(watch, a)
  {
    if watch != [] { WatchedMonotone(watch[1..], a, b); }
  }

  lemma {:induction false} XorMonotone(cs: seq<Constraint>, a: Assigned, b: Assigned)
    requires Extends(a, b) && Update(Xor(cs), b).Ok?
    requires forall k :: 0 <= k < |cs| && Update(cs[k], b).Ok? ==>
               Update(cs[k], a).Ok? && Extends(Update(cs[k], a).m, Update(cs[k], b).m)
    ensures Update(Xor(cs), a).Ok? && Extends(Update(Xor(cs), a).m, Update(Xor(cs), b).m)
  {
    UpdateGrows(Xor(cs), b);
    var i := NextOk(cs, b, 0);
    XorCases(cs, a, i);
    var j := NextOk(cs, b, i + 1);
  }

  // An update that works on a larger assignment works on a smaller one and adds no more there;
  // this includes alternatives, which may be undecided on the smaller assignment.
  lemma {:induction false} Monotone(c: Constraint, a: Assigned, b: Assigned)
    requires Extends(a, b) && Update(c, b).Ok?
    ensures Update(c, a).Ok? && Extends(Update(c, a).m, Update(c, b).m)
    decreases c, 0
  {
    match c
    case Basic(_) =>
    case And(cs) => MonotoneAll(cs, a, b);
    case Xor(cs) =>
      forall k | 0 <= k < |cs| && Update(cs[k], b).Ok?
        ensures Update(cs[k], a).Ok? && Extends(Update(cs[k], a).m, Update(cs[k], b).m)
      {
        Monotone(cs[k], a, b);
      }
      XorMonotone(cs, a, b);
    case Implies(watch, Delayed(make)) =>
      UpdateGrows(c, b);
      var vals := Watched(watch, a);
      if vals.Some? {
        WatchedMonotone(watch, a, b);
        BasicsMonotone(make(vals.value), a, b);
      }
    case Implies(_, Immediate(bs)) => BasicsMonotone(bs, a, b);
    case Impossible =>
  }

  lemma {:induction false} MonotoneAll(cs: seq<Constraint>, a: Assigned, b: Assigned)
    requires Extends(a, b) && UpdateAll(cs, b).AllOk?
    ensures UpdateAll(cs, a).AllOk? && Extends(UpdateAll(cs, a).m, UpdateAll(cs, b).m)
    decreases cs, 1
  {
    if cs != [] {
      Monotone(cs[0], a, b);
      MonotoneAll(cs[1..], Update(cs[0], a).m, Update(cs[0], b).m);
    }
  }

  // ---------------------------------------------------------------- state does not matter

  ghost predicate SameEffect(c: Constraint, d: Constraint, m: Assigned) {
    && (Update(c, m).Ok? <==> Update(d, m).Ok?)
    && (Update(c, m).Ok? ==> Update(c, m).m == Update(d, m).m)
  }

  lemma {:induction false} XorCoherent(cs: seq<Constraint>, a: Assigned, b: Assigned, i: nat)
    requires Extends(a, b) && i < |cs| && Update(cs[i], a).Ok?
    requires forall j :: 0 <= j < |cs| && j != i ==> Update(cs[j], a).Fail?
    requires SameEffect(Update(cs[i], a).c, cs[i], b)
    ensures SameEffect(Xor([Update(cs[i], a).c]), Xor(cs), b)
  {
    forall j | 0 <= j < |cs| && j != i ensures Update(cs[j], b).Fail? {
      if Update(cs[j], b).Ok? { Monotone(cs[j], a, b); }
    }
    XorUnique([Update(cs[i], a).c], b, 0);
    XorUnique(cs, b, i);
  }

  // Pruned alternatives and activated implications act on every later assignment as the constraint
  // they came from.
  lemma {:induction false} Coherent(c: Constraint, a: Assigned, b: Assigned)
    requires Update(c, a).Ok? && Extends(Update(c, a).m, b)
    ensures SameEffect(Update(c, a).c, c, b)
    decreases c, 0
  {
    UpdateGrows(c, a);
    match c
    case Basic(_) =>
    case And(cs) => CoherentAll(cs, a, b);
    case Xor(cs) =>
      var i := NextOk(cs, a, 0);
      if NextOk(cs, a, i + 1) == |cs| {
        Coherent(cs[i], a, b);
        XorCoherent(cs, a, b, i);
      }
    case Implies(watch, Delayed(make)) =>
      if Watched(watch, a).Some? { WatchedMonotone(watch, a, b); }
    case Implies(_, Immediate(_)) =>
  }

  lemma {:induction false} CoherentAll(cs: seq<Constraint>, a: Assigned, b: Assigned)
    requires UpdateAll(cs, a).AllOk? && Extends(UpdateAll(cs, a).m, b)
    ensures UpdateAll(UpdateAll(cs, a).cs, b).AllOk? <==> UpdateAll(cs, b).AllOk?
    ensures UpdateAll(cs, b).AllOk? ==> UpdateAll(UpdateAll(cs, a).cs, b).m == UpdateAll(cs, b).m
    decreases cs, 1
  {
    if cs != [] {
      var first := Update(cs[0], a);
      var rest := UpdateAll(cs[1..], first.m);
      UpdateAllGrows(cs[1..], first.m);
      Coherent(cs[0], a, b);
      assert ([first.c] + rest.cs)[1..] == rest.cs;
      if Update(cs[0], b).Ok? {
        UpdateGrows(cs[0], b);
        CoherentAll(cs[1..], first.m, Update(cs[0], b).m);
      }
    }
  }

  // ---------------------------------------------------------------- termination

  // Implications still to be activated, also inside alternatives.
  ghost function Pending(c: Constraint): nat
    decreases c, 0
  {
    match c
    case And(cs) => PendingAll(cs)
    case Xor(cs) => PendingAll(cs)
    case Implies(_, Delayed(_)) => 1
    case _ => 0
  }

  ghost function PendingAll(cs: seq<Constraint>): nat
    decreases cs, 1
  {
    if cs == [] then 0 else Pending(cs[0]) + PendingAll(cs[1..])
  }

  function BasicTerms(b: Basic): set<Term> {
    if b.Same? then {b.x, b.y} else {b.x}
  }

  function BasicsTerms(bs: seq<Basic>): set<Term> {
    if bs == [] then {} else BasicTerms(bs[0]) + BasicsTerms(bs[1..])
  }

  // The terms an update may assign without activating an implication.
  ghost function Terms(c: Constraint): set<Term>
    decreases c, 0
  {
    match c
    case Basic(b) => BasicTerms(b)
    case And(cs) => TermsAll(cs)
    case Xor(cs) => TermsAll(cs)
    case Implies(_, Immediate(bs)) => BasicsTerms(bs)
    case _ => {}
  }

  ghost function TermsAll(cs: seq<Constraint>): set<Term>
    decreases cs, 1
  {
    if cs == [] then {} else Terms(cs[0]) + TermsAll(cs[1..])
  }

  lemma {:induction false} BasicsProgress(bs: seq<Basic>, m: Assigned)
    ensures var r := UpdateBasics(bs, m);
            r.Did? ==> r.m.Keys <= m.Keys + BasicsTerms(bs) && (r.updated ==> m.Keys < r.m.Keys)
  {
    UpdateBasicsGrows(bs, m);
    if bs != [] {
      var first := UpdateBasic(bs[0], m);
      if first.Did? { BasicsProgress(bs[1..], first.m); }
    }
  }

  lemma {:induction false} PendingNth(cs: seq<Constraint>, i: nat)
    requires i < |cs|
    ensures Pending(cs[i]) <= PendingAll(cs) && Terms(cs[i]) <= TermsAll(cs)
  {
    if i > 0 { PendingNth(cs[1..], i - 1); }
  }

  lemma {:induction false} PendingOne(c: Constraint)
    ensures Pending(Xor([c])) == Pending(c) && Terms(Xor([c])) == Terms(c)
  {
    var cs := [c];
    assert cs[1..] == [] && PendingAll(cs[1..]) == 0 && TermsAll(cs[1..]) == {};
    assert Pending(Xor(cs)) == PendingAll(cs) == Pending(cs[0]) + PendingAll(cs[1..]);
    assert Terms(Xor(cs)) == TermsAll(cs) == Terms(cs[0]) + TermsAll(cs[1..]);
  }

  // A reported change either activates an implication or assigns one more of the known terms.
  lemma {:induction false} UpdateProgress(c: Constraint, m: Assigned)
    ensures var r := Update(c, m); r.Ok? ==>
              && Pending(r.c) <= Pending(c)
              && (Pending(r.c) == Pending(c) ==>
                    Terms(r.c) <= Terms(c) && r.m.Keys <= m.Keys + Terms(c) && (r.updated ==> m.Keys < r.m.Keys))
    decreases c, 0
  {
    match c
    case Basic(_) =>
    case And(cs) => UpdateAllProgress(cs, m);
    case Xor(cs) =>
      var i := NextOk(cs, m, 0);
      if i < |cs| {
        XorCases(cs, m, i);
        UpdateProgress(cs[i], m);
        PendingNth(cs, i);
        PendingOne(Update(cs[i], m).c);
      }
    case Implies(watch, Delayed(_)) =>
    case Implies(_, Immediate(bs)) => BasicsProgress(bs, m);
    case Impossible =>
  }

  lemma {:induction false} UpdateAllProgress(cs: seq<Constraint>, m: Assigned)
    ensures var r := UpdateAll(cs, m); r.AllOk? ==>
              && PendingAll(r.cs) <= PendingAll(cs)
              && (PendingAll(r.cs) == PendingAll(cs) ==>
                    TermsAll(r.cs) <= TermsAll(cs) && r.m.Keys <= m.Keys + TermsAll(cs) && (r.updated ==> m.Keys < r.m.Keys))
    decreases cs, 1
  {
    UpdateAllGrows(cs, m);
    if cs != [] {
      var first := Update(cs[0], m);
      if first.Ok? {
        UpdateProgress(cs[0], m);
        UpdateGrows(cs[0], m);
        UpdateAllProgress(cs[1..], first.m);
        UpdateAllGrows(cs[1..], first.m);
        var rest := UpdateAll(cs[1..], first.m);
        assert rest.AllOk? ==> ([first.c] + rest.cs)[1..] == rest.cs;
      }
    }
  }

  lemma {:induction false} MoreKeysLessLeft(before: set<Term>, after: set<Term>, known: set<Term>, known': set<Term>)
    requires before < after && after <= before + known && known' <= known
    ensures |known' - after| < |known - before|
  {
    var t :| t in after && t !in before;
    assert known' - after <= (known - before) - {t};
    SubsetSize(known' - after, (known - before) - {t});
  }

  lemma {:induction false} SubsetSize(a: set<Term>, b: set<Term>)
    requires a <= b
    ensures |a| <= |b|
  {
    if a != {} {
      var t :| t in a;
      SubsetSize(a - {t}, b - {t});
    }
  }

  // ---------------------------------------------------------------- solving

  // Rounds over all constraints until one reports no change.
  ghost function Solve(cs: seq<Constraint>, m: Assigned): Option<Assigned>
    decreases PendingAll(cs), |TermsAll(cs) - m.Keys|
  {
    var r := UpdateAll(cs, m);
    if r.AllFail? then None
    else if !r.updated then Some(r.m)
    else
      UpdateAllProgress(cs, m);
      if PendingAll(r.cs) == PendingAll(cs) then
        MoreKeysLessLeft(m.Keys, r.m.Keys, TermsAll(cs), TermsAll(r.cs));
        Solve(r.cs, r.m)
      else Solve(r.cs, r.m)
  }

  // One round decides, or leaves a smaller problem with the same solution.
  lemma {:induction false} SolveRound(cs: seq<Constraint>, m: Assigned)
    ensures var r := UpdateAll(cs, m);
      && (r.AllFail? ==> Solve(cs, m) == None)
      && (r.AllOk? && !r.updated ==> Solve(cs, m) == Some(r.m))
      && (r.AllOk? && r.updated ==> Solve(cs, m) == Solve(r.cs, r.m))
      && (r.AllOk? ==> Smaller(r.cs, r.m, r.updated, cs, m))
  {
    var r := UpdateAll(cs, m);
    if r.AllOk? {
      UpdateAllProgress(cs, m);
      UpdateAllGrows(cs, m);
      if PendingAll(r.cs) == PendingAll(cs) {
        if r.updated {
          MoreKeysLessLeft(m.Keys, r.m.Keys, TermsAll(cs), TermsAll(r.cs));
        } else {
          SubsetSize(TermsAll(r.cs) - m.Keys, TermsAll(cs) - m.Keys);
        }
      }
    }
  }

  ghost predicate Smaller(cs': seq<Constraint>, m': Assigned, strictly: bool, cs: seq<Constraint>, m: Assigned) {
    || PendingAll(cs') < PendingAll(cs)
    || (PendingAll(cs') == PendingAll(cs) &&
        var left', left := |TermsAll(cs') - m'.Keys|, |TermsAll(cs) - m.Keys|;
        if strictly then left' < left else left' <= left)
  }

  // No constraint objects to the assignment or would add to it.
  ghost predicate Stable(cs: seq<Constraint>, m: Assigned) {
    forall c :: c in cs ==> Update(c, m).Ok? && Update(c, m).m == m
  }

  lemma {:induction false} StableAll(cs: seq<Constraint>, m: Assigned)
    ensures Stable(cs, m) <==> UpdateAll(cs, m).AllOk? && UpdateAll(cs, m).m == m
  {
    if cs != [] {
      var first := Update(cs[0], m);
      UpdateGrows(cs[0], m);
      if first.Ok? {
        UpdateAllGrows(cs[1..], first.m);
        if first.m == m {
          StableAll(cs[1..], m);
          assert forall c :: c in cs <==> c == cs[0] || c in cs[1..];
        } else {
          assert cs[0] in cs;
        }
      } else {
        assert cs[0] in cs;
      }
    }
  }

  // The constraints have the same effect as those given on everything above `m`.
  ghost predicate Tracks(orig: seq<Constraint>, cs: seq<Constraint>, m: Assigned) {
    forall b :: Extends(m, b) ==> TracksAt(orig, cs, b)
  }

  ghost predicate TracksAt(orig: seq<Constraint>, cs: seq<Constraint>, b: Assigned) {
    && (UpdateAll(cs, b).AllOk? <==> UpdateAll(orig, b).AllOk?)
    && (UpdateAll(orig, b).AllOk? ==> UpdateAll(cs, b).m == UpdateAll(orig, b).m)
  }

  lemma {:induction false} RoundKeepsTracking(orig: seq<Constraint>, cs: seq<Constraint>, m: Assigned)
    requires Tracks(orig, cs, m) && UpdateAll(cs, m).AllOk?
    ensures Tracks(orig, UpdateAll(cs, m).cs, UpdateAll(cs, m).m)
  {
    var r := UpdateAll(cs, m);
    UpdateAllGrows(cs, m);
    forall b | Extends(r.m, b) ensures TracksAt(orig, r.cs, b) {
      CoherentAll(cs, m, b);
      assert TracksAt(orig, cs, b);
    }
  }

  lemma {:induction false} SolveFrom(orig: seq<Constraint>, cs: seq<Constraint>, m: Assigned)
    requires Tracks(orig, cs, m)
    ensures var r := Solve(cs, m);
      && (r.Some? ==> Stable(orig, r.value))
      && (forall b :: Stable(orig, b) && Extends(m, b) ==> r.Some? && Extends(r.value, b))
    decreases PendingAll(cs), |TermsAll(cs) - m.Keys|
  {
    var r := UpdateAll(cs, m);
    forall b | Stable(orig, b) && Extends(m, b) ensures r.AllOk? && Extends(r.m, b) {
      StableAll(orig, b);
      assert TracksAt(orig, cs, b);
      MonotoneAll(cs, m, b);
    }
    if r.AllOk? {
      UpdateAllGrows(cs, m);
      SolveRound(cs, m);
      if !r.updated {
        assert TracksAt(orig, cs, m);
        StableAll(orig, m);
      } else {
        RoundKeepsTracking(orig, cs, m);
        SolveFrom(orig, r.cs, r.m);
      }
    }
  }

  // Solving yields the least stable assignment, and fails exactly when there is none.
  lemma {:induction false} SolveIsLeast(cs: seq<Constraint>)
    ensures var r := Solve(cs, map[]);
      && (r.Some? <==> exists b :: Stable(cs, b))
      && (r.Some? ==> Stable(cs, r.value) && forall b :: Stable(cs, b) ==> Extends(r.value, b))
  {
    SolveFrom(cs, cs, map[]);
  }

  // ---------------------------------------------------------------- stable assignments, read off the constraints

  ghost predicate SettledBasic(b: Basic, m: Assigned) {
    match b
    case Same(x, y) => (x in m <==> y in m) && (x in m ==> m[x] == m[y])
    case Assign(x, k) => x in m && m[x] == k
  }

  ghost predicate SettledBasics(bs: seq<Basic>, m: Assigned) {
    forall i :: 0 <= i < |bs| ==> SettledBasic(bs[i], m)
  }

  // Values flow through equalities in both directions; an implication counts once all watched terms have
  // values; among alternatives the only one that works counts, and several leave everything open.
  ghost predicate Settled(c: Constraint, m: Assigned)
    decreases c
  {
    match c
    case Basic(b) => SettledBasic(b, m)
    case And(cs) => forall d :: d in cs ==> Settled(d, m)
    case Xor(cs) =>
      exists i :: 0 <= i < |cs| && Works(cs[i], m) && (Settled(cs[i], m) || exists j :: 0 <= j < |cs| && j != i && Works(cs[j], m))
    case Implies(watch, Delayed(make)) =>
      (forall i :: 0 <= i < |watch| ==> watch[i] in m) ==>
        SettledBasics(make(seq(|watch|, i requires 0 <= i < |watch| => if watch[i] in m then m[watch[i]] else "")), m)
    case Implies(_, Immediate(bs)) => SettledBasics(bs, m)
    case Impossible => false
  }

  ghost predicate Works(c: Constraint, m: Assigned) {
    Update(c, m).Ok?
  }

  ghost predicate Unmoved(c: Constraint, m: Assigned) {
    Update(c, m).Ok? && Update(c, m).m == m
  }

  lemma {:induction false} BasicsSettled(bs: seq<Basic>, m: Assigned)
    ensures UpdateBasics(bs, m).Did? && UpdateBasics(bs, m).m == m <==> SettledBasics(bs, m)
  {
    if bs != [] {
      UpdateBasicsGrows(bs, m);
      var first := UpdateBasic(bs[0], m);
      assert SettledBasic(bs[0], m) <==> first.Did? && first.m == m;
      if first.Did? {
        UpdateBasicsGrows(bs[1..], first.m);
        BasicsSettled(bs[1..], m);
      }
      assert SettledBasics(bs, m) <==> SettledBasic(bs[0], m) && SettledBasics(bs[1..], m) by {
        assert forall i :: 0 < i < |bs| ==> bs[i] == bs[1..][i - 1];
        assert forall i :: 0 <= i < |bs| - 1 ==> bs[1..][i] == bs[i + 1];
      }
    }
  }

  lemma {:induction false} WatchedAre(watch: seq<Term>, m: Assigned)
    ensures Watched(watch, m).Some? <==> forall i :: 0 <= i < |watch| ==> watch[i] in m
    ensures Watched(watch, m).Some? ==>
      Watched(watch, m).value == seq(|watch|, i requires 0 <= i < |watch| => if watch[i] in m then m[watch[i]] else "")
  {
    if watch != [] {
      WatchedAre(watch[1..], m);
      assert forall i :: 0 < i < |watch| ==> watch[i] == watch[1..][i - 1];
      assert forall i :: 0 <= i < |watch| - 1 ==> watch[1..][i] == watch[i + 1];
    }
  }

  lemma {:induction false} XorSettled(cs: seq<Constraint>, m: Assigned)
    requires forall i :: 0 <= i < |cs| ==> (Unmoved(cs[i], m) <==> Settled(cs[i], m))
    ensures Unmoved(Xor(cs), m) <==> Settled(Xor(cs), m)
  {
    var i := NextOk(cs, m, 0);
    if i < |cs| {
      assert Works(cs[i], m);
      var j := NextOk(cs, m, i + 1);
      if j < |cs| { assert Works(cs[j], m); }
    }
  }

  // An update leaves an assignment as it is exactly when that is settled.
  lemma {:induction false} UnmovedIsSettled(c: Constraint, m: Assigned)
    ensures Unmoved(c, m) <==> Settled(c, m)
    decreases c, 0
  {
    match c
    case Basic(_) =>
    case And(cs) => AllUnmovedAreSettled(cs, m);
    case Xor(cs) =>
      forall i | 0 <= i < |cs| ensures Unmoved(cs[i], m) <==> Settled(cs[i], m) { UnmovedIsSettled(cs[i], m); }
      XorSettled(cs, m);
    case Implies(watch, Delayed(make)) =>
      WatchedAre(watch, m);
      if Watched(watch, m).Some? { BasicsSettled(make(Watched(watch, m).value), m); }
    case Implies(_, Immediate(bs)) => BasicsSettled(bs, m);
    case Impossible =>
  }

  lemma {:induction false} AllUnmovedAreSettled(cs: seq<Constraint>, m: Assigned)
    ensures UpdateAll(cs, m).AllOk? && UpdateAll(cs, m).m == m <==> forall d :: d in cs ==> Settled(d, m)
    decreases cs, 1
  {
    if cs != [] {
      UnmovedIsSettled(cs[0], m);
      AllUnmovedAreSettled(cs[1..], m);
      UpdateGrows(cs[0], m);
      if Update(cs[0], m).Ok? { UpdateAllGrows(cs[1..], Update(cs[0], m).m); }
      assert cs == [cs[0]] + cs[1..];
    }
  }

  ghost predicate AllSettled(cs: seq<Constraint>, m: Assigned) {
    forall c :: c in cs ==> Settled(c, m)
  }

  // Solving yields the least settled assignment, and fails exactly when there is none.
  lemma {:induction false} SolveIsLeastSettled(cs: seq<Constraint>)
    ensures var r := Solve(cs, map[]);
      && (r.Some? <==> exists b :: AllSettled(cs, b))
      && (r.Some? ==> AllSettled(cs, r.value) && forall b :: AllSettled(cs, b) ==> Extends(r.value, b))
  {
    SolveIsLeast(cs);
    forall b ensures AllSettled(cs, b) <==> Stable(cs, b) {
      forall c | c in cs ensures Unmoved(c, b) <==> Settled(c, b) { UnmovedIsSettled(c, b); }
    }
  }

  // An alternative works wherever some larger assignment settles it.
  lemma {:induction false} SettledAboveWorks(c: Constraint, m: Assigned, b: Assigned)
    requires Extends(m, b) && Settled(c, b)
    ensures Works(c, m)
  {
    UnmovedIsSettled(c, b);
    Monotone(c, m, b);
  }

  // The order of the constraints, and how often one is repeated, does not matter at all.
  lemma {:induction false} OrderIsIrrelevant(cs: seq<Constraint>, ds: seq<Constraint>)
    requires forall c :: c in cs <==> c in ds
    ensures Solve(cs, map[]) == Solve(ds, map[])
  {
    SolveIsLeast(cs);
    SolveIsLeast(ds);
    var r, s := Solve(cs, map[]), Solve(ds, map[]);
    if r.Some? {
      assert Stable(ds, r.value);
      assert Stable(cs, s.value);
      assert r.value == s.value;
    } else if s.Some? {
      assert Stable(cs, s.value);
    }
  }

  // ---------------------------------------------------------------- models

  // The logical meaning under a full valuation. Alternatives are inclusive, as the solver treats them.
  ghost predicate HoldsBasic(b: Basic, val: Term -> Key) {
    match b
    case Same(x, y) => val(x) == val(y)
    case Assign(x, k) => val(x) == k
  }

  ghost predicate HoldsBasics(bs: seq<Basic>, val: Term -> Key) {
    forall b :: b in bs ==> HoldsBasic(b, val)
  }

  ghost function Values(watch: seq<Term>, val: Term -> Key): seq<Key> {
    if watch == [] then [] else [val(watch[0])] + Values(watch[1..], val)
  }

  ghost predicate Holds(c: Constraint, val: Term -> Key) {
    match c
    case Basic(b) => HoldsBasic(b, val)
    case And(cs) => forall d :: d in cs ==> Holds(d, val)
    case Xor(cs) => exists d :: d in cs && Holds(d, val)
    case Implies(watch, Delayed(make)) => HoldsBasics(make(Values(watch, val)), val)
    case Implies(_, Immediate(bs)) => HoldsBasics(bs, val)
    case Impossible => false
  }

  ghost predicate Agrees(m: Assigned, val: Term -> Key) {
    forall t :: t in m ==> m[t] == val(t)
  }

  lemma {:induction false} BasicsSound(bs: seq<Basic>, m: Assigned, val: Term -> Key)
    requires HoldsBasics(bs, val) && Agrees(m, val)
    ensures UpdateBasics(bs, m).Did? && Agrees(UpdateBasics(bs, m).m, val)
  {
    if bs != [] {
      assert HoldsBasic(bs[0], val);
      BasicsSound(bs[1..], UpdateBasic(bs[0], m).m, val);
    }
  }

  lemma {:induction false} WatchedValues(watch: seq<Term>, m: Assigned, val: Term -> Key)
    requires Agrees(m, val) && Watched(watch, m).Some?
    ensures Watched(watch, m).value == Values(watch, val)
  {
    if watch != [] { WatchedValues(watch[1..], m, val); }
  }

  // A satisfied constraint never fails on an assignment that agrees with the valuation, and adds
  // only values of the valuation.
  lemma {:induction false} UpdateSound(c: Constraint, m: Assigned, val: Term -> Key)
    requires Holds(c, val) && Agrees(m, val)
    ensures var r := Update(c, m); r.Ok? && Agrees(r.m, val) && Holds(r.c, val)
    decreases c, 0
  {
    match c
    case Basic(_) =>
    case And(cs) => UpdateAllSound(cs, m, val);
    case Xor(cs) =>
      var d :| d in cs && Holds(d, val);
      var k :| 0 <= k < |cs| && cs[k] == d;
      UpdateSound(cs[k], m, val);
      XorCases(cs, m, k);
    case Implies(watch, Delayed(make)) =>
      if Watched(watch, m).Some? {
        WatchedValues(watch, m, val);
        BasicsSound(make(Values(watch, val)), m, val);
      }
    case Implies(_, Immediate(bs)) => BasicsSound(bs, m, val);
  }

  lemma {:induction false} UpdateAllSound(cs: seq<Constraint>, m: Assigned, val: Term -> Key)
    requires (forall c :: c in cs ==> Holds(c, val)) && Agrees(m, val)
    ensures var r := UpdateAll(cs, m); r.AllOk? && Agrees(r.m, val) && forall c :: c in r.cs ==> Holds(c, val)
    decreases cs, 1
  {
    if cs != [] {
      UpdateSound(cs[0], m, val);
      UpdateAllSound(cs[1..], Update(cs[0], m).m, val);
    }
  }

  lemma {:induction false} SolveSoundFrom(cs: seq<Constraint>, m: Assigned, val: Term -> Key)
    requires (forall c :: c in cs ==> Holds(c, val)) && Agrees(m, val)
    ensures Solve(cs, m).Some? && Agrees(Solve(cs, m).value, val)
    decreases PendingAll(cs), |TermsAll(cs) - m.Keys|
  {
    var r := UpdateAll(cs, m);
    UpdateAllSound(cs, m, val);
    SolveRound(cs, m);
    if r.updated { SolveSoundFrom(r.cs, r.m, val); }
  }

  // Every model agrees with the solution on all it assigns; an error means there is no model.
  lemma {:induction false} SolveIsSound(cs: seq<Constraint>, val: Term -> Key)
    requires forall c :: c in cs ==> Holds(c, val)
    ensures Solve(cs, map[]).Some? && Agrees(Solve(cs, map[]).value, val)
  {
    SolveSoundFrom(cs, map[], val);
  }

  // All terms the constraint speaks about under this assignment have values.
  ghost predicate Covered(c: Constraint, m: Assigned) {
    match c
    case Basic(b) => BasicTerms(b) <= m.Keys
    case And(cs) => forall d :: d in cs ==> Covered(d, m)
    case Xor(cs) => forall d :: d in cs ==> Covered(d, m)
    case Implies(watch, Delayed(make)) => Watched(watch, m).Some? && BasicsTerms(make(Watched(watch, m).value)) <= m.Keys
    case Implies(_, Immediate(bs)) => BasicsTerms(bs) <= m.Keys
    case Impossible => true
  }

  lemma {:induction false} BasicsDecided(bs: seq<Basic>, m: Assigned, val: Term -> Key)
    requires BasicsTerms(bs) <= m.Keys && Agrees(m, val)
    ensures UpdateBasics(bs, m).Did? <==> HoldsBasics(bs, val)
    ensures UpdateBasics(bs, m).Did? ==> UpdateBasics(bs, m).m == m
  {
    if bs != [] {
      BasicsDecided(bs[1..], m, val);
      assert forall b :: b in bs <==> b == bs[0] || b in bs[1..];
      assert HoldsBasics(bs, val) <==> HoldsBasic(bs[0], val) && HoldsBasics(bs[1..], val);
    }
  }

  // Where all values are known, an update succeeds exactly when the constraint holds, and changes
  // no value. For alternatives that is: exactly when at least one of them holds.
  lemma {:induction false} Decided(c: Constraint, m: Assigned, val: Term -> Key)
    requires Covered(c, m) && Agrees(m, val)
    ensures Update(c, m).Ok? <==> Holds(c, val)
    ensures Update(c, m).Ok? ==> Update(c, m).m == m
    decreases c, 0
  {
    match c
    case Basic(_) =>
    case And(cs) => DecidedAll(cs, m, val);
    case Xor(cs) =>
      forall k | 0 <= k < |cs|
        ensures Update(cs[k], m).Ok? <==> Holds(cs[k], val)
        ensures Update(cs[k], m).Ok? ==> Update(cs[k], m).m == m
      {
        Decided(cs[k], m, val);
      }
      var i := NextOk(cs, m, 0);
      assert i < |cs| ==> cs[i] in cs;
    case Implies(watch, Delayed(make)) =>
      WatchedValues(watch, m, val);
      BasicsDecided(make(Values(watch, val)), m, val);
    case Implies(_, Immediate(bs)) => BasicsDecided(bs, m, val);
    case Impossible =>
  }

  lemma {:induction false} DecidedAll(cs: seq<Constraint>, m: Assigned, val: Term -> Key)
    requires (forall c :: c in cs ==> Covered(c, m)) && Agrees(m, val)
    ensures UpdateAll(cs, m).AllOk? <==> forall c :: c in cs ==> Holds(c, val)
    ensures UpdateAll(cs, m).AllOk? ==> UpdateAll(cs, m).m == m
    decreases cs, 1
  {
    if cs != [] {
      Decided(cs[0], m, val);
      DecidedAll(cs[1..], m, val);
      assert forall c :: c in cs <==> c == cs[0] || c in cs[1..];
    }
  }

  // A solution that gives every term a value is a model, the only one up to terms not mentioned.
  lemma {:induction false} CompleteSolutionIsModel(cs: seq<Constraint>, val: Term -> Key)
    requires var r := Solve(cs, map[]); r.Some? && Agrees(r.value, val) && forall c :: c in cs ==> Covered(c, r.value)
    ensures forall c :: c in cs ==> Holds(c, val)
  {
    SolveIsLeast(cs);
    var m := Solve(cs, map[]).value;
    forall c | c in cs ensures Holds(c, val) { Decided(c, m, val); }
  }

  // ---------------------------------------------------------------- exactly one alternative

  // The documentation of alternatives asks that exactly one holds.
  ghost predicate OnlyHolds(cs: seq<Constraint>, val: Term -> Key, i: nat) {
    i < |cs| && Holds(cs[i], val) && forall j :: 0 <= j < |cs| && j != i ==> !Holds(cs[j], val)
  }

  ghost predicate NoTwoHold(cs: seq<Constraint>, val: Term -> Key) {
    forall i, j :: 0 <= i < j < |cs| ==> !(Holds(cs[i], val) && Holds(cs[j], val))
  }

  // The guard under which the solver leaves the alternatives as they are.
  predicate SeveralWork(cs: seq<Constraint>, m: Assigned) {
    var i := NextOk(cs, m, 0);
    i < |cs| && NextOk(cs, m, i + 1) < |cs|
  }

  // Where all values are known, an update of alternatives meets the documentation exactly when no
  // two of them work, that is, when no two of them hold.
  lemma {:induction false} XorIsExactIff(cs: seq<Constraint>, m: Assigned, val: Term -> Key)
    requires (forall c :: c in cs ==> Covered(c, m)) && Agrees(m, val)
    ensures (Update(Xor(cs), m).Ok? <==> exists i :: OnlyHolds(cs, val, i)) <==> !SeveralWork(cs, m)
    ensures !SeveralWork(cs, m) <==> NoTwoHold(cs, val)
  {
    forall k | 0 <= k < |cs| ensures Update(cs[k], m).Ok? <==> Holds(cs[k], val) {
      assert cs[k] in cs;
      Decided(cs[k], m, val);
    }
    var i := NextOk(cs, m, 0);
    if i < |cs| && !SeveralWork(cs, m) {
      assert OnlyHolds(cs, val, i);
    }
    if SeveralWork(cs, m) {
      assert Holds(cs[i], val) && Holds(cs[NextOk(cs, m, i + 1)], val);
    }
  }

  // `(xor b b)` with `b` true: the update succeeds although not exactly one alternative holds.
  lemma {:induction false} XorAcceptsSeveral(x: Term, k: Key, val: Term -> Key)
    requires val(x) == k
    ensures var b := Basic(Assign(x, k));
      Update(Xor([b, b]), map[x := k]).Ok? && !exists i :: OnlyHolds([b, b], val, i)
  {
    var b, m := Basic(Assign(x, k)), map[x := k];
    var cs := [b, b];
    Decided(Xor(cs), m, val);
    assert Holds(cs[0], val) && Holds(cs[1], val);
  }

  // The meaning the documentation gives: of every set of alternatives exactly one is satisfied.
  ghost predicate HoldsExactly(c: Constraint, val: Term -> Key) {
    match c
    case And(cs) => forall d :: d in cs ==> HoldsExactly(d, val)
    case Xor(cs) => exists i: nat :: i < |cs| && HoldsExactly(cs[i], val) && forall j :: 0 <= j < |cs| && j != i ==> !HoldsExactly(cs[j], val)
    case _ => Holds(c, val)
  }

  // No two alternatives of any set of alternatives hold.
  ghost predicate Exclusive(c: Constraint, val: Term -> Key) {
    match c
    case And(cs) => forall d :: d in cs ==> Exclusive(d, val)
    case Xor(cs) => NoTwoHold(cs, val) && forall d :: d in cs ==> Exclusive(d, val)
    case _ => true
  }

  // No alternatives among alternatives.
  ghost predicate Flat(c: Constraint) {
    match c
    case And(cs) => forall d :: d in cs ==> Flat(d)
    case Xor(cs) => forall d :: d in cs ==> NoXor(d)
    case _ => true
  }

  ghost predicate NoXor(c: Constraint) {
    match c
    case And(cs) => forall d :: d in cs ==> NoXor(d)
    case Xor(_) => false
    case _ => true
  }

  lemma {:induction false} ExactModelsAreModels(c: Constraint, val: Term -> Key)
    requires HoldsExactly(c, val)
    ensures Holds(c, val)
  {
    match c
    case And(cs) => forall d | d in cs ensures Holds(d, val) { ExactModelsAreModels(d, val); }
    case Xor(cs) =>
      var i: nat :| i < |cs| && HoldsExactly(cs[i], val);
      ExactModelsAreModels(cs[i], val);
      assert cs[i] in cs;
    case _ =>
  }

  lemma {:induction false} ExclusiveMeansExact(c: Constraint, val: Term -> Key)
    requires Exclusive(c, val) && Holds(c, val)
    ensures HoldsExactly(c, val)
  {
    match c
    case And(cs) => forall d | d in cs ensures HoldsExactly(d, val) { ExclusiveMeansExact(d, val); }
    case Xor(cs) =>
      var d :| d in cs && Holds(d, val);
      var i: nat :| i < |cs| && cs[i] == d;
      ExclusiveMeansExact(cs[i], val);
      forall j | 0 <= j < |cs| && j != i ensures !HoldsExactly(cs[j], val) {
        if HoldsExactly(cs[j], val) { ExactModelsAreModels(cs[j], val); }
      }
    case _ =>
  }

  lemma {:induction false} NoXorIsExact(c: Constraint, val: Term -> Key)
    requires NoXor(c)
    ensures HoldsExactly(c, val) <==> Holds(c, val)
  {
    match c
    case And(cs) => forall d | d in cs ensures HoldsExactly(d, val) <==> Holds(d, val) { NoXorIsExact(d, val); }
    case _ =>
  }

  lemma {:induction false} NoXorIsExclusive(c: Constraint, val: Term -> Key)
    requires NoXor(c)
    ensures Exclusive(c, val)
  {
    match c
    case And(cs) => forall d | d in cs ensures Exclusive(d, val) { NoXorIsExclusive(d, val); }
    case _ =>
  }

  // What is satisfied with alternatives inclusive is satisfied as documented exactly when no two
  // alternatives hold.
  lemma {:induction false} ExactIffExclusive(c: Constraint, val: Term -> Key)
    requires Flat(c) && Holds(c, val)
    ensures HoldsExactly(c, val) <==> Exclusive(c, val)
  {
    if Exclusive(c, val) { ExclusiveMeansExact(c, val); }
    match c
    case And(cs) =>
      forall d | d in cs ensures HoldsExactly(d, val) <==> Exclusive(d, val) { ExactIffExclusive(d, val); }
    case Xor(cs) =>
      forall k | 0 <= k < |cs| ensures (HoldsExactly(cs[k], val) <==> Holds(cs[k], val)) && Exclusive(cs[k], val) {
        assert cs[k] in cs;
        NoXorIsExact(cs[k], val);
        NoXorIsExclusive(cs[k], val);
      }
    case _ =>
  }

  // A solution that gives every term a value is a model as documented exactly when no two
  // alternatives hold; every model as documented agrees with what is solved.
  lemma {:induction false} CompleteSolutionIsExactModelIff(cs: seq<Constraint>, val: Term -> Key)
    requires var r := Solve(cs, map[]); r.Some? && Agrees(r.value, val) && forall c :: c in cs ==> Covered(c, r.value)
    requires forall c :: c in cs ==> Flat(c)
    ensures (forall c :: c in cs ==> HoldsExactly(c, val)) <==> (forall c :: c in cs ==> Exclusive(c, val))
  {
    CompleteSolutionIsModel(cs, val);
    forall c | c in cs ensures HoldsExactly(c, val) <==> Exclusive(c, val) { ExactIffExclusive(c, val); }
  }

  lemma {:induction false} SolveIsSoundForExactModels(cs: seq<Constraint>, val: Term -> Key)
    requires forall c :: c in cs ==> HoldsExactly(c, val)
    ensures Solve(cs, map[]).Some? && Agrees(Solve(cs, map[]).value, val)
  {
    forall c | c in cs ensures Holds(c, val) { ExactModelsAreModels(c, val); }
    SolveIsSound(cs, val);
  }
}
