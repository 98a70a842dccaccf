// The solver as it runs: one shared assignment that updates change in place and roll back.
module SolverLoop {
  import opened CoreIR
  import opened Options
  import opened SolverModel

  datatype UpdateResult = Updated(c: Constraint, changed: bool) | Error

  datatype SolveResult = Solved | Inconsistent | Unconstrained(term: Term)

  // What is left to do, put after what was done.
  function After(done: seq<Constraint>, changed: bool, rest: AllOutcome): AllOutcome {
    if rest.AllFail? then AllFail else AllOk(done + rest.cs, rest.m, changed || rest.updated)
  }

  lemma {:induction false} AfterNext(done: seq<Constraint>, changed: bool, cs: seq<Constraint>, m: Assigned)
    requires cs != []
    ensures var first := Update(cs[0], m);
            After(done, changed, UpdateAll(cs, m)) ==
            if first.Fail? then AllFail else After(done + [first.c], changed || first.updated, UpdateAll(cs[1..], first.m))
  {
    var first := Update(cs[0], m);
    if first.Ok? {
      var rest := UpdateAll(cs[1..], first.m);
      if rest.AllOk? { assert done + ([first.c] + rest.cs) == done + [first.c] + rest.cs; }
    }
  }

  class Assignment {
    var m: Assigned

    constructor ()
      ensures m == map[]
    {
      m := map[];
    }

    method UpdateOne(b: Basic) returns (ok: bool, changed: bool)
      modifies this
      ensures ok <==> UpdateBasic(b, old(m)).Did?
      ensures ok ==> UpdateBasic(b, old(m)) == Did(m, changed)
      ensures !ok ==> m == old(m)
    {
      ok, changed := true, false;
      match b {
        case Same(x, y) =>
          if x in m && y !in m {
            m := m[y := m[x]];
            changed := true;
          } else if x !in m && y in m {
            m := m[x := m[y]];
            changed := true;
          } else if x in m && y in m {
            ok := m[x] == m[y];
          }
        case Assign(x, k) =>
          if x !in m {
            m := m[x := k];
            changed := true;
          } else {
            ok := m[x] == k;
          }
      }
    }

    // A conjunction of basic constraints, rolled back when one of them fails.
    method UpdateConjunction(bs: seq<Basic>) returns (ok: bool, changed: bool)
      modifies this
      ensures ok <==> UpdateBasics(bs, old(m)).Did?
      ensures ok ==> UpdateBasics(bs, old(m)) == Did(m, changed)
      ensures !ok ==> m == old(m)
    {
      var orig := m;
      ok, changed := true, false;
      for i := 0 to |bs|
        invariant UpdateBasics(bs, orig).Clash? <==> UpdateBasics(bs[i..], m).Clash?
        invariant UpdateBasics(bs[i..], m).Did? ==>
                    UpdateBasics(bs, orig) == Did(UpdateBasics(bs[i..], m).m, changed || UpdateBasics(bs[i..], m).updated)
      {
        assert bs[i..][1..] == bs[i + 1..];
        var ok1, changed1 := UpdateOne(bs[i]);
        if !ok1 {
          m := orig;
          return false, false;
        }
        changed := changed || changed1;
      }
    }

    // Updates one constraint. The new constraint, the new assignment and the report are those of the
    // specification; a failing update leaves the assignment exactly as it was.
    method UpdateConstraint(c: Constraint) returns (r: UpdateResult)
      modifies this
      ensures r.Error? <==> Update(c, old(m)).Fail?
      ensures r.Updated? ==> Update(c, old(m)) == Ok(r.c, m, r.changed)
      ensures r.Error? ==> m == old(m)
      decreases c
    {
      match c {
        case Basic(b) =>
          var ok, changed := UpdateOne(b);
          r := if ok then Updated(c, changed) else Error;
        case And(cs) =>
          var orig := m;
          var done: seq<Constraint> := [];
          var changed := false;
          for i := 0 to |cs|
            invariant UpdateAll(cs, orig) == After(done, changed, UpdateAll(cs[i..], m))
          {
            AfterNext(done, changed, cs[i..], m);
            assert cs[i..][1..] == cs[i + 1..];
            var step := UpdateConstraint(cs[i]);
            if step.Error? {
              m := orig;
              return Error;
            }
            done, changed := done + [step.c], changed || step.changed;
          }
          assert done + [] == done;
          r := Updated(And(done), changed);
        case Xor(cs) =>
          r := UpdateAlternatives(c);
        case Implies(watch, implied) =>
          var updated := false;
          var now := implied;
          if now.Delayed? {
            var vals := Watched(watch, m);
            if vals.None? {
              return Updated(c, false);
            }
            now := Immediate(now.make(vals.value));
            updated := true;
          }
          var ok, changed := UpdateConjunction(now.cs);
          r := if ok then Updated(Implies(watch, now), updated || changed) else Error;
        case Impossible =>
          r := Error;
      }
    }

    // Tries every alternative on the same assignment until a second one works.
    method UpdateAlternatives(c: Constraint) returns (r: UpdateResult)
      requires c.Xor?
      modifies this
      ensures r.Error? <==> Update(c, old(m)).Fail?
      ensures r.Updated? ==> Update(c, old(m)) == Ok(r.c, m, r.changed)
      ensures r.Error? ==> m == old(m)
      decreases c, 0
    {
      var cs := c.cs;
      var successCount := 0;
      var orig := m;
      var result := m;
      var assignmentUpdated := false;
      var resultConstraint := c;
      ghost var i := NextOk(cs, orig, 0);
      var k := 0;
      while k < |cs|
        invariant 0 <= k <= |cs| && m == orig && 0 <= successCount <= 1
        invariant successCount == 0 ==> k <= i
        invariant successCount == 1 ==> i < k && k <= NextOk(cs, orig, i + 1)
        invariant successCount == 1 ==> Update(cs[i], orig) == Ok(resultConstraint, result, assignmentUpdated)
        invariant successCount == 0 ==> result == orig
        decreases |cs| - k
      {
        var step := UpdateConstraint(cs[k]);
        if step.Updated? {
          successCount := successCount + 1;
          if successCount > 1 {
            break;
          }
          resultConstraint := step.c;
          if step.changed {
            result, m := m, result;
          } else {
            UpdateGrows(cs[k], orig);
          }
          assignmentUpdated := step.changed;
        }
        k := k + 1;
      }
      if successCount == 1 {
        m := result;
        r := Updated(Xor([resultConstraint]), assignmentUpdated);
      } else if successCount > 1 {
        m := orig;
        r := Updated(c, false);
      } else {
        m := orig;
        r := Error;
      }
    }
  }

  class Problem {
    var constraints: seq<Constraint>
    const range: set<Term>

    constructor (constraints: seq<Constraint>, range: set<Term>)
      ensures this.constraints == constraints && this.range == range
    {
      this.constraints, this.range := constraints, range;
    }

    // Rounds over the constraints until one changes nothing; then every term of the range must
    // have a value. Succeeds exactly when there is a stable assignment whose least one covers the
    // range, and then yields the least one.
    method SolveProblem() returns (r: SolveResult, assignment: Assignment)
      modifies this
      ensures fresh(assignment)
      ensures r.Inconsistent? <==> Solve(old(constraints), map[]).None?
      ensures !r.Inconsistent? ==> Solve(old(constraints), map[]) == Some(assignment.m)
      ensures r.Solved? <==> !r.Inconsistent? && range <= assignment.m.Keys
      ensures r.Unconstrained? ==> r.term in range && r.term !in assignment.m
    {
      assignment := new Assignment();
      var changed := true;
      while changed
        invariant fresh(assignment)
        invariant changed ==> Solve(constraints, assignment.m) == Solve(old(constraints), map[])
        invariant !changed ==> Solve(old(constraints), map[]) == Some(assignment.m)
        decreases PendingAll(constraints), |TermsAll(constraints) - assignment.m.Keys|, changed
      {
        ghost var cs, before := constraints, assignment.m;
        var ok;
        SolveRound(cs, before);
        ok, changed := Round(assignment);
        if !ok {
          return Inconsistent, assignment;
        }
        assert Smaller(constraints, assignment.m, changed, cs, before);
      }
      if range <= assignment.m.Keys {
        return Solved, assignment;
      }
      var t :| t in range && t !in assignment.m;
      r := Unconstrained(t);
    }

    method Round(assignment: Assignment) returns (ok: bool, changed: bool)
      modifies this, assignment
      ensures ok <==> UpdateAll(old(constraints), old(assignment.m)).AllOk?
      ensures ok ==> UpdateAll(old(constraints), old(assignment.m)) == AllOk(constraints, assignment.m, changed)
    {
      ok, changed := true, false;
      ghost var cs := constraints;
      ghost var before := assignment.m;
      for i := 0 to |constraints|
        invariant |constraints| == |cs| && constraints[i..] == cs[i..]
        invariant UpdateAll(cs, before) == After(constraints[..i], changed, UpdateAll(cs[i..], assignment.m))
      {
        AfterNext(constraints[..i], changed, cs[i..], assignment.m);
        assert cs[i..][1..] == cs[i + 1..] && constraints[i] == cs[i..][0];
        var step := assignment.UpdateConstraint(constraints[i]);
        if step.Error? {
          return false, false;
        }
        ghost var done := constraints[..i] + [step.c];
        constraints := constraints[i := step.c];
        changed := changed || step.changed;
        assert constraints[..i + 1] == done;
      }
      assert constraints[..|constraints|] == constraints;
    }
  }
}
