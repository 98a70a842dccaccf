// The default cost model, over unbounded numbers and with saturation.
module CostModels {
  import opened Options
  import opened ExtractionModel
  import opened StrictnessModel

  const U64_MAX: nat := 0xFFFF_FFFF_FFFF_FFFF

  // `limit` is where addition saturates; `None` is addition of unbounded integers.
  function Combine(limit: Option<nat>, a: Cost, b: Cost): Cost {
    if limit.Some? && limit.value < a + b then limit.value else a + b
  }

  function Sum(limit: Option<nat>, start: Cost, cs: seq<Cost>): Cost {
    if cs == [] then start
    else Combine(limit, Sum(limit, start, cs[..|cs| - 1]), cs[|cs| - 1])
  }

  // The additive model: head cost plus children, elements of a container summed, base values one.
  function Additive(limit: Option<nat>): CostModel {
    CostModel((h, cs, k) => Sum(limit, k, cs), (key, cs) => Sum(limit, 0, cs), key => 1)
  }

  lemma {:induction false} SumMonotone(limit: Option<nat>, k: Cost, a: seq<Cost>, b: seq<Cost>)
    requires Leq(a, b)
    ensures Sum(limit, k, a) <= Sum(limit, k, b)
    ensures a != b && Below(Sum(limit, k, b), limit) ==> Sum(limit, k, a) < Sum(limit, k, b)
  {
    if a != [] {
      var n := |a| - 1;
      SumMonotone(limit, k, a[..n], b[..n]);
      assert a == a[..n] + [a[n]] && b == b[..n] + [b[n]];
    }
  }

  lemma {:induction false} SumBoundsArgs(limit: Option<nat>, k: Cost, b: seq<Cost>)
    requires Below(Sum(limit, k, b), limit)
    ensures AllBelow(b, limit)
  {
    if b != [] {
      var n := |b| - 1;
      SumBoundsArgs(limit, k, b[..n]);
      assert forall i :: 0 <= i < n ==> b[..n][i] == b[i];
    }
  }

  // A term costs no less than its subterms, up to and at the point of saturation.
  lemma {:induction false} AdditiveCoversSubterms(limit: Option<nat>, h: string, k: Cost, b: seq<Cost>, i: nat)
    requires i < |b| && (limit.Some? ==> b[i] <= limit.value)
    ensures b[i] <= Additive(limit).fold(h, b, k)
  {
    var n := |b| - 1;
    if i < n {
      AdditiveCoversSubterms(limit, h, k, b[..n], i);
      assert b[..n][i] == b[i];
    }
  }

  // The additive model is strict below the point where it saturates.
  lemma {:induction false} AdditiveIsStrictBelow(limit: Option<nat>)
    ensures StrictBelow(Additive(limit), limit)
  {
    var m := Additive(limit);
    forall h, a, b, k | Leq(a, b)
      ensures m.fold(h, a, k) <= m.fold(h, b, k)
      ensures a != b && Below(m.fold(h, b, k), limit) ==> m.fold(h, a, k) < m.fold(h, b, k)
    {
      SumMonotone(limit, k, a, b);
    }
    forall key, a, b | Leq(a, b)
      ensures m.container(key, a) <= m.container(key, b)
      ensures a != b && Below(m.container(key, b), limit) ==> m.container(key, a) < m.container(key, b)
    {
      SumMonotone(limit, 0, a, b);
    }
    forall h, b, k ensures Below(m.fold(h, b, k), limit) ==> AllBelow(b, limit) {
      if Below(Sum(limit, k, b), limit) { SumBoundsArgs(limit, k, b); }
    }
    forall key, b ensures Below(m.container(key, b), limit) ==> AllBelow(b, limit) {
      if Below(Sum(limit, 0, b), limit) { SumBoundsArgs(limit, 0, b); }
    }
  }

  // Over unbounded integers every e-class with a cost has a saved edge, on every graph.
  lemma {:induction false} UnboundedNeverMissesAnEdge(es: seq<Edge>, k: Key)
    ensures HasEdgeIfCosted(Additive(None), es, k)
  {
    AdditiveIsStrictBelow(None);
    ParentEdgesExist(Additive(None), es, None, k);
  }

  // With 64-bit saturating costs an edge can be missing only at the saturated cost ...
  lemma {:induction false} SaturatingMissesOnlyAtMaximum(es: seq<Edge>, k: Key)
    ensures var r := Run(Additive(Some(U64_MAX)), es, INITIAL);
            k in r.costs && r.costs[k] < U64_MAX ==> k in SaveAll(Additive(Some(U64_MAX)), r, es)
  {
    AdditiveIsStrictBelow(Some(U64_MAX));
    ParentEdgesExist(Additive(Some(U64_MAX)), es, Some(U64_MAX), k);
  }

  // ... and there it does happen, in an e-graph of three constants and constructors: a child offered
  // at 1, its parent of saturated head cost, and then the child offered at 0. The parent has a cost
  // but no edge to rebuild it from.
  lemma {:induction false} SaturatingCanMissAnEdge()
    ensures var m := Additive(Some(U64_MAX)); var es := Trap(DirectParent("f", "S", 1, U64_MAX), [0], [1]);
      && Realisable(Singles(es)) && Flat(Singles(es)) == es && !HasEdgeIfCosted(m, es, Root("S"))
      && Root("S") in Run(m, es, INITIAL).costs && Run(m, es, INITIAL).costs[Root("S")] == U64_MAX
  {
    var m := Additive(Some(U64_MAX));
    SumOne(U64_MAX, 0);
    SumOne(U64_MAX, 1);
    forall h, c ensures m.fold(h, [], c) == c {}
    FoldTrap(m, "f", "S", [0], [1], U64_MAX);
  }

  ghost predicate EndsAt(m: CostModel, es: seq<Edge>, k: Key, c: Cost) {
    var r := Run(m, es, INITIAL);
    k in r.costs && r.costs[k] == c
  }

  // A class that ends at a cost has a saved edge in every e-graph exactly when that cost is below the
  // point of saturation.
  lemma {:induction false} SaturatingMissesExactlyAtMaximum(c: Cost)
    requires c <= U64_MAX
    ensures var m := Additive(Some(U64_MAX));
      (forall g, k :: Realisable(g) && EndsAt(m, Flat(g), k, c) ==> HasEdgeIfCosted(m, Flat(g), k)) <==> c < U64_MAX
  {
    var m := Additive(Some(U64_MAX));
    if c < U64_MAX {
      forall g, k | Realisable(g) && EndsAt(m, Flat(g), k, c) ensures HasEdgeIfCosted(m, Flat(g), k) {
        SaturatingMissesOnlyAtMaximum(Flat(g), k);
      }
    } else {
      SaturatingCanMissAnEdge();
      var g := Singles(Trap(DirectParent("f", "S", 1, U64_MAX), [0], [1]));
      assert EndsAt(m, Flat(g), Root("S"), c);
    }
  }

  lemma {:induction false} SumOne(k: Cost, c: Cost)
    ensures Sum(Some(U64_MAX), k, [c]) == Combine(Some(U64_MAX), k, c)
  {
    assert [c][..0] == [];
  }

  // ---------------------------------------------------------------- the cost of a term

  // The head costs of its rows, and one for each base value, however deep.
  function HeadCosts(t: Tree): nat
    decreases t, 0
  {
    match t
    case Node(e, kids) => e.headCost + AllHeadCosts(kids)
    case BaseTree(_) => 0
    case ContainerTree(_, elems) => AllHeadCosts(elems)
  }

  function AllHeadCosts(ts: seq<Tree>): nat
    decreases ts, 1
  {
    if ts == [] then 0 else HeadCosts(ts[0]) + AllHeadCosts(ts[1..])
  }

  function BaseValues(t: Tree): nat
    decreases t, 0
  {
    match t
    case Node(_, kids) => AllBaseValues(kids)
    case BaseTree(_) => 1
    case ContainerTree(_, elems) => AllBaseValues(elems)
  }

  function AllBaseValues(ts: seq<Tree>): nat
    decreases ts, 1
  {
    if ts == [] then 0 else BaseValues(ts[0]) + AllBaseValues(ts[1..])
  }

  lemma {:induction false} SumFirst(k: Cost, c: Cost, cs: seq<Cost>)
    ensures Sum(None, k, [c] + cs) == c + Sum(None, k, cs)
  {
    if cs == [] {
      assert [c] + cs == [c] && [c][..0] == [];
    } else {
      var n := |cs| - 1;
      SumFirst(k, c, cs[..n]);
      assert ([c] + cs)[..n + 1] == [c] + cs[..n];
    }
  }

  // Without saturation a term costs its head costs and one for each base value.
  lemma {:induction false} AdditiveIsTotal(t: Tree)
    ensures TreeCost(Additive(None), t) == HeadCosts(t) + BaseValues(t)
    decreases t, 0
  {
    match t
    case Node(e, kids) => AdditiveAreTotal(kids, e.headCost);
    case BaseTree(_) =>
    case ContainerTree(_, elems) => AdditiveAreTotal(elems, 0);
  }

  lemma {:induction false} AdditiveAreTotal(ts: seq<Tree>, k: Cost)
    ensures Sum(None, k, TreeCosts(Additive(None), ts)) == k + AllHeadCosts(ts) + AllBaseValues(ts)
    decreases ts, 1
  {
    if ts != [] {
      AdditiveIsTotal(ts[0]);
      AdditiveAreTotal(ts[1..], k);
      SumFirst(k, TreeCost(Additive(None), ts[0]), TreeCosts(Additive(None), ts[1..]));
    }
  }

  function Capped(limit: nat, c: Cost): Cost {
    if limit < c then limit else c
  }

  lemma {:induction false} SumCapped(limit: nat, k: Cost, cs: seq<Cost>, xs: seq<Cost>)
    requires k <= limit && |cs| == |xs| && forall i :: 0 <= i < |cs| ==> cs[i] == Capped(limit, xs[i])
    ensures Sum(Some(limit), k, cs) == Capped(limit, Sum(None, k, xs))
  {
    if cs != [] {
      var n := |cs| - 1;
      SumCapped(limit, k, cs[..n], xs[..n]);
    }
  }

  predicate HeadsFit(limit: nat, t: Tree)
    decreases t, 0
  {
    match t
    case Node(e, kids) => e.headCost <= limit && AllHeadsFit(limit, kids)
    case BaseTree(_) => true
    case ContainerTree(_, elems) => AllHeadsFit(limit, elems)
  }

  predicate AllHeadsFit(limit: nat, ts: seq<Tree>)
    decreases ts, 1
  {
    ts != [] ==> HeadsFit(limit, ts[0]) && AllHeadsFit(limit, ts[1..])
  }

  // With saturation it is that, capped.
  lemma {:induction false} SaturatingIsCapped(limit: nat, t: Tree)
    requires 1 <= limit && HeadsFit(limit, t)
    ensures TreeCost(Additive(Some(limit)), t) == Capped(limit, HeadCosts(t) + BaseValues(t))
    decreases t, 0
  {
    AdditiveIsTotal(t);
    match t
    case Node(e, kids) => SaturatingAreCapped(limit, kids, e.headCost);
    case BaseTree(_) =>
    case ContainerTree(_, elems) => SaturatingAreCapped(limit, elems, 0);
  }

  lemma {:induction false} SaturatingAreCapped(limit: nat, ts: seq<Tree>, k: Cost)
    requires 1 <= limit && k <= limit && AllHeadsFit(limit, ts)
    ensures Sum(Some(limit), k, TreeCosts(Additive(Some(limit)), ts)) == Capped(limit, Sum(None, k, TreeCosts(Additive(None), ts)))
    decreases ts, 1
  {
    CostsAreCapped(limit, ts);
    SumCapped(limit, k, TreeCosts(Additive(Some(limit)), ts), TreeCosts(Additive(None), ts));
  }

  lemma {:induction false} CostsAreCapped(limit: nat, ts: seq<Tree>)
    requires 1 <= limit && AllHeadsFit(limit, ts)
    ensures forall i :: 0 <= i < |ts| ==> TreeCosts(Additive(Some(limit)), ts)[i] == Capped(limit, TreeCosts(Additive(None), ts)[i])
    decreases ts, 0
  {
    if ts != [] {
      SaturatingIsCapped(limit, ts[0]);
      AdditiveIsTotal(ts[0]);
      CostsAreCapped(limit, ts[1..]);
    }
  }
}
