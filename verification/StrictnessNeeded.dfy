// Graphs an e-graph can yield, and why saved edges need strictly monotone cost models.
module StrictnessModel {
  import opened Options
  import opened ExtractionModel

  // ---------------------------------------------------------------- graphs of e-graphs

  datatype Kind = EqSort | BaseSort | ContainerSort(inner: set<string>)

  // What the sorts are, and what each container value holds.
  datatype Schema = Schema(kind: string -> Kind, contents: Key -> seq<Arg>)

  ghost predicate Typed(s: Schema, a: Arg) {
    match a
    case ClassArg(k) => s.kind(k.sort) == EqSort
    case BaseArg(k) => s.kind(k.sort) == BaseSort
    case ContainerArg(k, elems) =>
      && s.kind(k.sort).ContainerSort? && s.contents(k) == elems
      && forall i :: 0 <= i < |elems| ==> elems[i].key.sort in s.kind(k.sort).inner && Typed(s, elems[i])
  }

  ghost predicate TypedRow(s: Schema, e: Edge) {
    && e.head == e.func && s.kind(e.target.sort) == EqSort
    && forall i :: 0 <= i < |e.args| ==> Typed(s, e.args[i])
  }

  // Rows of one constructor: one signature and head cost, and no two rows with the same inputs.
  predicate OfOneTable(e: Edge, f: Edge) {
    && e.func == f.func && e.headCost == f.headCost && e.target.sort == f.target.sort
    && |e.args| == |f.args| && (forall i :: 0 <= i < |e.args| ==> e.args[i].key.sort == f.args[i].key.sort)
    && e.args != f.args
  }

  predicate Between(a: string, b: string, c: string) {
    a == c ==> a == b
  }

  ghost predicate Fits(s: Schema, g: Graph) {
    && (forall t, i :: 0 <= t < |g| && 0 <= i < |g[t]| ==> TypedRow(s, g[t][i]))
    && (forall t, i, j :: 0 <= t < |g| && 0 <= i < j < |g[t]| ==> OfOneTable(g[t][i], g[t][j]))
    // Different tables belong to different constructors.
    && (forall t, u, i, j :: 0 <= t < u < |g| && 0 <= i < |g[t]| && 0 <= j < |g[u]| ==> g[t][i].func != g[u][j].func)
    // All tables of a sort are visited together.
    && (forall t, u, v, i, j, k :: 0 <= t < u < v < |g| && 0 <= i < |g[t]| && 0 <= j < |g[u]| && 0 <= k < |g[v]| ==>
          Between(g[t][i].target.sort, g[u][j].target.sort, g[v][k].target.sort))
  }

  // The tables of some e-graph, in an order in which the extractor can visit them.
  ghost predicate Realisable(g: Graph) {
    exists s :: Fits(s, g)
  }

  ghost predicate HasEdgeIfCosted(m: CostModel, es: seq<Edge>, k: Key) {
    var r := Run(m, es, INITIAL);
    k in r.costs ==> k in SaveAll(m, r, es)
  }

  // ---------------------------------------------------------------- constants of a class

  function Root(sort: string): Key { Key(sort, 0) }

  function Child(sort: string, i: nat): Key { Key(sort, i + 1) }

  // Names of different lengths.
  function Name(n: nat): (r: string)
    ensures |r| == n
  {
    seq(n, _ => 'c')
  }

  // The constants whose names start at a length, one for each child of the sort.
  datatype Site = Site(sort: string, first: nat)

  function Seed(at: Site, i: nat, c: Cost): Edge {
    Edge(Name(at.first + i), Name(at.first + i), [], Child(at.sort, i), c, false)
  }

  function Seeds(at: Site, cs: seq<Cost>): (r: seq<Edge>)
    ensures |r| == |cs| && forall i :: 0 <= i < |cs| ==> r[i] == Seed(at, i, cs[i])
  {
    if cs == [] then [] else Seeds(at, cs[..|cs| - 1]) + [Seed(at, |cs| - 1, cs[|cs| - 1])]
  }

  // A model whose constants cost what the row itself costs, as the additive one.
  ghost predicate ChildlessCostsItself(m: CostModel) {
    forall h, c :: m.fold(h, [], c) == c
  }

  lemma {:induction false} SeedRunElsewhere(m: CostModel, st: State, at: Site, cs: seq<Cost>, k: Key)
    requires forall i: nat :: i < |cs| ==> k != Child(at.sort, i)
    ensures var r := RelaxAll(m, st, Seeds(at, cs));
      && (k in r.costs <==> k in st.costs) && (k in st.costs ==> r.costs[k] == st.costs[k])
      && (k in r.ranks <==> k in st.ranks) && (k in st.ranks ==> r.ranks[k] == st.ranks[k])
  {
    if cs != [] {
      var n := |cs| - 1;
      SeedRunElsewhere(m, st, at, cs[..n], k);
      assert Seeds(at, cs)[..n] == Seeds(at, cs[..n]);
      assert k != Child(at.sort, n);
    }
  }

  // Relaxing one constant per child installs the cheaper of the old and the offered cost, and a
  // child that got cheaper gets a rank above all earlier ones.
  lemma {:induction false} SeedRunAt(m: CostModel, st: State, at: Site, cs: seq<Cost>, i: nat)
    requires ChildlessCostsItself(m) && i < |cs|
    ensures var r := RelaxAll(m, st, Seeds(at, cs)); var k := Child(at.sort, i);
      && k in r.costs
      && r.costs[k] == (if k in st.costs && st.costs[k] <= cs[i] then st.costs[k] else cs[i])
      && (k in st.costs && cs[i] < st.costs[k] ==> k in r.ranks && st.cnt < r.ranks[k])
  {
    var n := |cs| - 1;
    assert Seeds(at, cs)[..n] == Seeds(at, cs[..n]) && Seeds(at, cs)[n] == Seed(at, n, cs[n]);
    if i == n {
      SeedRunElsewhere(m, st, at, cs[..n], Child(at.sort, n));
    } else {
      SeedRunAt(m, st, at, cs[..n], i);
    }
  }

  lemma {:induction false} RelaxAllConcat(m: CostModel, st: State, a: seq<Edge>, b: seq<Edge>)
    ensures RelaxAll(m, st, a + b) == RelaxAll(m, RelaxAll(m, st, a), b)
  {
    if b == [] {
      assert a + b == a;
    } else {
      RelaxAllConcat(m, st, a, b[..|b| - 1]);
      assert (a + b)[..|a + b| - 1] == a + b[..|b| - 1];
    }
  }

  lemma {:induction false} SettledMeansNoChange(m: CostModel, st: State, es: seq<Edge>)
    requires Settled(m, es, st.costs)
    ensures RelaxAll(m, st, es) == st
  {
    if es != [] { SettledMeansNoChange(m, st, es[..|es| - 1]); }
  }

  lemma {:induction false} ArgCostsAgree(m: CostModel, c: Costs, d: Costs, args: seq<Arg>)
    requires forall k :: k in Leaves(args) ==> (k in c <==> k in d) && (k in c ==> c[k] == d[k])
    ensures ArgCosts(m, c, args) == ArgCosts(m, d, args)
    decreases args, 1
  {
    if args != [] {
      ArgCostAgree(m, c, d, args[0]);
      ArgCostsAgree(m, c, d, args[1..]);
    }
  }

  lemma {:induction false} ArgCostAgree(m: CostModel, c: Costs, d: Costs, a: Arg)
    requires forall k :: k in ArgLeaves(a) ==> (k in c <==> k in d) && (k in c ==> c[k] == d[k])
    ensures ArgCost(m, c, a) == ArgCost(m, d, a)
    decreases a, 0
  {
    match a
    case ClassArg(_) =>
    case BaseArg(_) =>
    case ContainerArg(_, elems) => ArgCostsAgree(m, c, d, elems);
  }

  // ---------------------------------------------------------------- a parent left behind

  ghost function Children(sort: string, n: nat): set<Key> {
    set i: nat | i < n :: Child(sort, i)
  }

  ghost function ChildCosts(sort: string, cs: seq<Cost>): Costs {
    map k | k in Children(sort, |cs|) :: cs[k.value - 1]
  }

  // A parent whose cost does not notice that its children got cheaper.
  ghost predicate Unnoticed(m: CostModel, p: Edge, lo: seq<Cost>, hi: seq<Cost>) {
    var sort := p.target.sort;
    && Leq(lo, hi) && lo != hi
    && !p.subsumed && p.target == Root(sort) && Leaves(p.args) == Children(sort, |hi|)
    && EdgeCost(m, ChildCosts(sort, hi), p).Some?
    && EdgeCost(m, ChildCosts(sort, lo), p) == EdgeCost(m, ChildCosts(sort, hi), p)
  }

  function Dear(p: Edge): Site { Site(p.target.sort, |p.func| + 1) }

  function Cheap(p: Edge, n: nat): Site { Site(p.target.sort, |p.func| + 1 + n) }

  // Constants that first offer the dear children, the parent, and constants for the cheap ones.
  function Trap(p: Edge, lo: seq<Cost>, hi: seq<Cost>): seq<Edge> {
    Seeds(Dear(p), hi) + [p] + Seeds(Cheap(p, |hi|), lo)
  }

  lemma {:induction false} DearChildren(m: CostModel, p: Edge, hi: seq<Cost>)
    requires ChildlessCostsItself(m)
    ensures var r := RelaxAll(m, INITIAL, Seeds(Dear(p), hi));
      forall i: nat :: i < |hi| ==> Child(p.target.sort, i) in r.costs && r.costs[Child(p.target.sort, i)] == hi[i]
  {
    var r := RelaxAll(m, INITIAL, Seeds(Dear(p), hi));
    forall i: nat | i < |hi| ensures Child(p.target.sort, i) in r.costs && r.costs[Child(p.target.sort, i)] == hi[i] {
      SeedRunAt(m, INITIAL, Dear(p), hi, i);
    }
  }

  lemma {:induction false} AfterDearChildren(m: CostModel, p: Edge, lo: seq<Cost>, hi: seq<Cost>) returns (st: State)
    requires ChildlessCostsItself(m) && Unnoticed(m, p, lo, hi)
    ensures st == RelaxAll(m, INITIAL, Seeds(Dear(p), hi) + [p])
    ensures forall i: nat :: i < |hi| ==> Child(p.target.sort, i) in st.costs && st.costs[Child(p.target.sort, i)] == hi[i]
    ensures p.target in st.costs && p.target in st.ranks && st.ranks[p.target] == st.cnt
    ensures Some(st.costs[p.target]) == EdgeCost(m, ChildCosts(p.target.sort, hi), p)
  {
    var sort := p.target.sort;
    var r := RelaxAll(m, INITIAL, Seeds(Dear(p), hi));
    assert (Seeds(Dear(p), hi) + [p])[..|hi|] == Seeds(Dear(p), hi);
    DearChildren(m, p, hi);
    SeedRunElsewhere(m, INITIAL, Dear(p), hi, p.target);
    ArgCostsAgree(m, r.costs, ChildCosts(sort, hi), p.args);
    st := Relax(m, r, p);
  }

  lemma {:induction false} AfterCheapChildren(m: CostModel, p: Edge, lo: seq<Cost>, hi: seq<Cost>) returns (r: State)
    requires ChildlessCostsItself(m) && Unnoticed(m, p, lo, hi)
    ensures r == RelaxAll(m, INITIAL, Trap(p, lo, hi))
    ensures forall i: nat :: i < |lo| ==> Child(p.target.sort, i) in r.costs && r.costs[Child(p.target.sort, i)] == lo[i]
    ensures p.target in r.costs && p.target in r.ranks && Some(r.costs[p.target]) == EdgeCost(m, ChildCosts(p.target.sort, lo), p)
    ensures exists i: nat :: i < |hi| && Child(p.target.sort, i) in r.ranks && r.ranks[p.target] < r.ranks[Child(p.target.sort, i)]
  {
    var sort := p.target.sort;
    var at := Cheap(p, |hi|);
    var st := AfterDearChildren(m, p, lo, hi);
    r := RelaxAll(m, st, Seeds(at, lo));
    RelaxAllConcat(m, INITIAL, Seeds(Dear(p), hi) + [p], Seeds(at, lo));
    forall i: nat | i < |lo| ensures Child(sort, i) in r.costs && r.costs[Child(sort, i)] == lo[i] { SeedRunAt(m, st, at, lo, i); }
    SeedRunElsewhere(m, st, at, lo, p.target);
    var j: nat :| j < |lo| && lo[j] != hi[j];
    SeedRunAt(m, st, at, lo, j);
  }

  lemma {:induction false} SeedsSettle(m: CostModel, costs: Costs, at: Site, cs: seq<Cost>)
    requires ChildlessCostsItself(m)
    requires forall i: nat :: i < |cs| ==> Child(at.sort, i) in costs && costs[Child(at.sort, i)] <= cs[i]
    ensures Settled(m, Seeds(at, cs), costs)
  {
    forall e | e in Seeds(at, cs) ensures !Improves(m, costs, e) {
      var i :| 0 <= i < |cs| && e == Seed(at, i, cs[i]);
      assert EdgeCost(m, costs, e) == Some(cs[i]);
    }
  }

  lemma {:induction false} TrapSettles(m: CostModel, p: Edge, lo: seq<Cost>, hi: seq<Cost>, costs: Costs)
    requires ChildlessCostsItself(m) && Unnoticed(m, p, lo, hi)
    requires forall i: nat :: i < |lo| ==> Child(p.target.sort, i) in costs && costs[Child(p.target.sort, i)] == lo[i]
    requires p.target in costs && Some(costs[p.target]) == EdgeCost(m, ChildCosts(p.target.sort, lo), p)
    ensures Settled(m, Trap(p, lo, hi), costs)
  {
    ArgCostsAgree(m, costs, ChildCosts(p.target.sort, lo), p.args);
    SeedsSettle(m, costs, Dear(p), hi);
    SeedsSettle(m, costs, Cheap(p, |hi|), lo);
    forall e | e in Trap(p, lo, hi) ensures !Improves(m, costs, e) {
      assert e in Seeds(Dear(p), hi) || e in Seeds(Cheap(p, |hi|), lo) || e == p;
    }
  }

  lemma {:induction false} TrapHasNoParentEdge(m: CostModel, p: Edge, lo: seq<Cost>, hi: seq<Cost>)
    requires ChildlessCostsItself(m) && Unnoticed(m, p, lo, hi)
    ensures var es := Trap(p, lo, hi); var r := Run(m, es, INITIAL); p.target in r.costs && p.target !in SaveAll(m, r, es)
    ensures Some(Run(m, Trap(p, lo, hi), INITIAL).costs[p.target]) == EdgeCost(m, ChildCosts(p.target.sort, lo), p)
  {
    var es := Trap(p, lo, hi);
    var r := AfterCheapChildren(m, p, lo, hi);
    TrapSettles(m, p, lo, hi, r.costs);
    SettledMeansNoChange(m, r, es);
    assert r == Run(m, es, INITIAL);
    forall e | e in es && e.target == p.target ensures !IsBestEdge(m, r, e) {
      assert e == p;
      if 0 < r.ranks[p.target] { ArgsRankIsMax(r.ranks, p.args, r.ranks[p.target]); }
    }
    SavedEdges(m, r, es, p.target);
  }

  // ---------------------------------------------------------------- the trap as an e-graph

  // One table per row.
  function Singles(es: seq<Edge>): Graph {
    seq(|es|, i requires 0 <= i < |es| => [es[i]])
  }

  lemma {:induction false} FlatSingles(es: seq<Edge>)
    ensures Flat(Singles(es)) == es
  {
    if es != [] {
      var n := |es| - 1;
      FlatSingles(es[..n]);
      assert Singles(es)[..n] == Singles(es[..n]);
      assert es == es[..n] + [es[n]];
    }
  }

  lemma {:induction false} SinglesFit(s: Schema, es: seq<Edge>, sort: string)
    requires forall i :: 0 <= i < |es| ==> TypedRow(s, es[i]) && es[i].target.sort == sort
    requires forall i, j :: 0 <= i < j < |es| ==> es[i].func != es[j].func
    ensures Fits(s, Singles(es))
  {
    var g := Singles(es);
    assert forall t :: 0 <= t < |g| ==> g[t] == [es[t]];
  }

  lemma {:induction false} TrapIsRealisable(s: Schema, p: Edge, lo: seq<Cost>, hi: seq<Cost>)
    requires |lo| == |hi| && TypedRow(s, p)
    ensures Realisable(Singles(Trap(p, lo, hi)))
  {
    var es := Trap(p, lo, hi);
    var n := |hi|;
    forall i | 0 <= i < |es| ensures TypedRow(s, es[i]) && es[i].target.sort == p.target.sort {
      assert es[i] == if i < n then Seed(Dear(p), i, hi[i]) else if i == n then p else Seed(Cheap(p, n), i - n - 1, lo[i - n - 1]);
    }
    forall i, j | 0 <= i < j < |es| ensures es[i].func != es[j].func {
      assert |es[i].func| == if i < n then |p.func| + 1 + i else if i == n then |p.func| else |p.func| + i;
      assert |es[j].func| == if j < n then |p.func| + 1 + j else if j == n then |p.func| else |p.func| + j;
    }
    SinglesFit(s, es, p.target.sort);
  }

  // ---------------------------------------------------------------- parents

  function ChildArgs(sort: string, i: nat, n: nat): seq<Arg>
    requires i <= n
    decreases n - i
  {
    if i == n then [] else [ClassArg(Child(sort, i))] + ChildArgs(sort, i + 1, n)
  }

  lemma {:induction false} ChildArgsCost(m: CostModel, sort: string, cs: seq<Cost>, i: nat)
    requires i <= |cs|
    ensures ArgCosts(m, ChildCosts(sort, cs), ChildArgs(sort, i, |cs|)) == Some(cs[i..])
    ensures Leaves(ChildArgs(sort, i, |cs|)) == (set j: nat | i <= j < |cs| :: Child(sort, j))
    decreases |cs| - i
  {
    if i == |cs| {
      assert cs[i..] == [];
    } else {
      ChildArgsCost(m, sort, cs, i + 1);
      var args := ChildArgs(sort, i, |cs|);
      assert args[0] == ClassArg(Child(sort, i)) && args[1..] == ChildArgs(sort, i + 1, |cs|);
      assert cs[i..] == [cs[i]] + cs[i + 1..];
      assert ArgCost(m, ChildCosts(sort, cs), args[0]) == Some(cs[i]);
      assert ArgCosts(m, ChildCosts(sort, cs), args[1..]) == Some(cs[i + 1..]);
    }
  }

  lemma {:induction false} ChildArgsTyped(s: Schema, sort: string, i: nat, n: nat)
    requires i <= n && s.kind(sort) == EqSort
    ensures forall j :: 0 <= j < |ChildArgs(sort, i, n)| ==> ChildArgs(sort, i, n)[j].key.sort == sort && Typed(s, ChildArgs(sort, i, n)[j])
    decreases n - i
  {
    if i < n { ChildArgsTyped(s, sort, i + 1, n); }
  }

  lemma {:induction false} SingleArg(m: CostModel, costs: Costs, a: Arg)
    requires ArgCost(m, costs, a).Some?
    ensures ArgCosts(m, costs, [a]) == Some([ArgCost(m, costs, a).value])
    ensures Leaves([a]) == ArgLeaves(a)
  {
    assert [a][1..] == [];
    assert ArgCosts(m, costs, [a][1..]) == Some([]);
    var c := ArgCost(m, costs, [a][0]).value;
    assert [c] + [] == [c];
  }

  // A row over the children themselves, or over one container that holds them.
  function DirectParent(h: string, sort: string, n: nat, k: Cost): Edge {
    Edge(h, h, ChildArgs(sort, 0, n), Root(sort), k, false)
  }

  function ContainerParent(key: Key, n: nat): Edge {
    var sort := key.sort + "E";
    Edge("f", "f", [ContainerArg(key, ChildArgs(sort, 0, n))], Root(sort), 0, false)
  }

  lemma {:induction false} ChildrenAre(sort: string, n: nat)
    ensures (set j: nat | 0 <= j < n :: Child(sort, j)) == Children(sort, n)
  {}

  // Where a fold does not notice cheaper children, some e-graph has a costed class without an edge.
  lemma {:induction false} FoldTrap(m: CostModel, h: string, sort: string, lo: seq<Cost>, hi: seq<Cost>, k: Cost)
    requires ChildlessCostsItself(m) && Leq(lo, hi) && lo != hi && m.fold(h, lo, k) == m.fold(h, hi, k)
    ensures var p := DirectParent(h, sort, |hi|, k); var es := Trap(p, lo, hi);
      && Realisable(Singles(es)) && Flat(Singles(es)) == es && !HasEdgeIfCosted(m, es, Root(sort))
      && Root(sort) in Run(m, es, INITIAL).costs && Run(m, es, INITIAL).costs[Root(sort)] == m.fold(h, lo, k)
  {
    var p := DirectParent(h, sort, |hi|, k);
    ChildArgsCost(m, sort, lo, 0);
    ChildArgsCost(m, sort, hi, 0);
    ChildrenAre(sort, |hi|);
    assert lo[0..] == lo && hi[0..] == hi;
    TrapHasNoParentEdge(m, p, lo, hi);
    var s := Schema(_ => EqSort, _ => []);
    ChildArgsTyped(s, sort, 0, |hi|);
    TrapIsRealisable(s, p, lo, hi);
    FlatSingles(Trap(p, lo, hi));
  }

  lemma {:induction false} ContainerUnnoticed(m: CostModel, key: Key, lo: seq<Cost>, hi: seq<Cost>)
    requires Leq(lo, hi) && lo != hi && m.container(key, lo) == m.container(key, hi)
    ensures Unnoticed(m, ContainerParent(key, |hi|), lo, hi)
  {
    var sort := ContainerParent(key, |hi|).target.sort;
    var args := ChildArgs(sort, 0, |hi|);
    ChildArgsCost(m, sort, lo, 0);
    ChildArgsCost(m, sort, hi, 0);
    ChildrenAre(sort, |hi|);
    assert lo[0..] == lo && hi[0..] == hi;
    SingleArg(m, ChildCosts(sort, lo), ContainerArg(key, args));
    SingleArg(m, ChildCosts(sort, hi), ContainerArg(key, args));
  }

  lemma {:induction false} ContainerTyped(key: Key, n: nat) returns (s: Schema)
    ensures TypedRow(s, ContainerParent(key, n))
  {
    var sort := ContainerParent(key, n).target.sort;
    var args := ChildArgs(sort, 0, n);
    s := Schema(x => if x == sort then EqSort else ContainerSort({sort}), _ => args);
    ChildArgsTyped(s, sort, 0, n);
    assert |sort| == |key.sort| + 1;
  }

  lemma {:induction false} ContainerTrap(m: CostModel, key: Key, lo: seq<Cost>, hi: seq<Cost>)
    requires ChildlessCostsItself(m) && Leq(lo, hi) && lo != hi && m.container(key, lo) == m.container(key, hi)
    ensures var p := ContainerParent(key, |hi|); var es := Trap(p, lo, hi);
      Realisable(Singles(es)) && Flat(Singles(es)) == es && !HasEdgeIfCosted(m, es, p.target)
  {
    var p := ContainerParent(key, |hi|);
    ContainerUnnoticed(m, key, lo, hi);
    TrapHasNoParentEdge(m, p, lo, hi);
    var s := ContainerTyped(key, |hi|);
    TrapIsRealisable(s, p, lo, hi);
    FlatSingles(Trap(p, lo, hi));
  }

  // The documentation asks only that a cheaper subterm never makes a superterm dearer. That is not
  // enough: among such models, saved edges exist on every e-graph exactly for the strict ones.
  lemma {:induction false} EdgesExistIffStrict(m: CostModel)
    requires Monotone(m) && ChildlessCostsItself(m)
    ensures Strict(m) <==> forall g, k :: Realisable(g) ==> HasEdgeIfCosted(m, Flat(g), k)
  {
    if Strict(m) {
      forall g, k ensures HasEdgeIfCosted(m, Flat(g), k) { ParentEdgesExist(m, Flat(g), None, k); }
    } else if h, a, b, k :| Leq(a, b) && a != b && m.fold(h, b, k) <= m.fold(h, a, k) {
      FoldTrap(m, h, "S", a, b, k);
      var es := Trap(DirectParent(h, "S", |b|, k), a, b);
      assert !HasEdgeIfCosted(m, Flat(Singles(es)), Root("S"));
    } else {
      var key, a, b :| Leq(a, b) && a != b && m.container(key, b) <= m.container(key, a);
      ContainerTrap(m, key, a, b);
      var p := ContainerParent(key, |b|);
      assert !HasEdgeIfCosted(m, Flat(Singles(Trap(p, a, b))), p.target);
    }
  }
}
