// Relaxation of costs over rows, chronological ranks, saved edges and reconstruction, as functions.
module ExtractionModel {
  import opened Options

  type Cost = nat

  // A value together with its sort.
  datatype Key = Key(sort: string, value: nat)

  // One input column of a constructor row, unfolded by its sort: an e-class, a base value, or a
  // container with the values it holds.
  datatype Arg =
    | ClassArg(key: Key)
    | BaseArg(key: Key)
    | ContainerArg(key: Key, elems: seq<Arg>)

  // A row of a constructor table: a hyperedge from its children to its e-class.
  datatype Edge = Edge(func: string, head: string, args: seq<Arg>, target: Key, headCost: Cost, subsumed: bool)

  // The tables of the extracted functions, in the order in which they are visited.
  type Graph = seq<seq<Edge>>

  datatype CostModel = CostModel(
    fold: (string, seq<Cost>, Cost) -> Cost,
    container: (Key, seq<Cost>) -> Cost,
    base: Key -> Cost)

  type Costs = map<Key, Cost>

  predicate InGraph(g: Graph, e: Edge) {
    exists i :: 0 <= i < |g| && e in g[i]
  }

  function Flat(g: Graph): (es: seq<Edge>)
    ensures forall e :: e in es <==> InGraph(g, e)
  {
    if |g| == 0 then []
    else
      var n := |g| - 1;
      assert g == g[..n] + [g[n]];
      assert forall e :: InGraph(g, e) <==> InGraph(g[..n], e) || e in g[n];
      Flat(g[..n]) + g[n]
  }

  // ---------------------------------------------------------------- costs

  function ArgCost(m: CostModel, costs: Costs, a: Arg): Option<Cost>
    decreases a, 0
  {
    match a
    case ClassArg(k) => if k in costs then Some(costs[k]) else None
    case BaseArg(k) => Some(m.base(k))
    case ContainerArg(k, elems) =>
      match ArgCosts(m, costs, elems)
      case None => None
      case Some(cs) => Some(m.container(k, cs))
  }

  function ArgCosts(m: CostModel, costs: Costs, args: seq<Arg>): (r: Option<seq<Cost>>)
    ensures r.Some? ==> |r.value| == |args|
    decreases args, 1
  {
    if args == [] then Some([])
    else
      match ArgCost(m, costs, args[0])
      case None => None
      case Some(c) =>
        match ArgCosts(m, costs, args[1..])
        case None => None
        case Some(cs) => Some([c] + cs)
  }

  function EdgeCost(m: CostModel, costs: Costs, e: Edge): Option<Cost> {
    match ArgCosts(m, costs, e.args)
    case None => None
    case Some(cs) => Some(m.fold(e.head, cs, e.headCost))
  }

  // ---------------------------------------------------------------- ranks

  type Ranks = map<Key, nat>

  function Max(a: nat, b: nat): nat { if a < b then b else a }

  // `None` stands for the sentinel rank of an e-class that has none.
  function MaxRank(a: Option<nat>, b: Option<nat>): Option<nat> {
    if a.None? || b.None? then None else Some(Max(a.value, b.value))
  }

  function ArgRank(ranks: Ranks, a: Arg): Option<nat>
    decreases a, 0
  {
    match a
    case ClassArg(k) => if k in ranks then Some(ranks[k]) else None
    case BaseArg(_) => Some(0)
    case ContainerArg(_, elems) => ArgsRank(ranks, elems)
  }

  function ArgsRank(ranks: Ranks, args: seq<Arg>): Option<nat>
    decreases args, 1
  {
    if args == [] then Some(0)
    else MaxRank(ArgRank(ranks, args[0]), ArgsRank(ranks, args[1..]))
  }

  predicate RankBelow(ranks: Ranks, args: seq<Arg>, r: nat) {
    var q := ArgsRank(ranks, args);
    q.Some? && q.value < r
  }

  // The e-classes mentioned by an argument, containers included.
  ghost function Leaves(args: seq<Arg>): set<Key>
    decreases args, 1
  {
    if args == [] then {} else ArgLeaves(args[0]) + Leaves(args[1..])
  }

  ghost function ArgLeaves(a: Arg): set<Key>
    decreases a, 0
  {
    match a
    case ClassArg(k) => {k}
    case BaseArg(_) => {}
    case ContainerArg(_, elems) => Leaves(elems)
  }

  lemma {:induction false} ArgsRankIsMax(ranks: Ranks, args: seq<Arg>, r: nat)
    requires 0 < r
    ensures RankBelow(ranks, args, r) <==> forall k :: k in Leaves(args) ==> k in ranks && ranks[k] < r
    decreases args, 1
  {
    if args != [] {
      ArgRankIsMax(ranks, args[0], r);
      ArgsRankIsMax(ranks, args[1..], r);
    }
  }

  lemma {:induction false} ArgRankIsMax(ranks: Ranks, a: Arg, r: nat)
    requires 0 < r
    ensures (ArgRank(ranks, a).Some? && ArgRank(ranks, a).value < r)
       <==> forall k :: k in ArgLeaves(a) ==> k in ranks && ranks[k] < r
    decreases a, 0
  {
    match a
    case ClassArg(k) =>
    case BaseArg(_) =>
    case ContainerArg(_, elems) => ArgsRankIsMax(ranks, elems, r);
  }

  lemma {:induction false} ArgCostsDefined(m: CostModel, costs: Costs, args: seq<Arg>)
    ensures ArgCosts(m, costs, args).Some? <==> Leaves(args) <= costs.Keys
    decreases args, 1
  {
    if args != [] {
      ArgCostDefined(m, costs, args[0]);
      ArgCostsDefined(m, costs, args[1..]);
    }
  }

  lemma {:induction false} ArgCostDefined(m: CostModel, costs: Costs, a: Arg)
    ensures ArgCost(m, costs, a).Some? <==> ArgLeaves(a) <= costs.Keys
    decreases a, 0
  {
    match a
    case ClassArg(k) =>
    case BaseArg(_) =>
    case ContainerArg(_, elems) => ArgCostsDefined(m, costs, elems);
  }

  // ---------------------------------------------------------------- cost models

  ghost predicate Leq(a: seq<Cost>, b: seq<Cost>) {
    |a| == |b| && forall i :: 0 <= i < |a| ==> a[i] <= b[i]
  }

  // A cheaper child never makes the parent dearer.
  ghost predicate Monotone(m: CostModel) {
    && (forall h, a, b, k :: Leq(a, b) ==> m.fold(h, a, k) <= m.fold(h, b, k))
    && (forall key, a, b :: Leq(a, b) ==> m.container(key, a) <= m.container(key, b))
  }

  ghost predicate Below(c: Cost, lim: Option<Cost>) {
    lim.Some? ==> c < lim.value
  }

  ghost predicate AllBelow(cs: seq<Cost>, lim: Option<Cost>) {
    forall i :: 0 <= i < |cs| ==> Below(cs[i], lim)
  }

  // Monotone, and strictly so at every result below the limit; a result below the limit also has
  // all its arguments below it. With no limit this is strict monotonicity everywhere.
  ghost predicate StrictBelow(m: CostModel, lim: Option<Cost>) {
    && Monotone(m)
    && (forall h, a, b, k :: Leq(a, b) && a != b && Below(m.fold(h, b, k), lim) ==> m.fold(h, a, k) < m.fold(h, b, k))
    && (forall key, a, b :: Leq(a, b) && a != b && Below(m.container(key, b), lim) ==> m.container(key, a) < m.container(key, b))
    && (forall h, b, k :: Below(m.fold(h, b, k), lim) ==> AllBelow(b, lim))
    && (forall key, b :: Below(m.container(key, b), lim) ==> AllBelow(b, lim))
  }

  ghost predicate Strict(m: CostModel) {
    StrictBelow(m, None)
  }

  // ---------------------------------------------------------------- relaxation

  datatype State = State(costs: Costs, ranks: Ranks, cnt: nat)

  const INITIAL := State(map[], map[], 0)

  predicate Improves(m: CostModel, costs: Costs, e: Edge) {
    !e.subsumed &&
    var c := EdgeCost(m, costs, e);
    c.Some? && (e.target !in costs || c.value < costs[e.target])
  }

  function Relax(m: CostModel, st: State, e: Edge): State {
    if Improves(m, st.costs, e) then
      State(st.costs[e.target := EdgeCost(m, st.costs, e).value], st.ranks[e.target := st.cnt + 1], st.cnt + 1)
    else st
  }

  function RelaxAll(m: CostModel, st: State, es: seq<Edge>): (r: State)
    ensures st.cnt <= r.cnt
    ensures r.cnt == st.cnt ==> r == st
  {
    if es == [] then st
    else Relax(m, RelaxAll(m, st, es[..|es| - 1]), es[|es| - 1])
  }

  // The number of rows whose e-class has no cost yet, and the summed costs of the other rows'
  // e-classes: one of the two falls in every round that changes something.
  ghost function Uncosted(es: seq<Edge>, costs: Costs): nat {
    if es == [] then 0 else (if es[0].target in costs then 0 else 1) + Uncosted(es[1..], costs)
  }

  ghost function Potential(es: seq<Edge>, costs: Costs): nat {
    if es == [] then 0 else (if es[0].target in costs then costs[es[0].target] else 0) + Potential(es[1..], costs)
  }

  lemma {:induction false} SetCostMeasure(es: seq<Edge>, costs: Costs, k: Key, c: Cost)
    ensures Uncosted(es, costs[k := c]) <= Uncosted(es, costs)
    ensures k !in costs && (exists e :: e in es && e.target == k) ==> Uncosted(es, costs[k := c]) < Uncosted(es, costs)
    ensures k in costs ==> Uncosted(es, costs[k := c]) == Uncosted(es, costs)
    ensures k in costs && c <= costs[k] ==> Potential(es, costs[k := c]) <= Potential(es, costs)
    ensures k in costs && c < costs[k] && (exists e :: e in es && e.target == k) ==> Potential(es, costs[k := c]) < Potential(es, costs)
  {
    if es != [] {
      SetCostMeasure(es[1..], costs, k, c);
    }
  }

  ghost predicate Progress(es: seq<Edge>, a: State, b: State) {
    b == a
    || Uncosted(es, b.costs) < Uncosted(es, a.costs)
    || (Uncosted(es, b.costs) == Uncosted(es, a.costs) && Potential(es, b.costs) < Potential(es, a.costs))
  }

  lemma {:induction false} RelaxAllProgress(m: CostModel, st: State, es: seq<Edge>, all: seq<Edge>)
    requires forall e :: e in es ==> e in all
    ensures Progress(all, st, RelaxAll(m, st, es))
  {
    if es != [] {
      var e := es[|es| - 1];
      RelaxAllProgress(m, st, es[..|es| - 1], all);
      var mid := RelaxAll(m, st, es[..|es| - 1]);
      if Improves(m, mid.costs, e) {
        SetCostMeasure(all, mid.costs, e.target, EdgeCost(m, mid.costs, e).value);
      }
    }
  }

  // Rounds over all rows until a round changes nothing.
  function Run(m: CostModel, es: seq<Edge>, st: State): State
    decreases Uncosted(es, st.costs), Potential(es, st.costs)
  {
    var st' := RelaxAll(m, st, es);
    RelaxAllProgress(m, st, es, es);
    if st' == st then st else Run(m, es, st')
  }

  lemma {:induction false} RunReachesFixpoint(m: CostModel, es: seq<Edge>, st: State)
    ensures var r := Run(m, es, st); RelaxAll(m, r, es) == r
    decreases Uncosted(es, st.costs), Potential(es, st.costs)
  {
    var st' := RelaxAll(m, st, es);
    RelaxAllProgress(m, st, es, es);
    if st' != st { RunReachesFixpoint(m, es, st'); }
  }

  // At the end no row can improve its e-class.
  ghost predicate Settled(m: CostModel, es: seq<Edge>, costs: Costs) {
    forall e :: e in es ==> !Improves(m, costs, e)
  }

  lemma {:induction false} NoChangeMeansSettled(m: CostModel, st: State, es: seq<Edge>)
    requires RelaxAll(m, st, es) == st
    ensures Settled(m, es, st.costs)
  {
    if es != [] {
      var e := es[|es| - 1];
      assert RelaxAll(m, st, es[..|es| - 1]) == st;
      NoChangeMeansSettled(m, st, es[..|es| - 1]);
      assert es == es[..|es| - 1] + [e];
    }
  }

  // ---------------------------------------------------------------- terms

  // A derivation: which row each e-class of the term was taken from.
  datatype Tree =
    | Node(edge: Edge, kids: seq<Tree>)
    | BaseTree(key: Key)
    | ContainerTree(key: Key, elems: seq<Tree>)

  ghost predicate Derives(es: seq<Edge>, a: Arg, t: Tree)
    decreases t, 0
  {
    match a
    case ClassArg(k) =>
      && t.Node? && t.edge in es && !t.edge.subsumed && t.edge.target == k
      && DerivesAll(es, t.edge.args, t.kids)
    case BaseArg(k) => t == BaseTree(k)
    case ContainerArg(k, elems) => t.ContainerTree? && t.key == k && DerivesAll(es, elems, t.elems)
  }

  ghost predicate DerivesAll(es: seq<Edge>, args: seq<Arg>, ts: seq<Tree>)
    decreases ts, 1
  {
    |args| == |ts| &&
    (args != [] ==> Derives(es, args[0], ts[0]) && DerivesAll(es, args[1..], ts[1..]))
  }

  ghost predicate Derivable(es: seq<Edge>, a: Arg) {
    exists t :: IsTermOf(es, a, t)
  }

  ghost predicate IsTermOf(es: seq<Edge>, a: Arg, t: Tree) {
    Derives(es, a, t)
  }

  function TreeCost(m: CostModel, t: Tree): Cost
    decreases t, 0
  {
    match t
    case Node(e, kids) => m.fold(e.head, TreeCosts(m, kids), e.headCost)
    case BaseTree(k) => m.base(k)
    case ContainerTree(k, elems) => m.container(k, TreeCosts(m, elems))
  }

  function TreeCosts(m: CostModel, ts: seq<Tree>): (r: seq<Cost>)
    ensures |r| == |ts|
    decreases ts, 1
  {
    if ts == [] then [] else [TreeCost(m, ts[0])] + TreeCosts(m, ts[1..])
  }

  // No derivation is cheaper than the settled cost, and whatever is derivable has a cost.
  lemma {:induction false} SettledIsOptimal(m: CostModel, es: seq<Edge>, costs: Costs, a: Arg, t: Tree)
    requires Monotone(m) && Settled(m, es, costs) && Derives(es, a, t)
    ensures var c := ArgCost(m, costs, a); c.Some? && c.value <= TreeCost(m, t)
    decreases t, 0
  {
    match a
    case ClassArg(k) =>
      SettledIsOptimalAll(m, es, costs, t.edge.args, t.kids);
      assert !Improves(m, costs, t.edge);
    case BaseArg(k) =>
    case ContainerArg(k, elems) => SettledIsOptimalAll(m, es, costs, elems, t.elems);
  }

  lemma {:induction false} SettledIsOptimalAll(m: CostModel, es: seq<Edge>, costs: Costs, args: seq<Arg>, ts: seq<Tree>)
    requires Monotone(m) && Settled(m, es, costs) && DerivesAll(es, args, ts)
    ensures var cs := ArgCosts(m, costs, args); cs.Some? && Leq(cs.value, TreeCosts(m, ts))
    decreases ts, 1
  {
    if args != [] {
      SettledIsOptimal(m, es, costs, args[0], ts[0]);
      SettledIsOptimalAll(m, es, costs, args[1..], ts[1..]);
    }
  }

  // Every cost in the table is the cost of some derivation.
  ghost predicate Realised(m: CostModel, es: seq<Edge>, costs: Costs) {
    forall k :: k in costs ==> exists t :: IsTermOf(es, ClassArg(k), t) && TreeCost(m, t) == costs[k]
  }

  lemma {:induction false} RealiseArg(m: CostModel, es: seq<Edge>, costs: Costs, a: Arg) returns (t: Tree)
    requires Realised(m, es, costs) && ArgCost(m, costs, a).Some?
    ensures Derives(es, a, t) && TreeCost(m, t) == ArgCost(m, costs, a).value
    decreases a, 0
  {
    match a
    case ClassArg(k) => t :| IsTermOf(es, ClassArg(k), t) && TreeCost(m, t) == costs[k];
    case BaseArg(k) => t := BaseTree(k);
    case ContainerArg(k, elems) =>
      var ts := RealiseArgs(m, es, costs, elems);
      t := ContainerTree(k, ts);
  }

  lemma {:induction false} RealiseArgs(m: CostModel, es: seq<Edge>, costs: Costs, args: seq<Arg>) returns (ts: seq<Tree>)
    requires Realised(m, es, costs) && ArgCosts(m, costs, args).Some?
    ensures DerivesAll(es, args, ts) && TreeCosts(m, ts) == ArgCosts(m, costs, args).value
    decreases args, 1
  {
    if args == [] { ts := []; }
    else {
      var t := RealiseArg(m, es, costs, args[0]);
      var rest := RealiseArgs(m, es, costs, args[1..]);
      ts := [t] + rest;
      assert ts[1..] == rest;
    }
  }

  lemma {:induction false} RelaxKeepsRealised(m: CostModel, es: seq<Edge>, st: State, e: Edge)
    requires Realised(m, es, st.costs) && e in es
    ensures Realised(m, es, Relax(m, st, e).costs)
  {
    if Improves(m, st.costs, e) {
      var ts := RealiseArgs(m, es, st.costs, e.args);
      assert IsTermOf(es, ClassArg(e.target), Node(e, ts));
    }
  }

  lemma {:induction false} RelaxAllKeepsRealised(m: CostModel, es: seq<Edge>, st: State, part: seq<Edge>)
    requires Realised(m, es, st.costs) && forall e :: e in part ==> e in es
    ensures Realised(m, es, RelaxAll(m, st, part).costs)
  {
    if part != [] {
      RelaxAllKeepsRealised(m, es, st, part[..|part| - 1]);
      RelaxKeepsRealised(m, es, RelaxAll(m, st, part[..|part| - 1]), part[|part| - 1]);
    }
  }

  lemma {:induction false} RunKeepsRealised(m: CostModel, es: seq<Edge>, st: State)
    requires Realised(m, es, st.costs)
    ensures Realised(m, es, Run(m, es, st).costs)
    decreases Uncosted(es, st.costs), Potential(es, st.costs)
  {
    var st' := RelaxAll(m, st, es);
    RelaxAllProgress(m, st, es, es);
    RelaxAllKeepsRealised(m, es, st, es);
    if st' != st { RunKeepsRealised(m, es, st'); }
  }

  // ---------------------------------------------------------------- best parent edges

  predicate IsBestEdge(m: CostModel, st: State, e: Edge) {
    && !e.subsumed && e.target in st.costs && e.target in st.ranks
    && EdgeCost(m, st.costs, e) == Some(st.costs[e.target])
    && RankBelow(st.ranks, e.args, st.ranks[e.target])
  }

  type Parents = map<Key, Edge>

  function Save(m: CostModel, st: State, ps: Parents, e: Edge): Parents {
    if IsBestEdge(m, st, e) && e.target !in ps then ps[e.target := e] else ps
  }

  function SaveAll(m: CostModel, st: State, es: seq<Edge>): Parents {
    if es == [] then map[] else Save(m, st, SaveAll(m, st, es[..|es| - 1]), es[|es| - 1])
  }

  lemma {:induction false} SaveAllSnoc(m: CostModel, st: State, es: seq<Edge>, e: Edge)
    ensures SaveAll(m, st, es + [e]) == Save(m, st, SaveAll(m, st, es), e)
  {
    assert (es + [e])[..|es|] == es;
  }

  // The first row of the e-class that reaches its cost over children of smaller rank.
  ghost predicate IsFirstBest(m: CostModel, st: State, es: seq<Edge>, k: Key, i: nat) {
    && i < |es| && es[i].target == k && IsBestEdge(m, st, es[i])
    && (forall j :: 0 <= j < i && es[j].target == k ==> !IsBestEdge(m, st, es[j]))
  }

  // An e-class has a saved edge exactly when some row reaches its cost over children of smaller
  // rank, and then it is the first such row.
  lemma {:induction false} SavedEdges(m: CostModel, st: State, es: seq<Edge>, k: Key)
    ensures k in SaveAll(m, st, es) <==> exists e :: e in es && e.target == k && IsBestEdge(m, st, e)
    ensures k in SaveAll(m, st, es) ==> var e := SaveAll(m, st, es)[k]; e in es && e.target == k && IsBestEdge(m, st, e)
    ensures k in SaveAll(m, st, es) ==> exists i: nat :: IsFirstBest(m, st, es, k, i) && SaveAll(m, st, es)[k] == es[i]
  {
    if es != [] {
      var n := |es| - 1;
      SavedEdges(m, st, es[..n], k);
      assert es == es[..n] + [es[n]];
      if k in SaveAll(m, st, es[..n]) {
        var i: nat :| IsFirstBest(m, st, es[..n], k, i) && SaveAll(m, st, es[..n])[k] == es[..n][i];
        assert forall j :: 0 <= j < i ==> es[..n][j] == es[j];
        assert IsFirstBest(m, st, es, k, i);
      } else if k in SaveAll(m, st, es) {
        assert forall j :: 0 <= j < n ==> es[..n][j] == es[j];
        assert IsFirstBest(m, st, es, k, n);
      }
    }
  }

  // A row that explains the cost of `k`: it either already yields less, or yields exactly that cost
  // over children that all got their rank earlier.
  ghost predicate Explains(m: CostModel, st: State, k: Key, e: Edge) {
    && !e.subsumed && e.target == k && k in st.costs && k in st.ranks
    && var c := EdgeCost(m, st.costs, e);
    && c.Some?
    && (c.value < st.costs[k] || (c.value == st.costs[k] && RankBelow(st.ranks, e.args, st.ranks[k])))
  }

  ghost predicate Explained(m: CostModel, es: seq<Edge>, lim: Option<Cost>, st: State) {
    && st.costs.Keys == st.ranks.Keys
    && (forall k :: k in st.ranks ==> 0 < st.ranks[k] <= st.cnt)
    && (forall k :: k in st.costs && Below(st.costs[k], lim) ==> exists e :: e in es && Explains(m, st, k, e))
  }

  lemma {:induction false} CostDrop(m: CostModel, lim: Option<Cost>, costs: Costs, t: Key, c: Cost, args: seq<Arg>)
    requires StrictBelow(m, lim)
    requires ArgCosts(m, costs, args).Some? && (t in costs ==> c < costs[t])
    ensures var before := ArgCosts(m, costs, args).value; var after := ArgCosts(m, costs[t := c], args);
      && after.Some? && Leq(after.value, before)
      && (t !in Leaves(args) ==> after.value == before)
      && (t in Leaves(args) && AllBelow(before, lim) ==> after.value != before)
    decreases args, 1
  {
    if args != [] {
      CostDropArg(m, lim, costs, t, c, args[0]);
      CostDrop(m, lim, costs, t, c, args[1..]);
      var rest := ArgCosts(m, costs, args[1..]).value;
      var all := ArgCosts(m, costs, args).value;
      var now := ArgCosts(m, costs[t := c], args).value;
      assert all[1..] == rest && now[1..] == ArgCosts(m, costs[t := c], args[1..]).value;
      if AllBelow(all, lim) {
        assert Below(all[0], lim);
        assert forall i :: 0 <= i < |rest| ==> rest[i] == all[i + 1];
      }
    }
  }

  lemma {:induction false} CostDropArg(m: CostModel, lim: Option<Cost>, costs: Costs, t: Key, c: Cost, a: Arg)
    requires StrictBelow(m, lim)
    requires ArgCost(m, costs, a).Some? && (t in costs ==> c < costs[t])
    ensures var before := ArgCost(m, costs, a).value; var after := ArgCost(m, costs[t := c], a);
      && after.Some? && after.value <= before
      && (t !in ArgLeaves(a) ==> after.value == before)
      && (t in ArgLeaves(a) && Below(before, lim) ==> after.value < before)
    decreases a, 0
  {
    match a
    case ClassArg(k) =>
    case BaseArg(_) =>
    case ContainerArg(_, elems) => CostDrop(m, lim, costs, t, c, elems);
  }

  lemma {:induction false} EdgeCostDrop(m: CostModel, lim: Option<Cost>, costs: Costs, t: Key, c: Cost, e: Edge)
    requires StrictBelow(m, lim)
    requires EdgeCost(m, costs, e).Some? && (t in costs ==> c < costs[t])
    ensures var before := EdgeCost(m, costs, e).value; var after := EdgeCost(m, costs[t := c], e);
      && after.Some? && after.value <= before
      && (t !in Leaves(e.args) ==> after.value == before)
      && (t in Leaves(e.args) && Below(before, lim) ==> after.value < before)
  {
    CostDrop(m, lim, costs, t, c, e.args);
  }

  lemma {:induction false} RelaxKeepsExplanation(m: CostModel, lim: Option<Cost>, st: State, e: Edge, k: Key, why: Edge)
    requires StrictBelow(m, lim) && st.costs.Keys == st.ranks.Keys
    requires Improves(m, st.costs, e) && k != e.target
    requires Explains(m, st, k, why) && Below(st.costs[k], lim)
    ensures Explains(m, Relax(m, st, e), k, why)
  {
    EdgeCostDrop(m, lim, st.costs, e.target, EdgeCost(m, st.costs, e).value, why);
    if e.target !in Leaves(why.args) && 0 < st.ranks[k] {
      ArgsRankIsMax(st.ranks, why.args, st.ranks[k]);
      ArgsRankIsMax(Relax(m, st, e).ranks, why.args, st.ranks[k]);
    }
    if e.target in Leaves(why.args) {
      ArgCostsDefined(m, st.costs, why.args);
    }
  }

  lemma {:induction false} RelaxExplainsTarget(m: CostModel, lim: Option<Cost>, es: seq<Edge>, st: State, e: Edge)
    requires StrictBelow(m, lim) && Explained(m, es, lim, st)
    requires Improves(m, st.costs, e) && Below(EdgeCost(m, st.costs, e).value, lim)
    ensures Explains(m, Relax(m, st, e), e.target, e)
  {
    EdgeCostDrop(m, lim, st.costs, e.target, EdgeCost(m, st.costs, e).value, e);
    ArgCostsDefined(m, st.costs, e.args);
    if e.target !in Leaves(e.args) {
      ArgsRankIsMax(Relax(m, st, e).ranks, e.args, st.cnt + 1);
    }
  }

  lemma {:induction false} RelaxKeepsExplained(m: CostModel, es: seq<Edge>, lim: Option<Cost>, st: State, e: Edge)
    requires StrictBelow(m, lim) && Explained(m, es, lim, st) && e in es
    ensures Explained(m, es, lim, Relax(m, st, e))
  {
    if Improves(m, st.costs, e) {
      var st' := Relax(m, st, e);
      forall k | k in st'.costs && Below(st'.costs[k], lim)
        ensures exists why :: why in es && Explains(m, st', k, why)
      {
        if k == e.target {
          RelaxExplainsTarget(m, lim, es, st, e);
        } else {
          var why :| why in es && Explains(m, st, k, why);
          RelaxKeepsExplanation(m, lim, st, e, k, why);
        }
      }
    }
  }

  lemma {:induction false} RelaxAllKeepsExplained(m: CostModel, es: seq<Edge>, lim: Option<Cost>, st: State, part: seq<Edge>)
    requires StrictBelow(m, lim) && Explained(m, es, lim, st) && forall e :: e in part ==> e in es
    ensures Explained(m, es, lim, RelaxAll(m, st, part))
  {
    if part != [] {
      RelaxAllKeepsExplained(m, es, lim, st, part[..|part| - 1]);
      RelaxKeepsExplained(m, es, lim, RelaxAll(m, st, part[..|part| - 1]), part[|part| - 1]);
    }
  }

  lemma {:induction false} RunKeepsExplained(m: CostModel, es: seq<Edge>, lim: Option<Cost>, st: State)
    requires StrictBelow(m, lim) && Explained(m, es, lim, st)
    ensures Explained(m, es, lim, Run(m, es, st))
    decreases Uncosted(es, st.costs), Potential(es, st.costs)
  {
    var st' := RelaxAll(m, st, es);
    RelaxAllProgress(m, st, es, es);
    RelaxAllKeepsExplained(m, es, lim, st, es);
    if st' != st { RunKeepsExplained(m, es, lim, st'); }
  }

  // Under a model that is strict below the limit, every e-class whose final cost is below the
  // limit has a saved edge, even with zero-cost rows, self-loops and equal-cost cycles.
  lemma {:induction false} ParentEdgesExist(m: CostModel, es: seq<Edge>, lim: Option<Cost>, k: Key)
    requires StrictBelow(m, lim)
    ensures var r := Run(m, es, INITIAL);
            k in r.costs && Below(r.costs[k], lim) ==> k in SaveAll(m, r, es)
  {
    var r := Run(m, es, INITIAL);
    RunReachesFixpoint(m, es, INITIAL);
    NoChangeMeansSettled(m, r, es);
    RunKeepsExplained(m, es, lim, INITIAL);
    SavedEdges(m, r, es, k);
    if k in r.costs && Below(r.costs[k], lim) {
      var e :| e in es && Explains(m, r, k, e);
      assert !Improves(m, r.costs, e);
    }
  }

  // ---------------------------------------------------------------- reconstruction

  ghost predicate Ranked(ranks: Ranks, ps: Parents) {
    forall k :: k in ps ==> k in ranks && ps[k].target == k && RankBelow(ranks, ps[k].args, ranks[k])
  }

  // The term that following the saved edges yields; `None` where an e-class has no saved edge,
  // at which the extractor panics. No cycle check: the ranks fall instead.
  ghost function Rebuild(ranks: Ranks, ps: Parents, a: Arg): Option<Tree>
    requires Ranked(ranks, ps) && ArgRank(ranks, a).Some?
    decreases ArgRank(ranks, a).value, a, 0
  {
    match a
    case ClassArg(k) =>
      if k !in ps then None
      else
        var ts := RebuildAll(ranks, ps, ps[k].args);
        if ts.None? then None else Some(Node(ps[k], ts.value))
    case BaseArg(k) => Some(BaseTree(k))
    case ContainerArg(k, elems) =>
      var ts := RebuildAll(ranks, ps, elems);
      if ts.None? then None else Some(ContainerTree(k, ts.value))
  }

  ghost function RebuildAll(ranks: Ranks, ps: Parents, args: seq<Arg>): Option<seq<Tree>>
    requires Ranked(ranks, ps) && ArgsRank(ranks, args).Some?
    decreases ArgsRank(ranks, args).value, args, 1
  {
    if args == [] then Some([])
    else
      match Rebuild(ranks, ps, args[0])
      case None => None
      case Some(t) =>
        match RebuildAll(ranks, ps, args[1..])
        case None => None
        case Some(ts) => Some([t] + ts)
  }

  ghost predicate Finished(m: CostModel, es: seq<Edge>, lim: Option<Cost>, st: State, ps: Parents) {
    && st.costs.Keys == st.ranks.Keys
    && (forall k :: k in ps ==> ps[k] in es && ps[k].target == k && IsBestEdge(m, st, ps[k]))
    && (forall k :: k in st.costs && Below(st.costs[k], lim) ==> k in ps)
  }

  lemma {:induction false} RunFinishes(m: CostModel, es: seq<Edge>, lim: Option<Cost>)
    requires StrictBelow(m, lim)
    ensures var r := Run(m, es, INITIAL); Finished(m, es, lim, r, SaveAll(m, r, es))
  {
    var r := Run(m, es, INITIAL);
    RunKeepsExplained(m, es, lim, INITIAL);
    forall k ensures k in SaveAll(m, r, es) ==> var e := SaveAll(m, r, es)[k]; e in es && e.target == k && IsBestEdge(m, r, e) {
      SavedEdges(m, r, es, k);
    }
    forall k | k in r.costs && Below(r.costs[k], lim) ensures k in SaveAll(m, r, es) {
      ParentEdgesExist(m, es, lim, k);
    }
  }

  lemma {:induction false} CostedIsRanked(m: CostModel, st: State, args: seq<Arg>)
    requires st.costs.Keys == st.ranks.Keys && ArgCosts(m, st.costs, args).Some?
    ensures ArgsRank(st.ranks, args).Some?
    decreases args, 1
  {
    if args != [] {
      CostedArgIsRanked(m, st, args[0]);
      CostedIsRanked(m, st, args[1..]);
    }
  }

  lemma {:induction false} CostedArgIsRanked(m: CostModel, st: State, a: Arg)
    requires st.costs.Keys == st.ranks.Keys && ArgCost(m, st.costs, a).Some?
    ensures ArgRank(st.ranks, a).Some?
    decreases a, 0
  {
    match a
    case ClassArg(_) =>
    case BaseArg(_) =>
    case ContainerArg(_, elems) => CostedIsRanked(m, st, elems);
  }

  // Following saved edges never meets an e-class without one, stops, and yields a derivable term
  // whose own cost is exactly the computed one.
  lemma {:induction false} RebuildIsExact(m: CostModel, es: seq<Edge>, lim: Option<Cost>, st: State, ps: Parents, a: Arg)
    requires StrictBelow(m, lim) && Finished(m, es, lim, st, ps)
    requires ArgCost(m, st.costs, a).Some? && Below(ArgCost(m, st.costs, a).value, lim)
    requires ArgRank(st.ranks, a).Some?
    ensures var t := Rebuild(st.ranks, ps, a);
            t.Some? && Derives(es, a, t.value) && TreeCost(m, t.value) == ArgCost(m, st.costs, a).value
    decreases ArgRank(st.ranks, a).value, a, 0
  {
    match a
    case ClassArg(k) => RebuildAllIsExact(m, es, lim, st, ps, ps[k].args);
    case BaseArg(_) =>
    case ContainerArg(_, elems) => RebuildAllIsExact(m, es, lim, st, ps, elems);
  }

  lemma {:induction false} RebuildAllIsExact(m: CostModel, es: seq<Edge>, lim: Option<Cost>, st: State, ps: Parents, args: seq<Arg>)
    requires StrictBelow(m, lim) && Finished(m, es, lim, st, ps)
    requires ArgCosts(m, st.costs, args).Some? && AllBelow(ArgCosts(m, st.costs, args).value, lim)
    requires ArgsRank(st.ranks, args).Some?
    ensures var ts := RebuildAll(st.ranks, ps, args);
            ts.Some? && DerivesAll(es, args, ts.value) && TreeCosts(m, ts.value) == ArgCosts(m, st.costs, args).value
    decreases ArgsRank(st.ranks, args).value, args, 1
  {
    if args != [] {
      var all := ArgCosts(m, st.costs, args).value;
      var rest := ArgCosts(m, st.costs, args[1..]).value;
      assert Below(all[0], lim) && forall i :: 0 <= i < |rest| ==> rest[i] == all[i + 1];
      RebuildIsExact(m, es, lim, st, ps, args[0]);
      RebuildAllIsExact(m, es, lim, st, ps, args[1..]);
      var t := Rebuild(st.ranks, ps, args[0]).value;
      var ts := RebuildAll(st.ranks, ps, args[1..]).value;
      assert ([t] + ts)[1..] == ts;
    }
  }

  // An argument gets a cost exactly when a term can be derived for it, and then that is the least
  // cost of any derivable term.
  lemma {:induction false} ArgCostIsOptimal(m: CostModel, es: seq<Edge>, a: Arg)
    requires Monotone(m)
    ensures var c := ArgCost(m, Run(m, es, INITIAL).costs, a);
      && (c.Some? <==> Derivable(es, a))
      && (c.Some? ==> forall t :: IsTermOf(es, a, t) ==> c.value <= TreeCost(m, t))
      && (c.Some? ==> exists t :: IsTermOf(es, a, t) && TreeCost(m, t) == c.value)
  {
    var r := Run(m, es, INITIAL);
    RunReachesFixpoint(m, es, INITIAL);
    NoChangeMeansSettled(m, r, es);
    forall t | IsTermOf(es, a, t)
      ensures ArgCost(m, r.costs, a).Some? && ArgCost(m, r.costs, a).value <= TreeCost(m, t)
    {
      SettledIsOptimal(m, es, r.costs, a, t);
    }
    if ArgCost(m, r.costs, a).Some? {
      RunKeepsRealised(m, es, INITIAL);
      var t := RealiseArg(m, es, r.costs, a);
      assert IsTermOf(es, a, t);
    }
  }

  // The whole extraction: whatever has a cost below the limit is rebuilt, into a term that can be
  // derived, costs exactly that much, and is as cheap as any derivable term.
  lemma {:induction false} ExtractionIsOptimal(m: CostModel, es: seq<Edge>, lim: Option<Cost>, a: Arg) returns (t: Tree)
    requires StrictBelow(m, lim)
    requires var c := ArgCost(m, Run(m, es, INITIAL).costs, a); c.Some? && Below(c.value, lim)
    ensures var r := Run(m, es, INITIAL); var ps := SaveAll(m, r, es);
            Ranked(r.ranks, ps) && ArgRank(r.ranks, a).Some? && Rebuild(r.ranks, ps, a) == Some(t)
    ensures IsTermOf(es, a, t) && Some(TreeCost(m, t)) == ArgCost(m, Run(m, es, INITIAL).costs, a)
    ensures forall u :: IsTermOf(es, a, u) ==> TreeCost(m, t) <= TreeCost(m, u)
  {
    var r := Run(m, es, INITIAL);
    var ps := SaveAll(m, r, es);
    RunFinishes(m, es, lim);
    CostedArgIsRanked(m, r, a);
    RebuildIsExact(m, es, lim, r, ps, a);
    ArgCostIsOptimal(m, es, a);
    t := Rebuild(r.ranks, ps, a).value;
  }
}
