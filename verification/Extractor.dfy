// The extractor as it runs: tables of costs, ranks and edges, and terms built in a DAG.
module ExtractorModel {
  import opened Options
  import opened E = ExtractionModel
  import D = TermDagModel
  import C = CanonicalModel
  import U = UnionFindMerge

  // The tree of a derivation without the rows it came from.
  ghost function TermOf(base: Key -> string, container: Key -> string, t: Tree): D.Expr
    decreases t, 0
  {
    match t
    case Node(e, kids) => D.Call(e.head, TermsOf(base, container, kids))
    case BaseTree(k) => D.LitExpr(base(k))
    case ContainerTree(k, elems) => D.Call(container(k), TermsOf(base, container, elems))
  }

  ghost function TermsOf(base: Key -> string, container: Key -> string, ts: seq<Tree>): (es: seq<D.Expr>)
    ensures |es| == |ts| && forall i :: 0 <= i < |ts| ==> es[i] == TermOf(base, container, ts[i])
    decreases ts, 1
  {
    if ts == [] then [] else [TermOf(base, container, ts[0])] + TermsOf(base, container, ts[1..])
  }

  // `MissingEdge` is the panic of an `unwrap` in the code.
  datatype Extraction = Unextractable | MissingEdge | Best(cost: Cost, term: D.TermId)

  // The tables of one cache: the term already built for an argument. An argument is determined by
  // its value and sort, so keying by the argument is keying by those.
  type Cache = map<Arg, D.TermId>

  lemma {:induction false} RebuildAllNth(ranks: Ranks, ps: Parents, args: seq<Arg>, i: nat)
    requires Ranked(ranks, ps) && ArgsRank(ranks, args).Some? && i < |args|
    ensures ArgRank(ranks, args[i]).Some? && ArgRank(ranks, args[i]).value <= ArgsRank(ranks, args).value
    ensures RebuildAll(ranks, ps, args).Some? ==>
              && |RebuildAll(ranks, ps, args).value| == |args|
              && Rebuild(ranks, ps, args[i]) == Some(RebuildAll(ranks, ps, args).value[i])
    ensures Rebuild(ranks, ps, args[i]).None? ==> RebuildAll(ranks, ps, args).None?
  {
    if i == 0 {
      if |args| > 1 { RebuildAllNth(ranks, ps, args[1..], 0); }
    } else {
      RebuildAllNth(ranks, ps, args[1..], i - 1);
    }
  }

  lemma {:induction false} RebuildAllDefined(ranks: Ranks, ps: Parents, args: seq<Arg>)
    requires Ranked(ranks, ps) && ArgsRank(ranks, args).Some?
    requires forall i :: 0 <= i < |args| ==> ArgRank(ranks, args[i]).Some? && Rebuild(ranks, ps, args[i]).Some?
    ensures RebuildAll(ranks, ps, args).Some? && |RebuildAll(ranks, ps, args).value| == |args|
  {
    if args != [] {
      assert forall i :: 0 <= i < |args[1..]| ==> args[1..][i] == args[i + 1];
      RebuildAllDefined(ranks, ps, args[1..]);
    }
  }

  lemma {:induction false} FlatSnoc(g: Graph, f: nat, i: nat)
    requires f < |g| && i < |g[f]|
    ensures Flat(g[..f]) + g[f][..i + 1] == Flat(g[..f]) + g[f][..i] + [g[f][i]]
  {}

  lemma {:induction false} FlatNext(g: Graph, f: nat)
    requires f < |g|
    ensures Flat(g[..f + 1]) == Flat(g[..f]) + g[f][..|g[f]|]
  {
    assert g[..f + 1][..f] == g[..f];
  }

  // What reconstruction follows, and how base values and containers are written.
  datatype Plan = Plan(ranks: Ranks, parents: Parents, base: Key -> string, container: Key -> string)

  // The term the saved edges describe for an argument, if no edge is missing.
  ghost function Described(p: Plan, a: Arg): Option<D.Expr>
    requires Ranked(p.ranks, p.parents) && ArgRank(p.ranks, a).Some?
  {
    var t := Rebuild(p.ranks, p.parents, a);
    if t.None? then None else Some(TermOf(p.base, p.container, t.value))
  }

  ghost function DescribedApp(p: Plan, head: string, args: seq<Arg>): Option<D.Expr>
    requires Ranked(p.ranks, p.parents) && ArgsRank(p.ranks, args).Some?
  {
    var ts := RebuildAll(p.ranks, p.parents, args);
    if ts.None? then None else Some(D.Call(head, TermsOf(p.base, p.container, ts.value)))
  }

  // The id stands for the described term.
  ghost predicate Built(p: Plan, nodes: seq<D.Term>, a: Arg, id: D.TermId)
    requires D.Closed(nodes) && Ranked(p.ranks, p.parents)
  {
    ArgRank(p.ranks, a).Some? && id < |nodes| && Described(p, a) == Some(D.ToExpr(nodes, id))
  }

  ghost predicate CacheHolds(p: Plan, cache: Cache, nodes: seq<D.Term>)
    requires D.Closed(nodes) && Ranked(p.ranks, p.parents)
  {
    forall a :: a in cache ==> Built(p, nodes, a, cache[a])
  }

  ghost predicate BuiltAll(p: Plan, nodes: seq<D.Term>, args: seq<Arg>, ids: seq<D.TermId>)
    requires D.Closed(nodes) && Ranked(p.ranks, p.parents)
  {
    |ids| <= |args| && forall k :: 0 <= k < |ids| ==> Built(p, nodes, args[k], ids[k])
  }

  lemma {:induction false} CacheStable(p: Plan, cache: Cache, before: seq<D.Term>, nodes: seq<D.Term>)
    requires D.Closed(before) && D.Closed(nodes) && D.IsPrefix(before, nodes)
    requires Ranked(p.ranks, p.parents) && CacheHolds(p, cache, before)
    ensures CacheHolds(p, cache, nodes)
  {
    forall a | a in cache ensures Built(p, nodes, a, cache[a]) {
      D.ToExprStable(before, nodes, cache[a]);
    }
  }

  lemma {:induction false} BuiltAllStable(p: Plan, before: seq<D.Term>, nodes: seq<D.Term>, args: seq<Arg>, ids: seq<D.TermId>)
    requires D.Closed(before) && D.Closed(nodes) && D.IsPrefix(before, nodes)
    requires Ranked(p.ranks, p.parents) && BuiltAll(p, before, args, ids)
    ensures BuiltAll(p, nodes, args, ids)
  {
    forall k | 0 <= k < |ids| ensures Built(p, nodes, args[k], ids[k]) {
      D.ToExprStable(before, nodes, ids[k]);
    }
  }

  lemma {:induction false} AllInArena(p: Plan, nodes: seq<D.Term>, args: seq<Arg>, ids: seq<D.TermId>)
    requires D.Closed(nodes) && Ranked(p.ranks, p.parents) && BuiltAll(p, nodes, args, ids)
    ensures D.AllBelow(ids, |nodes|)
  {
    forall k | 0 <= k < |ids| ensures ids[k] < |nodes| {
      assert Built(p, nodes, args[k], ids[k]);
    }
  }

  // With all children built, the application over them is the described one.
  lemma {:induction false} AppBuilt(p: Plan, nodes: seq<D.Term>, args: seq<Arg>, ids: seq<D.TermId>, n: D.TermId)
    requires D.Closed(nodes) && n < |nodes| && nodes[n].App? && nodes[n].args == ids
    requires Ranked(p.ranks, p.parents) && ArgsRank(p.ranks, args).Some?
    requires |ids| == |args| && BuiltAll(p, nodes, args, ids)
    ensures DescribedApp(p, nodes[n].head, args) == Some(D.ToExpr(nodes, n))
  {
    assert D.WellPlaced(nodes[n], n);
    forall k | 0 <= k < |args| ensures ArgRank(p.ranks, args[k]).Some? && Rebuild(p.ranks, p.parents, args[k]).Some? {
      assert Built(p, nodes, args[k], ids[k]);
    }
    RebuildAllDefined(p.ranks, p.parents, args);
    var ts := RebuildAll(p.ranks, p.parents, args).value;
    forall k | 0 <= k < |args| ensures D.ToExpr(nodes, ids[k]) == TermOf(p.base, p.container, ts[k]) {
      assert Built(p, nodes, args[k], ids[k]);
      RebuildAllNth(p.ranks, p.parents, args, k);
    }
    assert D.ToExprs(nodes, ids, n) == TermsOf(p.base, p.container, ts);
  }

  class Extractor {
    const model: CostModel
    const graph: Graph
    const baseText: Key -> string
    const containerHead: Key -> string
    var costs: Costs
    var topoRnkCnt: nat
    var topoRnk: Ranks
    var parentEdge: Parents

    ghost function Current(): State
      reads this
    {
      State(costs, topoRnk, topoRnkCnt)
    }

    ghost function Final(): State {
      Run(model, Flat(graph), INITIAL)
    }

    // Costs, ranks and saved edges are those of the finished computation.
    ghost predicate Ready()
      reads this
    {
      Current() == Final() && parentEdge == SaveAll(model, Final(), Flat(graph))
    }

    constructor (model: CostModel, graph: Graph, baseText: Key -> string, containerHead: Key -> string)
      ensures this.model == model && this.graph == graph
      ensures this.baseText == baseText && this.containerHead == containerHead
      ensures Ready()
    {
      this.model, this.graph, this.baseText, this.containerHead := model, graph, baseText, containerHead;
      costs, topoRnkCnt, topoRnk, parentEdge := map[], 0, map[], map[];
      new;
      BellmanFord();
      SaveParentEdges();
    }

    method BellmanFord()
      requires Current() == INITIAL
      modifies this`costs, this`topoRnk, this`topoRnkCnt
      ensures Current() == Final()
    {
      ghost var es := Flat(graph);
      var ensureFixpoint := false;
      while !ensureFixpoint
        invariant Run(model, es, Current()) == Final()
        invariant ensureFixpoint ==> RelaxAll(model, Current(), es) == Current()
        decreases Uncosted(es, costs), Potential(es, costs), !ensureFixpoint
      {
        ghost var before := Current();
        var changed := RelaxAllRows();
        ensureFixpoint := !changed;
        RelaxAllProgress(model, before, es, es);
      }
    }

    // One round over all tables.
    method RelaxAllRows() returns (changed: bool)
      modifies this`costs, this`topoRnk, this`topoRnkCnt
      ensures Current() == RelaxAll(model, old(Current()), Flat(graph))
      ensures changed <==> Current() != old(Current())
    {
      changed := false;
      ghost var before := Current();
      for f := 0 to |graph|
        invariant Current() == RelaxAll(model, before, Flat(graph[..f]))
        invariant changed <==> Current() != before
      {
        assert graph[f][..0] == [] && Flat(graph[..f]) + [] == Flat(graph[..f]);
        for i := 0 to |graph[f]|
          invariant Current() == RelaxAll(model, before, Flat(graph[..f]) + graph[f][..i])
          invariant changed <==> Current() != before
        {
          FlatSnoc(graph, f, i);
          var updated := RelaxHyperedge(graph[f][i]);
          changed := changed || updated;
        }
        FlatNext(graph, f);
      }
      assert graph[..|graph|] == graph;
    }

    method RelaxHyperedge(row: Edge) returns (updated: bool)
      modifies this`costs, this`topoRnk, this`topoRnkCnt
      ensures Current() == Relax(model, old(Current()), row)
      ensures updated <==> Current() != old(Current())
    {
      updated := false;
      if !row.subsumed {
        var newCost := EdgeCost(model, costs, row);
        if newCost.Some? {
          if row.target !in costs || newCost.value < costs[row.target] {
            updated := true;
            costs := costs[row.target := newCost.value];
          }
        }
        if updated {
          topoRnkCnt := topoRnkCnt + 1;
          topoRnk := topoRnk[row.target := topoRnkCnt];
        }
      }
    }

    method SaveParentEdges()
      requires parentEdge == map[]
      modifies this`parentEdge
      ensures parentEdge == SaveAll(model, Current(), Flat(graph))
    {
      for f := 0 to |graph|
        invariant parentEdge == SaveAll(model, Current(), Flat(graph[..f]))
      {
        assert graph[f][..0] == [] && Flat(graph[..f]) + [] == Flat(graph[..f]);
        for i := 0 to |graph[f]|
          invariant parentEdge == SaveAll(model, Current(), Flat(graph[..f]) + graph[f][..i])
        {
          FlatSnoc(graph, f, i);
          SaveAllSnoc(model, Current(), Flat(graph[..f]) + graph[f][..i], graph[f][i]);
          SaveBestParentEdge(graph[f][i]);
        }
        FlatNext(graph, f);
      }
      assert graph[..|graph|] == graph;
    }

    method SaveBestParentEdge(row: Edge)
      modifies this`parentEdge
      ensures parentEdge == Save(model, Current(), old(parentEdge), row)
    {
      if !row.subsumed && row.target in costs && EdgeCost(model, costs, row) == Some(costs[row.target]) {
        if row.target in topoRnk && RankBelow(topoRnk, row.args, topoRnk[row.target]) {
          if row.target !in parentEdge {
            parentEdge := parentEdge[row.target := row];
          }
        }
      }
    }

    ghost function ThePlan(): Plan
      reads this
    {
      Plan(topoRnk, parentEdge, baseText, containerHead)
    }

    // Recursive reconstruction into the shared arena, through a cache and with no cycle check. It
    // stops because ranks fall along saved edges, and yields nothing only if an edge is missing.
    method ReconstructNode(dag: D.TermDag, cache0: Cache, a: Arg) returns (id: Option<D.TermId>, cache: Cache)
      requires dag.Valid() && Ranked(topoRnk, parentEdge) && ArgRank(topoRnk, a).Some?
      requires CacheHolds(ThePlan(), cache0, dag.nodes)
      modifies dag
      ensures dag.Valid() && D.IsPrefix(old(dag.nodes), dag.nodes) && CacheHolds(ThePlan(), cache, dag.nodes)
      ensures id.None? ==> Described(ThePlan(), a).None?
      ensures id.Some? ==> Built(ThePlan(), dag.nodes, a, id.value)
      decreases ArgRank(topoRnk, a).value, a, 0
    {
      cache := cache0;
      if a in cache {
        return Some(cache[a]), cache;
      }
      match a {
        case BaseArg(k) =>
          var n := dag.AddNode(D.Lit(baseText(k)));
          id := Some(n);
          CacheStable(ThePlan(), cache, old(dag.nodes), dag.nodes);
        case ContainerArg(k, elems) =>
          id, cache := BuildApp(dag, cache, containerHead(k), elems);
        case ClassArg(k) =>
          if k !in parentEdge {
            return None, cache;
          }
          id, cache := BuildApp(dag, cache, parentEdge[k].head, parentEdge[k].args);
      }
      if id.Some? {
        cache := cache[a := id.value];
      }
    }

    // The terms of the children, then the application itself.
    method BuildApp(dag: D.TermDag, cache0: Cache, head: string, args: seq<Arg>) returns (id: Option<D.TermId>, cache: Cache)
      requires dag.Valid() && Ranked(topoRnk, parentEdge) && ArgsRank(topoRnk, args).Some?
      requires CacheHolds(ThePlan(), cache0, dag.nodes)
      modifies dag
      ensures dag.Valid() && D.IsPrefix(old(dag.nodes), dag.nodes) && CacheHolds(ThePlan(), cache, dag.nodes)
      ensures id.None? ==> DescribedApp(ThePlan(), head, args).None?
      ensures id.Some? ==> id.value < |dag.nodes| && DescribedApp(ThePlan(), head, args) == Some(D.ToExpr(dag.nodes, id.value))
      decreases ArgsRank(topoRnk, args).value, args, 1
    {
      cache := cache0;
      ghost var p := ThePlan();
      var ids: seq<D.TermId> := [];
      for i := 0 to |args|
        invariant dag.Valid() && D.IsPrefix(old(dag.nodes), dag.nodes) && CacheHolds(p, cache, dag.nodes)
        invariant |ids| == i && BuiltAll(p, dag.nodes, args, ids)
      {
        RebuildAllNth(topoRnk, parentEdge, args, i);
        ghost var before := dag.nodes;
        var child;
        child, cache := ReconstructNode(dag, cache, args[i]);
        if child.None? {
          return None, cache;
        }
        BuiltAllStable(p, before, dag.nodes, args, ids);
        ids := ids + [child.value];
      }
      ghost var before := dag.nodes;
      AllInArena(p, dag.nodes, args, ids);
      var n := dag.AddNode(D.App(head, ids));
      CacheStable(p, cache, before, dag.nodes);
      BuiltAllStable(p, before, dag.nodes, args, ids);
      AppBuilt(p, dag.nodes, args, ids, n);
      id := Some(n);
    }

    // A derivable term for the argument that costs exactly `c`, is no dearer than any other, and
    // reads `e`.
    ghost predicate IsBestTerm(a: Arg, c: Cost, e: D.Expr, t: Tree) {
      && IsTermOf(Flat(graph), a, t) && TreeCost(model, t) == c
      && TermOf(baseText, containerHead, t) == e
      && forall u :: IsTermOf(Flat(graph), a, u) ==> c <= TreeCost(model, u)
    }

    lemma {:induction false} Extractable(a: Arg, lim: Option<Cost>)
      requires Ready() && StrictBelow(model, lim)
      ensures Ranked(topoRnk, parentEdge)
      ensures var best := ArgCost(model, costs, a);
        && (best.Some? <==> Derivable(Flat(graph), a))
        && (best.Some? ==> ArgRank(topoRnk, a).Some?)
        && (best.Some? && Below(best.value, lim) ==>
              exists t :: Described(ThePlan(), a).Some? && IsBestTerm(a, best.value, Described(ThePlan(), a).value, t))
    {
      var es := Flat(graph);
      var best := ArgCost(model, costs, a);
      ArgCostIsOptimal(model, es, a);
      RunFinishes(model, es, lim);
      if best.Some? {
        CostedArgIsRanked(model, Current(), a);
        if Below(best.value, lim) {
          var t := ExtractionIsOptimal(model, es, lim, a);
          assert IsBestTerm(a, best.value, Described(ThePlan(), a).value, t);
        }
      }
    }

    // What extraction finds for an argument: nothing exactly when no expression represents it; and when
    // its cost is below a limit below which the model is strict, an expression that represents it, of a
    // derivation of that cost, which is the least.
    ghost predicate Answers(a: Arg, nodes: seq<D.Term>, lim: Option<Cost>, r: Extraction)
      requires D.Closed(nodes)
      reads this
    {
      && (r.Unextractable? <==> forall e :: !Represents(Flat(graph), baseText, containerHead, a, e))
      && (!r.Unextractable? ==> ArgCost(model, costs, a).Some?)
      && (r.MissingEdge? ==> !Below(ArgCost(model, costs, a).value, lim))
      && (r.Best? ==> ArgCost(model, costs, a) == Some(r.cost) && r.term < |nodes|)
      && (r.Best? && r.term < |nodes| && Below(r.cost, lim) ==>
           && Represents(Flat(graph), baseText, containerHead, a, D.ToExpr(nodes, r.term))
           && exists t :: IsBestTerm(a, r.cost, D.ToExpr(nodes, r.term), t))
    }

    // Extraction from a value. For an e-class it is about the representative that the union-find gives,
    // which is the root of the class unless a walk over parents takes more than 64 hops.
    method ExtractBest(dag: D.TermDag, uf: C.UnionFind, value: Arg, ghost lim: Option<Cost>) returns (r: Extraction)
      requires Ready() && dag.Valid() && StrictBelow(model, lim)
      modifies dag
      ensures dag.Valid() && D.IsPrefix(old(dag.nodes), dag.nodes)
      ensures !value.ClassArg? ==> Answers(value, dag.nodes, lim, r)
      ensures value.ClassArg? ==> Answers(ClassArg(Key(value.key.sort, C.Canonical(uf, value.key.value))), dag.nodes, lim, r)
      ensures value.ClassArg? ==> forall rows :: C.StandsFor(uf, rows) && (uf.SelfMerging? ==> C.Hops(rows, value.key.value) <= 64) ==>
        Answers(ClassArg(Key(value.key.sort, U.Root(rows, value.key.value))), dag.nodes, lim, r)
    {
      var a := value;
      if value.ClassArg? {
        var canonical := C.FindCanonical(uf, value.key.value);
        a := ClassArg(Key(value.key.sort, canonical));
        forall rows | C.StandsFor(uf, rows) && (uf.SelfMerging? ==> C.Hops(rows, value.key.value) <= 64)
          ensures canonical == U.Root(rows, value.key.value)
        {
          C.CanonicalIsRootIff(uf, rows, value.key.value);
        }
      }
      r := ExtractNode(dag, a, lim);
    }

    method ExtractNode(dag: D.TermDag, a: Arg, ghost lim: Option<Cost>) returns (r: Extraction)
      requires Ready() && dag.Valid() && StrictBelow(model, lim)
      modifies dag
      ensures dag.Valid() && D.IsPrefix(old(dag.nodes), dag.nodes) && Answers(a, dag.nodes, lim, r)
    {
      Extractable(a, lim);
      DerivableIsRepresented(Flat(graph), baseText, containerHead, a);
      var best := ArgCost(model, costs, a);
      if best.None? {
        return Unextractable;
      }
      var id, _ := ReconstructNode(dag, map[], a);
      r := if id.None? then MissingEdge else Best(best.value, id.value);
      if id.Some? && Below(best.value, lim) {
        var t :| IsBestTerm(a, best.value, D.ToExpr(dag.nodes, id.value), t);
        TermRepresents(Flat(graph), baseText, containerHead, a, t);
      }
    }
  }

  // ---------------------------------------------------------------- expressions for arguments

  // An expression for an e-class applies the head of one of its rows that are not subsumed to expressions
  // for the row's arguments; base values and containers are written as their sorts say.
  ghost predicate Represents(es: seq<Edge>, base: Key -> string, container: Key -> string, a: Arg, e: D.Expr)
    decreases e, 0
  {
    match a
    case ClassArg(k) =>
      e.Call? && exists row :: row in es && !row.subsumed && row.target == k && row.head == e.head && RepresentsAll(es, base, container, row.args, e.args)
    case BaseArg(k) => e == D.LitExpr(base(k))
    case ContainerArg(k, elems) => e.Call? && e.head == container(k) && RepresentsAll(es, base, container, elems, e.args)
  }

  ghost predicate RepresentsAll(es: seq<Edge>, base: Key -> string, container: Key -> string, args: seq<Arg>, xs: seq<D.Expr>)
    decreases xs, 1
  {
    |args| == |xs| && forall i :: 0 <= i < |args| ==> Represents(es, base, container, args[i], xs[i])
  }

  lemma {:induction false} TermRepresents(es: seq<Edge>, base: Key -> string, container: Key -> string, a: Arg, t: Tree)
    requires Derives(es, a, t)
    ensures Represents(es, base, container, a, TermOf(base, container, t))
    decreases t, 0
  {
    match a
    case ClassArg(k) => TermsRepresent(es, base, container, t.edge.args, t.kids);
    case BaseArg(_) =>
    case ContainerArg(_, elems) => TermsRepresent(es, base, container, elems, t.elems);
  }

  lemma {:induction false} TermsRepresent(es: seq<Edge>, base: Key -> string, container: Key -> string, args: seq<Arg>, ts: seq<Tree>)
    requires DerivesAll(es, args, ts)
    ensures RepresentsAll(es, base, container, args, TermsOf(base, container, ts))
    decreases ts, 1
  {
    if args != [] {
      TermRepresents(es, base, container, args[0], ts[0]);
      TermsRepresent(es, base, container, args[1..], ts[1..]);
      var xs := TermsOf(base, container, ts);
      assert xs[1..] == TermsOf(base, container, ts[1..]);
      forall i | 0 <= i < |args| ensures Represents(es, base, container, args[i], xs[i]) {
        if i > 0 { assert args[1..][i - 1] == args[i] && xs[1..][i - 1] == xs[i]; }
      }
    }
  }

  lemma {:induction false} RepresentedIsTerm(es: seq<Edge>, base: Key -> string, container: Key -> string, a: Arg, e: D.Expr) returns (t: Tree)
    requires Represents(es, base, container, a, e)
    ensures Derives(es, a, t) && TermOf(base, container, t) == e
    decreases e, 0
  {
    match a
    case ClassArg(k) =>
      var row :| row in es && !row.subsumed && row.target == k && row.head == e.head && RepresentsAll(es, base, container, row.args, e.args);
      var ts := RepresentedAreTerms(es, base, container, row.args, e.args);
      t := Node(row, ts);
    case BaseArg(k) => t := BaseTree(k);
    case ContainerArg(k, elems) =>
      var ts := RepresentedAreTerms(es, base, container, elems, e.args);
      t := ContainerTree(k, ts);
  }

  lemma {:induction false} RepresentedAreTerms(es: seq<Edge>, base: Key -> string, container: Key -> string, args: seq<Arg>, xs: seq<D.Expr>)
    returns (ts: seq<Tree>)
    requires RepresentsAll(es, base, container, args, xs)
    ensures DerivesAll(es, args, ts) && TermsOf(base, container, ts) == xs
    decreases xs, 1
  {
    ts := [];
    if xs != [] {
      var t := RepresentedIsTerm(es, base, container, args[0], xs[0]);
      var rest := RepresentedAreTerms(es, base, container, args[1..], xs[1..]);
      ts := [t] + rest;
      assert ts[1..] == rest;
    }
  }

  // The expressions of derivations are those that represent.
  lemma {:induction false} DerivableIsRepresented(es: seq<Edge>, base: Key -> string, container: Key -> string, a: Arg)
    ensures Derivable(es, a) <==> exists e :: Represents(es, base, container, a, e)
  {
    if Derivable(es, a) {
      var t :| IsTermOf(es, a, t);
      TermRepresents(es, base, container, a, t);
      assert Represents(es, base, container, a, TermOf(base, container, t));
    }
    if e :| Represents(es, base, container, a, e) {
      var t := RepresentedIsTerm(es, base, container, a, e);
      assert IsTermOf(es, a, t);
    }
  }

  // Values that are equal are extracted by one representative.
  lemma {:induction false} EqualValuesAreRepresentedAlike(uf: C.UnionFind, rows: map<nat, nat>, a: nat, b: nat)
    requires C.StandsFor(uf, rows) && (uf.SelfMerging? ==> C.Hops(rows, a) <= 64 && C.Hops(rows, b) <= 64)
    ensures C.Canonical(uf, a) == C.Canonical(uf, b) <==> U.Same(rows, [], a, b)
  {
    C.CanonicalSeparates(uf, rows, a, b);
  }
}
