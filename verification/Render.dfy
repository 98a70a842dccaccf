// Printing with let bindings for shared terms. Line breaks and indentation are not modelled: a
// rendering is the tree of what is written, with the names of earlier bindings as leaves.
module RenderModel {
  import opened TermDagModel
  import opened TermStatsModel

  datatype Rendered =
    | TextLit(repr: string)
    | TextVar(name: string)
    | LetName(index: nat)  // the name of the index-th binding; fresh names are all different
    | TextCall(head: string, args: seq<Rendered>)

  const MIN_SHARED_TERM_SIZE := 4

  // Only names of bindings before the bound occur.
  ghost predicate NamesBelow(r: Rendered, bound: nat) {
    match r
    case TextLit(_) => true
    case TextVar(_) => true
    case LetName(n) => n < bound
    case TextCall(_, args) => forall a :: a in args ==> NamesBelow(a, bound)
  }

  // Each binding mentions only earlier ones.
  ghost predicate Ordered(lets: seq<Rendered>) {
    forall i :: 0 <= i < |lets| ==> NamesBelow(lets[i], i)
  }

  // Substitutes the bindings back.
  ghost function Unfold(lets: seq<Rendered>, r: Rendered): Expr
    requires Ordered(lets) && NamesBelow(r, |lets|)
    decreases |lets|, r, 0
  {
    match r
    case TextLit(s) => LitExpr(s)
    case TextVar(v) => VarExpr(v)
    case LetName(n) => Unfold(lets[..n], lets[n])
    case TextCall(h, args) => Call(h, UnfoldAll(lets, args))
  }

  ghost function UnfoldAll(lets: seq<Rendered>, args: seq<Rendered>): (es: seq<Expr>)
    requires Ordered(lets) && forall a :: a in args ==> NamesBelow(a, |lets|)
    ensures |es| == |args| && forall i :: 0 <= i < |args| ==> es[i] == Unfold(lets, args[i])
    decreases |lets|, args, 1
  {
    if args == [] then [] else
      assert args[0] in args;
      [Unfold(lets, args[0])] + UnfoldAll(lets, args[1..])
  }

  lemma {:induction false} NamesBelowMonotone(r: Rendered, m: nat, n: nat)
    requires m <= n && NamesBelow(r, m)
    ensures NamesBelow(r, n)
  {
    if r.TextCall? {
      forall a | a in r.args ensures NamesBelow(a, n) { NamesBelowMonotone(a, m, n); }
    }
  }

  // Further bindings do not change what earlier text unfolds to.
  lemma {:induction false} UnfoldStable(lets: seq<Rendered>, m: nat, r: Rendered)
    requires m <= |lets| && Ordered(lets) && NamesBelow(r, m)
    ensures Ordered(lets[..m]) && NamesBelow(r, |lets|) && Unfold(lets, r) == Unfold(lets[..m], r)
  {
    NamesBelowMonotone(r, m, |lets|);
    match r
    case TextCall(h, args) =>
      forall i | 0 <= i < |args| ensures Unfold(lets, args[i]) == Unfold(lets[..m], args[i]) {
        assert args[i] in args;
        UnfoldStable(lets, m, args[i]);
      }
      assert UnfoldAll(lets, args) == UnfoldAll(lets[..m], args);
    case LetName(n) => assert lets[..m][..n] == lets[..n];
    case _ =>
  }

  // Bindings mention only earlier bindings, and the binding of a term unfolds to that term. There is one
  // for every name.
  ghost predicate Sound(nodes: seq<Term>, lets: seq<Rendered>, bindings: map<TermId, nat>)
    requires Closed(nodes)
  {
    && Ordered(lets) && |lets| == |bindings|
    && forall id {:trigger bindings[id]} :: id in bindings ==> id < |nodes| && Renders(nodes, lets, LetName(bindings[id]), id)
  }

  ghost predicate Renders(nodes: seq<Term>, lets: seq<Rendered>, r: Rendered, id: TermId)
    requires Closed(nodes) && id < |nodes| && Ordered(lets)
  {
    NamesBelow(r, |lets|) && Unfold(lets, r) == ToExpr(nodes, id)
  }

  ghost predicate RendersAll(nodes: seq<Term>, lets: seq<Rendered>, rs: seq<Rendered>, ids: seq<TermId>)
    requires Closed(nodes) && Ordered(lets)
  {
    |rs| <= |ids| && forall k :: 0 <= k < |rs| ==> ids[k] < |nodes| && Renders(nodes, lets, rs[k], ids[k])
  }

  lemma {:induction false} RendersStable(nodes: seq<Term>, before: seq<Rendered>, lets: seq<Rendered>, r: Rendered, id: TermId)
    requires Closed(nodes) && id < |nodes| && Ordered(before) && Ordered(lets) && before <= lets && Renders(nodes, before, r, id)
    ensures Renders(nodes, lets, r, id)
  {
    UnfoldStable(lets, |before|, r);
    assert lets[..|before|] == before;
  }

  lemma {:induction false} RendersAllStable(nodes: seq<Term>, before: seq<Rendered>, lets: seq<Rendered>, rs: seq<Rendered>, ids: seq<TermId>)
    requires Closed(nodes) && Ordered(before) && Ordered(lets) && before <= lets && RendersAll(nodes, before, rs, ids)
    ensures RendersAll(nodes, lets, rs, ids)
  {
    forall k | 0 <= k < |rs| ensures Renders(nodes, lets, rs[k], ids[k]) {
      RendersStable(nodes, before, lets, rs[k], ids[k]);
    }
  }

  lemma {:induction false} BindKeepsSound(nodes: seq<Term>, lets: seq<Rendered>, bindings: map<TermId, nat>, id: TermId, r: Rendered)
    requires Closed(nodes) && id < |nodes| && id !in bindings && Sound(nodes, lets, bindings) && Renders(nodes, lets, r, id)
    ensures Sound(nodes, lets + [r], bindings[id := |lets|])
  {
    var after := lets + [r];
    forall i | 0 <= i < |after| ensures NamesBelow(after[i], i) {
      assert i < |lets| ==> after[i] == lets[i];
    }
    assert after[..|lets|] == lets;
    var now := bindings[id := |lets|];
    forall k | k in now ensures Renders(nodes, after, LetName(now[k]), k) {
      if k != id { RendersStable(nodes, lets, after, LetName(bindings[k]), k); }
    }
  }

  // ---------------------------------------------------------------- which terms get a name

  // All terms below `id` that should have a name have one.
  ghost predicate Complete(nodes: seq<Term>, want: iset<TermId>, id: TermId, named: set<TermId>)
    requires Closed(nodes) && id < |nodes|
  {
    forall d :: Reaches(nodes, id, d) && d != id && d in want ==> d in named
  }

  ghost predicate Covered(nodes: seq<Term>, want: iset<TermId>, named: set<TermId>)
    requires Closed(nodes)
  {
    && (forall b :: b in named ==> b < |nodes|)
    && (forall b {:trigger Complete(nodes, want, b, named)} :: b in named ==> b < |nodes| && Complete(nodes, want, b, named))
  }

  // Names have been given to terms from `id` on that should have one, and not before those below had theirs.
  ghost predicate Named(nodes: seq<Term>, want: iset<TermId>, id: TermId, was: set<TermId>, named: set<TermId>)
    requires Closed(nodes) && id < |nodes|
  {
    && was <= named && Covered(nodes, want, named)
    && forall k :: k in named && k !in was ==> Reaches(nodes, id, k) && k in want
  }

  ghost predicate AllDone(nodes: seq<Term>, want: iset<TermId>, args: seq<TermId>, named: set<TermId>)
    requires Closed(nodes)
  {
    forall a :: a in args ==> a < |nodes| && Complete(nodes, want, a, named) && (a in want ==> a in named)
  }

  lemma {:induction false} NamesBehindChild(nodes: seq<Term>, want: iset<TermId>, id: TermId, i: nat,
                                            before: set<TermId>, was: set<TermId>, named: set<TermId>)
    requires Closed(nodes) && id < |nodes| && i < |Args(nodes[id])| && Child(nodes, id, i)
    requires Named(nodes, want, id, before, was) && AllDone(nodes, want, Args(nodes[id])[..i], was)
    requires var c := Args(nodes[id])[i];
      Named(nodes, want, c, was, named) && Complete(nodes, want, c, named) && (c in want ==> c in named)
    ensures Named(nodes, want, id, before, named) && AllDone(nodes, want, Args(nodes[id])[..i + 1], named)
  {
    var args := Args(nodes[id]);
    assert args[..i + 1] == args[..i] + [args[i]];
    forall k | k in named && k !in before ensures Reaches(nodes, id, k) && k in want {
      if k !in was { assert Reaches(nodes, args[i], k); }
    }
  }

  lemma {:induction false} ChildrenComplete(nodes: seq<Term>, want: iset<TermId>, id: TermId, named: set<TermId>)
    requires Closed(nodes) && id < |nodes| && AllDone(nodes, want, Args(nodes[id]), named)
    ensures Complete(nodes, want, id, named)
  {
    forall d | Reaches(nodes, id, d) && d != id && d in want ensures d in named {
      var k :| 0 <= k < |Args(nodes[id])| && Child(nodes, id, k) && Reaches(nodes, Args(nodes[id])[k], d);
      assert Args(nodes[id])[k] in Args(nodes[id]);
    }
  }

  lemma {:induction false} NameItself(nodes: seq<Term>, want: iset<TermId>, id: TermId, was: set<TermId>, named: set<TermId>)
    requires Closed(nodes) && id < |nodes| && id in want && Named(nodes, want, id, was, named) && Complete(nodes, want, id, named)
    ensures Named(nodes, want, id, was, named + {id}) && Complete(nodes, want, id, named + {id})
  {
    forall b | b in named + {id} ensures Complete(nodes, want, b, named + {id}) {
      assert b in named ==> Complete(nodes, want, b, named);
    }
  }

  lemma {:induction false} HasName(nodes: seq<Term>, lets: seq<Rendered>, bindings: map<TermId, nat>, want: iset<TermId>, id: TermId)
    requires Closed(nodes) && id < |nodes| && id in bindings && Sound(nodes, lets, bindings) && Covered(nodes, want, bindings.Keys)
    ensures Renders(nodes, lets, LetName(bindings[id]), id)
    ensures Named(nodes, want, id, bindings.Keys, bindings.Keys) && Complete(nodes, want, id, bindings.Keys)
  {}

  class RenderContext {
    const refCounts: map<TermId, nat>
    const sizes: map<TermId, nat>
    var bindings: map<TermId, nat>
    var lets: seq<Rendered>

    constructor (refCounts: map<TermId, nat>, sizes: map<TermId, nat>)
      ensures this.refCounts == refCounts && this.sizes == sizes && bindings == map[] && lets == []
    {
      this.refCounts, this.sizes, bindings, lets := refCounts, sizes, map[], [];
    }

    predicate ShouldBind(id: TermId) {
      && (if id in refCounts then refCounts[id] else 1) > 1
      && (if id in sizes then sizes[id] else 1) >= MIN_SHARED_TERM_SIZE
    }

    // What rendering may do to the context: add bindings, for ids up to the bound.
    twostate predicate Extended(bound: nat)
      reads this
    {
      && old(lets) <= lets
      && (forall k :: k in old(bindings) ==> k in bindings && bindings[k] == old(bindings)[k])
      && (forall k :: k in bindings ==> k in old(bindings) || k < bound)
    }

    ghost function Wanted(): iset<TermId> {
      iset x: TermId | ShouldBind(x)
    }

    // For any reference counts and sizes: substituting the emitted bindings back gives exactly the
    // term's tree, and the terms that get a name are those below, and the term itself if allowed, that
    // should have one.
    method RenderTerm(nodes: seq<Term>, id: TermId, allowBinding: bool) returns (r: Rendered)
      requires Closed(nodes) && id < |nodes| && Sound(nodes, lets, bindings) && Covered(nodes, Wanted(), bindings.Keys)
      modifies this
      ensures Sound(nodes, lets, bindings) && Extended(id + 1)
      ensures Renders(nodes, lets, r, id)
      ensures r.LetName? <==> id in bindings
      ensures id in bindings <==> id in old(bindings) || (allowBinding && ShouldBind(id))
      ensures Named(nodes, Wanted(), id, old(bindings.Keys), bindings.Keys) && Complete(nodes, Wanted(), id, bindings.Keys)
      decreases id, 2
    {
      if id in bindings {
        HasName(nodes, lets, bindings, Wanted(), id);
        return LetName(bindings[id]);
      }
      r := RenderNode(nodes, id);
      if allowBinding && ShouldBind(id) {
        r := BindNamed(nodes, id, r, old(bindings.Keys));
      }
    }

    // The same, keeping track of which terms have names.
    method BindNamed(nodes: seq<Term>, id: TermId, r: Rendered, ghost was: set<TermId>) returns (name: Rendered)
      requires Closed(nodes) && id < |nodes| && id !in bindings && Sound(nodes, lets, bindings) && Renders(nodes, lets, r, id)
      requires ShouldBind(id) && Named(nodes, Wanted(), id, was, bindings.Keys) && Complete(nodes, Wanted(), id, bindings.Keys)
      modifies this
      ensures lets == old(lets) + [r] && bindings == old(bindings)[id := |old(lets)|]
      ensures Sound(nodes, lets, bindings) && name.LetName? && Renders(nodes, lets, name, id)
      ensures Named(nodes, Wanted(), id, was, bindings.Keys) && Complete(nodes, Wanted(), id, bindings.Keys)
    {
      NameItself(nodes, Wanted(), id, was, bindings.Keys);
      name := Bind(nodes, id, r);
    }

    method Bind(nodes: seq<Term>, id: TermId, r: Rendered) returns (name: Rendered)
      requires Closed(nodes) && id < |nodes| && id !in bindings && Sound(nodes, lets, bindings) && Renders(nodes, lets, r, id)
      modifies this
      ensures lets == old(lets) + [r] && bindings == old(bindings)[id := |old(lets)|] && bindings.Keys == old(bindings.Keys) + {id}
      ensures Sound(nodes, lets, bindings) && name.LetName? && Renders(nodes, lets, name, id)
    {
      BindKeepsSound(nodes, lets, bindings, id, r);
      name := LetName(|lets|);
      bindings := bindings[id := |lets|];
      lets := lets + [r];
    }

    // The term without a name of its own.
    method RenderNode(nodes: seq<Term>, id: TermId) returns (r: Rendered)
      requires Closed(nodes) && id < |nodes| && id !in bindings && Sound(nodes, lets, bindings) && Covered(nodes, Wanted(), bindings.Keys)
      modifies this
      ensures Sound(nodes, lets, bindings) && Extended(id)
      ensures Renders(nodes, lets, r, id) && !r.LetName?
      ensures Named(nodes, Wanted(), id, old(bindings.Keys), bindings.Keys) && Complete(nodes, Wanted(), id, bindings.Keys)
      decreases id, 1
    {
      match nodes[id] {
        case Lit(s) => r := TextLit(s);
        case Var(v) => r := TextVar(v);
        case App(name, _) =>
          var parts := RenderChildren(nodes, id);
          r := TextCall(name, parts);
      }
    }

    // The next argument behind those rendered already.
    method RenderNext(nodes: seq<Term>, id: TermId, parts: seq<Rendered>, ghost before: set<TermId>) returns (more: seq<Rendered>)
      requires Closed(nodes) && id < |nodes| && nodes[id].App? && |parts| < |nodes[id].args|
      requires Sound(nodes, lets, bindings) && RendersAll(nodes, lets, parts, nodes[id].args)
      requires Named(nodes, Wanted(), id, before, bindings.Keys) && AllDone(nodes, Wanted(), nodes[id].args[..|parts|], bindings.Keys)
      modifies this
      ensures |more| == |parts| + 1 && Sound(nodes, lets, bindings) && RendersAll(nodes, lets, more, nodes[id].args)
      ensures Named(nodes, Wanted(), id, before, bindings.Keys) && AllDone(nodes, Wanted(), nodes[id].args[..|more|], bindings.Keys)
      ensures Extended(id)
      decreases id, 0, 0
    {
      var child := nodes[id].args[|parts|];
      assert Child(nodes, id, |parts|);
      ghost var texts, was := lets, bindings.Keys;
      var part := RenderTerm(nodes, child, true);
      RendersAllStable(nodes, texts, lets, parts, nodes[id].args);
      more := parts + [part];
      NamesBehindChild(nodes, Wanted(), id, |parts|, before, was, bindings.Keys);
    }

    method RenderChildren(nodes: seq<Term>, id: TermId) returns (parts: seq<Rendered>)
      requires Closed(nodes) && id < |nodes| && nodes[id].App? && Sound(nodes, lets, bindings) && Covered(nodes, Wanted(), bindings.Keys)
      modifies this
      ensures Sound(nodes, lets, bindings) && Extended(id)
      ensures Named(nodes, Wanted(), id, old(bindings.Keys), bindings.Keys) && Complete(nodes, Wanted(), id, bindings.Keys)
      ensures |parts| == |nodes[id].args| && RendersAll(nodes, lets, parts, nodes[id].args)
      decreases id, 0, 1
    {
      parts := [];
      var children := nodes[id].args;
      assert WellPlaced(nodes[id], id) && AllBelow(children, id);
      for i := 0 to |children|
        invariant Sound(nodes, lets, bindings) && Extended(id)
        invariant Named(nodes, Wanted(), id, old(bindings.Keys), bindings.Keys)
        invariant AllDone(nodes, Wanted(), children[..i], bindings.Keys)
        invariant |parts| == i && RendersAll(nodes, lets, parts, children)
      {
        parts := RenderNext(nodes, id, parts, old(bindings.Keys));
      }
      assert children[..|children|] == children;
      ChildrenComplete(nodes, Wanted(), id, bindings.Keys);
    }
  }

  // The printed term is nowhere below itself.
  lemma {:induction false} RootIsReferencedOnce(nodes: seq<Term>, root: TermId, n: nat)
    requires Closed(nodes) && root < |nodes| && n <= |nodes|
    ensures References(nodes, Below(nodes, root), root, n) == 0
  {
    if n > 0 {
      RootIsReferencedOnce(nodes, root, n - 1);
      if n - 1 in Below(nodes, root) {
        ReachedIsSmaller(nodes, root, n - 1);
        assert WellPlaced(nodes[n - 1], n - 1);
        assert root !in Args(nodes[n - 1]);
      }
    }
  }

  // Printing with let bindings: names go exactly to the terms that the printed term refers to more than
  // once and whose trees have at least four nodes, and substituting the bindings back gives the tree.
  method ToStringWithLet(nodes: seq<Term>, id: TermId) returns (lets: seq<Rendered>, r: Rendered, names: map<TermId, nat>)
    requires Closed(nodes) && id < |nodes|
    ensures Sound(nodes, lets, names) && Renders(nodes, lets, r, id)
    ensures forall x: TermId :: x in names <==>
      x < |nodes| && Reaches(nodes, id, x) && ReferencesFrom(nodes, id, x) > 1 && Size(ToExpr(nodes, x)) >= 4
  {
    var stats := new TermStats(nodes);
    stats.Collect(id);
    var ctx := new RenderContext(stats.counts, stats.sizes);
    forall x: TermId | x < |nodes| && Reaches(nodes, id, x)
      ensures ctx.ShouldBind(x) <==> ReferencesFrom(nodes, id, x) > 1 && Size(ToExpr(nodes, x)) >= MIN_SHARED_TERM_SIZE
    {
      assert stats.Times(x) == ReferencesFrom(nodes, id, x);
      TreeSizeIs(nodes, x);
    }
    RootIsReferencedOnce(nodes, id, |nodes|);
    r := ctx.RenderTerm(nodes, id, false);
    forall x | x in ctx.bindings ensures x < |nodes| && Reaches(nodes, id, x) {
      ReachedIsSmaller(nodes, id, x);
    }
    lets, names := ctx.lets, ctx.bindings;
  }
}
