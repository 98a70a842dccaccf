// What printing with let bindings counts first: how often each term of the printed graph is referred to,
// and how large its tree is. Each term is visited once, and its size is kept.
// Counting goes down from the printed term, so other terms of the arena do not matter.
module TermStatsModel {
  import opened TermDagModel

  function Args(t: Term): seq<TermId> {
    if t.App? then t.args else []
  }

  // `b` is `a` or below it.
  ghost predicate Reaches(nodes: seq<Term>, a: TermId, b: TermId)
    requires Closed(nodes) && a < |nodes|
    decreases a
  {
    a == b || exists k :: 0 <= k < |Args(nodes[a])| && Child(nodes, a, k) && Reaches(nodes, Args(nodes[a])[k], b)
  }

  predicate Child(nodes: seq<Term>, a: TermId, k: nat)
    requires Closed(nodes) && a < |nodes| && k < |Args(nodes[a])|
    ensures Child(nodes, a, k) && Args(nodes[a])[k] < a
  {
    assert WellPlaced(nodes[a], a);
    Args(nodes[a])[k] < a
  }

  lemma {:induction false} ReachesTrans(nodes: seq<Term>, a: TermId, b: TermId, c: TermId)
    requires Closed(nodes) && a < |nodes| && b < |nodes| && Reaches(nodes, a, b) && Reaches(nodes, b, c)
    ensures Reaches(nodes, a, c)
    decreases a
  {
    if a != b {
      var k :| 0 <= k < |Args(nodes[a])| && Child(nodes, a, k) && Reaches(nodes, Args(nodes[a])[k], b);
      ReachesTrans(nodes, Args(nodes[a])[k], b, c);
    }
  }

  lemma {:induction false} ReachedIsSmaller(nodes: seq<Term>, a: TermId, b: TermId)
    requires Closed(nodes) && a < |nodes| && Reaches(nodes, a, b)
    ensures b <= a
    decreases a
  {
    if a != b {
      var k :| 0 <= k < |Args(nodes[a])| && Child(nodes, a, k) && Reaches(nodes, Args(nodes[a])[k], b);
      ReachedIsSmaller(nodes, Args(nodes[a])[k], b);
    }
  }

  predicate ArgsIn(args: seq<TermId>, s: set<TermId>) {
    forall a :: a in args ==> a in s
  }

  ghost predicate ArgumentClosed(nodes: seq<Term>, s: set<TermId>) {
    && (forall n :: n in s ==> n < |nodes|)
    && (forall n {:trigger ArgsIn(Args(nodes[n]), s)} :: n in s ==> n < |nodes| && ArgsIn(Args(nodes[n]), s))
  }

  lemma {:induction false} AddArgumentClosed(nodes: seq<Term>, s: set<TermId>, id: TermId)
    requires ArgumentClosed(nodes, s) && id < |nodes| && ArgsIn(Args(nodes[id]), s)
    ensures ArgumentClosed(nodes, s + {id})
  {
    forall n | n in s + {id} ensures ArgsIn(Args(nodes[n]), s + {id}) {
      assert n in s ==> ArgsIn(Args(nodes[n]), s);
    }
  }

  lemma {:induction false} ClosedSetReaches(nodes: seq<Term>, s: set<TermId>, a: TermId, b: TermId)
    requires Closed(nodes) && a < |nodes| && a in s && Reaches(nodes, a, b)
    requires ArgumentClosed(nodes, s)
    ensures b in s
    decreases a
  {
    if a != b {
      assert ArgsIn(Args(nodes[a]), s);
      var k :| 0 <= k < |Args(nodes[a])| && Child(nodes, a, k) && Reaches(nodes, Args(nodes[a])[k], b);
      ClosedSetReaches(nodes, s, Args(nodes[a])[k], b);
    }
  }

  // How often `x` is an argument of the members of `s` below `n`.
  function References(nodes: seq<Term>, s: set<TermId>, x: TermId, n: nat): nat
    requires n <= |nodes|
  {
    if n == 0 then 0
    else References(nodes, s, x, n - 1) + (if n - 1 in s then multiset(Args(nodes[n - 1]))[x] else 0)
  }

  lemma {:induction false} ReferencesOfOneMore(nodes: seq<Term>, s: set<TermId>, m: TermId, x: TermId, n: nat)
    requires n <= |nodes| && m !in s && m < |nodes|
    ensures References(nodes, s + {m}, x, n) == References(nodes, s, x, n) + (if m < n then multiset(Args(nodes[m]))[x] else 0)
  {
    if n > 0 { ReferencesOfOneMore(nodes, s, m, x, n - 1); }
  }

  // The nodes of a tree.
  function Size(e: Expr): nat
    decreases e, 0
  {
    match e
    case Call(_, args) => 1 + SizeAll(args)
    case _ => 1
  }

  function SizeAll(es: seq<Expr>): nat
    decreases es, 1
  {
    if es == [] then 0 else SizeAll(es[..|es| - 1]) + Size(es[|es| - 1])
  }

  function TreeSize(nodes: seq<Term>, id: TermId): nat
    requires Closed(nodes) && id < |nodes|
    decreases id, 1, 0
  {
    1 + ArgumentsSize(nodes, id, |Args(nodes[id])|)
  }

  // The sizes of the first `i` arguments together.
  function ArgumentsSize(nodes: seq<Term>, id: TermId, i: nat): nat
    requires Closed(nodes) && id < |nodes| && i <= |Args(nodes[id])|
    decreases id, 0, i
  {
    if i == 0 then 0
    else assert Child(nodes, id, i - 1); ArgumentsSize(nodes, id, i - 1) + TreeSize(nodes, Args(nodes[id])[i - 1])
  }

  // It is the size of the tree the id stands for.
  lemma {:induction false} TreeSizeIs(nodes: seq<Term>, id: TermId)
    requires Closed(nodes) && id < |nodes|
    ensures TreeSize(nodes, id) == Size(ToExpr(nodes, id))
    decreases id, 1, 0
  {
    if nodes[id].App? {
      ArgumentsSizeIs(nodes, id, |nodes[id].args|);
      var es := ToExprs(nodes, nodes[id].args, id);
      assert es[..|nodes[id].args|] == es;
    }
  }

  lemma {:induction false} ArgumentsSizeIs(nodes: seq<Term>, id: TermId, i: nat)
    requires Closed(nodes) && id < |nodes| && nodes[id].App? && i <= |nodes[id].args|
    ensures AllBelow(nodes[id].args, id) && ArgumentsSize(nodes, id, i) == SizeAll(ToExprs(nodes, nodes[id].args, id)[..i])
    decreases id, 0, i
  {
    assert WellPlaced(nodes[id], id);
    var es := ToExprs(nodes, nodes[id].args, id);
    if i > 0 {
      ArgumentsSizeIs(nodes, id, i - 1);
      TreeSizeIs(nodes, nodes[id].args[i - 1]);
      assert es[..i][..i - 1] == es[..i - 1];
    }
  }

  // What the counts of a printed term are: references from the terms below it, and one for itself.
  ghost function ReferencesFrom(nodes: seq<Term>, root: TermId, x: TermId): nat
    requires Closed(nodes) && root < |nodes|
  {
    References(nodes, Below(nodes, root), x, |nodes|) + (if x == root then 1 else 0)
  }

  ghost function Below(nodes: seq<Term>, root: TermId): set<TermId>
    requires Closed(nodes) && root < |nodes|
  {
    set n: TermId | n < |nodes| && Reaches(nodes, root, n)
  }

  class TermStats {
    const nodes: seq<Term>
    var counts: map<TermId, nat>
    var visited: set<TermId>
    var sizes: map<TermId, nat>

    constructor (nodes: seq<Term>)
      ensures this.nodes == nodes && counts == map[] && visited == {} && sizes == map[]
    {
      this.nodes, counts, visited, sizes := nodes, map[], {}, map[];
    }

    function Times(x: TermId): nat
      reads this`counts
    {
      if x in counts then counts[x] else 0
    }

    // What has been counted beyond the arguments of visited terms.
    function Surplus(x: TermId): int
      reads this`counts, this`visited
    {
      Times(x) - References(nodes, visited, x, |nodes|)
    }

    // What a visit of `id` has added: terms below it, with their arguments.
    ghost predicate Added(was: set<TermId>, id: TermId)
      requires Closed(nodes) && id < |nodes|
      reads this`visited
    {
      was <= visited && forall n :: n in visited && n !in was ==> n < |nodes| && Reaches(nodes, id, n) && ArgsIn(Args(nodes[n]), visited)
    }

    method CountReferences(id: TermId)
      requires Closed(nodes) && id < |nodes|
      modifies this`counts, this`visited
      ensures Added(old(visited), id) && id in visited
      ensures forall x :: Surplus(x) == old(Surplus(x)) + (if x == id then 1 else 0)
      decreases id, 1
    {
      counts := counts[id := Times(id) + 1];
      if id in visited { return; }
      forall x ensures References(nodes, visited + {id}, x, |nodes|) == References(nodes, visited, x, |nodes|) + multiset(Args(nodes[id]))[x] {
        ReferencesOfOneMore(nodes, visited, id, x, |nodes|);
      }
      visited := visited + {id};
      CountArguments(id);
    }

    method CountArguments(id: TermId)
      requires Closed(nodes) && id < |nodes| && id in visited
      modifies this`counts, this`visited
      ensures Added(old(visited), id) && ArgsIn(Args(nodes[id]), visited)
      ensures forall x :: Surplus(x) == old(Surplus(x)) + multiset(Args(nodes[id]))[x]
      decreases id, 0
    {
      var args := Args(nodes[id]);
      for i := 0 to |args|
        invariant Added(old(visited), id) && ArgsIn(args[..i], visited)
        invariant forall x :: Surplus(x) == old(Surplus(x)) + multiset(args[..i])[x]
      {
        ghost var was := visited;
        assert Child(nodes, id, i);
        CountReferences(args[i]);
        assert args[..i + 1] == args[..i] + [args[i]];
        AddedBelow(old(visited), was, id, i);
      }
      assert args[..|args|] == args;
    }

    lemma {:induction false} AddedBelow(before: set<TermId>, was: set<TermId>, id: TermId, i: nat)
      requires Closed(nodes) && id < |nodes| && i < |Args(nodes[id])| && Child(nodes, id, i)
      requires before <= was && Added(was, Args(nodes[id])[i])
      requires forall n :: n in was && n !in before ==> n < |nodes| && Reaches(nodes, id, n) && ArgsIn(Args(nodes[n]), was)
      ensures Added(before, id)
    {}

    ghost predicate SizesOk()
      requires Closed(nodes)
      reads this`sizes
    {
      && (forall x {:trigger sizes[x]} :: x in sizes ==> x < |nodes| && sizes[x] == TreeSize(nodes, x))
      && ArgumentClosed(nodes, sizes.Keys)
    }

    method ComputeSize(id: TermId) returns (size: nat)
      requires Closed(nodes) && id < |nodes| && SizesOk()
      modifies this`sizes
      ensures SizesOk() && size == TreeSize(nodes, id) && id in sizes && old(sizes.Keys) <= sizes.Keys
      decreases id, 1
    {
      if id in sizes { return sizes[id]; }
      var total := ArgumentSizes(id);
      size := 1 + total;
      AddArgumentClosed(nodes, sizes.Keys, id);
      assert sizes[id := size].Keys == sizes.Keys + {id};
      sizes := sizes[id := size];
    }

    method ArgumentSizes(id: TermId) returns (total: nat)
      requires Closed(nodes) && id < |nodes| && SizesOk()
      modifies this`sizes
      ensures SizesOk() && total == ArgumentsSize(nodes, id, |Args(nodes[id])|)
      ensures old(sizes.Keys) <= sizes.Keys && ArgsIn(Args(nodes[id]), sizes.Keys)
      decreases id, 0
    {
      total := 0;
      var args := Args(nodes[id]);
      for i := 0 to |args|
        invariant SizesOk() && old(sizes.Keys) <= sizes.Keys && total == ArgumentsSize(nodes, id, i)
        invariant ArgsIn(args[..i], sizes.Keys)
      {
        assert Child(nodes, id, i);
        var part := ComputeSize(args[i]);
        total := total + part;
        assert args[..i + 1] == args[..i] + [args[i]];
      }
      assert args[..|args|] == args;
    }

    // Counts and sizes are exact, and there are some for just the terms that are printed.
    method Collect(id: TermId)
      requires Closed(nodes) && id < |nodes| && counts == map[] && visited == {} && sizes == map[]
      modifies this
      ensures forall x :: Times(x) == ReferencesFrom(nodes, id, x)
      ensures forall x: TermId :: x < |nodes| && Reaches(nodes, id, x) ==> x in sizes && sizes[x] == TreeSize(nodes, x)
    {
      forall x ensures References(nodes, {}, x, |nodes|) == 0 { NoReferences(nodes, x, |nodes|); }
      assert forall x :: Surplus(x) == 0;
      CountReferences(id);
      forall n: TermId ensures n in visited <==> n in Below(nodes, id) {
        if n in Below(nodes, id) { ClosedSetReaches(nodes, visited, id, n); }
      }
      assert visited == Below(nodes, id);
      forall x ensures Times(x) == ReferencesFrom(nodes, id, x) { assert Surplus(x) == (if x == id then 1 else 0); }
      var size := ComputeSize(id);
      forall x: TermId | x < |nodes| && Reaches(nodes, id, x) ensures x in sizes {
        ClosedSetReaches(nodes, sizes.Keys, id, x);
      }
    }
  }

  lemma {:induction false} NoReferences(nodes: seq<Term>, x: TermId, n: nat)
    requires n <= |nodes|
    ensures References(nodes, {}, x, n) == 0
  {
    if n > 0 { NoReferences(nodes, x, n - 1); }
  }
}
