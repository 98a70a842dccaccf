// The representative that extraction looks up for a value, in each of the ways a union-find is kept.
module CanonicalModel {
  import opened UnionFindMerge

  datatype UnionFind =
    | Absent
    | Native(leader: map<Id, Id>)       // values to their leaders; leaders have no row
    | SelfMerging(parent: map<Id, Id>)  // values to their parents, by the table's own merge
    | Edges(rows: seq<Row>)             // pairs of a value and its leader, in the order they are visited

  // The walk over parents is bounded.
  const MAX_HOPS := 64

  function Chase(parent: map<Id, Id>, x: Id, n: nat): Id
    decreases n
  {
    if n == 0 || x !in parent || parent[x] == x then x else Chase(parent, parent[x], n - 1)
  }

  function LastPartner(rows: seq<Row>, x: Id): Id {
    if rows == [] then x
    else if rows[|rows| - 1].0 == x then rows[|rows| - 1].1
    else LastPartner(rows[..|rows| - 1], x)
  }

  function Canonical(uf: UnionFind, x: Id): Id {
    match uf
    case Absent => x
    case Native(leader) => if x in leader then leader[x] else x
    case SelfMerging(parent) => Chase(parent, x, MAX_HOPS)
    case Edges(rows) => LastPartner(rows, x)
  }

  method FindCanonical(uf: UnionFind, value: Id) returns (canonical: Id)
    ensures canonical == Canonical(uf, value)
  {
    canonical := value;
    match uf {
      case Absent =>
      case Native(leader) =>
        if value in leader { canonical := leader[value]; }
      case SelfMerging(parent) =>
        for i := 0 to MAX_HOPS
          invariant Chase(parent, canonical, MAX_HOPS - i) == Chase(parent, value, MAX_HOPS)
        {
          if canonical !in parent || parent[canonical] == canonical { break; }
          canonical := parent[canonical];
        }
      case Edges(rows) =>
        for i := 0 to |rows|
          invariant canonical == LastPartner(rows[..i], value)
        {
          assert rows[..i + 1][..i] == rows[..i];
          if rows[i].0 == value { canonical := rows[i].1; }
        }
        assert rows[..|rows|] == rows;
    }
  }

  // ---------------------------------------------------------------- when it is the root

  // How many rows lie between an id and its root.
  ghost function Hops(rows: map<Id, Id>, x: Id): nat
    requires Descending(rows)
  {
    if x in rows then 1 + Hops(rows, rows[x]) else 0
  }

  lemma {:induction false} ChaseReachesRootIff(rows: map<Id, Id>, x: Id, n: nat)
    requires Descending(rows)
    ensures Chase(rows, x, n) == Root(rows, x) <==> Hops(rows, x) <= n
  {
    if x in rows {
      RootFacts(rows, x);
      if n > 0 { ChaseReachesRootIff(rows, rows[x], n - 1); }
    }
  }

  // The tables stand for the parents: a native one and one of edges hold the leaders themselves.
  ghost predicate StandsFor(uf: UnionFind, rows: map<Id, Id>) {
    Descending(rows) &&
    match uf
    case Absent => rows == map[]
    case Native(leader) => leader.Keys == rows.Keys && forall x :: x in rows ==> leader[x] == Root(rows, x)
    case SelfMerging(parent) => parent == rows
    case Edges(es) => (forall e :: e in es ==> e.0 in rows && e.1 == Root(rows, e.0)) && (forall x :: x in rows ==> exists r :: (x, r) in es)
  }

  lemma {:induction false} LastPartnerIs(es: seq<Row>, x: Id, r: Id)
    requires forall e :: e in es && e.0 == x ==> e.1 == r
    ensures LastPartner(es, x) == if exists e :: e in es && e.0 == x then r else x
  {
    if es != [] {
      var n := |es| - 1;
      assert es == es[..n] + [es[n]];
      if es[n].0 != x { LastPartnerIs(es[..n], x, r); }
    }
  }

  // The lookup finds the root exactly when a walk over parents need not be longer than its bound.
  lemma {:induction false} CanonicalIsRootIff(uf: UnionFind, rows: map<Id, Id>, x: Id)
    requires StandsFor(uf, rows)
    ensures Canonical(uf, x) == Root(rows, x) <==> (uf.SelfMerging? ==> Hops(rows, x) <= 64)
  {
    match uf
    case SelfMerging(_) => ChaseReachesRootIff(rows, x, MAX_HOPS);
    case Edges(es) =>
      LastPartnerIs(es, x, Root(rows, x));
      if x in rows {
        var r :| (x, r) in es;
      }
    case _ =>
  }

  // Then equal values have one representative, and it is the least of them.
  lemma {:induction false} CanonicalSeparates(uf: UnionFind, rows: map<Id, Id>, a: Id, b: Id)
    requires StandsFor(uf, rows) && (uf.SelfMerging? ==> Hops(rows, a) <= 64 && Hops(rows, b) <= 64)
    ensures Canonical(uf, a) == Canonical(uf, b) <==> Same(rows, [], a, b)
    ensures Same(rows, [], a, b) ==> Canonical(uf, a) <= b
  {
    CanonicalIsRootIff(uf, rows, a);
    CanonicalIsRootIff(uf, rows, b);
    SameIffSameRoot(rows, a, b);
    if Same(rows, [], a, b) { RootIsMinimum(rows, a, b); }
  }

  // A chain of more rows than the bound, on which the lookup stops short.
  function Chain(n: nat): (rows: map<Id, Id>)
    ensures forall k :: k in rows <==> 0 < k <= n
    ensures forall k :: k in rows ==> rows[k] == k - 1
  {
    if n == 0 then map[] else Chain(n - 1)[n := n - 1]
  }

  lemma {:induction false} ChainIsDeep(n: nat, x: Id)
    requires x <= n
    ensures Hops(Chain(n), x) == x
  {
    if x > 0 { ChainIsDeep(n, x - 1); }
  }

  lemma {:induction false} LongChainStopsShort()
    ensures var rows := Chain(65);
      StandsFor(SelfMerging(rows), rows) && Canonical(SelfMerging(rows), 65) != Root(rows, 65)
  {
    var rows := Chain(65);
    ChainIsDeep(65, 65);
    CanonicalIsRootIff(SelfMerging(rows), rows, 65);
  }
}
