// The union-find kept in one table whose own merge unions the two parents of a conflicting row.
module UnionFindMerge {
  type Id = nat

  // A row `(key, value)`.
  type Row = (Id, Id)

  // ---------------------------------------------------------------- the merge expression

  datatype MergeFn =
    | Old
    | New
    | OrderingMin(a: MergeFn, b: MergeFn)
    | OrderingMax(a: MergeFn, b: MergeFn)
    | IfEq(a: MergeFn, b: MergeFn, same: MergeFn, different: MergeFn)
    | InsertThen(key: MergeFn, value: MergeFn, result: MergeFn)

  datatype Merged = Merged(value: Id, inserts: seq<Row>)

  function Evaluate(m: MergeFn, before: Id, after: Id): Merged {
    match m
    case Old => Merged(before, [])
    case New => Merged(after, [])
    case OrderingMin(a, b) =>
      var x, y := Evaluate(a, before, after), Evaluate(b, before, after);
      Merged(if x.value <= y.value then x.value else y.value, x.inserts + y.inserts)
    case OrderingMax(a, b) =>
      var x, y := Evaluate(a, before, after), Evaluate(b, before, after);
      Merged(if x.value <= y.value then y.value else x.value, x.inserts + y.inserts)
    case IfEq(a, b, t, e) =>
      if Evaluate(a, before, after).value == Evaluate(b, before, after).value then Evaluate(t, before, after) else Evaluate(e, before, after)
    case InsertThen(k, v, r) =>
      var x, y, z := Evaluate(k, before, after), Evaluate(v, before, after), Evaluate(r, before, after);
      Merged(z.value, x.inserts + y.inserts + [(x.value, y.value)] + z.inserts)
  }

  // Equal values are left alone; otherwise the larger is unioned with the smaller, which survives.
  const SELF_MERGE: MergeFn :=
    var min := OrderingMin(Old, New);
    IfEq(Old, New, Old, InsertThen(OrderingMax(Old, New), min, min))

  lemma {:induction false} SelfMergeMeaning(a: Id, b: Id)
    ensures var r := Evaluate(SELF_MERGE, a, b);
      && (r.value == a || r.value == b) && r.value <= a && r.value <= b
      && (a == b ==> r.inserts == [])
      && (a != b ==> exists hi :: r.inserts == [(hi, r.value)] && (hi == a || hi == b) && r.value < hi)
  {
    var r := Evaluate(SELF_MERGE, a, b);
    var min, max := OrderingMin(Old, New), OrderingMax(Old, New);
    assert Evaluate(Old, a, b) == Merged(a, []) && Evaluate(New, a, b) == Merged(b, []);
    assert Evaluate(min, a, b) == Merged(if a <= b then a else b, []);
    assert Evaluate(max, a, b) == Merged(if a <= b then b else a, []);
    assert Evaluate(InsertThen(max, min, min), a, b).value == Evaluate(min, a, b).value;
    assert Evaluate(InsertThen(max, min, min), a, b).inserts == [(Evaluate(max, a, b).value, Evaluate(min, a, b).value)];
    assert r == if a == b then Evaluate(Old, a, b) else Evaluate(InsertThen(max, min, min), a, b);
  }

  // ---------------------------------------------------------------- equivalence

  // A set that does not separate the two ends of any row or pending row.
  ghost predicate Saturated(rows: map<Id, Id>, pending: seq<Row>, s: iset<Id>) {
    && (forall k :: k in rows ==> (k in s <==> rows[k] in s))
    && (forall p :: p in pending ==> (p.0 in s <==> p.1 in s))
  }

  // The equivalence closure: ids that no saturated set separates.
  ghost predicate Same(rows: map<Id, Id>, pending: seq<Row>, a: Id, b: Id) {
    forall s :: Saturated(rows, pending, s) ==> (a in s <==> b in s)
  }

  ghost predicate IsEquivalence(e: (Id, Id) -> bool) {
    && (forall a :: e(a, a))
    && (forall a, b :: e(a, b) ==> e(b, a))
    && (forall a, b, c :: e(a, b) && e(b, c) ==> e(a, c))
  }

  // `Same` is the least equivalence relation that contains the rows and the pending rows.
  lemma {:induction false} SameIsLeastEquivalence(rows: map<Id, Id>, pending: seq<Row>, e: (Id, Id) -> bool, a: Id, b: Id)
    requires IsEquivalence(e)
    requires forall k :: k in rows ==> e(k, rows[k])
    requires forall p :: p in pending ==> e(p.0, p.1)
    ensures Same(rows, pending, a, b) ==> e(a, b)
    ensures Same(rows, pending, a, a)
    ensures Same(rows, pending, a, b) ==> Same(rows, pending, b, a)
    ensures forall c :: Same(rows, pending, a, b) && Same(rows, pending, b, c) ==> Same(rows, pending, a, c)
    ensures a in rows ==> Same(rows, pending, a, rows[a])
    ensures forall p :: p in pending ==> Same(rows, pending, p.0, p.1)
  {
    var s := iset x | e(a, x);
    assert Saturated(rows, pending, s);
  }

  // ---------------------------------------------------------------- roots

  ghost predicate Descending(rows: map<Id, Id>) {
    forall k :: k in rows ==> rows[k] < k
  }

  // Chasing parents until there is none.
  ghost function Root(rows: map<Id, Id>, x: Id): Id
    requires Descending(rows)
  {
    if x in rows then Root(rows, rows[x]) else x
  }

  lemma {:induction false} RootFacts(rows: map<Id, Id>, x: Id)
    requires Descending(rows)
    ensures Root(rows, x) <= x && Root(rows, x) !in rows && Same(rows, [], x, Root(rows, x))
  {
    if x in rows { RootFacts(rows, rows[x]); }
  }

  // With nothing pending, equivalence is having the same root.
  lemma {:induction false} SameIffSameRoot(rows: map<Id, Id>, a: Id, b: Id)
    requires Descending(rows)
    ensures Same(rows, [], a, b) <==> Root(rows, a) == Root(rows, b)
  {
    RootFacts(rows, a);
    RootFacts(rows, b);
    if Same(rows, [], a, b) {
      var s := iset x | Root(rows, x) == Root(rows, a);
      assert Saturated(rows, [], s);
    }
  }

  // The root of an id is the least id equivalent to it.
  lemma {:induction false} RootIsMinimum(rows: map<Id, Id>, a: Id, b: Id)
    requires Descending(rows) && Same(rows, [], a, b)
    ensures Root(rows, a) <= b
  {
    SameIffSameRoot(rows, a, b);
    RootFacts(rows, b);
  }

  // Tables that represent the same relation have the same roots, however they were built.
  lemma {:induction false} RootsAreDetermined(rows: map<Id, Id>, rows': map<Id, Id>, x: Id)
    requires Descending(rows) && Descending(rows')
    requires forall a, b :: Same(rows, [], a, b) <==> Same(rows', [], a, b)
    ensures Root(rows, x) == Root(rows', x)
  {
    RootFacts(rows, x);
    RootFacts(rows', x);
    assert Same(rows, [], x, Root(rows', x)) && Same(rows', [], x, Root(rows, x));
    RootIsMinimum(rows, x, Root(rows', x));
    RootIsMinimum(rows', x, Root(rows, x));
  }

  // ---------------------------------------------------------------- one insertion

  ghost predicate AllDescending(pending: seq<Row>) {
    forall p :: p in pending ==> p.1 < p.0
  }

  function Without(pending: seq<Row>, i: nat): seq<Row>
    requires i < |pending|
  {
    pending[..i] + pending[i + 1..]
  }

  // Replacing `k ~ old` and `k ~ new` by `k ~ min` and `max ~ min` separates nothing new.
  lemma {:induction false} InsertKeepsSaturation(rows: map<Id, Id>, pending: seq<Row>, i: nat, s: iset<Id>)
    requires i < |pending|
    ensures var (k, v) := pending[i]; var rest := Without(pending, i);
      if k !in rows then Saturated(rows[k := v], rest, s) <==> Saturated(rows, pending, s)
      else
        var m := Evaluate(SELF_MERGE, rows[k], v);
        Saturated(rows[k := m.value], rest + m.inserts, s) <==> Saturated(rows, pending, s)
  {
    var (k, v) := pending[i];
    var rest := Without(pending, i);
    if k !in rows {
      var rows' := rows[k := v];
      assert rows'[k] == v && forall x :: x in rows ==> rows'[x] == rows[x];
      assert Saturated(rows', rest, s) ==> (k in s <==> rows'[k] in s);
      assert Saturated(rows, pending, s) ==> (pending[i].0 in s <==> pending[i].1 in s);
    } else {
      var m := Evaluate(SELF_MERGE, rows[k], v);
      SelfMergeMeaning(rows[k], v);
      var rows' := rows[k := m.value];
      assert forall x :: x in rows && x != k ==> rows'[x] == rows[x];
      assert forall p :: p in rest + m.inserts <==> p in rest || p in m.inserts;
      if Saturated(rows', rest + m.inserts, s) {
        assert k in rows' && rows'[k] == m.value;
        if rows[k] != v {
          var hi :| m.inserts == [(hi, m.value)] && (hi == rows[k] || hi == v) && m.value < hi;
          assert (hi, m.value) in m.inserts;
        }
      }
    }
  }

  // Summed keys, one added to each: every insertion lowers it.
  ghost function Weight(pending: seq<Row>): nat {
    if pending == [] then 0 else pending[0].0 + 1 + Weight(pending[1..])
  }

  lemma {:induction false} WeightConcat(a: seq<Row>, b: seq<Row>)
    ensures Weight(a + b) == Weight(a) + Weight(b)
  {
    if a == [] { assert a + b == b; }
    else {
      WeightConcat(a[1..], b);
      assert (a + b)[1..] == a[1..] + b;
    }
  }

  lemma {:induction false} WeightWithout(pending: seq<Row>, i: nat)
    requires i < |pending|
    ensures Weight(pending) == Weight(Without(pending, i)) + pending[i].0 + 1
  {
    WeightConcat(pending[..i], pending[i..]);
    WeightConcat(pending[..i], pending[i + 1..]);
    assert pending == pending[..i] + pending[i..];
  }

  class UnionFindTable {
    var rows: map<Id, Id>
    var pending: seq<Row>

    ghost predicate Valid()
      reads this
    {
      Descending(rows) && AllDescending(pending)
    }

    constructor (requests: seq<Row>)
      requires AllDescending(requests)
      ensures Valid() && rows == map[] && pending == requests
    {
      rows, pending := map[], requests;
    }

    // Inserts one pending row; a conflict is merged and may stage a further row.
    method InsertOne(i: nat)
      requires Valid() && i < |pending|
      modifies this
      ensures Valid()
      ensures Weight(pending) < Weight(old(pending))
      ensures rows.Keys == old(rows).Keys + {old(pending)[i].0}
      ensures forall s :: Saturated(rows, pending, s) <==> Saturated(old(rows), old(pending), s)
    {
      var (k, v) := pending[i];
      forall s { InsertKeepsSaturation(rows, pending, i, s); }
      WeightWithout(pending, i);
      ghost var rest := Without(pending, i);
      pending := pending[..i] + pending[i + 1..];
      if k !in rows {
        rows := rows[k := v];
      } else {
        var merged := Evaluate(SELF_MERGE, rows[k], v);
        SelfMergeMeaning(rows[k], v);
        WeightConcat(rest, merged.inserts);
        if merged.inserts != [] { assert merged.inserts[1..] == []; }
        rows := rows[k := merged.value];
        pending := pending + merged.inserts;
      }
    }

    // Inserting in any order until nothing is pending ends, keeps values below keys, represents
    // exactly the equivalence closure of all requests, and makes each class's least id its root.
    method Quiesce()
      requires Valid()
      modifies this
      ensures Valid() && pending == []
      ensures forall a, b :: Same(rows, [], a, b) <==> Same(old(rows), old(pending), a, b)
      ensures forall a, b :: Root(rows, a) == Root(rows, b) <==> Same(old(rows), old(pending), a, b)
      ensures forall a, b :: Same(old(rows), old(pending), a, b) ==> Root(rows, a) <= b
    {
      while pending != []
        invariant Valid()
        invariant forall s :: Saturated(rows, pending, s) <==> Saturated(old(rows), old(pending), s)
        decreases Weight(pending)
      {
        var i: nat :| i < |pending|;
        InsertOne(i);
      }
      forall a, b
        ensures Same(rows, [], a, b) <==> Same(old(rows), old(pending), a, b)
        ensures Root(rows, a) == Root(rows, b) <==> Same(rows, [], a, b)
        ensures Same(rows, [], a, b) ==> Root(rows, a) <= b
      {
        SameIffSameRoot(rows, a, b);
        if Same(rows, [], a, b) { RootIsMinimum(rows, a, b); }
      }
    }
  }
}
