// The scheduler's matches: a flat vector of rows, of which the chosen ones are fired and removed in place.
module SchedulerModel {
  import opened CoreIR
  import opened Options
  import opened RuleModel
  import opened LoweringModel
  import opened FlattenModel
  import opened GroundedModel
  import C = CompiledRuleModel

  type Row = seq<Value>

  // The i-th of the rows of width k.
  function RowAt(s: seq<Value>, k: nat, i: nat): (r: Row)
    requires (i + 1) * k <= |s|
    ensures |r| == k
  {
    RowBounds(i, k);
    s[i * k..(i + 1) * k]
  }

  lemma {:induction false} RowBounds(i: nat, k: nat)
    ensures 0 <= i * k && i * k + k == (i + 1) * k
  {}

  lemma {:induction false} RowsInOrder(i: nat, j: nat, k: nat)
    requires i < j
    ensures (i + 1) * k <= j * k
  {
    RowBounds(i, k);
    var d := j - (i + 1);
    assert j * k == (i + 1) * k + d * k;
    assert 0 <= d * k;
  }

  lemma {:induction false} RowFits(i: nat, n: nat, k: nat)
    requires i < n
    ensures (i + 1) * k <= n * k
  {
    RowsInOrder(i, n, k);
  }

  function Rows(s: seq<Value>, k: nat, n: nat): (r: seq<Row>)
    requires n * k <= |s|
    ensures |r| == n
  {
    seq(n, i requires 0 <= i < n => (RowFits(i, n, k); RowAt(s, k, i)))
  }

  // ---------------------------------------------------------------- swapping two rows in place

  // What exchanging the blocks of length k at b and at c makes of s.
  function Swapped(s: seq<Value>, k: nat, b: nat, c: nat): seq<Value>
    requires b + k <= c && c + k <= |s|
  {
    s[..b] + s[c..c + k] + s[b + k..c] + s[b..b + k] + s[c + k..]
  }

  lemma {:induction false} SwappedAt(s: seq<Value>, k: nat, b: nat, c: nat, j: nat)
    requires b + k <= c && c + k <= |s| && j < |s|
    ensures |Swapped(s, k, b, c)| == |s|
    ensures Swapped(s, k, b, c)[j] == (if b <= j < b + k then s[j - b + c] else if c <= j < c + k then s[j - c + b] else s[j])
  {}

  lemma {:induction false} SwappedBlock(s: seq<Value>, k: nat, b: nat, c: nat, q: nat)
    requires b + k <= c && c + k <= |s| && q + k <= |s|
    requires q == b || q == c || ((q + k <= b || b + k <= q) && (q + k <= c || c + k <= q))
    ensures |Swapped(s, k, b, c)| == |s|
    ensures Swapped(s, k, b, c)[q..q + k] == (if q == b then s[c..c + k] else if q == c then s[b..b + k] else s[q..q + k])
  {
    var t := Swapped(s, k, b, c);
    var from := if q == b then c else if q == c then b else q;
    var x, y := t[q..q + k], s[from..from + k];
    forall j | 0 <= j < k ensures x[j] == y[j] { SwappedAt(s, k, b, c, q + j); }
  }

  method SwapBlocks(a: array<Value>, k: nat, b: nat, c: nat)
    requires b + k <= c && c + k <= a.Length
    modifies a
    ensures a[..] == Swapped(old(a[..]), k, b, c)
  {
    ghost var was := a[..];
    for i := 0 to k
      invariant forall j :: b <= j < b + i ==> a[j] == was[j - b + c]
      invariant forall j :: c <= j < c + i ==> a[j] == was[j - c + b]
      invariant forall j :: 0 <= j < a.Length && !(b <= j < b + i) && !(c <= j < c + i) ==> a[j] == was[j]
    {
      assert a[b + i] == was[b + i] && a[c + i] == was[c + i];
      a[b + i], a[c + i] := a[c + i], a[b + i];
    }
    forall j | 0 <= j < a.Length ensures a[j] == Swapped(was, k, b, c)[j] { SwappedAt(was, k, b, c, j); }
  }

  lemma {:induction false} SwappedRows(s: seq<Value>, k: nat, n: nat, c: nat, p: nat)
    requires n * k == |s| && c < p < n
    ensures c * k + k <= p * k && p * k + k <= |s|
    ensures Rows(Swapped(s, k, c * k, p * k), k, n) == Rows(s, k, n)[c := Rows(s, k, n)[p]][p := Rows(s, k, n)[c]]
  {
    RowBounds(c, k);
    RowBounds(p, k);
    RowsInOrder(c, p, k);
    RowFits(p, n, k);
    var t := Swapped(s, k, c * k, p * k);
    forall i | 0 <= i < n ensures Rows(t, k, n)[i] == Rows(s, k, n)[c := Rows(s, k, n)[p]][p := Rows(s, k, n)[c]][i] {
      SwappedRow(s, k, n, c, p, i);
    }
  }

  lemma {:induction false} SwappedRow(s: seq<Value>, k: nat, n: nat, c: nat, p: nat, i: nat)
    requires n * k == |s| && c < p < n && i < n
    ensures c * k + k <= p * k && p * k + k <= |s| && (i + 1) * k <= |s| && (c + 1) * k <= |s| && (p + 1) * k <= |s|
    ensures RowAt(Swapped(s, k, c * k, p * k), k, i) == RowAt(s, k, if i == c then p else if i == p then c else i)
  {
    RowBounds(i, k);
    RowBounds(c, k);
    RowBounds(p, k);
    RowFits(i, n, k);
    RowFits(c, n, k);
    RowFits(p, n, k);
    RowsInOrder(c, p, k);
    if i < c { RowsInOrder(i, c, k); }
    if c < i { RowsInOrder(c, i, k); }
    if i < p { RowsInOrder(i, p, k); }
    if p < i { RowsInOrder(p, i, k); }
    SwappedBlock(s, k, c * k, p * k, i * k);
  }

  // ---------------------------------------------------------------- swap-remove

  predicate Increasing(d: seq<nat>) {
    forall i, j :: 0 <= i < j < |d| ==> d[i] < d[j]
  }

  predicate Within(d: seq<nat>, n: nat) {
    forall i :: 0 <= i < |d| ==> d[i] < n
  }

  // The rows at the given places.
  function Picked(rows: seq<Row>, d: seq<nat>): (r: seq<Row>)
    requires Within(d, |rows|)
    ensures |r| == |d|
  {
    seq(|d|, i requires 0 <= i < |d| => rows[d[i]])
  }

  lemma {:induction false} IncreasingFits(d: seq<nat>, i: nat, n: nat)
    requires Increasing(d) && Within(d, n) && i < |d|
    ensures d[i] + (|d| - i) <= n
    decreases |d| - i
  {
    if i + 1 < |d| { IncreasingFits(d, i + 1, n); }
  }

  // The chosen places from the i-th on have been removed: the first p rows and the removed ones are
  // all there were, and rows before the next place to remove are where they were.
  ghost predicate Removed(orig: seq<Row>, d: seq<nat>, i: nat, rows: seq<Row>, p: nat)
    requires Within(d, |orig|) && i <= |d|
  {
    && |rows| == |orig| && p == |orig| - (|d| - i) && p <= |rows|
    && multiset(rows[..p]) + multiset(Picked(orig, d[i..])) == multiset(orig)
    && (forall j :: 0 <= j < |orig| && (i < |d| ==> j < d[i]) ==> rows[j] == orig[j])
  }

  function SwapRows(rows: seq<Row>, c: nat, p: nat): seq<Row>
    requires c < |rows| && p < |rows|
  {
    rows[c := rows[p]][p := rows[c]]
  }

  lemma {:induction false} SwapLast(rows: seq<Row>, c: nat, p: nat)
    requires c <= p < |rows|
    ensures multiset(SwapRows(rows, c, p)[..p]) + multiset{rows[c]} == multiset(rows[..p + 1])
  {
    var a := rows[..p + 1];
    var b := SwapRows(rows, c, p)[..p + 1];
    assert b == a[c := a[p]][p := a[c]];
    assert multiset(b) == multiset(a);
    assert b == SwapRows(rows, c, p)[..p] + [rows[c]];
  }

  lemma {:induction false} RemoveOne(orig: seq<Row>, d: seq<nat>, i: nat, rows: seq<Row>, p: nat)
    requires Within(d, |orig|) && Increasing(d) && 0 < i <= |d| && Removed(orig, d, i, rows, p)
    ensures 0 < p && d[i - 1] <= p - 1
    ensures Removed(orig, d, i - 1, SwapRows(rows, d[i - 1], p - 1), p - 1)
  {
    var c := d[i - 1];
    IncreasingFits(d, i - 1, |orig|);
    SwapLast(rows, c, p - 1);
    assert rows[c] == orig[c];
    assert d[i - 1..] == [c] + d[i..];
    assert Picked(orig, d[i - 1..]) == [orig[c]] + Picked(orig, d[i..]);
  }

  // ---------------------------------------------------------------- matches

  // The rows for the decided table: each chosen row, in order, with the unit output.
  function Emitted(rows: seq<Row>, idxs: seq<nat>, unit: Value): (r: seq<Row>)
    requires Within(idxs, |rows|)
    ensures |r| == |idxs|
  {
    seq(|idxs|, i requires 0 <= i < |idxs| => rows[idxs[i]] + [unit])
  }

  lemma {:induction false} EmittedNext(rows: seq<Row>, idxs: seq<nat>, i: nat, unit: Value)
    requires Within(idxs, |rows|) && i < |idxs|
    ensures Emitted(rows, idxs[..i + 1], unit) == Emitted(rows, idxs[..i], unit) + [rows[idxs[i]] + [unit]]
  {}

  // `sort_unstable` and `dedup`, which the standard library provides.
  method SortedDistinct(chosen: seq<nat>, n: nat) returns (d: seq<nat>)
    requires Within(chosen, n)
    ensures Increasing(d) && Within(d, n) && forall c :: c in d <==> c in chosen
  {
    d := [];
    for c := 0 to n
      invariant Increasing(d) && Within(d, c)
      invariant forall x :: x in d <==> x in chosen && x < c
    {
      if c in chosen { d := d + [c]; }
    }
  }

  datatype Split = Split(rows: seq<Row>, residual: seq<Value>)

  function Everything(n: nat): seq<nat> {
    seq(n, i => i)
  }

  // The places that leave the vector: each chosen one once.
  ghost predicate Leaving(d: seq<nat>, chosen: seq<nat>, all: bool, n: nat) {
    && Increasing(d) && Within(d, n)
    && if all then d == Everything(n) else forall c :: c in d <==> c in chosen
  }

  lemma {:induction false} SizeIs(n: nat, k: nat)
    requires k > 0
    ensures n * k / k == n
  {
    var q: nat := n * k / k;
    assert n * k == q * k + n * k % k;
    RowBounds(q, k);
    RowBounds(n, k);
    if q < n {
      RowsInOrder(q, n, k);
    } else if n < q {
      RowsInOrder(n, q, k);
    }
  }

  lemma {:induction false} PrefixRow(s: seq<Value>, k: nat, m: nat, i: nat)
    requires (i + 1) * k <= m <= |s|
    ensures RowAt(s[..m], k, i) == RowAt(s, k, i)
  {
    RowBounds(i, k);
    var b, c := i * k, (i + 1) * k;
    assert s[..m][b..c] == s[b..c];
  }

  lemma {:induction false} RowsPrefix(s: seq<Value>, k: nat, n: nat, p: nat)
    requires n * k == |s| && p <= n
    ensures 0 <= p * k <= |s| && Rows(s[..p * k], k, p) == Rows(s, k, n)[..p]
  {
    RowBounds(p, k);
    if p < n {
      RowsInOrder(p, n, k);
    }
    var a, b := Rows(s[..p * k], k, p), Rows(s, k, n)[..p];
    forall i | 0 <= i < p ensures a[i] == b[i] {
      RowFits(i, p, k);
      PrefixRow(s, k, p * k, i);
    }
  }

  lemma {:induction false} PickEverything(rows: seq<Row>)
    ensures Increasing(Everything(|rows|)) && Within(Everything(|rows|), |rows|) && Picked(rows, Everything(|rows|)) == rows
  {}

  class Matches {
    var matches: array<Value>
    const vars: seq<Leaf>
    var chosen: seq<nat>
    var allChosen: bool

    // The length must be a multiple of the number of variables, or the constructor panics.
    constructor (matches: array<Value>, vars: seq<Leaf>, ghost n: nat)
      requires n * |vars| == matches.Length
      ensures this.matches == matches && this.vars == vars && chosen == [] && !allChosen
    {
      this.matches, this.vars, this.chosen, this.allChosen := matches, vars, [], false;
    }

    method Choose(idx: nat)
      modifies this`chosen
      ensures chosen == old(chosen) + [idx]
    {
      chosen := chosen + [idx];
    }

    method ChooseAll()
      modifies this`allChosen
      ensures allChosen
    {
      allChosen := true;
    }

    // A rule whose head has no free variables makes the code divide by zero, or ask for chunks of
    // size zero; a chosen index out of range makes it slice out of bounds.
    ghost predicate Panics(n: nat)
      reads this
    {
      |vars| == 0 || (!allChosen && !Within(chosen, n))
    }

    method GetMatch(idx: nat, ghost n: nat) returns (row: Row)
      requires n * |vars| == matches.Length && idx < n
      ensures row == Rows(matches[..], |vars|, n)[idx]
    {
      RowFits(idx, n, |vars|);
      RowBounds(idx, |vars|);
      var b := idx * |vars|;
      row := matches[b..b + |vars|];
    }

    // What a scheduler sees.
    method AllRows(n: nat) returns (rows: seq<Row>)
      requires n * |vars| == matches.Length
      ensures rows == Rows(matches[..], |vars|, n)
    {
      rows := [];
      for i := 0 to n
        invariant rows == Rows(matches[..], |vars|, n)[..i]
      {
        var row := GetMatch(i, n);
        rows := rows + [row];
      }
    }

    method RowsOf(idxs: seq<nat>, unit: Value, ghost n: nat) returns (rows: seq<Row>)
      requires n * |vars| == matches.Length && Within(idxs, n)
      ensures rows == Emitted(Rows(matches[..], |vars|, n), idxs, unit)
    {
      rows := [];
      ghost var all := Rows(matches[..], |vars|, n);
      for i := 0 to |idxs|
        invariant rows == Emitted(all, idxs[..i], unit)
      {
        var row := GetMatch(idxs[i], n);
        EmittedNext(all, idxs, i, unit);
        rows := rows + [row + [unit]];
      }
      assert idxs[..|idxs|] == idxs;
    }

    // Exchanges two rows, unless they are the same.
    method MoveBehind(c: nat, p: nat, size: nat)
      requires size * |vars| == matches.Length && c <= p < size
      modifies matches
      ensures Rows(matches[..], |vars|, size) == SwapRows(old(Rows(matches[..], |vars|, size)), c, p)
    {
      if c != p {
        SwappedRows(matches[..], |vars|, size, c, p);
        SwapBlocks(matches, |vars|, c * |vars|, p * |vars|);
      }
    }

    // Moves the chosen rows behind the others and returns how many are left.
    method SwapRemove(d: seq<nat>, size: nat) returns (p: nat)
      requires size * |vars| == matches.Length && Increasing(d) && Within(d, size)
      modifies matches
      ensures Removed(old(Rows(matches[..], |vars|, size)), d, 0, Rows(matches[..], |vars|, size), p)
    {
      ghost var k := |vars|;
      ghost var orig := Rows(matches[..], k, size);
      p := size;
      var i := |d|;
      assert orig[..size] == orig;
      while i > 0
        invariant 0 <= i <= |d| && 0 <= p
        invariant Removed(orig, d, i, Rows(matches[..], k, size), p)
      {
        RemoveOne(orig, d, i, Rows(matches[..], k, size), p);
        i := i - 1;
        p := p - 1;
        MoveBehind(d[i], p, size);
      }
    }

    // The rows to insert and the residue. What leaves and what stays is everything there was.
    method Instantiate(unit: Value, ghost n: nat) returns (r: Option<Split>, ghost d: seq<nat>, ghost left: nat)
      requires n * |vars| == matches.Length
      modifies matches
      ensures r.None? <==> old(Panics(n))
      ensures r.Some? ==> Leaving(d, chosen, allChosen, n) && (allChosen || Within(chosen, n))
      ensures r.Some? ==> r.value.rows == Emitted(old(Rows(matches[..], |vars|, n)), if allChosen then Everything(n) else chosen, unit)
      ensures r.Some? ==> |r.value.rows| == (if allChosen then n else |chosen|)
      ensures r.Some? ==> forall i :: 0 <= i < |r.value.rows| ==>
        r.value.rows[i] == old(Rows(matches[..], |vars|, n))[if allChosen then i else chosen[i]] + [unit]
      ensures r.Some? ==> left * |vars| == |r.value.residual|
      ensures r.Some? ==>
        multiset(Picked(old(Rows(matches[..], |vars|, n)), d)) + multiset(Rows(r.value.residual, |vars|, left))
        == multiset(old(Rows(matches[..], |vars|, n)))
    {
      ghost var orig := Rows(matches[..], |vars|, n);
      if |vars| == 0 { return None, [], 0; }
      SizeIs(n, |vars|);
      var size := matches.Length / |vars|;
      if allChosen {
        var rows := RowsOf(Everything(size), unit, n);
        PickEverything(orig);
        return Some(Split(rows, [])), Everything(n), 0;
      }
      if !(forall i :: 0 <= i < |chosen| ==> chosen[i] < size) { return None, [], 0; }
      var rows := RowsOf(chosen, unit, n);
      var sorted := SortedDistinct(chosen, size);
      var p := SwapRemove(sorted, size);
      RowsPrefix(matches[..], |vars|, n, p);
      assert sorted[0..] == sorted;
      r, d, left := Some(Split(rows, matches[..p * |vars|])), sorted, p;
    }
  }

  // ---------------------------------------------------------------- steps

  // What `filter_matches` decides, knowing the matches.
  datatype Decision = Decision(chosen: seq<nat>, all: bool, seek: bool)

  lemma {:induction false} RowsSnoc(s: seq<Value>, k: nat, n: nat, row: Row)
    requires n * k == |s| && |row| == k
    ensures (n + 1) * k == |s + row| && Rows(s + row, k, n + 1) == Rows(s, k, n) + [row]
  {
    RowBounds(n, k);
    RowsPrefix(s + row, k, n + 1, n);
    assert (s + row)[..n * k] == s;
    var a := Rows(s + row, k, n + 1);
    assert a[n] == row by { assert (s + row)[n * k..(n + 1) * k] == row; }
    assert a == a[..n] + [a[n]];
  }

  // The flat vector holds the rows.
  ghost predicate Stores(s: seq<Value>, k: nat, rows: seq<Row>) {
    |rows| * k == |s| && Rows(s, k, |rows|) == rows
  }

  // What fired and what is pending after a decision about all the rows.
  ghost predicate Settled(all: seq<Row>, dec: Decision, picked: seq<Row>, pending: seq<Row>) {
    && (exists d :: Leaving(d, dec.chosen, dec.all, |all|) && |picked| == |d| && forall i :: 0 <= i < |d| ==> picked[i] == all[d[i]])
    && multiset(picked) + multiset(pending) == multiset(all)
  }

  // The scheduler makes its choices known one by one.
  method Tell(ms: Matches, dec: Decision)
    modifies ms`chosen, ms`allChosen
    ensures ms.chosen == old(ms.chosen) + dec.chosen && ms.allChosen == (old(ms.allChosen) || dec.all)
  {
    for i := 0 to |dec.chosen|
      invariant ms.chosen == old(ms.chosen) + dec.chosen[..i] && ms.allChosen == old(ms.allChosen)
    {
      ms.Choose(dec.chosen[i]);
    }
    assert dec.chosen[..|dec.chosen|] == dec.chosen;
    if dec.all { ms.ChooseAll(); }
  }

  // Wraps the matches, lets the scheduler choose among them, and instantiates its choice.
  method Filtered(matches: seq<Value>, vars: seq<Leaf>, filter: seq<Row> -> Decision, unit: Value, n: nat)
    returns (rows: seq<Row>, r: Option<Split>, ghost d: seq<nat>, ghost left: nat)
    requires |vars| > 0 && n * |vars| == |matches|
    ensures rows == Rows(matches, |vars|, n)
    ensures var dec := filter(rows); r.Some? <==> dec.all || Within(dec.chosen, n)
    ensures r.Some? ==> var dec := filter(rows);
      && Leaving(d, dec.chosen, dec.all, n) && (dec.all || Within(dec.chosen, n))
      && r.value.rows == Emitted(rows, if dec.all then Everything(n) else dec.chosen, unit)
      && left * |vars| == |r.value.residual|
      && multiset(Picked(rows, d)) + multiset(Rows(r.value.residual, |vars|, left)) == multiset(rows)
  {
    var flat := Thaw(matches);
    var ms := new Matches(flat, vars, n);
    rows := ms.AllRows(n);
    var dec := filter(rows);
    Tell(ms, dec);
    assert ms.chosen == dec.chosen && ms.allChosen == dec.all;
    r, d, left := ms.Instantiate(unit, n);
  }

  // The part of a rule that the scheduler keeps between steps.
  class SchedulerRule {
    const freeVars: seq<Leaf>
    var matches: seq<Value>
    var shouldSeek: bool
    var decided: set<Row>
    ghost var pending: seq<Row>
    ghost var collected: multiset<Row>
    ghost var fired: multiset<Row>

    constructor (freeVars: seq<Leaf>)
      ensures Valid() && this.freeVars == freeVars && shouldSeek
      ensures pending == [] && collected == multiset{} && fired == multiset{}
    {
      this.freeVars, matches, shouldSeek, decided := freeVars, [], true, {};
      pending, collected, fired := [], multiset{}, multiset{};
    }

    // Every match collected has been fired or is pending, and none is both.
    ghost predicate Valid()
      reads this
    {
      Stores(matches, |freeVars|, pending) && decided == {} && collected == fired + multiset(pending)
    }

    // The query rule calls this on each of its matches.
    method Collect(row: Row)
      requires Valid() && |row| == |freeVars|
      modifies this`matches, this`pending, this`collected
      ensures Valid() && pending == old(pending) + [row] && collected == old(collected) + multiset{row}
    {
      RowsSnoc(matches, |freeVars|, |pending|, row);
      matches := matches + row;
      pending := pending + [row];
      collected := collected + multiset{row};
    }

    method RunQuery(found: seq<Row>)
      requires Valid() && forall i :: 0 <= i < |found| ==> |found[i]| == |freeVars|
      modifies this`matches, this`pending, this`collected
      ensures Valid() && pending == old(pending) + found && collected == old(collected) + multiset(found)
    {
      for i := 0 to |found|
        invariant Valid() && pending == old(pending) + found[..i]
        invariant collected == old(collected) + multiset(found[..i])
      {
        Collect(found[i]);
        assert found[..i + 1] == found[..i] + [found[i]];
      }
      assert found[..|found|] == found;
    }

    // Lets the scheduler decide, and puts the chosen rows into the decided table.
    method Decide(filter: seq<Row> -> Decision, unit: Value) returns (ok: bool, ghost picked: seq<Row>)
      requires Valid()
      modifies this`matches, this`pending, this`shouldSeek, this`decided
      ensures ok <==> |freeVars| > 0 && (filter(old(pending)).all || Within(filter(old(pending)).chosen, |old(pending)|))
      ensures ok ==> Stores(matches, |freeVars|, pending) && shouldSeek == filter(old(pending)).seek
      ensures ok ==> Settled(old(pending), filter(old(pending)), picked, pending)
      ensures ok ==> forall row :: row in picked <==> row in Unwrapped(decided)
    {
      picked := [];
      if |freeVars| == 0 { return false, []; }
      SizeIs(|pending|, |freeVars|);
      var n := |matches| / |freeVars|;
      var rows, split, d, left := Filtered(matches, freeVars, filter, unit, n);
      var dec := filter(rows);
      if split.None? { return false, []; }
      picked := Picked(rows, d);
      decided := set i | 0 <= i < |split.value.rows| :: split.value.rows[i];
      FiredAre(rows, d, dec.chosen, dec.all, unit, decided);
      matches, shouldSeek := split.value.residual, dec.seek;
      pending := Rows(matches, |freeVars|, left);
      ok := true;
    }

    // One step: the query if matches are sought, the decision, and the action rule, which fires every
    // decided row and removes it. It panics exactly when `instantiate` does.
    method Step(found: seq<Row>, filter: seq<Row> -> Decision, unit: Value)
      returns (ok: bool, out: set<Row>, ghost picked: seq<Row>)
      requires Valid() && forall i :: 0 <= i < |found| ==> |found[i]| == |freeVars|
      modifies this
      ensures var new' := if old(shouldSeek) then found else []; var all := old(pending) + new'; var dec := filter(all);
        && (ok <==> |freeVars| > 0 && (dec.all || Within(dec.chosen, |all|)))
        && (ok ==>
             && Valid() && shouldSeek == dec.seek && Settled(all, dec, picked, pending)
             && collected == old(collected) + multiset(new') && fired == old(fired) + multiset(picked)
             && forall row :: row in picked <==> row in out)
    {
      if shouldSeek { RunQuery(found); }
      ghost var all := pending;
      assert all == old(pending) + (if old(shouldSeek) then found else []);
      out := {};
      ok, picked := Decide(filter, unit);
      if ok {
        out := Unwrapped(decided);
        decided := {};
        fired := fired + multiset(picked);
      }
    }
  }

  // The rows of the decided table without their unit column.
  function Unwrapped(decided: set<Row>): set<Row> {
    set x | x in decided && |x| > 0 :: x[..|x| - 1]
  }

  method Thaw(s: seq<Value>) returns (a: array<Value>)
    ensures fresh(a) && a[..] == s
  {
    a := new Value[|s|](i requires 0 <= i < |s| => s[i]);
  }

  // The rows that reach the table are those picked, each once.
  lemma {:induction false} FiredAre(all: seq<Row>, d: seq<nat>, chosen: seq<nat>, everything: bool, unit: Value, decided: set<Row>)
    requires Leaving(d, chosen, everything, |all|) && (everything || Within(chosen, |all|))
    requires var rows := Emitted(all, if everything then Everything(|all|) else chosen, unit);
      decided == set i | 0 <= i < |rows| :: rows[i]
    ensures forall row :: row in Picked(all, d) <==> row in Unwrapped(decided)
  {
    var out := Unwrapped(decided);
    var idxs := if everything then Everything(|all|) else chosen;
    var rows := Emitted(all, idxs, unit);
    var picked := Picked(all, d);
    forall row | row in out ensures row in picked {
      var x :| x in decided && |x| > 0 && row == x[..|x| - 1];
      var i :| 0 <= i < |rows| && x == rows[i];
      assert idxs[i] in d;
      var j :| 0 <= j < |d| && d[j] == idxs[i];
      assert picked[j] == all[idxs[i]] == row;
    }
    forall row | row in picked ensures row in out {
      var j :| 0 <= j < |picked| && picked[j] == row;
      assert d[j] in idxs;
      var i :| 0 <= i < |idxs| && idxs[i] == d[j];
      assert rows[i] in decided && rows[i] == row + [unit];
      assert rows[i][..|rows[i]| - 1] == row;
    }
  }

  // ---------------------------------------------------------------- the split of a rule

  ghost predicate Enumerates(vars: seq<Leaf>, ts: set<Term>) {
    && (forall i, j :: 0 <= i < j < |vars| ==> vars[i] != vars[j])
    && (forall t :: t in ts <==> exists i :: 0 <= i < |vars| && t == Var(vars[i]))
  }

  // What the query rule collects of a match, and what the action rule makes of it.
  function RowOf(g: map<Leaf, Value>, vars: seq<Leaf>, e: Env): Row {
    seq(|vars|, i requires 0 <= i < |vars| => TermValue(g, e, Var(vars[i])))
  }

  function EnvOf(vars: seq<Leaf>, row: Row): Env
    requires |row| == |vars|
  {
    if vars == [] then map[] else EnvOf(vars[..|vars| - 1], row[..|row| - 1])[Var(vars[|vars| - 1]) := row[|row| - 1]]
  }

  lemma {:induction false} EnvOfAt(vars: seq<Leaf>, row: Row, i: nat)
    requires |row| == |vars| && i < |vars| && forall i, j :: 0 <= i < j < |vars| ==> vars[i] != vars[j]
    ensures Var(vars[i]) in EnvOf(vars, row) && EnvOf(vars, row)[Var(vars[i])] == row[i]
  {
    if i < |vars| - 1 {
      EnvOfAt(vars[..|vars| - 1], row[..|row| - 1], i);
    }
  }

  // Firing a head on the collected values of its free variables does what firing it on the match does.
  lemma {:induction false} SplitFiresTheSame<S>(m: Machine<S>, g: map<Leaf, Value>, s: S, head: seq<Action>, vars: seq<Leaf>, e: Env)
    requires NoSelfUse(head) && Enumerates(vars, FreeVars(head))
    ensures SameEffect(Exec(m, g, s, e, head), Exec(m, g, s, EnvOf(vars, RowOf(g, vars, e)), head))
  {
    var row := RowOf(g, vars, e);
    forall t | t in FreeVars(head) ensures TermValue(g, e, t) == TermValue(g, EnvOf(vars, row), t) {
      var i :| 0 <= i < |vars| && t == Var(vars[i]);
      EnvOfAt(vars, row, i);
    }
    FreeVarsSuffice(m, g, s, e, EnvOf(vars, row), head);
  }

  // There is no column to collect exactly when the head has no free variables.
  lemma {:induction false} NoColumnsIffClosed(vars: seq<Leaf>, head: seq<Action>)
    requires Enumerates(vars, FreeVars(head))
    ensures vars == [] <==> FreeVars(head) == {}
  {
    if vars != [] { assert Var(vars[0]) in FreeVars(head); }
  }

  // Such a rule: with any facts, the single action is a call without arguments. Nothing in it is an
  // error, and it is a compiled form of itself.
  lemma {:induction false} NullaryCallHasNoColumns(nm: Names, cfg: Config, facts: seq<Fact>, h: Head, vars: seq<Leaf>)
    ensures AllWellShaped(FactsToQuery(nm, facts, 0).atoms)
    ensures var r := C.ToCoreRule(nm, cfg, facts, [SExpr(CallExpr(h, []))]);
      && r.Ok? && Preserves(r.value, r.value) && FreeVars(r.value.head) == {}
      && (Enumerates(vars, FreeVars(r.value.head)) ==> vars == [])
  {
    var q := FactsToQuery(nm, facts, 0);
    FactsShape(nm, facts, 0);
    var e := CallExpr(h, []);
    var bound := C.LeavesOf(q.atoms);
    var out := Fresh(nm, q.next, h);
    assert LowerExprs(nm, [], bound, q.next) == Ok(Lowered([], [], bound, q.next));
    var a := [Let(out, h, [])];
    assert [] + a == a && a + [] == a && [Var(out)] + [] == [Var(out)];
    assert LowerExpr(nm, e, bound, q.next) == Ok(Lowered([Let(out, h, [])], [Var(out)], bound + {out}, q.next + 1));
    var one := Lowered(a, [Var(out)], bound + {out}, q.next + 1);
    assert [e][1..] == [] && LowerExprs(nm, [], one.bound, one.next) == Ok(Lowered([], [], one.bound, one.next));
    assert LowerExprs(nm, [e], bound, q.next) == Ok(one);
    var st := SExpr(e);
    assert Operands(cfg, st) == [e] && Emit(cfg, st, [Var(out)]) == [] && one.bound + Defines(st) == one.bound;
    assert LowerStmt(nm, cfg, st, bound, q.next) == Ok(Lowered(a, [], one.bound, one.next));
    assert [st][1..] == [] && LowerStmts(nm, cfg, [], one.bound, one.next) == Ok(Lowered([], [], one.bound, one.next));
    assert LowerStmts(nm, cfg, [st], bound, q.next).value.actions == a;
    var r := C.ToCoreRule(nm, cfg, facts, [st]);
    assert r.value == Rule(q.atoms, [Let(out, h, [])]);
    assert FreeVars([]) == {} && VarTerms([]) == {};
    PreservesSelf(r.value);
    if Enumerates(vars, FreeVars(r.value.head)) { NoColumnsIffClosed(vars, r.value.head); }
  }
}
