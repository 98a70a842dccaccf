// The arena of terms, in which every node is stored once and children come before their parents.
// A term is the index of its node. Printing works on an explicit stack and copies the text of terms
// that have been printed before.
module TermDagModel {
  import opened Options
  import opened SexpModel

  type TermId = nat

  // `Lit` carries the literal's printed form.
  datatype Term = Lit(repr: string) | Var(name: string) | App(head: string, args: seq<TermId>)

  datatype Expr = LitExpr(repr: string) | VarExpr(name: string) | Call(head: string, args: seq<Expr>)

  // Children come before their parents.
  predicate Closed(nodes: seq<Term>) {
    forall i :: 0 <= i < |nodes| ==> WellPlaced(nodes[i], i)
  }

  predicate WellPlaced(t: Term, bound: nat) {
    t.App? ==> AllBelow(t.args, bound)
  }

  predicate AllBelow(args: seq<TermId>, bound: nat) {
    forall i :: 0 <= i < |args| ==> args[i] < bound
  }

  // The index set holds each node once.
  predicate Distinct(nodes: seq<Term>) {
    forall i, j :: 0 <= i < j < |nodes| ==> nodes[i] != nodes[j]
  }

  predicate WellFormed(nodes: seq<Term>) {
    Closed(nodes) && Distinct(nodes)
  }

  predicate IsPrefix(a: seq<Term>, b: seq<Term>) {
    |a| <= |b| && a == b[..|a|]
  }

  // The tree an id stands for.
  function ToExpr(nodes: seq<Term>, id: TermId): Expr
    requires Closed(nodes) && id < |nodes|
    decreases id, 1, 0
  {
    match nodes[id]
    case Lit(r) => LitExpr(r)
    case Var(v) => VarExpr(v)
    case App(h, args) => assert WellPlaced(nodes[id], id); Call(h, ToExprs(nodes, args, id))
  }

  function ToExprs(nodes: seq<Term>, args: seq<TermId>, bound: nat): (r: seq<Expr>)
    requires Closed(nodes) && bound <= |nodes| && AllBelow(args, bound)
    ensures |r| == |args| && forall i :: 0 <= i < |args| ==> r[i] == ToExpr(nodes, args[i])
    decreases bound, 0, |args|
  {
    if args == [] then [] else [ToExpr(nodes, args[0])] + ToExprs(nodes, args[1..], bound)
  }

  // Appending nodes does not change what existing ids stand for.
  lemma {:induction false} ToExprStable(a: seq<Term>, b: seq<Term>, id: TermId)
    requires Closed(a) && Closed(b) && IsPrefix(a, b) && id < |a|
    ensures ToExpr(a, id) == ToExpr(b, id)
    decreases id
  {
    assert a[id] == b[id] && WellPlaced(a[id], id);
    if a[id].App? {
      var args := a[id].args;
      forall k | 0 <= k < |args| ensures ToExpr(a, args[k]) == ToExpr(b, args[k]) {
        ToExprStable(a, b, args[k]);
      }
      assert ToExprs(a, a[id].args, id) == ToExprs(b, a[id].args, id);
    }
  }

  // Ids of a prefix of the expressions.
  lemma {:induction false} IdsStable(a: seq<Term>, b: seq<Term>, ids: seq<TermId>, es: seq<Expr>)
    requires Closed(a) && Closed(b) && IsPrefix(a, b) && |ids| <= |es|
    requires forall k :: 0 <= k < |ids| ==> ids[k] < |a| && ToExpr(a, ids[k]) == es[k]
    ensures forall k :: 0 <= k < |ids| ==> ids[k] < |b| && ToExpr(b, ids[k]) == es[k]
  {
    forall k | 0 <= k < |ids| ensures ids[k] < |b| && ToExpr(b, ids[k]) == es[k] { ToExprStable(a, b, ids[k]); }
  }

  // Maximal sharing: different ids stand for different trees.
  lemma {:induction false} ToExprInjective(nodes: seq<Term>, i: TermId, j: TermId)
    requires WellFormed(nodes) && i < |nodes| && j < |nodes|
    requires ToExpr(nodes, i) == ToExpr(nodes, j)
    ensures i == j
    decreases i
  {
    if nodes[i].App? && nodes[j].App? {
      var a, b := nodes[i].args, nodes[j].args;
      assert WellPlaced(nodes[i], i) && WellPlaced(nodes[j], j);
      assert |ToExprs(nodes, a, i)| == |a| && |ToExprs(nodes, b, j)| == |b|;
      forall k | 0 <= k < |a| ensures a[k] == b[k] {
        assert a[k] in a && b[k] in b;
        assert ToExpr(nodes, a[k]) == ToExprs(nodes, a, i)[k] == ToExprs(nodes, b, j)[k] == ToExpr(nodes, b[k]);
        ToExprInjective(nodes, a[k], b[k]);
      }
      assert a == b;
    }
    assert nodes[i] == nodes[j];
  }

  // ---------------------------------------------------------------- printing

  // The plain recursive printer.
  function Print(nodes: seq<Term>, id: TermId): string
    requires Closed(nodes) && id < |nodes|
    decreases id, if nodes[id].App? then |nodes[id].args| + 1 else 0
  {
    match nodes[id]
    case Lit(r) => r
    case Var(v) => v
    case App(h, _) => ("(" + h) + PrintFrom(nodes, id, 0) + ")"
  }

  // The children of `id` from the k-th on, each after a space.
  function PrintFrom(nodes: seq<Term>, id: TermId, k: nat): string
    requires Closed(nodes) && id < |nodes| && nodes[id].App? && k <= |nodes[id].args|
    decreases id, |nodes[id].args| - k
  {
    if k == |nodes[id].args| then ""
    else
      assert WellPlaced(nodes[id], id);
      " " + Print(nodes, nodes[id].args[k]) + PrintFrom(nodes, id, k + 1)
  }

  // A stack entry: a term still to be printed, or one whose closing parenthesis is due and which
  // began at the given place of the output.
  datatype Item = Item(id: TermId, spaceBefore: bool, start: Option<nat>)

  predicate ValidItems(nodes: seq<Term>, stack: seq<Item>) {
    forall i :: 0 <= i < |stack| ==> ValidItem(nodes, stack[i])
  }

  predicate ValidItem(nodes: seq<Term>, x: Item) {
    x.id < |nodes| && (x.start.Some? ==> !x.spaceBefore && nodes[x.id].App?)
  }

  function ItemOutput(nodes: seq<Term>, x: Item): string
    requires Closed(nodes) && x.id < |nodes|
  {
    if x.start.Some? then ")" else Space(x) + Print(nodes, x.id)
  }

  function Space(x: Item): string { if x.spaceBefore then " " else "" }

  // The texts in reverse order, one after the other.
  function Flatten(texts: seq<string>): string {
    if texts == [] then "" else texts[|texts| - 1] + Flatten(texts[..|texts| - 1])
  }

  lemma {:induction false} Regroup3(a: string, b: string, c: string)
    ensures a + (b + c) == (a + b) + c
  {}

  lemma {:induction false} FlattenConcat(a: seq<string>, b: seq<string>)
    ensures Flatten(a + b) == Flatten(b) + Flatten(a)
  {
    if b == [] {
      assert a + b == a;
    } else {
      var n := |b| - 1;
      FlattenConcat(a, b[..n]);
      assert a + b == (a + b[..n]) + [b[n]];
      Regroup3(b[n], Flatten(b[..n]), Flatten(a));
    }
  }

  function Outputs(nodes: seq<Term>, stack: seq<Item>): (r: seq<string>)
    requires Closed(nodes) && ValidItems(nodes, stack)
  {
    seq(|stack|, i requires 0 <= i < |stack| => ItemOutput(nodes, stack[i]))
  }

  // What the entries will still write, the last entry first.
  function Remaining(nodes: seq<Term>, stack: seq<Item>): string
    requires Closed(nodes) && ValidItems(nodes, stack)
  {
    Flatten(Outputs(nodes, stack))
  }

  lemma {:induction false} RemainingPush(nodes: seq<Term>, stack: seq<Item>, x: Item)
    requires Closed(nodes) && ValidItems(nodes, stack) && ValidItem(nodes, x)
    ensures ValidItems(nodes, stack + [x])
    ensures Remaining(nodes, stack + [x]) == ItemOutput(nodes, x) + Remaining(nodes, stack)
  {
    assert Outputs(nodes, stack + [x]) == Outputs(nodes, stack) + [ItemOutput(nodes, x)];
  }

  lemma {:induction false} RemainingOne(nodes: seq<Term>, x: Item)
    requires Closed(nodes) && ValidItem(nodes, x)
    ensures ValidItems(nodes, [x]) && Remaining(nodes, [x]) == ItemOutput(nodes, x)
  {
    assert [] + [x] == [x];
    RemainingPush(nodes, [], x);
    assert ItemOutput(nodes, x) + "" == ItemOutput(nodes, x);
  }

  lemma {:induction false} RemainingConcat(nodes: seq<Term>, a: seq<Item>, b: seq<Item>)
    requires Closed(nodes) && ValidItems(nodes, a) && ValidItems(nodes, b)
    ensures ValidItems(nodes, a + b)
    ensures Remaining(nodes, a + b) == Remaining(nodes, b) + Remaining(nodes, a)
  {
    assert Outputs(nodes, a + b) == Outputs(nodes, a) + Outputs(nodes, b);
    FlattenConcat(Outputs(nodes, a), Outputs(nodes, b));
  }

  type Ranges = map<TermId, (nat, nat)>

  ghost predicate RangesHold(nodes: seq<Term>, out: string, ranges: Ranges)
    requires Closed(nodes)
  {
    forall id :: id in ranges ==>
      id < |nodes| && ranges[id].0 <= ranges[id].1 <= |out| && out[ranges[id].0..ranges[id].1] == Print(nodes, id)
  }

  // An open entry with the entries above it: those have smaller ids, it has no range yet, and what
  // was written since it began together with what is above it makes up its text.
  ghost predicate Open(nodes: seq<Term>, out: string, ranges: Ranges, y: Item, above: seq<Item>)
    requires Closed(nodes) && y.id < |nodes| && ValidItems(nodes, above)
  {
    y.start.Some? ==>
      && y.id !in ranges
      && (forall i :: 0 <= i < |above| ==> above[i].id < y.id)
      && Completes(out, y.start.value, Remaining(nodes, above), Print(nodes, y.id))
  }

  ghost predicate AllOpen(nodes: seq<Term>, out: string, ranges: Ranges, stack: seq<Item>)
    requires Closed(nodes) && ValidItems(nodes, stack)
  {
    forall j :: 0 <= j < |stack| ==> Open(nodes, out, ranges, stack[j], stack[j + 1..])
  }

  // The output from `start` on, followed by `rest` and a parenthesis, is `text`.
  ghost predicate Completes(out: string, start: nat, rest: string, text: string) {
    start <= |out| && out[start..] + rest + ")" == text
  }

  lemma {:induction false} CompletesShift(out: string, start: nat, w: string, rest: string, text: string)
    requires start <= |out|
    ensures Completes(out, start, w + rest, text) <==> Completes(out + w, start, rest, text)
  {
    assert (out + w)[start..] == out[start..] + w;
    assert out[start..] + (w + rest) == out[start..] + w + rest;
  }

  // Writing the top entry's text and dropping it keeps every open entry below it.
  lemma {:induction false} PopKeepsOpen1(nodes: seq<Term>, out: string, ranges: Ranges, y: Item, above: seq<Item>, x: Item, ranges': Ranges)
    requires Closed(nodes) && y.id < |nodes| && ValidItems(nodes, above) && ValidItem(nodes, x) && ValidItems(nodes, above + [x])
    requires Open(nodes, out, ranges, y, above + [x])
    requires ranges' == ranges || ranges'.Keys == ranges.Keys + {x.id}
    ensures x.id < |nodes| && Open(nodes, out + ItemOutput(nodes, x), ranges', y, above)
  {
    if y.start.Some? {
      assert (above + [x])[|above|] == x;
      assert forall i :: 0 <= i < |above| ==> (above + [x])[i] == above[i];
      RemainingPush(nodes, above, x);
      CompletesShift(out, y.start.value, ItemOutput(nodes, x), Remaining(nodes, above), Print(nodes, y.id));
    }
  }

  lemma {:induction false} PopKeepsOpen(nodes: seq<Term>, out: string, ranges: Ranges, stack: seq<Item>, x: Item, out': string, ranges': Ranges)
    requires Closed(nodes) && ValidItems(nodes, stack + [x]) && ValidItems(nodes, stack) && ValidItem(nodes, x)
    requires AllOpen(nodes, out, ranges, stack + [x])
    requires x.id < |nodes| && out' == out + ItemOutput(nodes, x)
    requires ranges' == ranges || ranges'.Keys == ranges.Keys + {x.id}
    ensures AllOpen(nodes, out', ranges', stack)
  {
    forall j | 0 <= j < |stack| ensures Open(nodes, out', ranges', stack[j], stack[j + 1..]) {
      assert (stack + [x])[j] == stack[j] && (stack + [x])[j + 1..] == stack[j + 1..] + [x];
      PopKeepsOpen1(nodes, out, ranges, stack[j], stack[j + 1..], x, ranges');
    }
  }

  // The entries for the children from the k-th on, pushed last child first.
  function ChildItems(args: seq<TermId>, k: nat): (r: seq<Item>)
    requires k <= |args|
    ensures |r| == |args| - k && forall i :: 0 <= i < |r| ==> r[i] == Item(args[|args| - 1 - i], true, None)
    decreases |args| - k
  {
    if k == |args| then [] else ChildItems(args, k + 1) + [Item(args[k], true, None)]
  }

  lemma {:induction false} ChildItemsPrint(nodes: seq<Term>, id: TermId, k: nat)
    requires Closed(nodes) && id < |nodes| && nodes[id].App? && k <= |nodes[id].args|
    ensures ValidItems(nodes, ChildItems(nodes[id].args, k))
    ensures Remaining(nodes, ChildItems(nodes[id].args, k)) == PrintFrom(nodes, id, k)
    decreases |nodes[id].args| - k
  {
    var args := nodes[id].args;
    if k == |args| {
      assert Outputs(nodes, []) == [];
    } else {
      ChildItemsPrint(nodes, id, k + 1);
      assert WellPlaced(nodes[id], id);
      var x := Item(args[k], true, None);
      RemainingPush(nodes, ChildItems(args, k + 1), x);
      assert ItemOutput(nodes, x) == " " + Print(nodes, args[k]);
    }
  }

  // What opening an application pushes: its closing entry and its children.
  function OpenItems(nodes: seq<Term>, id: TermId, start: nat): seq<Item>
    requires id < |nodes| && nodes[id].App?
  {
    [Item(id, false, Some(start))] + ChildItems(nodes[id].args, 0)
  }

  lemma {:induction false} OpenItemsPrint(nodes: seq<Term>, id: TermId, start: nat)
    requires Closed(nodes) && id < |nodes| && nodes[id].App?
    ensures ValidItems(nodes, OpenItems(nodes, id, start))
    ensures Remaining(nodes, OpenItems(nodes, id, start)) == PrintFrom(nodes, id, 0) + ")"
    ensures forall i :: 0 <= i < |OpenItems(nodes, id, start)| ==>
              OpenItems(nodes, id, start)[i].id <= id && (0 < i ==> OpenItems(nodes, id, start)[i].id < id && OpenItems(nodes, id, start)[i].start.None?)
  {
    var y := [Item(id, false, Some(start))];
    RemainingOne(nodes, y[0]);
    ChildItemsPrint(nodes, id, 0);
    RemainingConcat(nodes, y, ChildItems(nodes[id].args, 0));
  }

  function OpenText(nodes: seq<Term>, x: Item): string
    requires x.id < |nodes| && nodes[x.id].App?
  {
    Space(x) + ("(" + nodes[x.id].head)
  }

  lemma {:induction false} OpenTextSplits(nodes: seq<Term>, x: Item, rest: string)
    requires Closed(nodes) && x.id < |nodes| && x.start.None? && nodes[x.id].App?
    ensures ItemOutput(nodes, x) + rest == OpenText(nodes, x) + (PrintFrom(nodes, x.id, 0) + ")" + rest)
  {
    var space, open, args := Space(x), "(" + nodes[x.id].head, PrintFrom(nodes, x.id, 0);
    assert Print(nodes, x.id) == open + args + ")";
    Regroup(space, open, args, ")", rest);
  }

  lemma {:induction false} Regroup(a: string, b: string, c: string, d: string, e: string)
    ensures (a + (b + c + d)) + e == (a + b) + (c + d + e)
  {
    var x, y := (a + (b + c + d)) + e, (a + b) + (c + d + e);
    assert |x| == |y|;
  }

  // Opening the application on top keeps the entries below open.
  lemma {:induction false} OpenKeepsOpen1(nodes: seq<Term>, out: string, ranges: Ranges, y: Item, above: seq<Item>, x: Item, start: nat)
    requires Closed(nodes) && y.id < |nodes| && ValidItems(nodes, above) && ValidItems(nodes, above + [x])
    requires x.id < |nodes| && x.start.None? && nodes[x.id].App?
    requires Open(nodes, out, ranges, y, above + [x])
    ensures ValidItems(nodes, above + OpenItems(nodes, x.id, start))
    ensures Open(nodes, out + OpenText(nodes, x), ranges, y, above + OpenItems(nodes, x.id, start))
  {
    var items := OpenItems(nodes, x.id, start);
    OpenItemsPrint(nodes, x.id, start);
    RemainingConcat(nodes, above, items);
    if y.start.Some? {
      assert (above + [x])[|above|] == x;
      assert forall i :: 0 <= i < |above| ==> (above + [x])[i] == above[i];
      RemainingPush(nodes, above, x);
      var rest := Remaining(nodes, above);
      OpenTextSplits(nodes, x, rest);
      CompletesShift(out, y.start.value, OpenText(nodes, x), PrintFrom(nodes, x.id, 0) + ")" + rest, Print(nodes, y.id));
    }
  }

  lemma {:induction false} SliceAfter(a: string, b: string, c: string)
    ensures |a + b| <= |a + (b + c)| && (a + (b + c))[|a + b|..] == c
  {}

  lemma {:induction false} OpenIsOpen(nodes: seq<Term>, out: string, ranges: Ranges, x: Item, start: nat)
    requires Closed(nodes) && x.id < |nodes| && x.start.None? && nodes[x.id].App? && x.id !in ranges
    requires start == |out + Space(x)|
    ensures ValidItems(nodes, ChildItems(nodes[x.id].args, 0))
    ensures Open(nodes, out + OpenText(nodes, x), ranges, Item(x.id, false, Some(start)), ChildItems(nodes[x.id].args, 0))
  {
    ChildItemsPrint(nodes, x.id, 0);
    SliceAfter(out, Space(x), "(" + nodes[x.id].head);
  }

  lemma {:induction false} OpenKeepsOpen(nodes: seq<Term>, out: string, ranges: Ranges, stack: seq<Item>, x: Item, start: nat)
    requires Closed(nodes) && ValidItems(nodes, stack + [x]) && ValidItems(nodes, stack)
    requires x.id < |nodes| && x.start.None? && nodes[x.id].App? && x.id !in ranges
    requires AllOpen(nodes, out, ranges, stack + [x])
    requires start == |out + Space(x)|
    ensures ValidItems(nodes, stack + OpenItems(nodes, x.id, start))
    ensures AllOpen(nodes, out + OpenText(nodes, x), ranges, stack + OpenItems(nodes, x.id, start))
  {
    var items := OpenItems(nodes, x.id, start);
    var out' := out + OpenText(nodes, x);
    OpenItemsPrint(nodes, x.id, start);
    forall j | 0 <= j < |stack|
      ensures OpenBelow(nodes, out', ranges, stack, items, j)
    {
      assert (stack + [x])[j] == stack[j] && (stack + [x])[j + 1..] == stack[j + 1..] + [x];
      OpenKeepsOpen1(nodes, out, ranges, stack[j], stack[j + 1..], x, start);
    }
    forall j | 0 <= j < |items| ensures Open(nodes, out', ranges, items[j], items[j + 1..]) {
      if j == 0 {
        OpenIsOpen(nodes, out, ranges, x, start);
        assert items[1..] == ChildItems(nodes[x.id].args, 0);
      }
    }
    AllOpenConcat(nodes, out', ranges, stack, items);
  }

  // Entry `j` of `a` is open when `b` is put on top.
  ghost predicate OpenBelow(nodes: seq<Term>, out: string, ranges: Ranges, a: seq<Item>, b: seq<Item>, j: nat)
    requires Closed(nodes) && j < |a|
  {
    a[j].id < |nodes| && ValidItems(nodes, a[j + 1..] + b) && Open(nodes, out, ranges, a[j], a[j + 1..] + b)
  }

  lemma {:induction false} AllOpenConcat(nodes: seq<Term>, out: string, ranges: Ranges, a: seq<Item>, b: seq<Item>)
    requires Closed(nodes) && ValidItems(nodes, a) && ValidItems(nodes, b) && AllOpen(nodes, out, ranges, b)
    requires forall j :: 0 <= j < |a| ==> OpenBelow(nodes, out, ranges, a, b, j)
    ensures ValidItems(nodes, a + b) && AllOpen(nodes, out, ranges, a + b)
  {
    forall j | 0 <= j < |a + b| ensures Open(nodes, out, ranges, (a + b)[j], (a + b)[j + 1..]) {
      if j < |a| {
        assert OpenBelow(nodes, out, ranges, a, b, j);
        assert (a + b)[j + 1..] == a[j + 1..] + b;
      } else {
        assert (a + b)[j] == b[j - |a|] && (a + b)[j + 1..] == b[j - |a| + 1..];
      }
    }
  }

  // What the printing loop keeps, `text` being the text to produce.
  ghost predicate Printing(nodes: seq<Term>, text: string, out: string, stack: seq<Item>, ranges: Ranges)
    requires Closed(nodes)
  {
    && ValidItems(nodes, stack)
    && out + Remaining(nodes, stack) == text
    && RangesHold(nodes, out, ranges)
    && AllOpen(nodes, out, ranges, stack)
  }

  lemma {:induction false} RangesGrow(nodes: seq<Term>, out: string, w: string, ranges: Ranges)
    requires Closed(nodes) && RangesHold(nodes, out, ranges)
    ensures RangesHold(nodes, out + w, ranges)
  {
    forall id | id in ranges ensures (out + w)[ranges[id].0..ranges[id].1] == Print(nodes, id) {
      assert (out + w)[ranges[id].0..ranges[id].1] == out[ranges[id].0..ranges[id].1];
    }
  }

  lemma {:induction false} ItemsBelow(nodes: seq<Term>, stack: seq<Item>, x: Item)
    requires ValidItems(nodes, stack + [x])
    ensures ValidItems(nodes, stack) && ValidItem(nodes, x)
  {
    assert (stack + [x])[|stack|] == x;
    forall i | 0 <= i < |stack| ensures ValidItem(nodes, stack[i]) { assert (stack + [x])[i] == stack[i]; }
  }

  lemma {:induction false} StepWrite(nodes: seq<Term>, text: string, out: string, stack: seq<Item>, x: Item, ranges: Ranges, w: string)
    requires Closed(nodes) && Printing(nodes, text, out, stack + [x], ranges)
    requires ValidItem(nodes, x) && w == ItemOutput(nodes, x)
    ensures Printing(nodes, text, out + w, stack, ranges)
    ensures |Remaining(nodes, stack)| <= |Remaining(nodes, stack + [x])|
  {
    ItemsBelow(nodes, stack, x);
    RemainingPush(nodes, stack, x);
    Regroup3(out, w, Remaining(nodes, stack));
    RangesGrow(nodes, out, w, ranges);
    PopKeepsOpen(nodes, out, ranges, stack, x, out + w, ranges);
  }

  lemma {:induction false} StepFinish(nodes: seq<Term>, text: string, out: string, stack: seq<Item>, x: Item, ranges: Ranges, w: string, start: nat)
    requires Closed(nodes) && Printing(nodes, text, out, stack + [x], ranges)
    requires ValidItem(nodes, x) && w == ItemOutput(nodes, x)
    requires start <= |out + w| && (out + w)[start..] == Print(nodes, x.id)
    ensures Printing(nodes, text, out + w, stack, ranges[x.id := (start, |out + w|)])
    ensures |Remaining(nodes, stack)| <= |Remaining(nodes, stack + [x])|
  {
    StepWrite(nodes, text, out, stack, x, ranges, w);
    ItemsBelow(nodes, stack, x);
    PopKeepsOpen(nodes, out, ranges, stack, x, out + w, ranges[x.id := (start, |out + w|)]);
  }

  lemma {:induction false} StepOpen(nodes: seq<Term>, text: string, out: string, stack: seq<Item>, x: Item, ranges: Ranges)
    requires Closed(nodes) && Printing(nodes, text, out, stack + [x], ranges)
    requires ValidItem(nodes, x) && x.start.None? && nodes[x.id].App? && x.id !in ranges
    ensures var stack' := stack + OpenItems(nodes, x.id, |out + Space(x)|);
            Printing(nodes, text, out + OpenText(nodes, x), stack', ranges) && |Remaining(nodes, stack')| < |Remaining(nodes, stack + [x])|
  {
    var start := |out + Space(x)|;
    var items := OpenItems(nodes, x.id, start);
    ItemsBelow(nodes, stack, x);
    RemainingPush(nodes, stack, x);
    OpenKeepsOpen(nodes, out, ranges, stack, x, start);
    RangesGrow(nodes, out, OpenText(nodes, x), ranges);
    OpenItemsPrint(nodes, x.id, start);
    RemainingConcat(nodes, stack, items);
    OpenTextSplits(nodes, x, Remaining(nodes, stack));
    Regroup3(out, OpenText(nodes, x), Remaining(nodes, stack + items));
  }

  function Leaf(t: Term): string
    requires !t.App?
  {
    if t.Lit? then t.repr else t.name
  }

  // The three ways an entry leaves the stack; `out` is the output before its space.
  lemma {:induction false} CopyStep(nodes: seq<Term>, text: string, out: string, stack: seq<Item>, x: Item, ranges: Ranges)
    requires Closed(nodes) && Printing(nodes, text, out, stack + [x], ranges) && x.id in ranges
    ensures var o := out + Space(x); var r := ranges[x.id];
            r.0 <= r.1 <= |o| && Printing(nodes, text, o + o[r.0..r.1], stack, ranges)
    ensures ValidItems(nodes, stack) && |Remaining(nodes, stack)| <= |Remaining(nodes, stack + [x])|
  {
    ItemsBelow(nodes, stack, x);
    assert (stack + [x])[|stack|] == x;
    assert Open(nodes, out, ranges, (stack + [x])[|stack|], (stack + [x])[|stack| + 1..]);
    RangesGrow(nodes, out, Space(x), ranges);
    Regroup3(out, Space(x), Print(nodes, x.id));
    StepWrite(nodes, text, out, stack, x, ranges, Space(x) + Print(nodes, x.id));
  }

  lemma {:induction false} LeafStep(nodes: seq<Term>, text: string, out: string, stack: seq<Item>, x: Item, ranges: Ranges)
    requires Closed(nodes) && Printing(nodes, text, out, stack + [x], ranges)
    requires ValidItem(nodes, x) && !nodes[x.id].App?
    ensures var o := out + Space(x); var o' := o + Leaf(nodes[x.id]);
            Printing(nodes, text, o', stack, ranges[x.id := (|o|, |o'|)])
    ensures ValidItems(nodes, stack) && |Remaining(nodes, stack)| <= |Remaining(nodes, stack + [x])|
  {
    ItemsBelow(nodes, stack, x);
    Regroup3(out, Space(x), Leaf(nodes[x.id]));
    SliceAfter(out, Space(x), Leaf(nodes[x.id]));
    StepFinish(nodes, text, out, stack, x, ranges, Space(x) + Leaf(nodes[x.id]), |out + Space(x)|);
  }

  lemma {:induction false} CloseStep(nodes: seq<Term>, text: string, out: string, stack: seq<Item>, x: Item, ranges: Ranges)
    requires Closed(nodes) && Printing(nodes, text, out, stack + [x], ranges)
    requires ValidItem(nodes, x) && x.start.Some?
    ensures x.id !in ranges
    ensures var o' := out + Space(x) + ")";
            Printing(nodes, text, o', stack, ranges[x.id := (x.start.value, |o'|)])
    ensures ValidItems(nodes, stack) && |Remaining(nodes, stack)| <= |Remaining(nodes, stack + [x])|
  {
    ItemsBelow(nodes, stack, x);
    var full := stack + [x];
    assert full[|stack|] == x && full[|stack| + 1..] == [];
    assert Open(nodes, out, ranges, full[|stack|], full[|stack| + 1..]);
    assert out + Space(x) == out;
    var s := x.start.value;
    assert out[s..] + "" + ")" == (out + ")")[s..];
    StepFinish(nodes, text, out, stack, x, ranges, ")", s);
  }

  // ---------------------------------------------------------------- the arena

  // ---------------------------------------------------------------- reading back

  predicate Readable(nodes: seq<Term>) {
    forall i :: 0 <= i < |nodes| ==> ReadableNode(nodes[i])
  }

  predicate ReadableNode(t: Term) {
    match t
    case Lit(r) => IsWord(r)
    case Var(v) => IsWord(v)
    case App(h, _) => IsWord(h)
  }

  function Shape(e: Expr): Sexp
    decreases e, 0
  {
    match e
    case LitExpr(r) => Word(r)
    case VarExpr(v) => Word(v)
    case Call(h, args) => Form(h, Shapes(args))
  }

  function Shapes(es: seq<Expr>): (r: seq<Sexp>)
    ensures |r| == |es| && forall i :: 0 <= i < |es| ==> r[i] == Shape(es[i])
    decreases es, 1
  {
    if es == [] then [] else [Shape(es[0])] + Shapes(es[1..])
  }

  // The trees of the children of `id`.
  function Children(nodes: seq<Term>, id: TermId): (r: seq<Sexp>)
    requires Closed(nodes) && id < |nodes| && nodes[id].App?
    ensures |r| == |nodes[id].args| && forall k :: 0 <= k < |r| ==> nodes[id].args[k] < |nodes| && r[k] == Shape(ToExpr(nodes, nodes[id].args[k]))
    ensures Shape(ToExpr(nodes, id)) == Form(nodes[id].head, r)
  {
    assert WellPlaced(nodes[id], id);
    Shapes(ToExprs(nodes, nodes[id].args, id))
  }

  // ---------------------------------------------------------------- the round trip

  lemma {:induction false} PrintReads(nodes: seq<Term>, id: TermId, rest: string)
    requires Closed(nodes) && Readable(nodes) && id < |nodes| && Ends(rest)
    ensures Read(Print(nodes, id) + rest) == Some(ReadOne(Shape(ToExpr(nodes, id)), rest))
    decreases id, if nodes[id].App? then |nodes[id].args| + 1 else 0
  {
    assert ReadableNode(nodes[id]);
    match nodes[id]
    case Lit(r) => WordIsFront(r, rest);
    case Var(v) => WordIsFront(v, rest);
    case App(h, args) =>
      PrintFromReads(nodes, id, 0, rest);
      ReadForm(h, PrintFrom(nodes, id, 0), rest, Children(nodes, id));
  }

  lemma {:induction false} PrintFromReads(nodes: seq<Term>, id: TermId, k: nat, rest: string)
    requires Closed(nodes) && Readable(nodes) && id < |nodes| && nodes[id].App? && k <= |nodes[id].args|
    ensures ReadForms(PrintFrom(nodes, id, k) + ")" + rest) == Some(ReadMany(Children(nodes, id)[k..], rest))
    ensures PrintFrom(nodes, id, k) == "" || PrintFrom(nodes, id, k)[0] == ' '
    decreases id, |nodes[id].args| - k
  {
    var args := nodes[id].args;
    if k == |args| {
      ReadEnd(rest);
      assert Children(nodes, id)[k..] == [];
    } else {
      assert WellPlaced(nodes[id], id);
      var others := PrintFrom(nodes, id, k + 1);
      PrintFromReads(nodes, id, k + 1, rest);
      PrintReads(nodes, args[k], others + ")" + rest);
      var kids := Children(nodes, id);
      ReadNextForm(Print(nodes, args[k]), others, rest, kids[k], kids[k + 1..]);
      assert [kids[k]] + kids[k + 1..] == kids[k..];
    }
  }

  // What is printed reads back as the term's tree.
  lemma {:induction false} PrintRoundTrip(nodes: seq<Term>, id: TermId)
    requires Closed(nodes) && Readable(nodes) && id < |nodes|
    ensures Read(Print(nodes, id)) == Some(ReadOne(Shape(ToExpr(nodes, id)), ""))
  {
    assert Print(nodes, id) + "" == Print(nodes, id);
    PrintReads(nodes, id, "");
  }

  class TermDag {
    var nodes: seq<Term>

    predicate Valid() reads this { WellFormed(nodes) }

    constructor ()
      ensures Valid() && nodes == []
    {
      nodes := [];
    }

    // The node's index, inserting it at the end when it is new.
    method AddNode(node: Term) returns (id: TermId)
      requires Valid() && WellPlaced(node, |nodes|)
      modifies this
      ensures Valid() && id < |nodes| && nodes[id] == node
      ensures nodes == if node in old(nodes) then old(nodes) else old(nodes) + [node]
    {
      id := 0;
      while id < |nodes|
        invariant id <= |nodes| && node !in nodes[..id]
      {
        if nodes[id] == node { return; }
        id := id + 1;
      }
      assert nodes[..id] == nodes;
      nodes := nodes + [node];
    }

    method ExprToTerm(expr: Expr) returns (id: TermId)
      requires Valid()
      modifies this
      ensures Valid() && IsPrefix(old(nodes), nodes)
      ensures id < |nodes| && ToExpr(nodes, id) == expr
      decreases expr
    {
      match expr {
        case LitExpr(r) => id := AddNode(Lit(r));
        case VarExpr(v) => id := AddNode(Var(v));
        case Call(op, args) =>
          var ids: seq<TermId> := [];
          for i := 0 to |args|
            invariant Valid() && IsPrefix(old(nodes), nodes) && |ids| == i
            invariant forall k :: 0 <= k < i ==> ids[k] < |nodes| && ToExpr(nodes, ids[k]) == args[k]
          {
            ghost var before := nodes;
            var c := ExprToTerm(args[i]);
            IdsStable(before, nodes, ids, args);
            ids := ids + [c];
          }
          ghost var before := nodes;
          id := AddNode(App(op, ids));
          IdsStable(before, nodes, ids, args);
          assert WellPlaced(nodes[id], id);
          assert ToExprs(nodes, ids, id) == args;
      }
    }

    // Prints with an explicit stack and copies the text of terms already printed.
    method ToString(term: TermId) returns (result: string)
      requires Valid() && term < |nodes|
      ensures result == Print(nodes, term)
      ensures Readable(nodes) ==> Read(result) == Some(ReadOne(Shape(ToExpr(nodes, term)), ""))
    {
      result := "";
      var ranges: Ranges := map[];
      var stack := [Item(term, false, None)];
      ghost var text := Print(nodes, term);
      RemainingOne(nodes, stack[0]);
      while stack != []
        invariant Printing(nodes, text, result, stack, ranges)
        decreases |Remaining(nodes, stack)|, |stack|
      {
        ghost var out := result;
        var x := stack[|stack| - 1];
        assert ValidItem(nodes, x) && stack == stack[..|stack| - 1] + [x];
        stack := stack[..|stack| - 1];
        if x.spaceBefore {
          result := result + " ";
        }
        assert result == out + Space(x);
        if x.id in ranges {
          CopyStep(nodes, text, out, stack, x, ranges);
          result := result + result[ranges[x.id].0..ranges[x.id].1];
          continue;
        }
        var start := x.start;
        match nodes[x.id] {
          case App(name, _) =>
            if start.Some? {
              CloseStep(nodes, text, out, stack, x, ranges);
              result := result + ")";
            } else {
              StepOpen(nodes, text, out, stack, x, ranges);
              Regroup3(out, Space(x), "(" + name);
              stack := PushOpen(stack, x.id, |result|);
              result := result + ("(" + name);
            }
          case Lit(_) =>
            LeafStep(nodes, text, out, stack, x, ranges);
            start := Some(|result|);
            result := result + Leaf(nodes[x.id]);
          case Var(_) =>
            LeafStep(nodes, text, out, stack, x, ranges);
            start := Some(|result|);
            result := result + Leaf(nodes[x.id]);
        }
        if start.Some? {
          ranges := ranges[x.id := (start.value, |result|)];
        }
      }
      if Readable(nodes) { PrintRoundTrip(nodes, term); }
    }

    method PushOpen(stack0: seq<Item>, id: TermId, begin: nat) returns (stack: seq<Item>)
      requires id < |nodes| && nodes[id].App?
      ensures stack == stack0 + OpenItems(nodes, id, begin)
    {
      stack := stack0 + [Item(id, false, Some(begin))];
      var k := |nodes[id].args|;
      while k > 0
        invariant 0 <= k <= |nodes[id].args|
        invariant stack == stack0 + ([Item(id, false, Some(begin))] + ChildItems(nodes[id].args, k))
      {
        k := k - 1;
        stack := stack + [Item(nodes[id].args[k], true, None)];
      }
    }
  }
}
