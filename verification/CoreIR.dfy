// Terms and atoms of the core representation of rules. Spans are dropped: equality ignores them.
module CoreIR {
  type Sort = string

  const UNIT_SORT: Sort := "Unit"

  datatype Literal = Unit | Int(i: int) | Bool(b: bool) | String(s: string)

  function LiteralSort(l: Literal): Sort {
    match l
    case Unit => UNIT_SORT
    case Int(_) => "i64"
    case Bool(_) => "bool"
    case String(_) => "String"
  }

  datatype Leaf = Leaf(name: string, sort: Sort)

  datatype Term = Var(v: Leaf) | Lit(l: Literal) | Global(g: Leaf)

  function SortOf(t: Term): Sort {
    match t
    case Var(v) => v.sort
    case Lit(l) => LiteralSort(l)
    case Global(g) => g.sort
  }

  // A resolved call; the sorts identify the specialization of a primitive.
  datatype Head =
    | Func(name: string, output: Sort)
    | Primitive(name: string, inputs: seq<Sort>, output: Sort)

  function ValueEq(a: Term, b: Term): Head {
    Primitive("value-eq", [SortOf(a), SortOf(b)], UNIT_SORT)
  }

  predicate IsValueEq(h: Head) {
    h.Primitive? && h.name == "value-eq"
  }

  datatype HeadOrEq = Eq | Call(head: Head)

  // For a call the last argument is the output.
  datatype Atom = Atom(head: HeadOrEq, args: seq<Term>)

  // Equalities have two arguments and calls at least their output.
  predicate WellShaped(a: Atom) {
    if a.head.Eq? then |a.args| == 2 else |a.args| > 0
  }

  function Inputs(a: Atom): seq<Term>
    requires WellShaped(a) && a.head.Call?
  {
    a.args[..|a.args| - 1]
  }

  function Output(a: Atom): Term
    requires WellShaped(a) && a.head.Call?
  {
    a.args[|a.args| - 1]
  }
}
