// A reader of words and parentheses, to read printed terms back with. It knows nothing of the printer.
// Words have no quotes: literals with spaces or parentheses in them are left out.
//
module SexpModel {
  import opened Options

  // A literal and a variable are both words.
  datatype Sexp = Word(text: string) | Form(head: string, args: seq<Sexp>)

  predicate Delimits(c: char) {
    c == ' ' || c == '(' || c == ')'
  }

  // The longest word at the front.
  function WordAt(s: string): (w: string)
    ensures |w| <= |s|
  {
    if s == "" || Delimits(s[0]) then "" else [s[0]] + WordAt(s[1..])
  }

  datatype ReadOne = ReadOne(value: Sexp, rest: string)
  datatype ReadMany = ReadMany(values: seq<Sexp>, rest: string)

  // `word` or `(head form ... form)`.
  function Read(s: string): (r: Option<ReadOne>)
    ensures r.Some? ==> |r.value.rest| < |s|
    decreases |s|, 1
  {
    if s != "" && s[0] == '(' then
      var head := WordAt(s[1..]);
      var q := ReadForms(s[1..][|head|..]);
      if q.None? then None else Some(ReadOne(Form(head, q.value.values), q.value.rest))
    else
      var w := WordAt(s);
      if w == "" then None else Some(ReadOne(Word(w), s[|w|..]))
  }

  // ` form ... form)`.
  function ReadForms(s: string): (r: Option<ReadMany>)
    ensures r.Some? ==> |r.value.rest| < |s|
    decreases |s|, 0
  {
    if s == "" then None
    else if s[0] == ')' then Some(ReadMany([], s[1..]))
    else if s[0] != ' ' then None
    else
      var q := Read(s[1..]);
      if q.None? then None
      else
        var rest := ReadForms(q.value.rest);
        if rest.None? then None else Some(ReadMany([q.value.value] + rest.value.values, rest.value.rest))
  }

  // ---------------------------------------------------------------- what is read

  predicate IsWord(w: string) {
    w != "" && forall i :: 0 <= i < |w| ==> !Delimits(w[i])
  }

  predicate Ends(rest: string) {
    rest == "" || Delimits(rest[0])
  }

  lemma {:induction false} WordIsFront(w: string, rest: string)
    requires (forall i :: 0 <= i < |w| ==> !Delimits(w[i])) && Ends(rest)
    ensures WordAt(w + rest) == w && (w + rest)[|w|..] == rest
  {
    if w == "" {
      assert w + rest == rest;
    } else {
      assert (w + rest)[1..] == w[1..] + rest;
      WordIsFront(w[1..], rest);
    }
  }

  lemma {:induction false} ReadForm(h: string, forms: string, rest: string, values: seq<Sexp>)
    requires IsWord(h) && ReadForms(forms + ")" + rest) == Some(ReadMany(values, rest)) && (forms == "" || forms[0] == ' ')
    ensures Read(("(" + h) + forms + ")" + rest) == Some(ReadOne(Form(h, values), rest))
  {
    ReadHead(h, forms + ")" + rest, rest, values);
    ParenthesisInFront(h, forms, rest);
  }

  lemma {:induction false} ReadHead(h: string, tail: string, rest: string, values: seq<Sexp>)
    requires IsWord(h) && ReadForms(tail) == Some(ReadMany(values, rest)) && Ends(tail)
    ensures Read("(" + (h + tail)) == Some(ReadOne(Form(h, values), rest))
  {
    var s := "(" + (h + tail);
    assert s[0] == '(' && s[1..] == h + tail;
    WordIsFront(h, tail);
  }

  lemma {:induction false} ParenthesisInFront(h: string, forms: string, rest: string)
    ensures ("(" + h) + forms + ")" + rest == "(" + (h + (forms + ")" + rest))
  {}

  lemma {:induction false} ReadNext(first: string, tail: string, value: Sexp, values: seq<Sexp>, rest: string)
    requires Read(first + tail) == Some(ReadOne(value, tail)) && ReadForms(tail) == Some(ReadMany(values, rest))
    ensures ReadForms(" " + (first + tail)) == Some(ReadMany([value] + values, rest))
  {
    var s := " " + (first + tail);
    assert s[0] == ' ' && s[1..] == first + tail;
  }

  lemma {:induction false} ReadNextForm(first: string, others: string, rest: string, value: Sexp, values: seq<Sexp>)
    requires Read(first + (others + ")" + rest)) == Some(ReadOne(value, others + ")" + rest))
    requires ReadForms(others + ")" + rest) == Some(ReadMany(values, rest))
    ensures ReadForms((" " + first + others) + ")" + rest) == Some(ReadMany([value] + values, rest))
  {
    ReadNext(first, others + ")" + rest, value, values, rest);
    SpaceInFront(first, others, rest);
  }

  lemma {:induction false} SpaceInFront(first: string, others: string, rest: string)
    ensures (" " + first + others) + ")" + rest == " " + (first + (others + ")" + rest))
  {}

  lemma {:induction false} ReadEnd(rest: string)
    ensures ReadForms("" + ")" + rest) == Some(ReadMany([], rest))
  {
    var s := "" + ")" + rest;
    assert s[0] == ')' && s[1..] == rest;
  }
}
