/** What is left to match at a node of the code: a list of pieces and
    endings of enclosing constructs, laid out one after the other. */
module RegexTodo {
  import opened Common
  import opened RegexSyntax
  import opened RegexOrder
  import opened RegexCode

  /** A piece; a choice at one of its branches; the end of a group; an empty
      alternative; and, of y* and y+ that are not simple, the BACK of y*, the
      BRANCH behind y in y+, and the BACK of y+. */
  datatype Item =
    | Piece(x: Re) | Choice(a: Alts) | Shut(no: nat) | Null
    | Again(y: Re) | Loop(y: Re) | Repeat(y: Re)

  datatype Todo = Todo(item: Item, out: nat)

  ghost predicate EndMark(prog: seq<byte>, p: nat) {
    p + 3 <= |prog| && (prog[p] == END || CLOSE < prog[p] < CLOSE + NSUBEXP)
  }

  ghost predicate ItemLaid(prog: seq<byte>, p: nat, item: Item, out: nat) {
    match item
    case Piece(x) => Good(x) && Laid(prog, p, x, out)
    case Choice(a) =>
      GoodAlts(a) && AltsLaid(prog, p, a, out, Count(a), out) && EndMark(prog, out) && p + AltsSize(a) <= out
    case Shut(no) => 1 <= no < NSUBEXP && Node(prog, p, CLOSE + no, out)
    case Null => Node(prog, p, NOTHING, out)
    case Again(y) => Good(Star(y)) && !Simple(y) && 3 + Size(y) <= p && Laid(prog, p - 3 - Size(y), Star(y), out)
    case Loop(y) => Good(Plus(y)) && !Simple(y) && Size(y) <= p && Laid(prog, p - Size(y), Plus(y), out)
    case Repeat(y) => Good(Plus(y)) && !Simple(y) && 3 + Size(y) <= p && Laid(prog, p - 3 - Size(y), Plus(y), out)
  }

  ghost predicate TodoLaid(prog: seq<byte>, p: nat, todo: seq<Todo>)
    decreases |todo|
  {
    if todo == [] then p + 3 <= |prog| && prog[p] == END
    else ItemLaid(prog, p, todo[0].item, todo[0].out) && TodoLaid(prog, todo[0].out, todo[1..])
  }

  // ----------------------------------------------------------------- meaning

  ghost function ItemEnds(item: Item, t: seq<byte>, i: nat): (ends: seq<nat>)
    requires i <= |t|
    ensures Within(ends, i, t)
  {
    match item
    case Piece(x) => Ends(x, t, i)
    case Choice(a) => AltsEnds(a, t, i)
    case Shut(_) => [i]
    case Null => [i]
    case Again(y) => StarEnds(y, t, i)
    case Loop(y) => StarEnds(y, t, i)
    case Repeat(y) => Ends(Plus(y), t, i)
  }

  /** Where the whole list leads from `i`, best first. */
  ghost function GoEnds(todo: seq<Todo>, t: seq<byte>, i: nat): (ends: seq<nat>)
    requires i <= |t|
    ensures Within(ends, i, t)
    decreases |todo|, 0, 0
  {
    if todo == [] then [i] else GoAll(todo[1..], t, i, ItemEnds(todo[0].item, t, i))
  }

  ghost function GoAll(todo: seq<Todo>, t: seq<byte>, i: nat, ks: seq<nat>): (ends: seq<nat>)
    requires i <= |t| && Within(ks, i, t)
    ensures Within(ends, i, t)
    decreases |todo|, 1, |ks|
  {
    if ks == [] then [] else GoEnds(todo, t, ks[0]) + GoAll(todo, t, i, ks[1..])
  }

  /** From `i` the one list leads where the other leads from `i'`. */
  ghost predicate Equiv(todo: seq<Todo>, t: seq<byte>, i: nat, todo': seq<Todo>, i': nat)
    requires i <= i' <= |t|
  {
    GoEnds(todo, t, i) == GoEnds(todo', t, i')
  }

  ghost predicate Stuck(todo: seq<Todo>, t: seq<byte>, i: nat)
    requires i <= |t|
  {
    GoEnds(todo, t, i) == []
  }

  /** The list leads from `i` to `j`, and nowhere better. */
  ghost predicate Leads(todo: seq<Todo>, t: seq<byte>, i: nat, j: nat)
    requires i <= |t|
  {
    GoEnds(todo, t, i) != [] && GoEnds(todo, t, i)[0] == j
  }

  // ----------------------------------------------------------------- measure

  function Weight(x: Re): (n: nat)
    ensures n >= 1
  {
    match x
    case Group(_, a) => 3 + AltsWeight(a)
    case Star(y) => Weight(y) + 4
    case Plus(y) => Weight(y) + 2
    case Opt(y) => Weight(y) + 4
    case _ => 1
  }

  function BodyWeight(b: Branch): (n: nat)
    ensures n >= 1
  {
    if b.Nil? then 1 else Weight(b.p) + BodyWeight(b.rest)
  }

  function AltsWeight(a: Alts): nat {
    2 + BodyWeight(a.b) + if a.Or? then AltsWeight(a.rest) else 0
  }

  function ItemWeight(item: Item): (n: nat)
    ensures n >= 1
  {
    match item
    case Piece(x) => Weight(x)
    case Choice(a) => AltsWeight(a)
    case Shut(_) => 1
    case Null => 1
    case Again(y) => Weight(y) + 5
    case Loop(y) => Weight(y) + 6
    case Repeat(y) => Weight(y) + 3
  }

  /** Items that cannot be passed without a character. */
  predicate Wide(item: Item) {
    match item
    case Piece(x) => HasWidth(x)
    case Choice(a) => AltsWidth(a)
    case Repeat(_) => true
    case _ => false
  }

  /** How much can be done before the next character has to be read. */
  function Pot(todo: seq<Todo>): nat {
    if todo == [] then 0 else ItemWeight(todo[0].item) + if Wide(todo[0].item) then 0 else Pot(todo[1..])
  }

  // ------------------------------------------------------------ single steps

  lemma GoOne(todo: seq<Todo>, t: seq<byte>, i: nat, k: nat)
    requires i <= k <= |t|
    ensures GoAll(todo, t, i, [k]) == GoEnds(todo, t, k)
  {
    hide GoEnds;
    assert GoAll(todo, t, i, [k]) == GoEnds(todo, t, k) + GoAll(todo, t, i, []);
  }

  lemma {:induction false} GoJoin(todo: seq<Todo>, t: seq<byte>, i: nat, a: seq<nat>, b: seq<nat>)
    requires i <= |t| && Within(a, i, t) && Within(b, i, t)
    ensures GoAll(todo, t, i, a + b) == GoAll(todo, t, i, a) + GoAll(todo, t, i, b)
    decreases |a|
  {
    hide GoEnds;
    if a == [] {
      assert a + b == b;
    } else {
      GoJoin(todo, t, i, a[1..], b);
      assert (a + b)[1..] == a[1..] + b;
    }
  }

  /** It does not matter where one comes from. */
  lemma {:induction false} GoFrom(todo: seq<Todo>, t: seq<byte>, i: nat, i': nat, ks: seq<nat>)
    requires i <= |t| && i' <= |t| && Within(ks, i, t) && Within(ks, i', t)
    ensures GoAll(todo, t, i, ks) == GoAll(todo, t, i', ks)
    decreases |ks|
  {
    hide GoEnds;
    if ks != [] { GoFrom(todo, t, i, i', ks[1..]); }
  }

  lemma Split(item: Item, out: nat, rest: seq<Todo>, t: seq<byte>, i: nat)
    requires i <= |t|
    ensures GoEnds([Todo(item, out)] + rest, t, i) == GoAll(rest, t, i, ItemEnds(item, t, i))
  {
    hide GoAll, ItemEnds;
    assert ([Todo(item, out)] + rest)[1..] == rest;
  }

  /** An item that is passed in exactly one way. */
  lemma Passed(todo: seq<Todo>, t: seq<byte>, i: nat, i': nat)
    requires todo != [] && i <= i' <= |t| && ItemEnds(todo[0].item, t, i) == [i']
    ensures Equiv(todo, t, i, todo[1..], i')
  {
    hide GoAll, ItemEnds;
    GoOne(todo[1..], t, i, i');
  }

  lemma NotPassed(todo: seq<Todo>, t: seq<byte>, i: nat)
    requires todo != [] && i <= |t| && ItemEnds(todo[0].item, t, i) == []
    ensures Stuck(todo, t, i)
  {
    hide ItemEnds;
    assert GoAll(todo[1..], t, i, []) == [];
  }

  /** One item for another with the same meaning. */
  lemma Swap(item: Item, out: nat, item': Item, out': nat, rest: seq<Todo>, t: seq<byte>, i: nat)
    requires i <= |t| && ItemEnds(item, t, i) == ItemEnds(item', t, i)
    ensures Equiv([Todo(item, out)] + rest, t, i, [Todo(item', out')] + rest, i)
  {
    hide GoAll, ItemEnds;
    Split(item, out, rest, t, i);
    Split(item', out', rest, t, i);
  }

  /** An item, from each of several places. */
  ghost function ItemAll(item: Item, t: seq<byte>, i: nat, ks: seq<nat>): (ends: seq<nat>)
    requires i <= |t| && Within(ks, i, t)
    ensures Within(ends, i, t)
  {
    if ks == [] then [] else ItemEnds(item, t, ks[0]) + ItemAll(item, t, i, ks[1..])
  }

  lemma {:induction false} SplitAll(item: Item, out: nat, rest: seq<Todo>, t: seq<byte>, i: nat, ks: seq<nat>)
    requires i <= |t| && Within(ks, i, t)
    ensures GoAll([Todo(item, out)] + rest, t, i, ks) == GoAll(rest, t, i, ItemAll(item, t, i, ks))
    decreases |ks|
  {
    hide ItemEnds, GoEnds;
    if ks != [] {
      SplitAll(item, out, rest, t, i, ks[1..]);
      Split(item, out, rest, t, ks[0]);
      GoFrom(rest, t, ks[0], i, ItemEnds(item, t, ks[0]));
      GoJoin(rest, t, i, ItemEnds(item, t, ks[0]), ItemAll(item, t, i, ks[1..]));
    }
  }

  /** One item for two in a row. */
  lemma Expand(item: Item, out: nat, a: Item, m: nat, b: Item, out': nat, rest: seq<Todo>, t: seq<byte>, i: nat)
    requires i <= |t| && ItemEnds(item, t, i) == ItemAll(b, t, i, ItemEnds(a, t, i))
    ensures Equiv([Todo(item, out)] + rest, t, i, [Todo(a, m), Todo(b, out')] + rest, i)
  {
    hide GoAll, ItemEnds, ItemAll;
    var two := [Todo(b, out')] + rest;
    assert [Todo(a, m), Todo(b, out')] + rest == [Todo(a, m)] + two;
    Split(item, out, rest, t, i);
    Split(a, m, two, t, i);
    SplitAll(b, out', rest, t, i, ItemEnds(a, t, i));
  }

  /** Passing an item that takes nothing leads nowhere else. */
  lemma {:induction false} NullAll(item: Item, t: seq<byte>, i: nat, ks: seq<nat>)
    requires (item.Null? || item.Shut?) && i <= |t| && Within(ks, i, t)
    ensures ItemAll(item, t, i, ks) == ks
    decreases |ks|
  {
    if ks != [] {
      NullAll(item, t, i, ks[1..]);
      assert ks == [ks[0]] + ks[1..];
    }
  }

  /** Going on with y, from places farther on, is what follows y in y* and y+. */
  lemma {:induction false} AgainAll(item: Item, t: seq<byte>, i: nat, ks: seq<nat>)
    requires (item.Again? || item.Loop?) && i <= |t| && Within(ks, i, t) && forall n :: 0 <= n < |ks| ==> ks[n] > i
    ensures ItemAll(item, t, i, ks) == AgainEnds(item.y, t, i, ks)
    decreases |ks|
  {
    hide StarEnds;
    if ks != [] {
      AgainAll(item, t, i, ks[1..]);
    }
  }
}
