/** The nodes with alternatives: a choice, y* and y? and the end of y+. */
module RegexBranches {
  import opened Common
  import opened RegexSyntax
  import opened RegexOrder
  import opened RegexCode
  import opened RegexTodo

  /** The pieces of a branch, as work to be done. */
  function BodyTodo(at: nat, b: Branch, out: nat): (todo: seq<Todo>)
    ensures todo != []
    decreases b
  {
    if b.Nil? then [Todo(Null, out)]
    else if b.rest.Nil? then [Todo(Piece(b.p), out)]
    else [Todo(Piece(b.p), at + Size(b.p))] + BodyTodo(at + Size(b.p), b.rest, out)
  }

  function ChoiceOpts(at: nat, a: Alts, out: nat): (opts: seq<seq<Todo>>)
    ensures |opts| == Count(a)
    decreases a
  {
    [BodyTodo(at + 3, a.b, out)] + if a.Or? then ChoiceOpts(at + 3 + BodySize(a.b), a.rest, out) else []
  }

  /** Items that start with a BRANCH. */
  predicate Branching(item: Item) {
    item.Choice? || item.Loop? || (item.Piece? && (item.x.Opt? || (item.x.Star? && !Simple(item.x.x))))
  }

  /** What there is to choose from. */
  function Opts(p: nat, item: Item, out: nat): seq<seq<Todo>>
    requires Branching(item)
  {
    match item
    case Choice(a) => ChoiceOpts(p, a, out)
    case Loop(y) => [[Todo(Repeat(y), out)], [Todo(Null, out)]]
    case Piece(x) =>
      if x.Star? then [[Todo(Piece(x.x), p + 3 + Size(x.x)), Todo(Again(x.x), out)], [Todo(Null, out)]]
      else [[Todo(Piece(x.x), p + 6 + Size(x.x)), Todo(Null, out)], [Todo(Null, out)]]
  }

  /** A chain of BRANCH nodes, each in front of one of the options. */
  ghost predicate BranchesLaid(prog: seq<byte>, p: nat, opts: seq<seq<Todo>>, rest: seq<Todo>)
    requires opts != []
    decreases |opts|
  {
    && p + 3 <= |prog| && prog[p] == BRANCH && TodoLaid(prog, p + 3, opts[0] + rest)
    && p < RegNext(prog, p) && RegNext(prog, p) + 3 <= |prog|
    && if |opts| == 1 then prog[RegNext(prog, p)] != BRANCH else BranchesLaid(prog, RegNext(prog, p), opts[1..], rest)
  }

  /** Where the options lead, the earlier ones first. */
  ghost function AnyEnds(opts: seq<seq<Todo>>, rest: seq<Todo>, t: seq<byte>, i: nat): (ends: seq<nat>)
    requires i <= |t|
    ensures Within(ends, i, t)
  {
    if opts == [] then [] else GoEnds(opts[0] + rest, t, i) + AnyEnds(opts[1..], rest, t, i)
  }

  // ------------------------------------------------------------------ layout

  lemma TodoCons(prog: seq<byte>, p: nat, item: Item, out: nat, rest: seq<Todo>)
    requires ItemLaid(prog, p, item, out) && TodoLaid(prog, out, rest)
    ensures TodoLaid(prog, p, [Todo(item, out)] + rest)
  {
    assert ([Todo(item, out)] + rest)[1..] == rest;
  }

  lemma {:induction false} BodyTodoLaid(prog: seq<byte>, at: nat, b: Branch, out: nat, rest: seq<Todo>)
    requires GoodBranch(b) && BodyLaid(prog, at, b, out) && TodoLaid(prog, out, rest)
    ensures TodoLaid(prog, at, BodyTodo(at, b, out) + rest)
    decreases b
  {
    hide Laid, TodoLaid, Node, Good;
    if b.Nil? {
      TodoCons(prog, at, Null, out, rest);
    } else if b.rest.Nil? {
      TodoCons(prog, at, Piece(b.p), out, rest);
    } else {
      var m := at + Size(b.p);
      BodyTodoLaid(prog, m, b.rest, out, rest);
      TodoCons(prog, at, Piece(b.p), m, BodyTodo(m, b.rest, out) + rest);
      assert BodyTodo(at, b, out) + rest == [Todo(Piece(b.p), m)] + (BodyTodo(m, b.rest, out) + rest);
    }
  }

  lemma {:induction false} ChoiceLaid(prog: seq<byte>, at: nat, a: Alts, out: nat, rest: seq<Todo>)
    requires GoodAlts(a) && AltsLaid(prog, at, a, out, Count(a), out) && EndMark(prog, out) && at + AltsSize(a) <= out
    requires TodoLaid(prog, out, rest)
    ensures BranchesLaid(prog, at, ChoiceOpts(at, a, out), rest)
    decreases a
  {
    hide TodoLaid, BodyLaid, BodyTodo, BodySize;
    BodyTodoLaid(prog, at + 3, a.b, out, rest);
    if a.Or? {
      var next := at + 3 + BodySize(a.b);
      ChoiceLaid(prog, next, a.rest, out, rest);
      assert ChoiceOpts(at, a, out)[1..] == ChoiceOpts(next, a.rest, out);
    }
  }

  lemma TwoLaid(prog: seq<byte>, p: nat, q: nat, a: seq<Todo>, out: nat, rest: seq<Todo>)
    requires Node(prog, p, BRANCH, q) && p < q && TodoLaid(prog, p + 3, a + rest)
    requires Node(prog, q, BRANCH, q + 3) && Node(prog, q + 3, NOTHING, out) && TodoLaid(prog, out, rest)
    ensures BranchesLaid(prog, p, [a, [Todo(Null, out)]], rest)
  {
    hide TodoLaid;
    TodoCons(prog, q + 3, Null, out, rest);
    var opts := [a, [Todo(Null, out)]];
    assert opts[1..] == [[Todo(Null, out)]];
    assert BranchesLaid(prog, q, opts[1..], rest);
  }

  lemma LoopLaid(prog: seq<byte>, p: nat, y: Re, out: nat, rest: seq<Todo>)
    requires ItemLaid(prog, p, Loop(y), out) && TodoLaid(prog, out, rest)
    ensures BranchesLaid(prog, p, Opts(p, Loop(y), out), rest)
  {
    hide TodoLaid, Node, BranchesLaid, Good;
    TodoCons(prog, p + 3, Repeat(y), out, rest);
    TwoLaid(prog, p, p + 6, [Todo(Repeat(y), out)], out, rest);
  }

  lemma StarParts(prog: seq<byte>, p: nat, y: Re, out: int)
    requires !Simple(y) && Good(Star(y)) && Laid(prog, p, Star(y), out)
    ensures Good(y) && StarNodes(prog, p, Size(y), out) && Laid(prog, p + 3, y, p + 3 + Size(y))
  {
    hide StarNodes, Size;
  }

  lemma OptParts(prog: seq<byte>, p: nat, y: Re, out: int)
    requires Good(Opt(y)) && Laid(prog, p, Opt(y), out)
    ensures Good(y) && OptNodes(prog, p, Size(y), out) && Laid(prog, p + 3, y, p + 6 + Size(y))
  {
    hide OptNodes, Size;
  }

  lemma StarLaid(prog: seq<byte>, p: nat, x: Re, out: nat, rest: seq<Todo>)
    requires x.Star? && !Simple(x.x) && ItemLaid(prog, p, Piece(x), out) && TodoLaid(prog, out, rest)
    ensures BranchesLaid(prog, p, Opts(p, Piece(x), out), rest)
  {
    hide TodoLaid, Node, BranchesLaid, Good, Size, Laid;
    var y, n := x.x, Size(x.x);
    StarParts(prog, p, y, out);
    TodoCons(prog, p + 3 + n, Again(y), out, rest);
    TodoCons(prog, p + 3, Piece(y), p + 3 + n, [Todo(Again(y), out)] + rest);
    var o := [Todo(Piece(y), p + 3 + n), Todo(Again(y), out)];
    assert o + rest == [Todo(Piece(y), p + 3 + n)] + ([Todo(Again(y), out)] + rest);
    TwoLaid(prog, p, p + 6 + n, o, out, rest);
  }

  lemma OptLaid(prog: seq<byte>, p: nat, x: Re, out: nat, rest: seq<Todo>)
    requires x.Opt? && ItemLaid(prog, p, Piece(x), out) && TodoLaid(prog, out, rest)
    ensures BranchesLaid(prog, p, Opts(p, Piece(x), out), rest)
  {
    hide TodoLaid, Node, BranchesLaid, Good, Size, Laid;
    var y, n := x.x, Size(x.x);
    OptParts(prog, p, y, out);
    TodoCons(prog, p + 6 + n, Null, out, rest);
    TodoCons(prog, p + 3, Piece(y), p + 6 + n, [Todo(Null, out)] + rest);
    var o := [Todo(Piece(y), p + 6 + n), Todo(Null, out)];
    assert o + rest == [Todo(Piece(y), p + 6 + n)] + ([Todo(Null, out)] + rest);
    TwoLaid(prog, p, p + 3 + n, o, out, rest);
  }

  lemma OptsLaid(prog: seq<byte>, p: nat, item: Item, out: nat, rest: seq<Todo>)
    requires Branching(item) && ItemLaid(prog, p, item, out) && TodoLaid(prog, out, rest)
    ensures BranchesLaid(prog, p, Opts(p, item, out), rest)
  {
    hide TodoLaid, Laid, AltsLaid, Node, BranchesLaid, AltsSize, Good, GoodAlts;
    match item
    case Choice(a) => ChoiceLaid(prog, p, a, out, rest);
    case Loop(y) => LoopLaid(prog, p, y, out, rest);
    case Piece(x) => if x.Star? { StarLaid(prog, p, x, out, rest); } else { OptLaid(prog, p, x, out, rest); }
  }

  // ----------------------------------------------------------------- meaning

  lemma {:induction false} BodyGoes(at: nat, b: Branch, out: nat, rest: seq<Todo>, t: seq<byte>, i: nat)
    requires i <= |t|
    ensures GoEnds(BodyTodo(at, b, out) + rest, t, i) == GoAll(rest, t, i, BranchEnds(b, t, i))
    decreases b, 0
  {
    hide GoEnds, GoAll, Ends, BranchAll;
    if b.Nil? {
      Split(Null, out, rest, t, i);
    } else if b.rest.Nil? {
      Split(Piece(b.p), out, rest, t, i);
      NilAll(t, i, Ends(b.p, t, i));
    } else {
      var m := at + Size(b.p);
      var more := BodyTodo(m, b.rest, out) + rest;
      assert BodyTodo(at, b, out) + rest == [Todo(Piece(b.p), m)] + more;
      Split(Piece(b.p), m, more, t, i);
      BodyAll(m, b.rest, out, rest, t, i, Ends(b.p, t, i));
    }
  }

  lemma {:induction false} BodyAll(at: nat, b: Branch, out: nat, rest: seq<Todo>, t: seq<byte>, i: nat, ks: seq<nat>)
    requires i <= |t| && Within(ks, i, t)
    ensures GoAll(BodyTodo(at, b, out) + rest, t, i, ks) == GoAll(rest, t, i, BranchAll(b, t, i, ks))
    decreases b, 1, |ks|
  {
    hide GoEnds, BranchEnds, BodyTodo;
    if ks != [] {
      BodyGoes(at, b, out, rest, t, ks[0]);
      BodyAll(at, b, out, rest, t, i, ks[1..]);
      GoFrom(rest, t, ks[0], i, BranchEnds(b, t, ks[0]));
      GoJoin(rest, t, i, BranchEnds(b, t, ks[0]), BranchAll(b, t, i, ks[1..]));
    }
  }

  lemma {:induction false} NilAll(t: seq<byte>, i: nat, ks: seq<nat>)
    requires i <= |t| && Within(ks, i, t)
    ensures BranchAll(Nil, t, i, ks) == ks
    decreases |ks|
  {
    if ks != [] {
      NilAll(t, i, ks[1..]);
      assert ks == [ks[0]] + ks[1..];
    }
  }

  lemma {:induction false} ChoiceGoes(at: nat, a: Alts, out: nat, rest: seq<Todo>, t: seq<byte>, i: nat)
    requires i <= |t|
    ensures AnyEnds(ChoiceOpts(at, a, out), rest, t, i) == GoAll(rest, t, i, AltsEnds(a, t, i))
    decreases a
  {
    hide GoEnds, GoAll, BodyTodo, BodySize, BranchEnds;
    BodyGoes(at + 3, a.b, out, rest, t, i);
    var opts := ChoiceOpts(at, a, out);
    if a.Or? {
      var next := at + 3 + BodySize(a.b);
      ChoiceGoes(next, a.rest, out, rest, t, i);
      assert opts[1..] == ChoiceOpts(next, a.rest, out);
      GoJoin(rest, t, i, BranchEnds(a.b, t, i), AltsEnds(a.rest, t, i));
    } else {
      assert opts[1..] == [];
      assert AnyEnds(opts, rest, t, i) == GoEnds(opts[0] + rest, t, i) + AnyEnds([], rest, t, i);
      assert AltsEnds(a, t, i) == BranchEnds(a.b, t, i) + [] == BranchEnds(a.b, t, i);
    }
  }

  /** Two alternatives, the second of which is empty. */
  lemma TwoGoes(a: seq<Todo>, out: nat, rest: seq<Todo>, t: seq<byte>, i: nat)
    requires i <= |t|
    ensures AnyEnds([a, [Todo(Null, out)]], rest, t, i) == GoEnds(a + rest, t, i) + GoEnds(rest, t, i)
  {
    hide GoEnds, GoAll;
    var opts := [a, [Todo(Null, out)]];
    assert opts[1..] == [[Todo(Null, out)]] && opts[1..][1..] == [];
    Split(Null, out, rest, t, i);
    GoOne(rest, t, i, i);
    assert AnyEnds(opts[1..], rest, t, i) == GoEnds([Todo(Null, out)] + rest, t, i) + AnyEnds([], rest, t, i);
  }

  /** An item that leads where another does and then to `i` itself. */
  lemma OrHere(item: Item, out: nat, todo: seq<Todo>, rest: seq<Todo>, t: seq<byte>, i: nat, ks: seq<nat>)
    requires i <= |t| && Within(ks, i, t) && ItemEnds(item, t, i) == ks + [i]
    requires GoEnds(todo, t, i) == GoAll(rest, t, i, ks)
    ensures GoEnds([Todo(item, out)] + rest, t, i) == GoEnds(todo, t, i) + GoEnds(rest, t, i)
  {
    hide GoEnds, GoAll, ItemEnds;
    Split(item, out, rest, t, i);
    GoJoin(rest, t, i, ks, [i]);
    GoOne(rest, t, i, i);
  }

  /** y* is y and y* again, or nothing. */
  lemma StarGoes(y: Re, m: nat, out: nat, rest: seq<Todo>, t: seq<byte>, i: nat)
    requires Good(y) && HasWidth(y) && i <= |t|
    ensures GoEnds([Todo(Piece(Star(y)), out)] + rest, t, i) ==
      GoEnds([Todo(Piece(y), m), Todo(Again(y), out)] + rest, t, i) + GoEnds(rest, t, i)
  {
    hide GoEnds, GoAll, Good, HasWidth, AgainEnds;
    var more, ks := [Todo(Again(y), out)] + rest, Ends(y, t, i);
    var todo := [Todo(Piece(y), m), Todo(Again(y), out)] + rest;
    assert todo == [Todo(Piece(y), m)] + more;
    Split(Piece(y), m, more, t, i);
    SplitAll(Again(y), out, rest, t, i, ks);
    WidthEnds(y, t, i);
    AgainAll(Again(y), t, i, ks);
    assert Ends(Star(y), t, i) == StarEnds(y, t, i) == AgainEnds(y, t, i, ks) + [i];
    OrHere(Piece(Star(y)), out, todo, rest, t, i, AgainEnds(y, t, i, ks));
  }

  /** The end of y+ is y+ again, or nothing. */
  lemma LoopGoes(y: Re, out: nat, rest: seq<Todo>, t: seq<byte>, i: nat)
    requires i <= |t|
    ensures GoEnds([Todo(Loop(y), out)] + rest, t, i)
      == GoEnds([Todo(Repeat(y), out)] + rest, t, i) + GoEnds(rest, t, i)
  {
    hide GoEnds, GoAll, AgainEnds;
    Split(Repeat(y), out, rest, t, i);
    OrHere(Loop(y), out, [Todo(Repeat(y), out)] + rest, rest, t, i, Ends(Plus(y), t, i));
  }

  lemma OptGoes(y: Re, m: nat, out: nat, rest: seq<Todo>, t: seq<byte>, i: nat)
    requires i <= |t|
    ensures GoEnds([Todo(Piece(Opt(y)), out)] + rest, t, i) ==
      GoEnds([Todo(Piece(y), m), Todo(Null, out)] + rest, t, i) + GoEnds(rest, t, i)
  {
    hide GoEnds, GoAll;
    var more, ks := [Todo(Null, out)] + rest, Ends(y, t, i);
    var todo := [Todo(Piece(y), m), Todo(Null, out)] + rest;
    assert todo == [Todo(Piece(y), m)] + more;
    Split(Piece(y), m, more, t, i);
    SplitAll(Null, out, rest, t, i, ks);
    NullAll(Null, t, i, ks);
    OrHere(Piece(Opt(y)), out, todo, rest, t, i, ks);
  }

  /** A branching item leads where its options lead, in their order. */
  lemma OptsGo(p: nat, item: Item, out: nat, rest: seq<Todo>, t: seq<byte>, i: nat)
    requires Branching(item) && i <= |t|
    requires item.Piece? && item.x.Star? ==> Good(item.x.x) && HasWidth(item.x.x)
    ensures GoEnds([Todo(item, out)] + rest, t, i) == AnyEnds(Opts(p, item, out), rest, t, i)
  {
    hide GoEnds, AnyEnds, Good, HasWidth, ChoiceOpts;
    match item
    case Choice(a) =>
      ChoiceGoes(p, a, out, rest, t, i);
      Split(item, out, rest, t, i);
    case Loop(y) =>
      TwoGoes([Todo(Repeat(y), out)], out, rest, t, i);
      LoopGoes(y, out, rest, t, i);
    case Piece(x) =>
      var y, n := x.x, Size(x.x);
      if x.Star? {
        TwoGoes([Todo(Piece(y), p + 3 + n), Todo(Again(y), out)], out, rest, t, i);
        StarGoes(y, p + 3 + n, out, rest, t, i);
      } else {
        TwoGoes([Todo(Piece(y), p + 6 + n), Todo(Null, out)], out, rest, t, i);
        OptGoes(y, p + 6 + n, out, rest, t, i);
      }
  }

  // ----------------------------------------------------------------- measure

  lemma PotCons(item: Item, out: nat, rest: seq<Todo>)
    ensures Pot([Todo(item, out)] + rest) == ItemWeight(item) + if Wide(item) then 0 else Pot(rest)
  {
    assert ([Todo(item, out)] + rest)[1..] == rest;
  }

  lemma {:induction false} BodyPot(at: nat, b: Branch, out: nat, rest: seq<Todo>)
    ensures Pot(BodyTodo(at, b, out) + rest) <= BodyWeight(b) + if BranchWidth(b) then 0 else Pot(rest)
    decreases b
  {
    hide Pot;
    if b.Nil? {
      PotCons(Null, out, rest);
    } else if b.rest.Nil? {
      PotCons(Piece(b.p), out, rest);
      assert !BranchWidth(b.rest);
    } else {
      var m := at + Size(b.p);
      var more := BodyTodo(m, b.rest, out) + rest;
      assert BodyTodo(at, b, out) + rest == [Todo(Piece(b.p), m)] + more;
      PotCons(Piece(b.p), m, more);
      BodyPot(m, b.rest, out, rest);
    }
  }

  lemma {:induction false} ChoicePot(at: nat, a: Alts, out: nat, rest: seq<Todo>, k: nat)
    requires k < Count(a)
    ensures Pot(ChoiceOpts(at, a, out)[k] + rest) < AltsWeight(a) + if AltsWidth(a) then 0 else Pot(rest)
    decreases a
  {
    hide Pot, BodyTodo, BodyWeight, BranchWidth;
    BodyPot(at + 3, a.b, out, rest);
    if k > 0 {
      ChoicePot(at + 3 + BodySize(a.b), a.rest, out, rest, k - 1);
    }
  }

  /** Each option leaves less to be done before the next character. */
  lemma OptsPot(p: nat, item: Item, out: nat, rest: seq<Todo>, k: nat)
    requires Branching(item) && k < |Opts(p, item, out)|
    requires item.Piece? && item.x.Star? ==> HasWidth(item.x.x)
    ensures Pot(Opts(p, item, out)[k] + rest) < Pot([Todo(item, out)] + rest)
  {
    hide Pot, ChoiceOpts, AltsWeight;
    PotCons(item, out, rest);
    PotCons(Null, out, rest);
    match item
    case Choice(a) => ChoicePot(p, a, out, rest, k);
    case Loop(y) =>
      PotCons(Repeat(y), out, rest);
      assert Opts(p, item, out)[k] == if k == 0 then [Todo(Repeat(y), out)] else [Todo(Null, out)];
    case Piece(x) =>
      var m, last := if x.Star? then p + 3 + Size(x.x) else p + 6 + Size(x.x), if x.Star? then Again(x.x) else Null;
      PotCons(Piece(x.x), m, [Todo(last, out)] + rest);
      PotCons(last, out, rest);
      assert Opts(p, item, out)[k] == if k == 0 then [Todo(Piece(x.x), m), Todo(last, out)] else [Todo(Null, out)];
      assert [Todo(Piece(x.x), m), Todo(last, out)] + rest == [Todo(Piece(x.x), m)] + ([Todo(last, out)] + rest);
  }

  /** The first option that leads anywhere decides. */
  lemma {:induction false} AnyOf(opts: seq<seq<Todo>>, rest: seq<Todo>, t: seq<byte>, i: nat, k: nat)
    requires i <= |t| && k < |opts| && !Stuck(opts[k] + rest, t, i)
    requires forall m :: 0 <= m < k ==> Stuck(opts[m] + rest, t, i)
    ensures AnyEnds(opts, rest, t, i) != [] && AnyEnds(opts, rest, t, i)[0] == GoEnds(opts[k] + rest, t, i)[0]
    decreases |opts|
  {
    hide GoEnds;
    if k > 0 {
      assert forall m :: 0 <= m < |opts[1..]| ==> opts[1..][m] == opts[m + 1];
      AnyOf(opts[1..], rest, t, i, k - 1);
      assert Stuck(opts[0] + rest, t, i);
    }
  }

  lemma {:induction false} NoneOf(opts: seq<seq<Todo>>, rest: seq<Todo>, t: seq<byte>, i: nat)
    requires i <= |t| && forall k :: 0 <= k < |opts| ==> Stuck(opts[k] + rest, t, i)
    ensures AnyEnds(opts, rest, t, i) == []
    decreases |opts|
  {
    hide GoEnds;
    if opts != [] {
      assert forall k :: 0 <= k < |opts[1..]| ==> opts[1..][k] == opts[k + 1];
      NoneOf(opts[1..], rest, t, i);
      assert Stuck(opts[0] + rest, t, i);
    }
  }
}
