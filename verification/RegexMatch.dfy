/** regmatch: the backtracking interpreter of the code. */
module RegexMatch {
  import opened Common
  import opened RegexSyntax
  import opened RegexMeaning
  import opened RegexOrder
  import opened RegexCode
  import opened RegexTodo
  import opened RegexBranches

  // ----------------------------------------------------------- C strings

  method StrLen(prog: seq<byte>, p: nat, ghost chars: seq<byte>) returns (n: nat)
    requires Operand(prog, p, chars) && CString(chars)
    ensures n == |chars|
  {
    n := 0;
    while prog[p + n] != 0
      invariant n <= |chars|
      decreases |chars| - n
    {
      assert prog[p..p + |chars|][n] == chars[n];
      n := n + 1;
    }
  }

  /** Whether `c`, not zero, is in the string at `p`. */
  method StrChr(prog: seq<byte>, p: nat, c: byte, ghost chars: seq<byte>) returns (found: bool)
    requires Operand(prog, p, chars) && CString(chars) && c != 0
    ensures found == (c in chars)
  {
    var n := 0;
    while prog[p + n] != 0
      invariant n <= |chars| && c !in chars[..n]
      decreases |chars| - n
    {
      assert prog[p..p + |chars|][n] == chars[n];
      if prog[p + n] == c {
        return true;
      }
      n := n + 1;
    }
    assert chars[..n] == chars;
    return false;
  }

  /** strncmp: whether the text goes on with the `n` bytes at `p`. */
  method SameBytes(prog: seq<byte>, p: nat, n: nat, text: seq<byte>, i: nat) returns (same: bool)
    requires p + n <= |prog| && i <= |text|
    ensures same == (i + n <= |text| && text[i..i + n] == prog[p..p + n])
  {
    var k := 0;
    while k < n
      invariant k <= n && i + k <= |text| && text[i..i + k] == prog[p..p + k]
    {
      if i + k == |text| || text[i + k] != prog[p + k] {
        assert i + n <= |text| ==> text[i..i + n][k] == text[i + k] && prog[p..p + n][k] == prog[p + k];
        return false;
      }
      assert text[i..i + k + 1] == text[i..i + k] + [text[i + k]];
      assert prog[p..p + k + 1] == prog[p..p + k] + [prog[p + k]];
      k := k + 1;
    }
    return true;
  }

  // ------------------------------------------------------------------- nodes

  /** The opcode an item starts with. */
  function OpOf(item: Item): int {
    match item
    case Piece(x) =>
      (match x
       case Bol => BOL
       case Eol => EOL
       case Any => ANY
       case Set(negate, _, _) => if negate then ANYBUT else ANYOF
       case Str(_, _) => EXACTLY
       case Group(no, _) => OPEN as int + no
       case Star(y) => if Simple(y) then STAR else BRANCH
       case Plus(_) => PLUS
       case Opt(_) => BRANCH)
    case Choice(_) => BRANCH
    case Shut(no) => CLOSE as int + no
    case Null => NOTHING
    case Again(_) => BACK
    case Loop(_) => BRANCH
    case Repeat(_) => BACK
  }

  /** y+ that is not simple has no node of its own in front. */
  predicate Hidden(item: Item) {
    item.Piece? && item.x.Plus? && !Simple(item.x.x)
  }

  lemma HeadOp(prog: seq<byte>, p: nat, item: Item, out: nat)
    requires ItemLaid(prog, p, item, out) && !Hidden(item)
    ensures p + 3 <= |prog| && prog[p] == OpOf(item)
    ensures item.Piece? && item.x.Group? ==> 1 <= item.x.no < NSUBEXP
    ensures item.Shut? ==> 1 <= item.no < NSUBEXP
  {
    hide Operand, BodyLaid, BodySize, AltsSize;
    match item
    case Piece(x) =>
    case Choice(a) =>
      assert BranchLaid(prog, p, a.b, BodyOut(p, a.b, out, Count(a)), if a.One? then out else p + 3 + BodySize(a.b));
    case Again(y) => assert StarNodes(prog, p - 3 - Size(y), Size(y), out);
    case Loop(y) => assert PlusNodes(prog, p - Size(y), Size(y), out);
    case Repeat(y) => assert PlusNodes(prog, p - 3 - Size(y), Size(y), out);
    case _ =>
  }

  lemma Unhide(prog: seq<byte>, p: nat, y: Re, out: nat, rest: seq<Todo>, t: seq<byte>, i: nat)
    requires Hidden(Piece(Plus(y))) && ItemLaid(prog, p, Piece(Plus(y)), out) && TodoLaid(prog, out, rest) && i <= |t|
    ensures
      var todo, todo' := [Todo(Piece(Plus(y)), out)] + rest, [Todo(Piece(y), p + Size(y)), Todo(Loop(y), out)] + rest;
      TodoLaid(prog, p, todo') && Equiv(todo, t, i, todo', i) && Pot(todo') < Pot(todo) && !Hidden(Piece(y))
  {
    hide TodoLaid, GoEnds, Pot, PlusNodes, Equiv, Ends, ItemEnds, ItemAll;
    var m, more := p + Size(y), [Todo(Loop(y), out)] + rest;
    assert ItemLaid(prog, p, Piece(y), m) && ItemLaid(prog, m, Loop(y), out);
    assert Good(y) && HasWidth(y);
    hide ItemLaid;
    TodoCons(prog, m, Loop(y), out, rest);
    TodoCons(prog, p, Piece(y), m, more);
    assert [Todo(Piece(y), m), Todo(Loop(y), out)] + rest == [Todo(Piece(y), m)] + more;
    PlusExpands(y, t, i);
    Expand(Piece(Plus(y)), out, Piece(y), m, Loop(y), out, rest, t, i);
    PotCons(Piece(Plus(y)), out, rest);
    PotCons(Piece(y), m, more);
  }

  lemma PlusExpands(y: Re, t: seq<byte>, i: nat)
    requires Good(y) && HasWidth(y) && i <= |t|
    ensures ItemEnds(Piece(Plus(y)), t, i) == ItemAll(Loop(y), t, i, ItemEnds(Piece(y), t, i))
  {
    hide AgainEnds, ItemAll, Good, HasWidth;
    WidthEnds(y, t, i);
    AgainAll(Loop(y), t, i, Ends(y, t, i));
  }

  lemma TodoHead(prog: seq<byte>, p: nat, todo: seq<Todo>)
    requires todo != [] && TodoLaid(prog, p, todo)
    ensures ItemLaid(prog, p, todo[0].item, todo[0].out) && TodoLaid(prog, todo[0].out, todo[1..])
    ensures todo == [Todo(todo[0].item, todo[0].out)] + todo[1..]
  {
  }

  /** Items with one node, which points to what follows. */
  predicate Single(item: Item) {
    || item.Shut? || item.Null?
    || (item.Piece? && (Leaf(item.x) || (item.x.Star? && Simple(item.x.x)) || (item.x.Plus? && Simple(item.x.x))))
  }

  lemma NextOut(prog: seq<byte>, p: nat, item: Item, out: nat)
    requires ItemLaid(prog, p, item, out) && Single(item)
    ensures p + 3 <= |prog| && RegNext(prog, p) == out
    ensures item.Piece? && (item.x.Set? || item.x.Str?) ==> Operand(prog, p + 3, item.x.chars) && CString(item.x.chars)
  {
    hide Operand, AltsLaid;
  }

  /** The BACK of y* leads to y* again. */
  lemma BackAgain(prog: seq<byte>, p: nat, y: Re, out: nat, rest: seq<Todo>, t: seq<byte>, i: nat)
    requires ItemLaid(prog, p, Again(y), out) && TodoLaid(prog, out, rest) && i <= |t|
    ensures p + 3 <= |prog| && RegNext(prog, p) == p - 3 - Size(y)
    ensures
      var todo, todo' := [Todo(Again(y), out)] + rest, [Todo(Piece(Star(y)), out)] + rest;
      TodoLaid(prog, p - 3 - Size(y), todo') && Equiv(todo, t, i, todo', i) && Pot(todo') < Pot(todo)
  {
    hide TodoLaid, GoEnds, Pot, Equiv, StarEnds;
    assert StarNodes(prog, p - 3 - Size(y), Size(y), out);
    TodoCons(prog, p - 3 - Size(y), Piece(Star(y)), out, rest);
    Swap(Again(y), out, Piece(Star(y)), out, rest, t, i);
    PotCons(Again(y), out, rest);
    PotCons(Piece(Star(y)), out, rest);
  }

  /** The BACK of y+ leads to y, and then to the end of y+. */
  lemma BackRepeat(prog: seq<byte>, p: nat, y: Re, out: nat, rest: seq<Todo>, t: seq<byte>, i: nat)
    requires ItemLaid(prog, p, Repeat(y), out) && TodoLaid(prog, out, rest) && i <= |t|
    ensures p + 3 <= |prog| && RegNext(prog, p) == p - 3 - Size(y)
    ensures
      var todo, todo' := [Todo(Repeat(y), out)] + rest, [Todo(Piece(y), p - 3), Todo(Loop(y), out)] + rest;
      TodoLaid(prog, p - 3 - Size(y), todo') && Equiv(todo, t, i, todo', i) && Pot(todo') < Pot(todo)
  {
    hide TodoLaid, GoEnds, Pot, Equiv, Ends, ItemAll, StarEnds;
    assert PlusNodes(prog, p - 3 - Size(y), Size(y), out);
    var more := [Todo(Loop(y), out)] + rest;
    assert ItemLaid(prog, p - 3 - Size(y), Piece(y), p - 3) && ItemLaid(prog, p - 3, Loop(y), out);
    assert Good(y) && HasWidth(y);
    hide ItemLaid, Laid, Size;
    TodoCons(prog, p - 3, Loop(y), out, rest);
    TodoCons(prog, p - 3 - Size(y), Piece(y), p - 3, more);
    assert [Todo(Piece(y), p - 3), Todo(Loop(y), out)] + rest == [Todo(Piece(y), p - 3)] + more;
    PlusExpands(y, t, i);
    Expand(Repeat(y), out, Piece(y), p - 3, Loop(y), out, rest, t, i);
    PotCons(Repeat(y), out, rest);
    PotCons(Piece(y), p - 3, more);
  }

  /** Nodes that are passed in at most one way, without a choice. */
  predicate LeafOp(op: byte) {
    || op == BOL || op == EOL || op == ANY || op == EXACTLY || op == ANYOF || op == ANYBUT || op == NOTHING
    || op == BACK
  }

  class Matcher {
    const prog: seq<byte>
    const text: seq<byte>
    var reginput: nat

    constructor (prog: seq<byte>, text: seq<byte>)
      ensures this.prog == prog && this.text == text && reginput == 0
    {
      this.prog, this.text, reginput := prog, text, 0;
    }

    ghost predicate Valid()
      reads this
    {
      CString(text) && reginput <= |text|
    }

    /** The cases of regmatch that go through a node by the loop. */
    method Step(scan: nat, ghost todo: seq<Todo>) returns (ok: bool, next: nat, ghost todo': seq<Todo>)
      requires Valid() && todo != [] && TodoLaid(prog, scan, todo) && !Hidden(todo[0].item)
      requires scan < |prog| && LeafOp(prog[scan])
      modifies this`reginput
      ensures Valid() && old(reginput) <= reginput
      ensures ok ==> Progress(prog, text, todo, old(reginput), next, todo', reginput)
      ensures !ok ==> Stuck(todo, text, old(reginput))
    {
      hide TodoLaid, Stuck, ItemLaid, Operand, Progress, CString;
      ghost var i, item, out, rest := reginput, todo[0].item, todo[0].out, todo[1..];
      TodoHead(prog, scan, todo);
      HeadOp(prog, scan, item, out);
      var op := prog[scan];
      ok, next, todo' := true, 0, rest;
      if op == BACK {
        todo' := BackStep(prog, text, scan, todo, i);
        next := RegNext(prog, scan);
        return;
      }
      NextOut(prog, scan, item, out);
      next := RegNext(prog, scan);
      if op == BOL {
        ok := reginput == 0;
        BolStep(prog, text, scan, todo, i);
      } else if op == EOL {
        ok := reginput == |text|;
        EolStep(prog, text, scan, todo, i);
      } else if op == ANY {
        ok := reginput != |text|;
        AnyStep(prog, text, scan, todo, i);
        if ok { reginput := reginput + 1; }
      } else if op == EXACTLY {
        var len := StrLen(prog, scan + 3, item.x.chars);
        OperandIs(prog, scan + 3, item.x.chars);
        ok := SameBytes(prog, scan + 3, len, text, reginput);
        StringStep(prog, text, scan, todo, i);
        if ok { reginput := reginput + len; }
      } else if op == NOTHING {
        NullStep(prog, text, scan, todo, i);
      } else {
        SetStep(prog, text, scan, todo, i);
        ok := reginput != |text|;
        if ok {
          TextByte(text, reginput);
          var found := StrChr(prog, scan + 3, text[reginput], item.x.chars);
          ok := found == (op == ANYOF);
          if ok { reginput := reginput + 1; }
        }
      }
    }

    /** How often the simple thing at `p` matches from here on. */
    method RegRepeat(p: nat, ghost x: Re) returns (count: nat)
      requires Valid() && Simple(x) && Good(x) && Laid(prog, p, x, p)
      modifies this`reginput
      ensures Valid() && reginput == old(reginput) + count
      ensures forall k :: old(reginput) <= k < reginput ==> CharOk(x, text[k])
      ensures reginput < |text| ==> !CharOk(x, text[reginput])
    {
      SimpleHead(prog, p, x);
      hide CString, Laid, Operand, Good;
      count := 0;
      var op := prog[p];
      if op == ANY {
        count := |text| - reginput;
        reginput := |text|;
        return;
      }
      var more := reginput < |text|;
      while more
        invariant reginput == old(reginput) + count <= |text| && (more ==> reginput < |text|)
        invariant forall k :: old(reginput) <= k < reginput ==> CharOk(x, text[k])
        invariant !more ==> (reginput < |text| ==> !CharOk(x, text[reginput]))
        decreases |text| - reginput, more
      {
        if op == EXACTLY {
          more := prog[p + 3] == text[reginput];
        } else {
          TextByte(text, reginput);
          var found := StrChr(prog, p + 3, text[reginput], x.chars);
          more := found == (op == ANYOF);
        }
        if more {
          count, reginput := count + 1, reginput + 1;
          more := reginput < |text|;
        }
      }
    }

    /** STAR and PLUS: as often as it goes, and then less and less. */
    method TryRepeat(scan: nat, ghost todo: seq<Todo>) returns (ok: bool)
      requires Valid() && todo != [] && TodoLaid(prog, scan, todo) && scan < |prog|
      requires prog[scan] == STAR || prog[scan] == PLUS
      requires !Hidden(todo[0].item)
      modifies this`reginput
      ensures Valid()
      ensures ok ==> old(reginput) <= reginput && Leads(todo, text, old(reginput), reginput)
      ensures !ok ==> Stuck(todo, text, old(reginput))
      decreases |text| - reginput, Pot(todo), 0
    {
      hide TodoLaid, GoEnds, ItemEnds, Stuck, Leads, ItemLaid, Pot, Good, Laid, CharOk, Down, RegNext, CString, Weight;
      ghost var item, out, rest := todo[0].item, todo[0].out, todo[1..];
      TodoHead(prog, scan, todo);
      HeadOp(prog, scan, item, out);
      NextOut(prog, scan, item, out);
      RepeatOperand(prog, scan, item, out);
      PotCons(item, out, rest);
      var next := RegNext(prog, scan);
      HeadInside(prog, next, rest);
      var nextch := if prog[next] == EXACTLY then prog[next + 3] else 0;
      var min := if prog[scan] == STAR then 0 else 1;
      var save := reginput;
      var no := RegRepeat(scan + 3, item.x.x);
      RepeatEnds(item, text, save, reginput);
      if no < min { ok := false; NothingFits(todo, text, save, min, save + no); return; }
      ghost var most := no;
      while true
        invariant min <= no <= most && reginput == save + no && save + most <= |text|
        invariant forall k :: save + no < k <= save + most ==> Stuck(rest, text, k)
        decreases no
      {
        if nextch == 0 || (reginput < |text| && text[reginput] == nextch) {
          ok := RegMatch(next, rest);
          if ok {
            SomethingFits(todo, text, save, min, save + most, save + no, reginput);
            return;
          }
        } else {
          Lookahead(prog, next, rest, text, reginput);
        }
        if no == min {
          ok := false;
          reginput := save;
          NothingFits(todo, text, save, min, save + most);
          return;
        }
        no := no - 1;
        reginput := save + no;
      }
    }

    /** BRANCH with alternatives: each in turn. */
    method TryBranches(start: nat, ghost opts: seq<seq<Todo>>, ghost rest: seq<Todo>,
        ghost bound: nat) returns (ok: bool)
      requires Valid() && opts != [] && BranchesLaid(prog, start, opts, rest)
      requires forall k :: 0 <= k < |opts| ==> Pot(opts[k] + rest) < bound
      modifies this`reginput
      ensures Valid()
      ensures var ends := AnyEnds(opts, rest, text, old(reginput));
        if ok then ends != [] && ends[0] == reginput && old(reginput) <= reginput else ends == []
      decreases |text| - reginput, bound, 0
    {
      hide TodoLaid, GoEnds, AnyEnds, Pot;
      var scan: nat, save := start, reginput;
      ghost var k := 0;
      while true
        invariant 0 <= k < |opts| && reginput == save && BranchesLaid(prog, scan, opts[k..], rest)
        invariant forall m :: 0 <= m < k ==> Stuck(opts[m] + rest, text, save)
        decreases |opts| - k
      {
        assert opts[k..][0] == opts[k];
        ok := RegMatch(scan + 3, opts[k] + rest);
        if ok {
          AnyOf(opts, rest, text, save, k);
          return;
        }
        reginput := save;
        var next := RegNext(prog, scan);
        assert opts[k..][1..] == opts[k + 1..];
        if prog[next] != BRANCH {
          NoneOf(opts, rest, text, save);
          return;
        }
        scan, k := next, k + 1;
      }
    }

    /** regmatch: whether the code at `start`, and all that follows it up to its
        end, matches from here; and if so up to where, in the best way. */
    method RegMatch(start: nat, ghost todo0: seq<Todo>) returns (ok: bool)
      requires Valid() && TodoLaid(prog, start, todo0)
      modifies this`reginput
      ensures Valid()
      ensures ok ==> old(reginput) <= reginput && Leads(todo0, text, old(reginput), reginput)
      ensures !ok ==> Stuck(todo0, text, old(reginput))
      decreases |text| - reginput, Pot(todo0), 1
    {
      hide TodoLaid, GoEnds, Pot, CString, ItemLaid, AnyEnds;
      var scan: nat := start;
      ghost var todo, i0 := todo0, reginput;
      while true
        invariant Valid() && i0 <= reginput && TodoLaid(prog, scan, todo) && Equiv(todo0, text, i0, todo, reginput)
        invariant reginput > i0 || Pot(todo) <= Pot(todo0)
        decreases |text| - reginput, Pot(todo)
      {
        todo := Open(prog, text, scan, todo, todo0, i0, reginput);
        HeadInside(prog, scan, todo);
        var op := prog[scan];
        if op == END {
          EndHere(prog, scan, todo, text, reginput);
          return true;
        } else if LeafOp(op) {
          ghost var todo', i := todo, reginput;
          ok, scan, todo' := Step(scan, todo);
          if !ok { return; }
          todo := todo';
        } else if op == STAR || op == PLUS {
          ok := TryRepeat(scan, todo);
          return;
        } else if op == BRANCH {
          ghost var item, out, rest := todo[0].item, todo[0].out, todo[1..];
          ghost var opts := Choices(prog, text, scan, todo, reginput);
          var next := RegNext(prog, scan);
          if prog[next] == BRANCH {
            ok := TryBranches(scan, opts, rest, Pot(todo));
            return;
          }
          scan, todo := scan + 3, opts[0] + rest;
        } else {
          ghost var todo' := ParenStep(prog, text, scan, todo, reginput);
          ok := RegMatch(RegNext(prog, scan), todo');
          return;
        }
      }
    }
  }

  lemma TextByte(t: seq<byte>, i: nat)
    requires CString(t) && i < |t|
    ensures t[i] != 0
  {
  }

  /** From one list and position to another, with less left to be done. */
  ghost predicate Progress(prog: seq<byte>, t: seq<byte>, todo: seq<Todo>, i: nat, next: nat, todo': seq<Todo>,
      i': nat) {
    && i <= i' <= |t| && TodoLaid(prog, next, todo') && Equiv(todo, t, i, todo', i')
    && (i' > i || Pot(todo') < Pot(todo))
  }

  lemma PassTo(prog: seq<byte>, t: seq<byte>, p: nat, todo: seq<Todo>, i: nat, i': nat)
    requires todo != [] && TodoLaid(prog, p, todo) && i <= i' <= |t| && ItemEnds(todo[0].item, t, i) == [i']
    requires i' > i || !Wide(todo[0].item)
    ensures Progress(prog, t, todo, i, todo[0].out, todo[1..], i')
  {
    hide ItemEnds, ItemLaid, Equiv;
    Passed(todo, t, i, i');
  }

  lemma BolStep(prog: seq<byte>, t: seq<byte>, p: nat, todo: seq<Todo>, i: nat)
    requires todo != [] && TodoLaid(prog, p, todo) && todo[0].item == Piece(Bol) && i <= |t|
    ensures i == 0 ==> Progress(prog, t, todo, i, todo[0].out, todo[1..], i)
    ensures i != 0 ==> Stuck(todo, t, i)
  {
    hide TodoLaid, Progress, Stuck;
    if i == 0 { PassTo(prog, t, p, todo, i, i); } else { NotPassed(todo, t, i); }
  }

  lemma EolStep(prog: seq<byte>, t: seq<byte>, p: nat, todo: seq<Todo>, i: nat)
    requires todo != [] && TodoLaid(prog, p, todo) && todo[0].item == Piece(Eol) && i <= |t|
    ensures i == |t| ==> Progress(prog, t, todo, i, todo[0].out, todo[1..], i)
    ensures i != |t| ==> Stuck(todo, t, i)
  {
    hide TodoLaid, Progress, Stuck;
    if i == |t| { PassTo(prog, t, p, todo, i, i); } else { NotPassed(todo, t, i); }
  }

  lemma AnyStep(prog: seq<byte>, t: seq<byte>, p: nat, todo: seq<Todo>, i: nat)
    requires todo != [] && TodoLaid(prog, p, todo) && todo[0].item == Piece(Any) && i <= |t|
    ensures i < |t| ==> Progress(prog, t, todo, i, todo[0].out, todo[1..], i + 1)
    ensures i == |t| ==> Stuck(todo, t, i)
  {
    hide TodoLaid, Progress, Stuck;
    if i < |t| { PassTo(prog, t, p, todo, i, i + 1); } else { NotPassed(todo, t, i); }
  }

  lemma NullStep(prog: seq<byte>, t: seq<byte>, p: nat, todo: seq<Todo>, i: nat)
    requires todo != [] && TodoLaid(prog, p, todo) && (todo[0].item.Null? || todo[0].item.Shut?) && i <= |t|
    ensures Progress(prog, t, todo, i, todo[0].out, todo[1..], i)
  {
    hide TodoLaid, Progress;
    PassTo(prog, t, p, todo, i, i);
  }

  lemma SetStep(prog: seq<byte>, t: seq<byte>, p: nat, todo: seq<Todo>, i: nat)
    requires todo != [] && TodoLaid(prog, p, todo) && todo[0].item.Piece? && todo[0].item.x.Set? && i <= |t|
    ensures i < |t| && CharOk(todo[0].item.x, t[i]) ==> Progress(prog, t, todo, i, todo[0].out, todo[1..], i + 1)
    ensures i == |t| || !CharOk(todo[0].item.x, t[i]) ==> Stuck(todo, t, i)
  {
    hide TodoLaid, Progress, Stuck;
    if i < |t| && CharOk(todo[0].item.x, t[i]) { PassTo(prog, t, p, todo, i, i + 1); } else { NotPassed(todo, t, i); }
  }

  lemma StringStep(prog: seq<byte>, t: seq<byte>, p: nat, todo: seq<Todo>, i: nat)
    requires todo != [] && TodoLaid(prog, p, todo) && todo[0].item.Piece? && todo[0].item.x.Str? && i <= |t|
    ensures
      var chars := todo[0].item.x.chars;
      && (i + |chars| <= |t| && t[i..i + |chars|] == chars ==>
           Progress(prog, t, todo, i, todo[0].out, todo[1..], i + |chars|))
      && (!(i + |chars| <= |t| && t[i..i + |chars|] == chars) ==> Stuck(todo, t, i))
  {
    hide Progress, Stuck;
    var chars := todo[0].item.x.chars;
    assert chars != [] by { TodoHead(prog, p, todo); }
    hide TodoLaid;
    if i + |chars| <= |t| && t[i..i + |chars|] == chars {
      PassTo(prog, t, p, todo, i, i + |chars|);
    } else {
      NotPassed(todo, t, i);
    }
  }

  lemma BackStep(prog: seq<byte>, t: seq<byte>, p: nat, todo: seq<Todo>, i: nat) returns (todo': seq<Todo>)
    requires todo != [] && TodoLaid(prog, p, todo) && (todo[0].item.Again? || todo[0].item.Repeat?) && i <= |t|
    ensures p + 3 <= |prog| && RegNext(prog, p) >= 0 && Progress(prog, t, todo, i, RegNext(prog, p), todo', i)
  {
    hide TodoLaid, ItemLaid, Equiv;
    var item, out, rest := todo[0].item, todo[0].out, todo[1..];
    TodoHead(prog, p, todo);
    if item.Again? {
      BackAgain(prog, p, item.y, out, rest, t, i);
      BackFrom(prog, p, item, out);
      todo' := [Todo(Piece(Star(item.y)), out)] + rest;
    } else {
      BackRepeat(prog, p, item.y, out, rest, t, i);
      BackFrom(prog, p, item, out);
      todo' := [Todo(Piece(item.y), p - 3), Todo(Loop(item.y), out)] + rest;
    }
  }

  lemma BackFrom(prog: seq<byte>, p: nat, item: Item, out: nat)
    requires (item.Again? || item.Repeat?) && ItemLaid(prog, p, item, out)
    ensures 3 + Size(item.y) <= p
  {
  }

  lemma OperandIs(prog: seq<byte>, p: nat, chars: seq<byte>)
    requires Operand(prog, p, chars)
    ensures p + |chars| < |prog| && prog[p..p + |chars|] == chars
  {
  }

  // ------------------------------------------------------------------ repeats

  lemma SimpleHead(prog: seq<byte>, p: nat, x: Re)
    requires Simple(x) && Good(x) && Laid(prog, p, x, p)
    ensures p + 3 <= |prog| && prog[p] == OpOf(Piece(x))
    ensures x.Set? ==> Operand(prog, p + 3, x.chars) && CString(x.chars)
    ensures x.Str? ==> p + 3 < |prog| && prog[p + 3] == x.chars[0]
  {
    if x.Str? { assert prog[p + 3..p + 4][0] == x.chars[0]; }
  }

  lemma RepeatOperand(prog: seq<byte>, p: nat, item: Item, out: nat)
    requires ItemLaid(prog, p, item, out) && item.Piece? && (item.x.Star? || item.x.Plus?) && Simple(item.x.x)
    ensures Good(item.x.x) && Laid(prog, p + 3, item.x.x, p + 3)
  {
  }

  /** Where a repetition can lead: `most` is as far as it goes. */
  lemma RepeatEnds(item: Item, t: seq<byte>, i: nat, most: nat)
    requires item.Piece? && (item.x.Star? || item.x.Plus?) && Simple(item.x.x) && i <= most <= |t|
    requires (forall k :: i <= k < most ==> CharOk(item.x.x, t[k])) && (most < |t| ==> !CharOk(item.x.x, t[most]))
    ensures ItemEnds(item, t, i) == Down(i + if item.x.Star? then 0 else 1, most)
  {
    hide CharOk, Down;
    SimpleStar(item.x.x, t, i, most);
  }

  lemma {:induction false} AllStuck(rest: seq<Todo>, t: seq<byte>, i: nat, lo: nat, hi: nat)
    requires i <= lo && hi <= |t| && i <= |t| && forall k :: lo <= k <= hi ==> Stuck(rest, t, k)
    ensures GoAll(rest, t, i, Down(lo, hi)) == []
    decreases hi - lo
  {
    hide GoEnds;
    if lo <= hi {
      AllStuck(rest, t, i, lo + 1, hi);
      LastDown(rest, t, i, lo, hi);
      assert Stuck(rest, t, lo);
    }
  }

  lemma LastDown(rest: seq<Todo>, t: seq<byte>, i: nat, lo: nat, hi: nat)
    requires i <= lo <= hi <= |t|
    ensures GoAll(rest, t, i, Down(lo, hi)) == GoAll(rest, t, i, Down(lo + 1, hi)) + GoEnds(rest, t, lo)
  {
    hide GoEnds, GoAll;
    GoJoin(rest, t, i, Down(lo + 1, hi), [lo]);
    GoOne(rest, t, i, lo);
  }

  lemma {:induction false} FirstFit(rest: seq<Todo>, t: seq<byte>, i: nat, lo: nat, hi: nat, k: nat, j: nat)
    requires i <= lo <= k <= hi <= |t| && Leads(rest, t, k, j)
    requires forall m :: k < m <= hi ==> Stuck(rest, t, m)
    ensures var ends := GoAll(rest, t, i, Down(lo, hi)); ends != [] && ends[0] == j
    decreases hi - lo
  {
    hide GoEnds, GoAll, Down;
    LastDown(rest, t, i, lo, hi);
    if lo < k {
      FirstFit(rest, t, i, lo + 1, hi, k, j);
    } else {
      AllStuck(rest, t, i, lo + 1, hi);
    }
  }

  lemma NothingFits(todo: seq<Todo>, t: seq<byte>, i: nat, min: nat, most: nat)
    requires todo != [] && i <= most <= |t| && ItemEnds(todo[0].item, t, i) == Down(i + min, most)
    requires forall k :: i + min <= k <= most ==> Stuck(todo[1..], t, k)
    ensures Stuck(todo, t, i)
  {
    hide ItemEnds, Down, GoAll;
    AllStuck(todo[1..], t, i, i + min, most);
  }

  lemma SomethingFits(todo: seq<Todo>, t: seq<byte>, i: nat, min: nat, most: nat, k: nat, j: nat)
    requires todo != [] && i <= most <= |t| && ItemEnds(todo[0].item, t, i) == Down(i + min, most)
    requires i + min <= k <= most && Leads(todo[1..], t, k, j) && forall m :: k < m <= most ==> Stuck(todo[1..], t, m)
    ensures Leads(todo, t, i, j)
  {
    hide ItemEnds, Down, GoAll;
    FirstFit(todo[1..], t, i, i + min, most, k, j);
  }

  /** Some node is there, and it is an EXACTLY only in front of a string. */
  lemma HeadInside(prog: seq<byte>, p: nat, todo: seq<Todo>)
    requires TodoLaid(prog, p, todo)
    ensures p + 3 <= |prog| && (prog[p] == END <==> todo == [])
    ensures prog[p] == EXACTLY ==> todo[0].item.Piece? && todo[0].item.x.Str? && todo[0].item.x.chars != []
    ensures prog[p] == EXACTLY ==> p + 3 < |prog| && prog[p + 3] == todo[0].item.x.chars[0]
  {
    hide Operand;
    if todo != [] {
      var item, out := todo[0].item, todo[0].out;
      if Hidden(item) {
        var y := item.x.x;
        assert Laid(prog, p, y, p + Size(y)) && y.Group?;
        HeadOp(prog, p, Piece(y), p + Size(y));
      } else {
        HeadOp(prog, p, item, out);
        if prog[p] == EXACTLY {
          NextOut(prog, p, item, out);
          OperandIs(prog, p + 3, item.x.chars);
          assert prog[p + 3..p + 3 + |item.x.chars|][0] == prog[p + 3];
        }
      }
    }
  }

  /** The next character is not the one that must come. */
  lemma Lookahead(prog: seq<byte>, p: nat, todo: seq<Todo>, t: seq<byte>, i: nat)
    requires TodoLaid(prog, p, todo) && i <= |t| && p + 3 < |prog| && prog[p] == EXACTLY
    requires i == |t| || t[i] != prog[p + 3]
    ensures Stuck(todo, t, i)
  {
    hide TodoLaid, Progress;
    HeadInside(prog, p, todo);
    var chars := todo[0].item.x.chars;
    FirstByte(t, i, chars);
    StringStep(prog, t, p, todo, i);
  }

  lemma FirstByte(t: seq<byte>, i: nat, chars: seq<byte>)
    requires chars != []
    ensures i + |chars| <= |t| && t[i..i + |chars|] == chars ==> t[i] == chars[0]
  {
    if i + |chars| <= |t| { assert t[i..i + |chars|][0] == t[i]; }
  }

  // ------------------------------------------------------------ other nodes

  /** If y+ stands first, it is taken apart. */
  lemma Open(prog: seq<byte>, t: seq<byte>, p: nat, todo: seq<Todo>, todo0: seq<Todo>, i0: nat,
      i: nat) returns (todo': seq<Todo>)
    requires i0 <= i <= |t| && TodoLaid(prog, p, todo) && Equiv(todo0, t, i0, todo, i)
    ensures TodoLaid(prog, p, todo') && Equiv(todo0, t, i0, todo', i) && Pot(todo') <= Pot(todo)
    ensures todo' != [] ==> !Hidden(todo'[0].item)
  {
    hide TodoLaid, GoEnds, Pot, ItemLaid;
    todo' := todo;
    if todo != [] && Hidden(todo[0].item) {
      var y, out, rest := todo[0].item.x.x, todo[0].out, todo[1..];
      TodoHead(prog, p, todo);
      Unhide(prog, p, y, out, rest, t, i);
      todo' := [Todo(Piece(y), p + Size(y)), Todo(Loop(y), out)] + rest;
    }
  }

  lemma EndHere(prog: seq<byte>, p: nat, todo: seq<Todo>, t: seq<byte>, i: nat)
    requires todo == [] && i <= |t|
    ensures Leads(todo, t, i, i)
  {
  }

  /** The options at a BRANCH, and what they are worth. */
  lemma Choices(prog: seq<byte>, t: seq<byte>, p: nat, todo: seq<Todo>, i: nat) returns (opts: seq<seq<Todo>>)
    requires todo != [] && TodoLaid(prog, p, todo) && !Hidden(todo[0].item) && p < |prog| && prog[p] == BRANCH
    requires i <= |t|
    ensures opts != [] && BranchesLaid(prog, p, opts, todo[1..])
    ensures forall k :: 0 <= k < |opts| ==> Pot(opts[k] + todo[1..]) < Pot(todo)
    ensures GoEnds(todo, t, i) == AnyEnds(opts, todo[1..], t, i)
    ensures |opts| == 1 ==> Equiv(todo, t, i, opts[0] + todo[1..], i)
  {
    hide TodoLaid, GoEnds, Pot, BranchesLaid;
    var item, out, rest := todo[0].item, todo[0].out, todo[1..];
    TodoHead(prog, p, todo);
    HeadOp(prog, p, item, out);
    assert Branching(item);
    BranchGood(prog, p, item, out);
    hide ItemLaid, Good;
    opts := Opts(p, item, out);
    OptsLaid(prog, p, item, out, rest);
    forall k | 0 <= k < |opts| ensures Pot(opts[k] + rest) < Pot(todo) { OptsPot(p, item, out, rest, k); }
    OptsGo(p, item, out, rest, t, i);
    if |opts| == 1 {
      assert opts[1..] == [];
      assert AnyEnds(opts, rest, t, i) == GoEnds(opts[0] + rest, t, i) + AnyEnds([], rest, t, i);
    }
  }

  lemma BranchGood(prog: seq<byte>, p: nat, item: Item, out: nat)
    requires Branching(item) && ItemLaid(prog, p, item, out)
    ensures item.Loop? ==> Good(item.y) && HasWidth(item.y)
    ensures item.Piece? && item.x.Star? ==> Good(item.x.x) && HasWidth(item.x.x)
    ensures Opts(p, item, out) != []
  {
  }

  /** OPEN and CLOSE. */
  lemma ParenStep(prog: seq<byte>, t: seq<byte>, p: nat, todo: seq<Todo>, i: nat) returns (todo': seq<Todo>)
    requires todo != [] && TodoLaid(prog, p, todo) && !Hidden(todo[0].item) && p < |prog| && i <= |t|
    requires !LeafOp(prog[p]) && prog[p] != END && prog[p] != BRANCH && prog[p] != STAR && prog[p] != PLUS
    ensures p + 3 <= |prog| && RegNext(prog, p) >= 0 && Progress(prog, t, todo, i, RegNext(prog, p), todo', i)
  {
    hide TodoLaid, Progress;
    var item, out, rest := todo[0].item, todo[0].out, todo[1..];
    TodoHead(prog, p, todo);
    HeadOp(prog, p, item, out);
    if item.Shut? {
      NullStep(prog, t, p, todo, i);
      todo' := rest;
    } else {
      hide ItemLaid;
      OpenStep(prog, t, p, item.x.no, item.x.alts, out, rest, i);
      todo' := [Todo(Choice(item.x.alts), p + 3 + AltsSize(item.x.alts)), Todo(Shut(item.x.no), out)] + rest;
    }
  }

  lemma OpenStep(prog: seq<byte>, t: seq<byte>, p: nat, no: nat, a: Alts, out: nat, rest: seq<Todo>, i: nat)
    requires ItemLaid(prog, p, Piece(Group(no, a)), out) && TodoLaid(prog, out, rest) && i <= |t|
    ensures p + 3 <= |prog| && RegNext(prog, p) == p + 3
    ensures Progress(prog, t, [Todo(Piece(Group(no, a)), out)] + rest, i, p + 3,
        [Todo(Choice(a), p + 3 + AltsSize(a)), Todo(Shut(no), out)] + rest, i)
  {
    hide TodoLaid, GoEnds, Pot, Equiv, AltsLaid, AltsSize, AltsEnds, Count, ItemAll;
    var close, more := p + 3 + AltsSize(a), [Todo(Shut(no), out)] + rest;
    assert ItemLaid(prog, p + 3, Choice(a), close) && ItemLaid(prog, close, Shut(no), out);
    hide ItemLaid;
    TodoCons(prog, close, Shut(no), out, rest);
    TodoCons(prog, p + 3, Choice(a), close, more);
    assert [Todo(Choice(a), close), Todo(Shut(no), out)] + rest == [Todo(Choice(a), close)] + more;
    NullAll(Shut(no), t, i, AltsEnds(a, t, i));
    Expand(Piece(Group(no, a)), out, Choice(a), close, Shut(no), out, rest, t, i);
    PotCons(Piece(Group(no, a)), out, rest);
    PotCons(Choice(a), close, more);
    PotCons(Shut(no), out, rest);
  }
}
