/** regcomp's recursive descent: it reads what RegexSyntax says, counts the code
    in the first pass and lays it out in the second. */
module RegexDescent {
  import opened Common
  import opened RegexSyntax
  import opened RegexCode
  import opened RegexEmit
  import opened RegexBuild
  import opened RegexCompile
  import opened RegexLists
  import opened RegexParse

  /** What `reg` reads: alternatives, and then the closing parenthesis or the end. */
  function RegSpec(paren: bool, s: seq<byte>, pos: nat, npar: nat): (r: Parsed<Alts>)
    requires pos <= |s|
  {
    if !paren then
      match ParseAlts(s, pos, npar)
      case Fail => Fail
      case Ok(a, p, n) => if p == |s| then Ok(a, p, n) else Fail
    else if npar >= NSUBEXP then Fail
    else
      match ParseAlts(s, pos, npar + 1)
      case Fail => Fail
      case Ok(a, p, n) => if At(s, p) == CLOSE_PAREN then Ok(a, p + 1, n) else Fail
  }

  function RegSize(paren: bool, a: Alts): nat {
    if paren then 6 + AltsSize(a) else 3 + AltsSize(a)
  }

  lemma GroupEnds(c: seq<byte>, ret: nat, no: nat, a: Alts)
    requires Closing(c, ret, true, no, a, Count(a))
    ensures Loose(c, ret, Group(no, a))
  {
    hide AltsLaid, Node, AltsSize;
  }

  class Compiler {
    const exp: seq<byte>
    const e: Emitter
    var regparse: nat
    var regnpar: nat

    constructor (exp: seq<byte>, e: Emitter)
      requires e.Valid() && CString(exp)
      ensures Valid() && this.exp == exp && this.e == e && regparse == 0 && regnpar == 1
    {
      this.exp, this.e, regparse, regnpar := exp, e, 0, 1;
    }

    ghost predicate Valid()
      reads this, e
    {
      e.Valid() && CString(exp) && regparse <= |exp| && 1 <= regnpar
    }

    /** A tree was read and its code made, or there is none. */
    twostate predicate Read(ok: bool, r: Parsed<Re>, ret: nat)
      reads this, e, e.program
    {
      && Valid() && ok == r.Ok?
      && (ok ==> regparse == r.pos && regnpar == r.npar && More(e, ret, Size(r.tree)))
      && (ok && e.emit ==> ret == old(e.regcode) && Loose(e.Code(), ret, r.tree))
    }

    ghost predicate Room(n: nat)
      reads this, e
    {
      e.emit ==> e.regcode + n <= e.program.Length
    }

    // ----------------------------------------------------------------- atoms

    /** A node alone. */
    method OneNode(op: byte, ghost x: Re) returns (ret: nat)
      requires Valid() && Room(3) && Leaf(x) && CodeOf(x) == [op, 0, 0]
      modifies e, e.program
      ensures Valid() && More(e, ret, 3) && (e.emit ==> ret == old(e.regcode) && Loose(e.Code(), ret, x))
    {
      hide Loose, CString;
      ghost var code := e.Code();
      LeafLoose(code, x, [op, 0, 0]);
      ret := e.RegNode(op);
    }

    /** An EXACTLY with `len` characters from here on. */
    method PutString(len: nat, ghost x: Re) returns (ret: nat)
      requires Valid() && regparse + len <= |exp| && x.Str? && x.chars == exp[regparse..regparse + len] && Room(Size(x))
      modifies this`regparse, e, e.program
      ensures Valid() && regparse == old(regparse) + len && More(e, ret, Size(x))
      ensures e.emit ==> ret == old(e.regcode) && Loose(e.Code(), ret, x)
    {
      hide Loose, CString, Came;
      ghost var code, size := e.Code(), e.regsize;
      ret := StringNode();
      PutChars(len, code, size);
      CloseLeaf(code, size, [EXACTLY, 0, 0], x, ret);
      CameFacts(e, code, size, CodeOf(x));
    }

    method StringNode() returns (ret: nat)
      requires Valid() && Room(3)
      modifies e, e.program
      ensures Valid() && ret == old(e.regcode) && Came(e, old(e.Code()), old(e.regsize), [EXACTLY, 0, 0])
    {
      ret := e.RegNode(EXACTLY);
    }

    /** `len` characters of the pattern. */
    method PutChars(len: nat, ghost code: seq<byte>, ghost size: nat)
      requires Valid() && regparse + len <= |exp| && Came(e, code, size, [EXACTLY, 0, 0])
      requires e.emit ==> |code| + 3 + len <= e.program.Length
      modifies this`regparse, e, e.program
      ensures Valid() && regparse == old(regparse) + len
      ensures Came(e, code, size, [EXACTLY, 0, 0] + exp[old(regparse)..regparse])
    {
      hide Came, CString;
      ghost var start, head := regparse, [EXACTLY, 0, 0];
      var k := 0;
      assert head + exp[start..start] == head;
      while k < len
        invariant k <= len && regparse == start + k && Valid() && Came(e, code, size, head + exp[start..start + k])
      {
        PutByte(e, exp[regparse], code, size, head + exp[start..start + k]);
        assert head + exp[start..start + k] + [exp[start + k]] == head + exp[start..start + k + 1];
        CameValid(e, code, size, head + exp[start..start + k + 1]);
        regparse, k := regparse + 1, k + 1;
      }
    }

    /** The front of a set: its node, and what stands for itself there. */
    method SetHead() returns (ret: nat, op: byte, ghost first: seq<byte>)
      requires Valid() && 1 <= regparse && Room(4)
      modifies this`regparse, e, e.program
      ensures Valid() && op == (if At(exp, old(regparse)) == CARET then ANYBUT else ANYOF) && ret == old(e.regcode)
      ensures var p := SetBody(exp, old(regparse)); first == SetFirst(exp, p) && regparse == p + |first|
      ensures Came(e, old(e.Code()), old(e.regsize), [op, 0, 0] + first)
    {
      hide CString;
      ghost var code, size := e.Code(), e.regsize;
      op := if At(exp, regparse) == CARET then ANYBUT else ANYOF;
      ret := e.RegNode(op);
      if At(exp, regparse) == CARET { regparse := regparse + 1; }
      first := [];
      assert [op, 0, 0] + first == [op, 0, 0];
      if At(exp, regparse) == CLOSE_SET || At(exp, regparse) == DASH {
        PutByte(e, exp[regparse], code, size, [op, 0, 0] + first);
        first := [exp[regparse]];
        regparse := regparse + 1;
      }
    }

    /** A set, from behind its opening bracket. */
    method SetAtom() returns (ok: bool, ret: nat)
      requires Valid() && 1 <= regparse && (e.emit ==> ParseSet(exp, regparse, regnpar).Ok?)
      requires ParseSet(exp, regparse, regnpar).Ok? ==> Room(Size(ParseSet(exp, regparse, regnpar).tree))
      modifies this`regparse, e, e.program
      ensures Read(ok, ParseSet(exp, old(regparse), old(regnpar)), ret)
    {
      hide Loose, CString, SetItems, Came, SetBody, SetFirst;
      ghost var r := ParseSet(exp, regparse, regnpar);
      ghost var code, size := e.Code(), e.regsize;
      var op;
      ghost var first;
      ret, op, first := SetHead();
      SetItemsMore(exp, regparse, first);
      var end;
      ok, end := PutSet(e, exp, regparse, code, size, [op, 0, 0], first);
      if !ok {
        return;
      }
      CloseLeaf(code, size, [op, 0, 0], r.tree, ret);
      CameFacts(e, code, size, CodeOf(r.tree));
      regparse := end + 1;
    }

    /** The zero behind a string or a set. */
    method CloseLeaf(ghost code: seq<byte>, ghost size: nat, ghost head: seq<byte>, ghost x: Re, ret: nat)
      requires Valid() && (x.Set? || x.Str?) && CodeOf(x) == head + x.chars + [0] && Came(e, code, size, head + x.chars)
      requires e.emit ==> |code| + Size(x) <= e.program.Length && ret == |code|
      modifies e, e.program
      ensures Valid() && Came(e, code, size, CodeOf(x))
      ensures e.emit ==> Loose(e.Code(), ret, x) && e.Code()[..ret] == code
    {
      hide Loose, CString;
      PutByte(e, 0, code, size, head + x.chars);
      LeafLoose(code, x, CodeOf(x));
      AddPrefix(code, CodeOf(x), |code|);
    }

    /** The flags of a tree that was read. */
    ghost predicate Flags(x: Re, width: bool, simple: bool, sp: bool) {
      width == HasWidth(x) && simple == Simple(x) && sp == SpStart(x)
    }

    /** How many ordinary characters go into one node. */
    method RunLength() returns (len: nat)
      requires Valid() && regparse < |exp| && !IsMeta(exp[regparse]) && exp[regparse] != 0
      ensures len == PlainRun(exp, regparse)
    {
      len := 0;
      while regparse + len < |exp| && !IsMeta(exp[regparse + len])
        invariant regparse + len <= |exp| && Plain(exp, regparse) == len + Plain(exp, regparse + len)
        decreases |exp| - regparse - len
      {
        len := len + 1;
      }
      if len > 1 && IsMult(At(exp, regparse + len)) {
        len := len - 1;
      }
    }

    /** The atom at hand was read. */
    twostate predicate AtomRead(ok: bool, ret: nat, width: bool, simple: bool, sp: bool)
      requires old(regparse) < |exp|
      reads this, e, e.program
    {
      var r := ParseAtom(exp, old(regparse), old(regnpar));
      Read(ok, r, ret) && (ok ==> Flags(r.tree, width, simple, sp))
    }

    /** It can be read: there is room for its code, and in the second pass it is
        known to be right. */
    ghost predicate AtomReady()
      reads this, e
    {
      && Valid() && regparse < |exp| && (e.emit ==> ParseAtom(exp, regparse, regnpar).Ok?)
      && (ParseAtom(exp, regparse, regnpar).Ok? ==> Room(Size(ParseAtom(exp, regparse, regnpar).tree)))
    }

    method SignAtom() returns (ok: bool, ret: nat, width: bool, simple: bool, sp: bool)
      requires AtomReady() && (exp[regparse] == CARET || exp[regparse] == DOLLAR || exp[regparse] == DOT)
      modifies this, e, e.program
      ensures AtomRead(ok, ret, width, simple, sp)
    {
      hide Loose, CString, ParseAlts, ParseSet, PlainRun;
      ghost var r := ParseAtom(exp, regparse, regnpar);
      var c := exp[regparse];
      ret := OneNode(if c == CARET then BOL else if c == DOLLAR then EOL else ANY, r.tree);
      regparse := regparse + 1;
      ok, width, simple, sp := true, c == DOT, c == DOT, false;
    }

    method StringAtom() returns (ok: bool, ret: nat, width: bool, simple: bool, sp: bool)
      requires AtomReady() && (exp[regparse] == BACKSLASH || (!IsMeta(exp[regparse]) && exp[regparse] != 0))
      modifies this, e, e.program
      ensures AtomRead(ok, ret, width, simple, sp)
    {
      hide Loose, CString, ParseAlts, ParseSet, PlainRun;
      ghost var r := ParseAtom(exp, regparse, regnpar);
      ok, ret, width, simple, sp := false, 0, true, true, false;
      if exp[regparse] == BACKSLASH {
        if regparse + 1 == |exp| {
          return;
        }
        regparse := regparse + 1;
        OneByte(exp, regparse);
        ret := PutString(1, r.tree);
        ok := true;
      } else {
        var len := RunLength();
        ret := PutString(len, r.tree);
        ok, simple := true, len == 1;
      }
    }

    method GroupAtom() returns (ok: bool, ret: nat, width: bool, simple: bool, sp: bool)
      requires AtomReady() && exp[regparse] == OPEN_PAREN
      modifies this, e, e.program
      ensures AtomRead(ok, ret, width, simple, sp)
      decreases |exp| - regparse, 0
    {
      hide Loose, CString, ParseAlts, ParseSet, PlainRun, Closing;
      ghost var r := ParseAtom(exp, regparse, regnpar);
      simple := false;
      regparse := regparse + 1;
      ok, ret, width, sp := Reg(true);
      if ok && e.emit { GroupEnds(e.Code(), ret, r.tree.no, r.tree.alts); }
    }

    method RegAtom() returns (ok: bool, ret: nat, width: bool, simple: bool, sp: bool)
      requires AtomReady()
      modifies this, e, e.program
      ensures AtomRead(ok, ret, width, simple, sp)
      decreases |exp| - regparse, 1
    {
      hide Loose, CString, ParseAlts, ParseSet, PlainRun;
      var c := exp[regparse];
      TextNonzero(exp, regparse);
      if c == CARET || c == DOLLAR || c == DOT {
        ok, ret, width, simple, sp := SignAtom();
      } else if c == OPEN_SET {
        regparse := regparse + 1;
        ok, ret := SetAtom();
        width, simple, sp := true, true, false;
      } else if c == OPEN_PAREN {
        ok, ret, width, simple, sp := GroupAtom();
      } else if EndsBranch(c) || IsMult(c) {
        ok, ret, width, simple, sp := false, 0, false, false, false;
      } else {
        ok, ret, width, simple, sp := StringAtom();
      }
    }

    // ---------------------------------------------------------------- pieces

    method RegPiece() returns (ok: bool, ret: nat, width: bool, sp: bool)
      requires Valid() && regparse < |exp| && (e.emit ==> ParsePiece(exp, regparse, regnpar).Ok?)
      requires ParsePiece(exp, regparse, regnpar).Ok? ==> Room(Size(ParsePiece(exp, regparse, regnpar).tree))
      modifies this, e, e.program
      ensures Read(ok, ParsePiece(exp, old(regparse), old(regnpar)), ret)
      ensures ok ==>
        var x := ParsePiece(exp, old(regparse), old(regnpar)).tree; width == HasWidth(x) && sp == SpStart(x)
      decreases |exp| - regparse, 2
    {
      hide Loose, CString, ParseAtom;
      ghost var a := ParseAtom(exp, regparse, regnpar);
      var simple;
      ok, ret, width, simple, sp := RegAtom();
      if !ok {
        return;
      }
      var op := At(exp, regparse);
      if !IsMult(op) {
        return;
      }
      if !width && op != QUESTION {
        ok := false;
        return;
      }
      Repeat(op, ret, simple, a.tree);
      width, sp := op == PLUS_SIGN, op != PLUS_SIGN;
      regparse := regparse + 1;
      ok := !IsMult(At(exp, regparse));
    }

    /** The operator behind an atom. */
    method Repeat(op: byte, ret: nat, simple: bool, ghost x: Re)
      requires Valid() && IsMult(op) && simple == Simple(x) && (e.emit ==> Loose(e.Code(), ret, x))
      requires Room(Size(Repeated(x, op)) - Size(x))
      modifies e, e.program
      ensures Valid() && Grown(e, ret, x, Repeated(x, op), Size(Repeated(x, op)) - Size(x))
    {
      hide Loose, CString;
      if op == STAR_SIGN && simple {
        EmitSimple(e, STAR, ret, x);
      } else if op == STAR_SIGN {
        EmitStar(e, ret, x);
      } else if op == PLUS_SIGN && simple {
        EmitSimple(e, PLUS, ret, x);
      } else if op == PLUS_SIGN {
        EmitPlus(e, ret, x);
      } else {
        EmitOpt(e, ret, x);
      }
    }

    // -------------------------------------------------------------- branches

    /** Since the code was `code` and the size `size`, a branch came, up to the
        pieces `done`. */
    ghost predicate InBranch(code: seq<byte>, size: nat, done: Branch)
      reads this, e, e.program
    {
      && Valid()
      && (e.emit ==> e.regsize == size && BranchState(e.Code(), |code|, done) && e.Code()[..|code|] == code)
      && (!e.emit ==> e.Code() == code && e.regsize == size + 3 + PiecesSize(done))
    }

    /** A branch was read and its code made, not hooked up. */
    twostate predicate Branched(ok: bool, r: Parsed<Branch>, ret: nat)
      reads this, e, e.program
    {
      && Valid() && ok == r.Ok?
      && (ok ==> regparse == r.pos && regnpar == r.npar && More(e, ret, 3 + BodySize(r.tree)))
      && (ok && e.emit ==> ret == old(e.regcode) && BranchLaid(e.Code(), ret, r.tree, ret + 3 + BodyTail(r.tree), ret))
    }

    method RegBranch() returns (ok: bool, ret: nat, width: bool, sp: bool)
      requires Valid() && (e.emit ==> ParseBranch(exp, regparse, regnpar).Ok?)
      requires ParseBranch(exp, regparse, regnpar).Ok? ==> Room(3 + BodySize(ParseBranch(exp, regparse, regnpar).tree))
      modifies this, e, e.program
      ensures Branched(ok, ParseBranch(exp, old(regparse), old(regnpar)), ret)
      ensures ok ==>
        var b := ParseBranch(exp, old(regparse), old(regnpar)).tree; width == BranchWidth(b) && sp == BranchSpStart(b)
      decreases |exp| - regparse, 4
    {
      hide CString, ParsePiece, ParseBranch, Prepend, BranchState, BranchLaid, BodySize, BodyTail, PiecesSize, LastAt,
           Size, Snoc;
      ghost var code, size, r := e.Code(), e.regsize, ParseBranch(exp, regparse, regnpar);
      ghost var done := Nil;
      BranchStart(code);
      PrependNil(r);
      ret := e.RegNode(BRANCH);
      AddPrefix(code, [BRANCH, 0, 0], |code|);
      ok, width, sp := true, false, false;
      var chain: nat, any := 0, false;
      assert InBranch(code, size, Nil);
      while !EndsBranch(At(exp, regparse))
        invariant InBranch(code, size, done) && old(regparse) <= regparse
        invariant Prepend(done, ParseBranch(exp, regparse, regnpar)) == r
        invariant any == done.Cons? && (any && e.emit ==> chain == LastAt(|code| + 3, done))
        invariant width == BranchWidth(done) && sp == BranchSpStart(done)
        decreases |exp| - regparse
      {
        ghost var x := ParsePiece(exp, regparse, regnpar);
        StepBranch(exp, regparse, regnpar, done, r);
        InBranchLength(code, size, done);
        var latest, w, s;
        ok, latest, w, s := AddPiece(any, chain, code, size, done);
        if !ok {
          return;
        }
        SnocFacts(done, x.tree);
        SnocLast(|code| + 3, done, x.tree);
        if !any { sp := s; }
        width := width || w;
        done := Snoc(done, x.tree);
        chain, any := latest, true;
      }
      EndBranch(exp, regparse, regnpar, done, r);
      InBranchLength(code, size, done);
      FinishBranch(any, code, size, done);
    }

    lemma InBranchLength(code: seq<byte>, size: nat, done: Branch)
      requires InBranch(code, size, done)
      ensures e.emit ==> e.regcode == |code| + 3 + PiecesSize(done)
    {
      if e.emit { StateLength(e.Code(), |code|, done); }
    }

    /** One piece more, and the one before hooked on to it. */
    method AddPiece(any: bool, chain: nat, ghost code: seq<byte>, ghost size: nat, ghost done: Branch)
      returns (ok: bool, latest: nat, width: bool, sp: bool)
      requires InBranch(code, size, done) && regparse < |exp| && (e.emit ==> ParsePiece(exp, regparse, regnpar).Ok?)
      requires any == done.Cons? && (any && e.emit ==> chain == LastAt(|code| + 3, done))
      requires ParsePiece(exp, regparse, regnpar).Ok? ==> Room(Size(ParsePiece(exp, regparse, regnpar).tree))
      modifies this, e, e.program
      ensures Valid() && ok == ParsePiece(exp, old(regparse), old(regnpar)).Ok?
      ensures ok ==>
        var r := ParsePiece(exp, old(regparse), old(regnpar));
        && regparse == r.pos && regnpar == r.npar && InBranch(code, size, Snoc(done, r.tree))
        && width == HasWidth(r.tree) && sp == SpStart(r.tree) && (e.emit ==> latest == |code| + 3 + PiecesSize(done))
      decreases |exp| - regparse, 3
    {
      hide CString, ParsePiece, BranchState, Loose, Path, PiecesSize, BodyTail, LastAt, Snoc, Size, Tailed;
      ghost var c := e.Code();
      ghost var r := ParsePiece(exp, regparse, regnpar);
      ok, latest, width, sp := RegPiece();
      if !ok {
        return;
      }
      SnocFacts(done, r.tree);
      if e.emit {
        StateLength(c, |code|, done);
        assert e.Code()[..|code|] == code by { assert e.Code()[..|code|] == e.Code()[..|c|][..|code|]; }
        if any {
          BranchReady(c, e.Code(), |code|, done);
          BranchNext(c, e.Code(), |code|, done, r.tree);
        } else {
          BranchFirst(c, e.Code(), |code|, r.tree);
        }
      }
      if any {
        e.RegTail(chain, latest, |code| + 3 + BodyTail(done));
      }
    }

    method FinishBranch(any: bool, ghost code: seq<byte>, ghost size: nat, ghost done: Branch)
      requires InBranch(code, size, done) && any == done.Cons? && (done.Nil? ==> Room(3))
      modifies e, e.program
      ensures Valid() && (!e.emit ==> e.Code() == code && e.regsize == size + 3 + BodySize(done))
      ensures e.emit ==> e.regsize == size && BranchLaid(e.Code(), |code|, done, |code| + 3 + BodyTail(done), |code|)
      ensures e.emit ==> |e.Code()| == |code| + 3 + BodySize(done) && e.Code()[..|code|] == code
    {
      hide CString, BranchState, BranchLaid;
      if e.emit { StateLength(e.Code(), |code|, done); BranchDone(e.Code(), |code|, done); }
      if !any {
        var nothing := e.RegNode(NOTHING);
      }
    }

    // ---------------------------------------------------------- alternatives

    /** Alternatives were read and their code made, closed and hooked up. */
    twostate predicate Closed(ok: bool, paren: bool, r: Parsed<Alts>, ret: nat)
      reads this, e, e.program
    {
      && Valid() && ok == r.Ok?
      && (ok ==> regparse == r.pos && regnpar == r.npar && More(e, ret, RegSize(paren, r.tree)))
      && (ok && e.emit ==> ret == old(e.regcode) && Closing(e.Code(), ret, paren, old(regnpar), r.tree, Count(r.tree)))
    }

    /** Since the code was `code` and the size `size`, the alternatives `done`
        came, behind an OPEN if there is a parenthesis. */
    ghost predicate InReg(code: seq<byte>, size: nat, paren: bool, no: nat, done: Alts)
      reads this, e, e.program
    {
      && Valid()
      && (e.emit ==> e.regsize == size && RegState(e.Code(), |code|, paren, no, done) && e.Code()[..|code|] == code)
      && (!e.emit ==> e.Code() == code && e.regsize == size + RegSize(paren, done) - 3)
    }

    /** The OPEN of a group, and the first alternative. */
    method FirstBranch(paren: bool, no: nat, ghost code: seq<byte>, ghost size: nat) returns (ok: bool, ret: nat,
        width: bool, sp: bool)
      requires Valid() && (paren ==> 1 <= no < NSUBEXP) && code == e.Code() && size == e.regsize
      requires e.emit ==> ParseBranch(exp, regparse, regnpar).Ok?
      requires ParseBranch(exp, regparse, regnpar).Ok? ==>
        Room(RegSize(paren, One(ParseBranch(exp, regparse, regnpar).tree)) - 3)
      modifies this, e, e.program
      ensures Valid() && ok == ParseBranch(exp, old(regparse), old(regnpar)).Ok?
      ensures ok ==>
        var r := ParseBranch(exp, old(regparse), old(regnpar));
        && regparse == r.pos && regnpar == r.npar && InReg(code, size, paren, no, One(r.tree))
        && width == BranchWidth(r.tree) && sp == BranchSpStart(r.tree) && (e.emit ==> ret == |code|)
      decreases |exp| - regparse, 5
    {
      hide CString, ParseBranch, BranchLaid, BodySize, BodyTail, AltState, Path, Node;
      ghost var r := ParseBranch(exp, regparse, regnpar);
      assert r.Ok? ==> AltsSize(One(r.tree)) == 3 + BodySize(r.tree);
      ret := 0;
      if paren { ret := e.RegNode(OPEN + no); }
      ghost var c := e.Code();
      var br;
      ok, br, width, sp := RegBranch();
      if !ok {
        return;
      }
      if e.emit {
        if paren {
          OpenPath(code, c, e.Code(), no);
          OpenFirst(e.Code(), |code|, no, r.tree);
        } else {
          AltStart(e.Code(), br, r.tree);
        }
      }
      if paren {
        e.RegTail(ret, br, |code|);
      } else {
        ret := br;
      }
    }

    /** One alternative more, hooked on to those before. */
    method NextBranch(paren: bool, ret: nat, ghost no: nat, ghost code: seq<byte>, ghost size: nat, ghost done: Alts)
      returns (ok: bool, width: bool, sp: bool)
      requires InReg(code, size, paren, no, done)
      requires e.emit ==> ret == |code| && ParseBranch(exp, regparse, regnpar).Ok?
      requires ParseBranch(exp, regparse, regnpar).Ok? ==> Room(3 + BodySize(ParseBranch(exp, regparse, regnpar).tree))
      modifies this, e, e.program
      ensures Valid() && ok == ParseBranch(exp, old(regparse), old(regnpar)).Ok?
      ensures ok ==>
        var r := ParseBranch(exp, old(regparse), old(regnpar));
        && regparse == r.pos && regnpar == r.npar && InReg(code, size, paren, no, SnocAlt(done, r.tree))
        && width == BranchWidth(r.tree) && sp == BranchSpStart(r.tree)
      decreases |exp| - regparse, 5
    {
      hide CString, ParseBranch, BranchLaid, BodySize, BodyTail, RegState, Path, Node, BranchAt, Count, AltsSize;
      ghost var r := ParseBranch(exp, regparse, regnpar);
      ghost var c := e.Code();
      var br;
      ok, br, width, sp := RegBranch();
      if !ok {
        return;
      }
      SnocAltFacts(done, r.tree);
      if e.emit {
        RegPath(c, e.Code(), |code|, paren, no, done);
        AltNext(c, e.Code(), |code|, paren, no, done, r.tree);
        assert e.Code()[..|code|] == code by { assert e.Code()[..|code|] == e.Code()[..|c|][..|code|]; }
      }
      e.RegTail(ret, br, BranchAt(First(|code|, paren), done, Count(done) - 1));
    }

    /** The closing node, and all alternatives hooked on to it. */
    method Close(paren: bool, ret: nat, no: nat, ghost code: seq<byte>, ghost size: nat, ghost a: Alts)
      requires InReg(code, size, paren, no, a) && (e.emit ==> ret == |code|) && Room(3) && (paren ==> no < NSUBEXP)
      modifies e, e.program
      ensures Valid() && (!e.emit ==> e.Code() == code && e.regsize == size + RegSize(paren, a))
      ensures e.emit ==>
        e.regsize == size && Closing(e.Code(), |code|, paren, no, a, Count(a)) && e.Code()[..|code|] == code
    {
      hide CString, RegState, Path, Node, BranchAt, Count, AltsSize, AltsLaid;
      if e.emit { CloseStart(e.Code(), |code|, paren, no, a); RegLength(e.Code(), |code|, paren, no, a); }
      var ender := e.RegNode(if paren then CLOSE + no else END);
      e.RegTail(ret, ender, BranchAt(First(|code|, paren), a, Count(a) - 1));
      HookAll(paren, ret, ender, no, code, a);
    }

    /** The walk over the branches, from `ret` to the closing node. */
    method HookAll(paren: bool, ret: nat, ender: nat, ghost no: nat, ghost code: seq<byte>, ghost a: Alts)
      requires Valid()
      requires e.emit ==> ret == |code| && Closing(e.Code(), |code|, paren, no, a, 0)
      requires e.emit ==> e.Code()[..|code|] == code && ender + 3 == e.regcode
      modifies e, e.program
      ensures Valid() && e.regsize == old(e.regsize) && (!e.emit ==> e.Code() == old(e.Code()))
      ensures e.emit ==> Closing(e.Code(), |code|, paren, no, a, Count(a)) && e.Code()[..|code|] == code
    {
      if !e.emit {
        return;
      }
      hide CString, Closing, BranchAt, Count, AltsSize;
      var br: nat := ret;
      ghost var k := 0;
      ClosingFacts(e.Code(), ret, paren, no, a, 0);
      if paren { br := e.Next(br); }
      while br != ender
        invariant 0 <= k <= Count(a) && e.Valid() && e.regsize == old(e.regsize) && e.regcode == ender + 3
        invariant Closing(e.Code(), ret, paren, no, a, k) && e.Code()[..|code|] == code
        invariant br == if k < Count(a) then BranchAt(First(ret, paren), a, k) else ender
        decreases Count(a) - k
      {
        br := HookOne(br, paren, ret, ender, no, code, a, k);
        k := k + 1;
      }
      BranchBefore(e.Code(), ret, paren, no, a, k);
    }

    /** One branch of the walk. */
    method HookOne(br: nat, paren: bool, ret: nat, ender: nat, ghost no: nat, ghost code: seq<byte>, ghost a: Alts,
        ghost k: nat) returns (next: nat)
      requires Valid() && e.emit && ret == |code| && Closing(e.Code(), ret, paren, no, a, k)
      requires e.Code()[..|code|] == code
      requires ender + 3 == e.regcode && br == (if k < Count(a) then BranchAt(First(ret, paren), a, k) else ender)
      requires br != ender
      modifies e, e.program
      ensures Valid() && e.regsize == old(e.regsize) && e.regcode == old(e.regcode)
      ensures Closing(e.Code(), ret, paren, no, a, k + 1) && e.Code()[..|code|] == code
      ensures next == if k + 1 < Count(a) then BranchAt(First(ret, paren), a, k + 1) else ender
    {
      hide CString, Path, Closing, BranchAt, BranchOf, BodyTail, Count, AltsSize, Tailed;
      ClosingFacts(e.Code(), ret, paren, no, a, k);
      CloseReady(e.Code(), ret, paren, no, a, k);
      CloseNext(e.Code(), ret, paren, no, a, k);
      e.RegOpTail(br, ender, br + 3 + BodyTail(BranchOf(a, k)));
      next := e.Next(br);
    }

    /** All alternatives. */
    method Branches(paren: bool, no: nat, ghost code: seq<byte>, ghost size: nat) returns (ok: bool, ret: nat,
        width: bool, sp: bool)
      requires Valid() && (paren ==> 1 <= no < NSUBEXP) && code == e.Code() && size == e.regsize
      requires e.emit ==> ParseAlts(exp, regparse, regnpar).Ok?
      requires ParseAlts(exp, regparse, regnpar).Ok? ==>
        Room(RegSize(paren, ParseAlts(exp, regparse, regnpar).tree) - 3)
      modifies this, e, e.program
      ensures Valid() && ok == ParseAlts(exp, old(regparse), old(regnpar)).Ok?
      ensures ok ==>
        var r := ParseAlts(exp, old(regparse), old(regnpar));
        && regparse == r.pos && regnpar == r.npar && InReg(code, size, paren, no, r.tree)
        && width == AltsWidth(r.tree) && sp == AltsSpStart(r.tree) && (e.emit ==> ret == |code|)
      decreases |exp| - regparse, 6
    {
      hide CString, ParseBranch, ParseAlts, BodySize, AltsSize, RegState, AltsRest;
      ghost var r := ParseAlts(exp, regparse, regnpar);
      ghost var b := ParseBranch(exp, regparse, regnpar);
      AltsBegin(exp, regparse, regnpar);
      if b.Ok? { OneSize(b.tree); }
      ok, ret, width, sp := FirstBranch(paren, no, code, size);
      if !ok {
        return;
      }
      ghost var done := One(b.tree);
      while regparse < |exp| && exp[regparse] == BAR
        invariant InReg(code, size, paren, no, done) && old(regparse) <= regparse
        invariant AltsRest(exp, regparse, regnpar, done) == r
        invariant ok && (e.emit ==> ret == |code|) && width == AltsWidth(done) && sp == AltsSpStart(done)
        decreases |exp| - regparse
      {
        AltsStep(exp, regparse, regnpar, done, r);
        InRegLength(code, size, paren, no, done);
        regparse := regparse + 1;
        b := ParseBranch(exp, regparse, regnpar);
        var w, s;
        ok, w, s := NextBranch(paren, ret, no, code, size, done);
        if !ok {
          return;
        }
        SnocAltFacts(done, b.tree);
        done := SnocAlt(done, b.tree);
        width, sp := width && w, sp || s;
      }
      RestDone(exp, regparse, regnpar, done);
    }

    method Reg(paren: bool) returns (ok: bool, ret: nat, width: bool, sp: bool)
      requires Valid() && (e.emit ==> RegSpec(paren, exp, regparse, regnpar).Ok?)
      requires RegSpec(paren, exp, regparse, regnpar).Ok? ==>
        Room(RegSize(paren, RegSpec(paren, exp, regparse, regnpar).tree))
      modifies this, e, e.program
      ensures Closed(ok, paren, RegSpec(paren, exp, old(regparse), old(regnpar)), ret)
      ensures ok ==>
        var a := RegSpec(paren, exp, old(regparse), old(regnpar)).tree; width == AltsWidth(a) && sp == AltsSpStart(a)
      decreases |exp| - regparse, 7
    {
      hide CString, ParseAlts, AltsSize, RegState, AltsLaid, Node, Count;
      var no := regnpar;
      ok, ret, width, sp := false, 0, false, false;
      ghost var code, size := e.Code(), e.regsize;
      if paren {
        if regnpar >= NSUBEXP {
          return;
        }
        regnpar := regnpar + 1;
      }
      ghost var r := ParseAlts(exp, regparse, regnpar);
      ok, ret, width, sp := Branches(paren, no, code, size);
      if !ok {
        return;
      }
      InRegLength(code, size, paren, no, r.tree);
      Close(paren, ret, no, code, size, r.tree);
      if paren {
        ok := At(exp, regparse) == CLOSE_PAREN;
        if ok { regparse := regparse + 1; }
      } else {
        ok := regparse == |exp|;
      }
    }

    lemma InRegLength(code: seq<byte>, size: nat, paren: bool, no: nat, done: Alts)
      requires InReg(code, size, paren, no, done)
      ensures e.emit ==> e.regcode == |code| + RegSize(paren, done) - 3
    {
      if e.emit { RegLength(e.Code(), |code|, paren, no, done); }
    }
  }

  lemma OneSize(b: Branch)
    ensures AltsSize(One(b)) == 3 + BodySize(b)
  {
  }

  lemma RestDone(s: seq<byte>, pos: nat, npar: nat, done: Alts)
    requires pos <= |s| && !(pos < |s| && s[pos] == BAR)
    ensures AltsRest(s, pos, npar, done) == Ok(done, pos, npar)
  {
  }

  lemma RegLength(c: seq<byte>, ret: nat, paren: bool, no: nat, done: Alts)
    requires RegState(c, ret, paren, no, done)
    ensures |c| == ret + RegSize(paren, done) - 3
  {
    hide AltsLaid;
  }

  lemma OpenPath(code: seq<byte>, c: seq<byte>, c': seq<byte>, no: nat)
    requires 1 <= no < NSUBEXP && c == code + [OPEN + no, 0, 0] && |c| <= |c'| && c'[..|c|] == c
    ensures
      var ret := |code|;
      Node(c', ret, OPEN + no, ret) && ret + 3 <= |c'| && Path(c', ret, ret) && RegNext(c', ret) == ret
      && c'[ret] != BACK && c'[..ret] == code
  {
    hide Node, Path, Same;
    var ret := |code|;
    AddNode(code, OPEN + no);
    GrowSame(c, c', ret, 3);
    MoveNode(c, ret, c', ret, 3, 0, OPEN + no, ret);
    NodeIs(c', ret, OPEN + no, ret);
    PathHere(c', ret);
    AddPrefix(code, [OPEN + no, 0, 0], ret);
    assert c'[..ret] == c'[..|c|][..ret];
  }

  lemma OpenFirst(c: seq<byte>, ret: nat, no: nat, b: Branch)
    requires 1 <= no < NSUBEXP && Node(c, ret, OPEN + no, ret) && ret + 3 <= |c| < MAX_SIZE && c[ret] != BACK
    requires BranchLaid(c, ret + 3, b, ret + 6 + BodyTail(b), ret + 3) && |c| == ret + 6 + BodySize(b)
    ensures var c' := Tailed(c, ret, ret + 3); RegState(c', ret, true, no, One(b)) && c'[..ret] == c[..ret]
  {
    hide BranchLaid, BodySize, BodyTail, Node, Patch, Same, AltState;
    TailedHooks(c, ret, ret + 3);
    hide Tailed;
    var c' := Hooked(c, ret, ret + 3);
    HookNode(c, ret, OPEN + no, ret + 3);
    PatchSame(c, ret, 3, ret + 3, 3 + BodySize(b));
    MoveBranch(c, ret + 3, c', ret + 3, b, ret + 6 + BodyTail(b), ret + 3);
    AltStart(c', ret + 3, b);
    HookedPrefix(c, ret, ret + 3, ret);
  }

  lemma BranchBefore(c: seq<byte>, ret: nat, paren: bool, no: nat, a: Alts, k: nat)
    requires Closing(c, ret, paren, no, a, k)
    ensures k < Count(a) ==> BranchAt(First(ret, paren), a, k) + 3 < |c|
  {
    hide AltsLaid, AltsSize, BranchAt, Node;
    if k < Count(a) { BranchBounds(First(ret, paren), a, k); }
  }

  lemma ClosingFacts(c: seq<byte>, ret: nat, paren: bool, no: nat, a: Alts, k: nat)
    requires Closing(c, ret, paren, no, a, k)
    ensures |c| == First(ret, paren) + AltsSize(a) + 3 && BranchAt(First(ret, paren), a, 0) == First(ret, paren)
    ensures paren ==> ret + 3 <= |c| && RegNext(c, ret) == ret + 3
  {
    hide AltsLaid, AltsSize;
  }

  lemma StateLength(c: seq<byte>, ret: nat, done: Branch)
    requires BranchState(c, ret, done)
    ensures |c| == ret + 3 + PiecesSize(done)
  {
  }

  lemma PrependNil(r: Parsed<Branch>)
    ensures Prepend(Nil, r) == r && PiecesSize(Nil) == 0
  {
  }

  /** One piece of a branch; there is room for it if there is for the branch. */
  lemma StepBranch(s: seq<byte>, pos: nat, npar: nat, done: Branch, r: Parsed<Branch>)
    requires pos <= |s| && !EndsBranch(At(s, pos)) && Prepend(done, ParseBranch(s, pos, npar)) == r
    ensures pos < |s|
    ensures var x := ParsePiece(s, pos, npar);
      && (x.Fail? ==> r.Fail?)
      && (x.Ok? ==> Prepend(Snoc(done, x.tree), ParseBranch(s, x.pos, x.npar)) == r)
      && (r.Ok? ==> x.Ok? && PiecesSize(done) + Size(x.tree) <= BodySize(r.tree))
  {
    hide ParsePiece, Size;
    var x := ParsePiece(s, pos, npar);
    if x.Ok? {
      var rest := ParseBranch(s, x.pos, x.npar);
      if rest.Ok? {
        AppendSnoc(done, x.tree, rest.tree);
        AppendSize(done, Cons(x.tree, rest.tree));
        assert r.tree.Cons?;
      }
    }
  }

  lemma EndBranch(s: seq<byte>, pos: nat, npar: nat, done: Branch, r: Parsed<Branch>)
    requires pos <= |s| && EndsBranch(At(s, pos)) && Prepend(done, ParseBranch(s, pos, npar)) == r
    ensures r == Ok(done, pos, npar) && (done.Nil? ==> PiecesSize(done) == 0 && BodySize(done) == 3)
  {
    AppendNil(done);
  }

  lemma OneByte(s: seq<byte>, i: nat)
    requires i < |s|
    ensures s[i..i + 1] == [s[i]]
  {
  }

  lemma TextNonzero(s: seq<byte>, i: nat)
    requires CString(s) && i < |s|
    ensures s[i] != 0
  {
  }
}
