/** The code of x*, x+ and x?, put around the code of x in place. */
module RegexCompile {
  import opened Common
  import opened RegexSyntax
  import opened RegexCode
  import opened RegexEmit
  import opened RegexBuild

  /** `x` is the code from `ret` on, not yet hooked on to anything. */
  ghost predicate Loose(code: seq<byte>, ret: nat, x: Re) {
    Laid(code, ret, x, ret + Tail(x)) && ret + Size(x) == |code|
  }

  // ------------------------------------------------------------- repetitions

  /** The effect of an operator that adds `n` bytes to the code of `x`. */
  twostate predicate Grown(e: Emitter, ret: nat, x: Re, y: Re, n: nat)
    reads e, e.program
  {
    && e.Valid() && old(e.Valid())
    && (!e.emit ==> e.Code() == old(e.Code()) && e.regsize == old(e.regsize) + n)
    && (e.emit ==> e.regsize == old(e.regsize) && Loose(e.Code(), ret, y) && |e.Code()| == old(|e.Code()|) + n)
    && (e.emit ==> ret <= old(|e.Code()|) && e.Code()[..ret] == old(e.Code()[..ret]))
  }

  method EmitSimple(e: Emitter, op: byte, ret: nat, ghost x: Re)
    requires e.Valid() && Simple(x) && (op == STAR || op == PLUS)
    requires e.emit ==> Loose(e.Code(), ret, x) && e.regcode + 3 <= e.program.Length
    modifies e, e.program
    ensures Grown(e, ret, x, if op == STAR then Star(x) else Plus(x), 3)
  {
    hide Laid;
    ghost var code := e.Code();
    if e.emit { SimpleTail(x); SimpleBuilt(code, ret, x); InsertPrefix(code, ret, op); }
    e.RegInsert(op, ret);
  }

  lemma SimpleTail(x: Re)
    requires Simple(x)
    ensures Tail(x) == 0
  {
  }

  /** A step in between: `n` bytes more, and nothing before `ret` touched. */
  twostate predicate More(e: Emitter, ret: nat, n: nat)
    reads e, e.program
  {
    && e.Valid() && old(e.Valid())
    && (!e.emit ==> e.Code() == old(e.Code()) && e.regsize == old(e.regsize) + n)
    && (e.emit ==> e.regsize == old(e.regsize) && |e.Code()| == old(|e.Code()|) + n)
    && (e.emit ==> ret <= old(|e.Code()|) && e.Code()[..ret] == old(e.Code()[..ret]))
  }

  ghost predicate StarA(c: seq<byte>, ret: nat, x: Re) {
    var back := ret + 3 + Size(x);
    BranchAnd(c, ret, ret, x, back) && Node(c, back, BACK, back) && |c| == back + 3
  }

  ghost predicate StarB(c: seq<byte>, ret: nat, x: Re) {
    var back := ret + 3 + Size(x);
    && BranchAnd(c, ret, ret, x, back) && Node(c, back, BACK, ret) && Node(c, back + 3, BRANCH, back + 3)
    && |c| == back + 6
    && Path(c, ret, ret) && RegNext(c, ret) == ret && c[ret] == BRANCH
  }

  /** An operator in front and a node behind. */
  method InsertAndNode(e: Emitter, op: byte, ret: nat, op2: byte) returns (p: nat)
    requires e.Valid() && (e.emit ==> ret <= e.regcode && e.regcode + 6 <= e.program.Length)
    modifies e, e.program
    ensures e.Valid() && (e.emit ==> e.Code() == Inserted(old(e.Code()), ret, op) + [op2, 0, 0])
    ensures e.emit ==> e.regsize == old(e.regsize) && p == old(e.regcode) + 3
    ensures !e.emit ==> e.Code() == old(e.Code()) && e.regsize == old(e.regsize) + 6
  {
    if e.emit { InsertPrefix(e.Code(), ret, op); }
    hide Inserted;
    e.RegInsert(op, ret);
    p := e.RegNode(op2);
  }

  /** Either x, and then a BACK. */
  method StarPart1(e: Emitter, ret: nat, ghost x: Re)
    requires e.Valid() && (e.emit ==> Loose(e.Code(), ret, x) && e.regcode + 12 <= e.program.Length)
    modifies e, e.program
    ensures More(e, ret, 6) && (e.emit ==> StarA(e.Code(), ret, x))
  {
    hide Laid, Node, Path, Tailed, BranchAnd, Inserted;
    if e.emit { StarStep1(e.Code(), ret, x); }
    var back := InsertAndNode(e, BRANCH, ret, BACK);
    e.RegOpTail(ret, back, ret + 3 + Tail(x));
  }

  /** The BACK points back; or a second BRANCH. */
  method StarPart2(e: Emitter, ret: nat, ghost x: Re) returns (or: nat)
    requires e.Valid() && (e.emit ==> StarA(e.Code(), ret, x) && e.regcode + 6 <= e.program.Length)
    modifies e, e.program
    ensures More(e, ret, 3) && (e.emit ==> StarB(e.Code(), ret, x) && or == ret + 6 + Size(x))
  {
    hide Laid, Node, Path, Tailed, BranchAnd;
    if e.emit { StarStep2(e.Code(), ret, x); }
    e.RegOpTail(ret, ret, ret + 3 + Size(x));
    or := e.RegNode(BRANCH);
  }

  /** The first BRANCH points to the second, and that to nothing. */
  method StarPart3(e: Emitter, ret: nat, or: nat, ghost x: Re)
    requires e.Valid() && !Simple(x)
    requires e.emit ==> StarB(e.Code(), ret, x) && or == ret + 6 + Size(x) && e.regcode + 3 <= e.program.Length
    modifies e, e.program
    ensures More(e, ret, 3) && (e.emit ==> Loose(e.Code(), ret, Star(x)))
  {
    hide Laid, Node, Path, Tailed, BranchAnd;
    if e.emit { StarStep3(e.Code(), ret, x); }
    e.RegTail(ret, or, ret);
    var nothing := e.RegNode(NOTHING);
    if e.emit { StarBuilt(e.Code(), ret, x); }
    e.RegTail(ret, nothing, or);
  }

  method EmitStar(e: Emitter, ret: nat, ghost x: Re)
    requires e.Valid() && !Simple(x)
    requires e.emit ==> Loose(e.Code(), ret, x) && e.regcode + 12 <= e.program.Length
    modifies e, e.program
    ensures Grown(e, ret, x, Star(x), 12)
  {
    hide Loose, StarA, StarB;
    StarPart1(e, ret, x);
    var or := StarPart2(e, ret, x);
    StarPart3(e, ret, or, x);
  }

  ghost predicate PlusA(c: seq<byte>, ret: nat, x: Re) {
    var again := ret + Size(x);
    && Laid(c, ret, x, again) && Node(c, again, BRANCH, again) && Node(c, again + 3, BACK, again + 3)
    && |c| == again + 6
    && Path(c, again + 3, again + 3) && RegNext(c, again + 3) == again + 3 && c[again + 3] == BACK
  }

  ghost predicate PlusB(c: seq<byte>, ret: nat, x: Re) {
    var again := ret + Size(x);
    && Laid(c, ret, x, again) && Node(c, again, BRANCH, again) && Node(c, again + 3, BACK, ret)
    && Node(c, again + 6, BRANCH, again + 6) && |c| == again + 9
    && Path(c, again, again) && RegNext(c, again) == again && c[again] == BRANCH
  }

  /** x, and then either a BACK. */
  method PlusPart1(e: Emitter, ret: nat, ghost x: Re) returns (next: nat, back: nat)
    requires e.Valid() && (e.emit ==> Loose(e.Code(), ret, x) && e.regcode + 12 <= e.program.Length)
    modifies e, e.program
    ensures More(e, ret, 6) && (e.emit ==> PlusA(e.Code(), ret, x) && next == ret + Size(x) && back == next + 3)
  {
    hide Laid, Node, Path, Tailed, Size, Tail, Offset;
    if e.emit { PlusStep1(e.Code(), ret, x); }
    next := e.RegNode(BRANCH);
    e.RegTail(ret, next, ret + Tail(x));
    back := e.RegNode(BACK);
  }

  /** The BACK points back; or a second BRANCH. */
  method PlusPart2(e: Emitter, ret: nat, back: nat, ghost x: Re) returns (or: nat)
    requires e.Valid()
    requires e.emit ==> PlusA(e.Code(), ret, x) && back == ret + Size(x) + 3 && e.regcode + 6 <= e.program.Length
    modifies e, e.program
    ensures More(e, ret, 3) && (e.emit ==> PlusB(e.Code(), ret, x) && or == back + 3)
  {
    hide Laid, Node, Path, Tailed;
    if e.emit { PlusStep2(e.Code(), ret, x); }
    e.RegTail(back, ret, back);
    or := e.RegNode(BRANCH);
  }

  /** The first BRANCH points to the second, and that to nothing. */
  method PlusPart3(e: Emitter, ret: nat, next: nat, or: nat, ghost x: Re)
    requires e.Valid() && !Simple(x)
    requires e.emit ==>
      PlusB(e.Code(), ret, x) && next == ret + Size(x) && or == next + 6 && e.regcode + 3 <= e.program.Length
    modifies e, e.program
    ensures More(e, ret, 3) && (e.emit ==> Loose(e.Code(), ret, Plus(x)))
  {
    hide Laid, Node, Path, Tailed;
    if e.emit { PlusStep3(e.Code(), ret, x); }
    e.RegTail(next, or, next);
    var nothing := e.RegNode(NOTHING);
    if e.emit { PlusBuilt(e.Code(), ret, x); }
    e.RegTail(ret, nothing, or);
  }

  method EmitPlus(e: Emitter, ret: nat, ghost x: Re)
    requires e.Valid() && !Simple(x)
    requires e.emit ==> Loose(e.Code(), ret, x) && e.regcode + 12 <= e.program.Length
    modifies e, e.program
    ensures Grown(e, ret, x, Plus(x), 12)
  {
    hide Loose, PlusA, PlusB;
    var next, back := PlusPart1(e, ret, x);
    var or := PlusPart2(e, ret, back, x);
    PlusPart3(e, ret, next, or, x);
  }

  ghost predicate OptA(c: seq<byte>, ret: nat, x: Re) {
    var or := ret + 3 + Size(x);
    && BranchAnd(c, ret, or, x, ret + 3 + Tail(x)) && Node(c, or, BRANCH, or) && Node(c, or + 3, NOTHING, or + 3)
    && |c| == or + 6
    && Path(c, ret, or) && RegNext(c, or) == or && c[or] == BRANCH
  }

  /** Either x, or nothing. */
  method OptPart1(e: Emitter, ret: nat, ghost x: Re) returns (next: nat)
    requires e.Valid() && (e.emit ==> Loose(e.Code(), ret, x) && e.regcode + 9 <= e.program.Length)
    modifies e, e.program
    ensures More(e, ret, 9) && (e.emit ==> OptA(e.Code(), ret, x) && next == ret + 6 + Size(x))
  {
    hide Laid, Node, Path, Tailed, BranchAnd, Inserted;
    if e.emit { OptStep1(e.Code(), ret, x); }
    var or := InsertAndNode(e, BRANCH, ret, BRANCH);
    e.RegTail(ret, or, ret);
    next := e.RegNode(NOTHING);
  }

  method OptPart2(e: Emitter, ret: nat, next: nat, ghost x: Re)
    requires e.Valid() && (e.emit ==> OptA(e.Code(), ret, x) && next == ret + 6 + Size(x))
    modifies e, e.program
    ensures More(e, ret, 0) && (e.emit ==> Loose(e.Code(), ret, Opt(x)))
  {
    hide Laid, Node, Path, Tailed, BranchAnd;
    if e.emit { OptStep2(e.Code(), ret, x); }
    e.RegTail(ret, next, ret + 3 + Size(x));
    if e.emit { OptBuilt(e.Code(), ret, x); }
    e.RegOpTail(ret, next, ret + 3 + Tail(x));
  }

  method EmitOpt(e: Emitter, ret: nat, ghost x: Re)
    requires e.Valid() && (e.emit ==> Loose(e.Code(), ret, x) && e.regcode + 9 <= e.program.Length)
    modifies e, e.program
    ensures Grown(e, ret, x, Opt(x), 9)
  {
    hide Loose, OptA;
    var next := OptPart1(e, ret, x);
    OptPart2(e, ret, next, x);
  }
}
