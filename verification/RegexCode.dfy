/** The code of a regular expression: nodes of an opcode and a two-byte offset
    to the next node, and how the code of a tree is laid out. */
module RegexCode {
  import opened Common
  import opened RegexSyntax

  const END: byte := 0
  const BOL: byte := 1
  const EOL: byte := 2
  const ANY: byte := 3
  const ANYOF: byte := 4
  const ANYBUT: byte := 5
  const BRANCH: byte := 6
  const BACK: byte := 7
  const EXACTLY: byte := 8
  const NOTHING: byte := 9
  const STAR: byte := 10
  const PLUS: byte := 11
  const OPEN: byte := 20
  const CLOSE: byte := 30

  const MAGIC: byte := 0x9C

  /** Offsets are below this. */
  const REACH: nat := 65536

  // ------------------------------------------------------------------- nodes

  function Offset(prog: seq<byte>, p: nat): nat
    requires p + 3 <= |prog|
  {
    var high: nat, low: nat := prog[p + 1], prog[p + 2];
    high * 256 + low
  }

  /** regnext: the node a node points to; NULL is given as the node itself. */
  function RegNext(prog: seq<byte>, p: nat): int
    requires p + 3 <= |prog|
  {
    if prog[p] == BACK then p - Offset(prog, p) else p + Offset(prog, p)
  }

  predicate Node(prog: seq<byte>, p: nat, op: byte, target: int) {
    p + 3 <= |prog| && prog[p] == op && RegNext(prog, p) == target
  }

  /** A string behind a node, with its zero. */
  predicate Operand(prog: seq<byte>, p: nat, chars: seq<byte>) {
    p + |chars| + 1 <= |prog| && prog[p..p + |chars|] == chars && prog[p + |chars|] == 0
  }

  // -------------------------------------------------------------------- sizes

  function Size(x: Re): (n: nat)
    ensures n >= 3
  {
    match x
    case Bol => 3
    case Eol => 3
    case Any => 3
    case Set(_, _, chars) => 4 + |chars|
    case Str(chars, _) => 4 + |chars|
    case Group(_, alts) => 6 + AltsSize(alts)
    case Star(y) => if Simple(y) then 3 + Size(y) else 12 + Size(y)
    case Plus(y) => if Simple(y) then 3 + Size(y) else 12 + Size(y)
    case Opt(y) => 9 + Size(y)
  }

  function PiecesSize(b: Branch): nat {
    if b.Nil? then 0 else Size(b.p) + PiecesSize(b.rest)
  }

  /** A branch without pieces holds one NOTHING. */
  function BodySize(b: Branch): (n: nat)
    ensures n >= 3
  {
    if b.Nil? then 3 else Size(b.p) + PiecesSize(b.rest)
  }

  function AltsSize(a: Alts): (n: nat)
    ensures n >= 6
  {
    3 + BodySize(a.b) + if a.Or? then AltsSize(a.rest) else 0
  }

  function Count(a: Alts): (n: nat)
    ensures n >= 1
  {
    1 + if a.Or? then Count(a.rest) else 0
  }

  /** Where in the code of a tree its last node is, the one to be hooked on to
      what follows. */
  function Tail(x: Re): (n: nat)
    ensures n + 3 <= Size(x)
  {
    match x
    case Group(_, alts) => 3 + AltsSize(alts)
    case Star(y) => if Simple(y) then 0 else 9 + Size(y)
    case Plus(y) => if Simple(y) then 0 else 9 + Size(y)
    case Opt(y) => 6 + Size(y)
    case _ => 0
  }

  function BodyTail(b: Branch): (n: nat)
    ensures n + 3 <= BodySize(b)
  {
    if b.Nil? then 0 else if b.rest.Nil? then Tail(b.p) else Size(b.p) + BodyTail(b.rest)
  }

  // ------------------------------------------------------------------- layout

  /** The code of `x` lies at `at` and goes on to `out`.  While its last node is
      not hooked on to anything, `out` is that node itself. */
  ghost predicate Laid(prog: seq<byte>, at: nat, x: Re, out: int)
    decreases x
  {
    && at + Size(x) <= |prog|
    && match x
       case Bol => Node(prog, at, BOL, out)
       case Eol => Node(prog, at, EOL, out)
       case Any => Node(prog, at, ANY, out)
       case Set(negate, _, chars) =>
         Node(prog, at, if negate then ANYBUT else ANYOF, out) && Operand(prog, at + 3, chars)
       case Str(chars, _) => Node(prog, at, EXACTLY, out) && Operand(prog, at + 3, chars)
       case Group(no, alts) =>
         var close := at + 3 + AltsSize(alts);
         && 1 <= no < NSUBEXP && Node(prog, at, OPEN + no, at + 3)
         && AltsLaid(prog, at + 3, alts, close, Count(alts), close) && Node(prog, close, CLOSE + no, out)
       case Star(y) =>
         if Simple(y) then Node(prog, at, STAR, out) && Laid(prog, at + 3, y, at + 3)
         else StarNodes(prog, at, Size(y), out) && Laid(prog, at + 3, y, at + 3 + Size(y))
       case Plus(y) =>
         if Simple(y) then Node(prog, at, PLUS, out) && Laid(prog, at + 3, y, at + 3)
         else PlusNodes(prog, at, Size(y), out) && Laid(prog, at, y, at + Size(y))
       case Opt(y) => OptNodes(prog, at, Size(y), out) && Laid(prog, at + 3, y, at + 6 + Size(y))
  }

  /** Around the code of y, `n` bytes long, for y*: either y and back here, or
      nothing. */
  predicate StarNodes(prog: seq<byte>, at: nat, n: nat, out: int) {
    var back := at + 3 + n;
    && Node(prog, at, BRANCH, back + 3) && Node(prog, back, BACK, at)
    && Node(prog, back + 3, BRANCH, back + 6) && Node(prog, back + 6, NOTHING, out)
  }

  /** Behind it for y+: either back to y, or nothing. */
  predicate PlusNodes(prog: seq<byte>, at: nat, n: nat, out: int) {
    var again := at + n;
    && Node(prog, again, BRANCH, again + 6) && Node(prog, again + 3, BACK, at)
    && Node(prog, again + 6, BRANCH, again + 9) && Node(prog, again + 9, NOTHING, out)
  }

  /** Around it for y?: either y, or nothing. */
  predicate OptNodes(prog: seq<byte>, at: nat, n: nat, out: int) {
    var or := at + 3 + n;
    Node(prog, at, BRANCH, or) && Node(prog, or, BRANCH, or + 3) && Node(prog, or + 3, NOTHING, out)
  }

  ghost predicate PiecesLaid(prog: seq<byte>, at: nat, b: Branch, out: int)
    requires b.Cons?
    decreases b, 0
  {
    if b.rest.Nil? then Laid(prog, at, b.p, out)
    else Laid(prog, at, b.p, at + Size(b.p)) && PiecesLaid(prog, at + Size(b.p), b.rest, out)
  }

  ghost predicate BodyLaid(prog: seq<byte>, at: nat, b: Branch, out: int)
    decreases b, 1
  {
    if b.Nil? then Node(prog, at, NOTHING, out) else PiecesLaid(prog, at, b, out)
  }

  /** A BRANCH at `at` that points to `target`, and its body. */
  ghost predicate BranchLaid(prog: seq<byte>, at: nat, b: Branch, out: int, target: int)
    decreases b, 2
  {
    Node(prog, at, BRANCH, target) && BodyLaid(prog, at + 3, b, out)
  }

  /** Where the body of the first of some branches goes on to, if `hooked` of
      them go on to `out` and the other ones are not hooked yet. */
  function BodyOut(at: nat, b: Branch, out: int, hooked: nat): int {
    if hooked > 0 then out else at + 3 + BodyTail(b)
  }

  function Less(n: nat): nat {
    if n > 0 then n - 1 else 0
  }

  /** A choice at `at`: of its branches the first `hooked` go on to `out`; each
      BRANCH points to the next one and the last one to `last`. */
  ghost predicate AltsLaid(prog: seq<byte>, at: nat, a: Alts, out: int, hooked: nat, last: int)
    decreases a
  {
    var next := at + 3 + BodySize(a.b);
    && at + AltsSize(a) <= |prog|
    && BranchLaid(prog, at, a.b, BodyOut(at, a.b, out, hooked), if a.One? then last else next)
    && (a.Or? ==> AltsLaid(prog, next, a.rest, out, Less(hooked), last))
  }

  predicate Leaf(x: Re) {
    x.Bol? || x.Eol? || x.Any? || x.Set? || x.Str?
  }

  // ------------------------------------------------------------ moving code

  /** `n` bytes at `at` are also at `at'` in another program. */
  ghost predicate Same(prog: seq<byte>, at: nat, prog': seq<byte>, at': nat, n: nat) {
    at + n <= |prog| && at' + n <= |prog'| && prog[at..at + n] == prog'[at'..at' + n]
  }

  lemma SamePart(prog: seq<byte>, at: nat, prog': seq<byte>, at': nat, n: nat, d: nat, m: nat)
    requires Same(prog, at, prog', at', n) && d + m <= n
    ensures Same(prog, at + d, prog', at' + d, m)
  {
    Slice(prog, at, n, d, m);
    Slice(prog', at', n, d, m);
  }

  lemma Slice(s: seq<byte>, a: nat, n: nat, d: nat, m: nat)
    requires a + n <= |s| && d + m <= n
    ensures s[a..a + n][d..d + m] == s[a + d..a + d + m]
  {
    var l, r := s[a..a + n][d..d + m], s[a + d..a + d + m];
    assert |l| == |r|;
    forall k | 0 <= k < m ensures l[k] == r[k] {
    }
  }

  lemma MoveNode(prog: seq<byte>, at: nat, prog': seq<byte>, at': nat, n: nat, d: nat, op: byte, target: int)
    requires Same(prog, at, prog', at', n) && d + 3 <= n && Node(prog, at + d, op, target)
    ensures Node(prog', at' + d, op, target - at + at')
  {
    SamePart(prog, at, prog', at', n, d, 3);
    var a, b := prog[at + d..at + d + 3], prog'[at' + d..at' + d + 3];
    assert a[0] == b[0] && a[1] == b[1] && a[2] == b[2];
  }

  lemma MoveOperand(prog: seq<byte>, at: nat, prog': seq<byte>, at': nat, n: nat, chars: seq<byte>)
    requires Same(prog, at, prog', at', n) && 4 + |chars| <= n && Operand(prog, at + 3, chars)
    ensures Operand(prog', at' + 3, chars)
  {
    SamePart(prog, at, prog', at', n, 3, |chars|);
    SamePart(prog, at, prog', at', n, 3 + |chars|, 1);
    assert prog[at + 3 + |chars|..at + 3 + |chars| + 1][0] == prog'[at' + 3 + |chars|..at' + 3 + |chars| + 1][0];
  }

  lemma MoveStarNodes(prog: seq<byte>, at: nat, prog': seq<byte>, at': nat, n: nat, out: int)
    requires StarNodes(prog, at, n, out) && Same(prog, at, prog', at', n + 12)
    ensures StarNodes(prog', at', n, out - at + at')
  {
    hide Node, Same;
    var back := at + 3 + n;
    MoveNode(prog, at, prog', at', n + 12, 0, BRANCH, back + 3);
    MoveNode(prog, at, prog', at', n + 12, 3 + n, BACK, at);
    MoveNode(prog, at, prog', at', n + 12, 6 + n, BRANCH, back + 6);
    MoveNode(prog, at, prog', at', n + 12, 9 + n, NOTHING, out);
  }

  lemma MovePlusNodes(prog: seq<byte>, at: nat, prog': seq<byte>, at': nat, n: nat, out: int)
    requires PlusNodes(prog, at, n, out) && Same(prog, at, prog', at', n + 12)
    ensures PlusNodes(prog', at', n, out - at + at')
  {
    hide Node, Same;
    var again := at + n;
    MoveNode(prog, at, prog', at', n + 12, n, BRANCH, again + 6);
    MoveNode(prog, at, prog', at', n + 12, n + 3, BACK, at);
    MoveNode(prog, at, prog', at', n + 12, n + 6, BRANCH, again + 9);
    MoveNode(prog, at, prog', at', n + 12, n + 9, NOTHING, out);
  }

  lemma MoveOptNodes(prog: seq<byte>, at: nat, prog': seq<byte>, at': nat, n: nat, out: int)
    requires OptNodes(prog, at, n, out) && Same(prog, at, prog', at', n + 9)
    ensures OptNodes(prog', at', n, out - at + at')
  {
    hide Node, Same;
    var or := at + 3 + n;
    MoveNode(prog, at, prog', at', n + 9, 0, BRANCH, or);
    MoveNode(prog, at, prog', at', n + 9, 3 + n, BRANCH, or + 3);
    MoveNode(prog, at, prog', at', n + 9, 6 + n, NOTHING, out);
  }

  lemma MoveGroup(prog: seq<byte>, at: nat, prog': seq<byte>, at': nat, x: Re, out: int)
    requires x.Group? && Laid(prog, at, x, out) && Same(prog, at, prog', at', Size(x))
    ensures Laid(prog', at', x, out - at + at')
    decreases x, 0
  {
    hide Node, Same, AltsLaid, AltsSize, Count;
    var n, size := Size(x), AltsSize(x.alts);
    var close := at + 3 + size;
    assert n <= |prog'| - at' by { SameEnd(prog, at, prog', at', n); }
    MoveNode(prog, at, prog', at', n, 0, OPEN + x.no, at + 3);
    SamePart(prog, at, prog', at', n, 3, size);
    MoveAlts(prog, at + 3, prog', at' + 3, x.alts, close, Count(x.alts), close);
    MoveNode(prog, at, prog', at', n, 3 + size, CLOSE + x.no, out);
  }

  lemma SameEnd(prog: seq<byte>, at: nat, prog': seq<byte>, at': nat, n: nat)
    requires Same(prog, at, prog', at', n)
    ensures at + n <= |prog| && at' + n <= |prog'|
  {
  }

  lemma MoveLeaf(prog: seq<byte>, at: nat, prog': seq<byte>, at': nat, x: Re, out: int)
    requires Leaf(x) && Laid(prog, at, x, out) && Same(prog, at, prog', at', Size(x))
    ensures Laid(prog', at', x, out - at + at')
  {
    hide Node, Operand, Same;
    var n := Size(x);
    SameEnd(prog, at, prog', at', n);
    match x
    case Bol => MoveNode(prog, at, prog', at', n, 0, BOL, out);
    case Eol => MoveNode(prog, at, prog', at', n, 0, EOL, out);
    case Any => MoveNode(prog, at, prog', at', n, 0, ANY, out);
    case Set(negate, _, chars) =>
      MoveNode(prog, at, prog', at', n, 0, if negate then ANYBUT else ANYOF, out);
      MoveOperand(prog, at, prog', at', n, chars);
    case Str(chars, _) =>
      MoveNode(prog, at, prog', at', n, 0, EXACTLY, out);
      MoveOperand(prog, at, prog', at', n, chars);
  }

  lemma MoveStar(prog: seq<byte>, at: nat, prog': seq<byte>, at': nat, y: Re, out: int)
    requires Laid(prog, at, Star(y), out) && Same(prog, at, prog', at', Size(Star(y)))
    ensures Laid(prog', at', Star(y), out - at + at')
    decreases Star(y), 0
  {
    hide Node, Same, StarNodes;
    var n := Size(Star(y));
    SameEnd(prog, at, prog', at', n);
    SamePart(prog, at, prog', at', n, 3, Size(y));
    if Simple(y) {
      MoveNode(prog, at, prog', at', n, 0, STAR, out);
      Move(prog, at + 3, prog', at' + 3, y, at + 3);
    } else {
      MoveStarNodes(prog, at, prog', at', Size(y), out);
      Move(prog, at + 3, prog', at' + 3, y, at + 3 + Size(y));
    }
  }

  lemma MovePlus(prog: seq<byte>, at: nat, prog': seq<byte>, at': nat, y: Re, out: int)
    requires Laid(prog, at, Plus(y), out) && Same(prog, at, prog', at', Size(Plus(y)))
    ensures Laid(prog', at', Plus(y), out - at + at')
    decreases Plus(y), 0
  {
    hide Node, Same, PlusNodes;
    var n := Size(Plus(y));
    SameEnd(prog, at, prog', at', n);
    if Simple(y) {
      SamePart(prog, at, prog', at', n, 3, Size(y));
      MoveNode(prog, at, prog', at', n, 0, PLUS, out);
      Move(prog, at + 3, prog', at' + 3, y, at + 3);
    } else {
      SamePart(prog, at, prog', at', n, 0, Size(y));
      MovePlusNodes(prog, at, prog', at', Size(y), out);
      Move(prog, at, prog', at', y, at + Size(y));
    }
  }

  /** Code means the same wherever it lies: all its offsets are relative. */
  lemma {:induction false} Move(prog: seq<byte>, at: nat, prog': seq<byte>, at': nat, x: Re, out: int)
    requires Laid(prog, at, x, out) && Same(prog, at, prog', at', Size(x))
    ensures Laid(prog', at', x, out - at + at')
    decreases x, 1
  {
    hide Node, Operand, Same, AltsLaid, StarNodes, PlusNodes, OptNodes, AltsSize;
    var n := Size(x);
    SameEnd(prog, at, prog', at', n);
    match x
    case Group(_, _) => MoveGroup(prog, at, prog', at', x, out);
    case Star(y) => MoveStar(prog, at, prog', at', y, out);
    case Plus(y) => MovePlus(prog, at, prog', at', y, out);
    case Opt(y) =>
      SamePart(prog, at, prog', at', n, 3, Size(y));
      MoveOptNodes(prog, at, prog', at', Size(y), out);
      Move(prog, at + 3, prog', at' + 3, y, at + 6 + Size(y));
    case _ => MoveLeaf(prog, at, prog', at', x, out);
  }

  lemma {:induction false} MovePieces(prog: seq<byte>, at: nat, prog': seq<byte>, at': nat, b: Branch, out: int)
    requires b.Cons? && PiecesLaid(prog, at, b, out) && Same(prog, at, prog', at', BodySize(b))
    ensures PiecesLaid(prog', at', b, out - at + at')
    decreases b, 0
  {
    hide Laid, Same;
    var n, m := BodySize(b), Size(b.p);
    SamePart(prog, at, prog', at', n, 0, m);
    if b.rest.Nil? {
      Move(prog, at, prog', at', b.p, out);
    } else {
      Move(prog, at, prog', at', b.p, at + m);
      SamePart(prog, at, prog', at', n, m, BodySize(b.rest));
      MovePieces(prog, at + m, prog', at' + m, b.rest, out);
    }
  }

  lemma MoveBody(prog: seq<byte>, at: nat, prog': seq<byte>, at': nat, b: Branch, out: int)
    requires BodyLaid(prog, at, b, out) && Same(prog, at, prog', at', BodySize(b))
    ensures BodyLaid(prog', at', b, out - at + at')
    decreases b, 1
  {
    hide Same, Node, PiecesLaid;
    if b.Nil? { MoveNode(prog, at, prog', at', 3, 0, NOTHING, out); } else { MovePieces(prog, at, prog', at', b, out); }
  }

  lemma MoveBranch(prog: seq<byte>, at: nat, prog': seq<byte>, at': nat, b: Branch, out: int, target: int)
    requires BranchLaid(prog, at, b, out, target) && Same(prog, at, prog', at', 3 + BodySize(b))
    ensures BranchLaid(prog', at', b, out - at + at', target - at + at')
    decreases b, 2
  {
    hide Node, Same, BodyLaid, BodySize;
    SamePart(prog, at, prog', at', 3 + BodySize(b), 3, BodySize(b));
    MoveNode(prog, at, prog', at', 3 + BodySize(b), 0, BRANCH, target);
    MoveBody(prog, at + 3, prog', at' + 3, b, out);
  }

  lemma {:induction false} MoveAlts(prog: seq<byte>, at: nat, prog': seq<byte>, at': nat, a: Alts, out: int,
      hooked: nat, last: int)
    requires AltsLaid(prog, at, a, out, hooked, last) && Same(prog, at, prog', at', AltsSize(a))
    ensures AltsLaid(prog', at', a, out - at + at', hooked, last - at + at')
    decreases a
  {
    hide Same, BranchLaid, BodySize, BodyTail;
    var n, m := AltsSize(a), BodySize(a.b);
    SameEnd(prog, at, prog', at', n);
    SamePart(prog, at, prog', at', n, 0, 3 + m);
    MoveBranch(prog, at, prog', at', a.b, BodyOut(at, a.b, out, hooked), if a.One? then last else at + 3 + m);
    if a.Or? {
      SamePart(prog, at, prog', at', n, 3 + m, AltsSize(a.rest));
      MoveAlts(prog, at + 3 + m, prog', at' + 3 + m, a.rest, out, Less(hooked), last);
    }
  }

  // ----------------------------------------------------------------- hooking

  /** Store an offset. */
  function Patch(prog: seq<byte>, p: nat, off: nat): (prog': seq<byte>)
    requires p + 3 <= |prog| && off < REACH
    ensures |prog'| == |prog|
  {
    prog[p + 1 := off / 256][p + 2 := off % 256]
  }

  lemma PatchNode(prog: seq<byte>, p: nat, off: nat)
    requires p + 3 <= |prog| && off < REACH
    ensures var prog' := Patch(prog, p, off); prog'[p] == prog[p] && Offset(prog', p) == off
  {
  }

  lemma PatchSame(prog: seq<byte>, p: nat, off: nat, at: nat, n: nat)
    requires p + 3 <= |prog| && off < REACH && at + n <= |prog| && (at + n <= p + 1 || p + 3 <= at)
    ensures Same(prog, at, Patch(prog, p, off), at, n)
  {
  }

  /** Store the offset that makes a node that points nowhere point forward. */
  function Hooked(prog: seq<byte>, p: nat, out: int): (prog': seq<byte>)
    requires p + 3 <= |prog| && p < out < p + REACH
    ensures |prog'| == |prog|
  {
    Patch(prog, p, out - p)
  }

  lemma HookNode(prog: seq<byte>, p: nat, op: byte, out: int)
    requires Node(prog, p, op, p) && op != BACK && p < out < p + REACH
    ensures Node(Hooked(prog, p, out), p, op, out)
  {
    PatchNode(prog, p, out - p);
  }

  lemma KeepNode(prog: seq<byte>, p: nat, out: int, at: nat, op: byte, target: int)
    requires p + 3 <= |prog| && p < out < p + REACH && Node(prog, at, op, target) && (at + 3 <= p + 1 || p + 3 <= at)
    ensures Node(Hooked(prog, p, out), at, op, target)
  {
    PatchSame(prog, p, out - p, at, 3);
    MoveNode(prog, at, Hooked(prog, p, out), at, 3, 0, op, target);
  }

  lemma Keep(prog: seq<byte>, p: nat, out: int, at: nat, x: Re, target: int)
    requires p + 3 <= |prog| && p < out < p + REACH && Laid(prog, at, x, target)
    requires at + Size(x) <= p + 1 || p + 3 <= at
    ensures Laid(Hooked(prog, p, out), at, x, target)
  {
    hide Same, Patch, Size;
    LaidEnd(prog, at, x, target);
    PatchSame(prog, p, out - p, at, Size(x));
    Move(prog, at, Hooked(prog, p, out), at, x, target);
  }

  lemma LaidEnd(prog: seq<byte>, at: nat, x: Re, out: int)
    requires Laid(prog, at, x, out)
    ensures at + Size(x) <= |prog|
  {
  }

  lemma HookLeaf(prog: seq<byte>, at: nat, x: Re, out: int)
    requires Leaf(x) && Laid(prog, at, x, at) && at < out < at + REACH
    ensures Laid(Hooked(prog, at, out), at, x, out)
  {
    hide Same, Patch;
    HookNode(prog, at, prog[at], out);
    PatchSame(prog, at, out - at, at + 3, Size(x) - 3);
    if x.Set? || x.Str? { KeepOperand(prog, at, out, x.chars); }
  }

  lemma KeepOperand(prog: seq<byte>, at: nat, out: int, chars: seq<byte>)
    requires at + 3 <= |prog| && at < out < at + REACH && Operand(prog, at + 3, chars)
    ensures Operand(Hooked(prog, at, out), at + 3, chars)
  {
    var prog' := Hooked(prog, at, out);
    assert prog'[at + 3..at + 3 + |chars|] == prog[at + 3..at + 3 + |chars|];
  }

  lemma HookStarNodes(prog: seq<byte>, at: nat, n: nat, out: int)
    requires StarNodes(prog, at, n, at + 9 + n) && at + 9 + n < out < at + 9 + n + REACH
    ensures StarNodes(Hooked(prog, at + 9 + n, out), at, n, out)
  {
    hide Node, Patch;
    var back, p := at + 3 + n, at + 9 + n;
    NodeEnd(prog, p, NOTHING, p);
    KeepNode(prog, p, out, at, BRANCH, back + 3);
    KeepNode(prog, p, out, back, BACK, at);
    KeepNode(prog, p, out, back + 3, BRANCH, back + 6);
    HookNode(prog, p, NOTHING, out);
  }

  lemma HookPlusNodes(prog: seq<byte>, at: nat, n: nat, out: int)
    requires PlusNodes(prog, at, n, at + 9 + n) && at + 9 + n < out < at + 9 + n + REACH
    ensures PlusNodes(Hooked(prog, at + 9 + n, out), at, n, out)
  {
    hide Node, Patch;
    var again, p := at + n, at + 9 + n;
    NodeEnd(prog, p, NOTHING, p);
    KeepNode(prog, p, out, again, BRANCH, again + 6);
    KeepNode(prog, p, out, again + 3, BACK, at);
    KeepNode(prog, p, out, again + 6, BRANCH, again + 9);
    HookNode(prog, p, NOTHING, out);
  }

  lemma HookOptNodes(prog: seq<byte>, at: nat, n: nat, out: int)
    requires OptNodes(prog, at, n, at + 6 + n) && at + 6 + n < out < at + 6 + n + REACH
    ensures OptNodes(Hooked(prog, at + 6 + n, out), at, n, out)
  {
    hide Node, Patch;
    var or, p := at + 3 + n, at + 6 + n;
    NodeEnd(prog, p, NOTHING, p);
    KeepNode(prog, p, out, at, BRANCH, or);
    KeepNode(prog, p, out, or, BRANCH, or + 3);
    HookNode(prog, p, NOTHING, out);
  }

  lemma NodeEnd(prog: seq<byte>, p: nat, op: byte, target: int)
    requires Node(prog, p, op, target)
    ensures p + 3 <= |prog|
  {
  }

  lemma HookGroup(prog: seq<byte>, at: nat, x: Re, out: int)
    requires x.Group? && Laid(prog, at, x, at + Tail(x)) && at + Tail(x) < out < at + Tail(x) + REACH
    ensures Laid(Hooked(prog, at + Tail(x), out), at, x, out)
  {
    hide Node, AltsLaid, AltsSize, Patch, Same, Count;
    var p, size := at + Tail(x), AltsSize(x.alts);
    KeepNode(prog, p, out, at, OPEN + x.no, at + 3);
    PatchSame(prog, p, out - p, at + 3, size);
    MoveAlts(prog, at + 3, Hooked(prog, p, out), at + 3, x.alts, p, Count(x.alts), p);
    HookNode(prog, p, CLOSE + x.no, out);
  }

  /** Hooking the last node of some code on to what follows. */
  lemma Hook(prog: seq<byte>, at: nat, x: Re, out: int)
    requires Laid(prog, at, x, at + Tail(x)) && at + Tail(x) < out < at + Tail(x) + REACH
    ensures Laid(Hooked(prog, at + Tail(x), out), at, x, out)
  {
    hide Node, Operand, AltsLaid, AltsSize, StarNodes, PlusNodes, OptNodes, Patch;
    var p := at + Tail(x);
    match x
    case Group(_, _) => HookGroup(prog, at, x, out);
    case Star(y) =>
      if Simple(y) {
        HookNode(prog, at, STAR, out);
        Keep(prog, at, out, at + 3, y, at + 3);
      } else {
        HookStarNodes(prog, at, Size(y), out);
        Keep(prog, p, out, at + 3, y, at + 3 + Size(y));
      }
    case Plus(y) =>
      if Simple(y) {
        HookNode(prog, at, PLUS, out);
        Keep(prog, at, out, at + 3, y, at + 3);
      } else {
        HookPlusNodes(prog, at, Size(y), out);
        Keep(prog, p, out, at, y, at + Size(y));
      }
    case Opt(y) =>
      HookOptNodes(prog, at, Size(y), out);
      Keep(prog, p, out, at + 3, y, at + 6 + Size(y));
    case _ => HookLeaf(prog, at, x, out);
  }

  lemma {:induction false} HookPieces(prog: seq<byte>, at: nat, b: Branch, out: int)
    requires b.Cons? && PiecesLaid(prog, at, b, at + BodyTail(b)) && at + BodyTail(b) < out < at + BodyTail(b) + REACH
    ensures at + BodyTail(b) + 3 <= |prog|
    ensures PiecesLaid(Hooked(prog, at + BodyTail(b), out), at, b, out)
    decreases b
  {
    hide Laid, Patch;
    LaidEnd(prog, at, b.p, if b.rest.Nil? then at + Tail(b.p) else at + Size(b.p));
    if b.rest.Nil? {
      Hook(prog, at, b.p, out);
    } else {
      HookPieces(prog, at + Size(b.p), b.rest, out);
      Keep(prog, at + BodyTail(b), out, at, b.p, at + Size(b.p));
    }
  }

  lemma HookBody(prog: seq<byte>, at: nat, b: Branch, out: int)
    requires BodyLaid(prog, at, b, at + BodyTail(b)) && at + BodyTail(b) < out < at + BodyTail(b) + REACH
    ensures at + BodyTail(b) + 3 <= |prog|
    ensures BodyLaid(Hooked(prog, at + BodyTail(b), out), at, b, out)
  {
    hide PiecesLaid;
    if b.Nil? { HookNode(prog, at, NOTHING, out); } else { HookPieces(prog, at, b, out); }
  }

  /** Where the k-th branch of a choice is. */
  function BranchAt(at: nat, a: Alts, k: nat): nat
    decreases a
  {
    if k == 0 || a.One? then at else BranchAt(at + 3 + BodySize(a.b), a.rest, k - 1)
  }

  function BranchOf(a: Alts, k: nat): Branch {
    if k == 0 || a.One? then a.b else BranchOf(a.rest, k - 1)
  }

  lemma {:induction false} BranchBounds(at: nat, a: Alts, k: nat)
    requires k < Count(a)
    ensures at <= BranchAt(at, a, k) && BranchAt(at, a, k) + 3 + BodySize(BranchOf(a, k)) <= at + AltsSize(a)
    decreases a
  {
    hide BodySize;
    if k > 0 { BranchBounds(at + 3 + BodySize(a.b), a.rest, k - 1); }
  }

  /** Hooking the body of the k-th branch, those before it being hooked. */
  lemma {:induction false} HookBranch(prog: seq<byte>, at: nat, a: Alts, out: int, k: nat, last: int)
    requires AltsLaid(prog, at, a, out, k, last) && k < Count(a)
    requires var p := BranchAt(at, a, k) + 3 + BodyTail(BranchOf(a, k)); p < out < p + REACH
    ensures BranchAt(at, a, k) + 6 + BodyTail(BranchOf(a, k)) <= |prog|
    ensures AltsLaid(Hooked(prog, BranchAt(at, a, k) + 3 + BodyTail(BranchOf(a, k)), out), at, a, out, k + 1, last)
    decreases a
  {
    hide BodySize, BodyTail, Patch, Node, BodyLaid, Same;
    BranchBounds(at, a, k);
    var p := BranchAt(at, a, k) + 3 + BodyTail(BranchOf(a, k));
    var next, prog' := at + 3 + BodySize(a.b), Hooked(prog, p, out);
    if k == 0 {
      HookBody(prog, at + 3, a.b, out);
      KeepNode(prog, p, out, at, BRANCH, if a.One? then last else next);
      if a.Or? {
        PatchSame(prog, p, out - p, next, AltsSize(a.rest));
        MoveAlts(prog, next, prog', next, a.rest, out, 0, last);
      }
    } else {
      BranchBounds(next, a.rest, k - 1);
      HookBranch(prog, next, a.rest, out, k - 1, last);
      PatchSame(prog, p, out - p, at, 3 + BodySize(a.b));
      MoveBranch(prog, at, prog', at, a.b, out, next);
    }
  }

  /** Hooking the last BRANCH of a choice, which pointed nowhere. */
  lemma {:induction false} HookLast(prog: seq<byte>, at: nat, a: Alts, out: int, last: int)
    requires var p := BranchAt(at, a, Count(a) - 1); AltsLaid(prog, at, a, out, 0, p) && p < last < p + REACH
    ensures BranchAt(at, a, Count(a) - 1) + 3 <= |prog|
    ensures AltsLaid(Hooked(prog, BranchAt(at, a, Count(a) - 1), last), at, a, out, 0, last)
    decreases a
  {
    hide BodySize, BodyTail, Patch, Node, BodyLaid, Same;
    var p := BranchAt(at, a, Count(a) - 1);
    BranchBounds(at, a, Count(a) - 1);
    var next, prog' := at + 3 + BodySize(a.b), Hooked(prog, p, last);
    if a.One? {
      HookNode(prog, p, BRANCH, last);
      PatchSame(prog, p, last - p, at + 3, BodySize(a.b));
      MoveBody(prog, at + 3, prog', at + 3, a.b, at + 3 + BodyTail(a.b));
    } else {
      BranchBounds(next, a.rest, Count(a.rest) - 1);
      HookLast(prog, next, a.rest, out, last);
      PatchSame(prog, p, last - p, at, 3 + BodySize(a.b));
      MoveBranch(prog, at, prog', at, a.b, BodyOut(at, a.b, out, 0), next);
    }
  }

  // ------------------------------------------------------------------- paths

  /** Following next pointers forward from `p` one comes to `t`. */
  ghost predicate Path(prog: seq<byte>, p: nat, t: nat)
    decreases t - p
  {
    p == t
    || (p + 3 <= |prog| && prog[p] != BACK && 0 < Offset(prog, p) && p + Offset(prog, p) <= t
        && Path(prog, p + Offset(prog, p), t))
  }

  lemma {:induction false} PathJoin(prog: seq<byte>, p: nat, q: nat, t: nat)
    requires Path(prog, p, q) && Path(prog, q, t) && q <= t
    ensures Path(prog, p, t)
    decreases q - p
  {
    if p != q { PathJoin(prog, p + Offset(prog, p), q, t); }
  }

  lemma PathStep(prog: seq<byte>, p: nat, op: byte, target: nat)
    requires Node(prog, p, op, target) && op != BACK && p < target
    ensures Path(prog, p, target)
  {
    assert Path(prog, target, target);
  }

  /** The last node of some code points out of it. */
  lemma TailNext(prog: seq<byte>, at: nat, x: Re, out: int)
    requires Laid(prog, at, x, out)
    ensures at + Tail(x) + 3 <= |prog| && prog[at + Tail(x)] != BACK && RegNext(prog, at + Tail(x)) == out
  {
    hide AltsLaid, AltsSize, Operand, Node;
    match x
    case Bol => NodeOut(prog, at, BOL, out);
    case Eol => NodeOut(prog, at, EOL, out);
    case Any => NodeOut(prog, at, ANY, out);
    case Set(negate, _, _) => NodeOut(prog, at, if negate then ANYBUT else ANYOF, out);
    case Str(_, _) => NodeOut(prog, at, EXACTLY, out);
    case Group(no, _) => NodeOut(prog, at + Tail(x), CLOSE + no, out);
    case Star(y) => NodeOut(prog, at + Tail(x), if Simple(y) then STAR else NOTHING, out);
    case Plus(y) => NodeOut(prog, at + Tail(x), if Simple(y) then PLUS else NOTHING, out);
    case Opt(y) => NodeOut(prog, at + Tail(x), NOTHING, out);
  }

  lemma NodeOut(prog: seq<byte>, p: nat, op: byte, out: int)
    requires Node(prog, p, op, out) && op != BACK
    ensures p + 3 <= |prog| && prog[p] != BACK && RegNext(prog, p) == out
  {
  }

  /** The last node of some code is found by following next pointers. */
  lemma {:induction false} TailPath(prog: seq<byte>, at: nat, x: Re, out: int)
    requires Laid(prog, at, x, out)
    ensures Path(prog, at, at + Tail(x))
    decreases x
  {
    hide Node, Operand, AltsLaid, AltsSize, BodySize, Path;
    PathHere(prog, at);
    match x
    case Group(no, alts) =>
      var close := at + 3 + AltsSize(alts);
      PathStep(prog, at, OPEN + no, at + 3);
      AltsPath(prog, at + 3, alts, close, Count(alts), close);
      LastPath(prog, at + 3, alts, close, Count(alts), close);
      BranchBounds(at + 3, alts, Count(alts) - 1);
      PathJoin(prog, at + 3, BranchAt(at + 3, alts, Count(alts) - 1), close);
      PathJoin(prog, at, at + 3, close);
    case Star(y) =>
      if !Simple(y) {
        var back := at + 3 + Size(y);
        PathStep(prog, at, BRANCH, back + 3);
        PathStep(prog, back + 3, BRANCH, back + 6);
        PathJoin(prog, at, back + 3, back + 6);
      }
    case Plus(y) =>
      if !Simple(y) {
        TailPath(prog, at, y, at + Size(y));
        PlusPath(prog, at, y, out);
      }
    case Opt(y) =>
      var or := at + 3 + Size(y);
      PathStep(prog, at, BRANCH, or);
      PathStep(prog, or, BRANCH, or + 3);
      PathJoin(prog, at, or, or + 3);
    case _ =>
  }

  lemma PlusPath(prog: seq<byte>, at: nat, y: Re, out: int)
    requires PlusNodes(prog, at, Size(y), out) && Laid(prog, at, y, at + Size(y)) && Path(prog, at, at + Tail(y))
    ensures Path(prog, at, at + 9 + Size(y))
  {
    hide Node, Laid, Path;
    var again := at + Size(y);
    TailNext(prog, at, y, again);
    PathOut(prog, at + Tail(y), again);
    PathJoin(prog, at, at + Tail(y), again);
    PathStep(prog, again, BRANCH, again + 6);
    PathJoin(prog, at, again, again + 6);
    PathStep(prog, again + 6, BRANCH, again + 9);
    PathJoin(prog, at, again + 6, again + 9);
  }

  lemma PathHere(prog: seq<byte>, p: nat)
    ensures Path(prog, p, p)
  {
  }

  lemma PathOut(prog: seq<byte>, p: nat, t: nat)
    requires p + 3 <= |prog| && prog[p] != BACK && RegNext(prog, p) == t && p < t
    ensures Path(prog, p, t)
  {
    PathHere(prog, t);
  }

  lemma {:induction false} PiecesPath(prog: seq<byte>, at: nat, b: Branch, out: int)
    requires b.Cons? && PiecesLaid(prog, at, b, out)
    ensures Path(prog, at, at + BodyTail(b))
    decreases b
  {
    hide Laid, Path;
    if b.rest.Nil? {
      TailPath(prog, at, b.p, out);
    } else {
      var next := at + Size(b.p);
      TailPath(prog, at, b.p, next);
      TailNext(prog, at, b.p, next);
      PathOut(prog, at + Tail(b.p), next);
      PathJoin(prog, at, at + Tail(b.p), next);
      PiecesPath(prog, next, b.rest, out);
      PathJoin(prog, at, next, at + BodyTail(b));
    }
  }

  lemma BodyPath(prog: seq<byte>, at: nat, b: Branch, out: int)
    requires BodyLaid(prog, at, b, out)
    ensures Path(prog, at, at + BodyTail(b))
  {
    hide Path, PiecesLaid;
    PathHere(prog, at);
    if b.Cons? { PiecesPath(prog, at, b, out); }
  }

  /** From the first branch of a choice to the last. */
  lemma {:induction false} AltsPath(prog: seq<byte>, at: nat, a: Alts, out: int, hooked: nat, last: int)
    requires AltsLaid(prog, at, a, out, hooked, last)
    ensures Path(prog, at, BranchAt(at, a, Count(a) - 1))
    decreases a
  {
    hide Node, BodyLaid, Path, BodySize, BodyTail;
    PathHere(prog, at);
    if a.Or? {
      var next := at + 3 + BodySize(a.b);
      PathStep(prog, at, BRANCH, next);
      AltsPath(prog, next, a.rest, out, Less(hooked), last);
      BranchBounds(next, a.rest, Count(a.rest) - 1);
      PathJoin(prog, at, next, BranchAt(at, a, Count(a) - 1));
    }
  }

  lemma {:induction false} LastPath(prog: seq<byte>, at: nat, a: Alts, out: int, hooked: nat, last: int)
    requires AltsLaid(prog, at, a, out, hooked, last)
    ensures Node(prog, BranchAt(at, a, Count(a) - 1), BRANCH, last)
    ensures last >= at + AltsSize(a) ==> Path(prog, BranchAt(at, a, Count(a) - 1), last)
    decreases a
  {
    hide BodyLaid, BodySize, BodyTail, Path;
    if a.Or? {
      LastPath(prog, at + 3 + BodySize(a.b), a.rest, out, Less(hooked), last);
    } else if last >= at + AltsSize(a) {
      PathStep(prog, at, BRANCH, last);
    }
  }
}
