/** regcomp and regexec: two passes, the hints that save work, and the search. */
module RegexExec {
  import opened Common
  import opened RegexSyntax
  import opened RegexMeaning
  import opened RegexOrder
  import opened RegexCode
  import opened RegexEmit
  import opened RegexParse
  import opened RegexDescent
  import opened RegexTodo
  import opened RegexBranches
  import opened RegexMatch

  /** A compiled expression.  `regmust` is where in the program the string is
      that must appear, or -1; its length is kept in one byte. */
  datatype Regexp = Regexp(program: seq<byte>, regstart: byte, reganch: bool, regmust: int, regmlen: nat)

  /** Where the END is. */
  function EndOf(a: Alts): nat {
    1 + AltsSize(a)
  }

  /** The program of a pattern. */
  ghost predicate Programmed(prog: seq<byte>, a: Alts) {
    && |prog| == EndOf(a) + 3 && prog[0] == MAGIC
    && AltsLaid(prog, 1, a, EndOf(a), Count(a), EndOf(a)) && Node(prog, EndOf(a), END, EndOf(a))
  }

  // ------------------------------------------------------------------- hints

  /** Every match of the branch begins with that character. */
  ghost predicate StartsWith(b: Branch, c: byte) {
    b.Cons? && b.p.Str? && b.p.chars != [] && b.p.chars[0] == c
  }

  /** The string is one of the pieces. */
  predicate HasStr(b: Branch, chars: seq<byte>) {
    b.Cons? && ((b.p.Str? && b.p.chars == chars) || HasStr(b.rest, chars))
  }

  predicate OccursAt(t: seq<byte>, chars: seq<byte>, i: nat) {
    i + |chars| <= |t| && t[i..i + |chars|] == chars
  }

  ghost predicate Contains(t: seq<byte>, chars: seq<byte>) {
    exists i: nat :: OccursAt(t, chars, i)
  }

  lemma StartMust(b: Branch, t: seq<byte>, i: nat, j: nat, c: byte)
    requires StartsWith(b, c) && i <= j <= |t| && BranchMatches(b, t, i, j)
    ensures i < |t| && t[i] == c
  {
    var k := RegexMeaning.BranchFirst(b, t, i, j);
    assert t[i..k] == b.p.chars;
    assert t[i..k][0] == t[i];
  }

  lemma AnchorMust(b: Branch, t: seq<byte>, i: nat, j: nat)
    requires b.Cons? && b.p.Bol? && i <= j <= |t| && BranchMatches(b, t, i, j)
    ensures i == 0
  {
    var k := RegexMeaning.BranchFirst(b, t, i, j);
  }

  lemma {:induction false} StringMust(b: Branch, t: seq<byte>, i: nat, j: nat, chars: seq<byte>)
    requires HasStr(b, chars) && i <= j <= |t| && BranchMatches(b, t, i, j)
    ensures Contains(t, chars)
    decreases b
  {
    var k := RegexMeaning.BranchFirst(b, t, i, j);
    if b.p.Str? && b.p.chars == chars {
      assert k == i + |chars| by { assert |t[i..k]| == k - i; }
      assert OccursAt(t, chars, i);
    } else {
      StringMust(b.rest, t, k, j, chars);
    }
  }

  /** A string in the program that every match must contain. */
  ghost predicate MustBe(prog: seq<byte>, p: int, b: Branch, chars: seq<byte>) {
    0 <= p && HasStr(b, chars) && CString(chars) && chars != [] && Operand(prog, p, chars)
  }

  ghost predicate MustOk(r: Regexp, b: Branch) {
    exists chars :: MustBe(r.program, r.regmust, b, chars) && r.regmlen == |chars| % 256
  }

  /** The hints are right for a pattern. */
  ghost predicate HintsOk(r: Regexp, a: Alts) {
    && (r.regstart != 0 ==> a.One? && StartsWith(a.b, r.regstart))
    && (r.reganch ==> a.One? && a.b.Cons? && a.b.p.Bol?)
    && (r.regmust != -1 ==> a.One? && MustOk(r, a.b))
  }

  ghost predicate Compiled(r: Regexp, a: Alts) {
    GoodAlts(a) && Programmed(r.program, a) && HintsOk(r, a)
  }

  // ------------------------------------------------------------- quiet chains

  /** Following next pointers forward from `p` to `t` one passes no EXACTLY. */
  ghost predicate Quiet(prog: seq<byte>, p: nat, t: nat)
    decreases t - p
  {
    p == t
    || (p + 3 <= |prog| && prog[p] != BACK && prog[p] != EXACTLY && 0 < Offset(prog, p) && p + Offset(prog, p) <= t
        && Quiet(prog, p + Offset(prog, p), t))
  }

  lemma {:induction false} QuietJoin(prog: seq<byte>, p: nat, q: nat, t: nat)
    requires Quiet(prog, p, q) && Quiet(prog, q, t) && q <= t
    ensures Quiet(prog, p, t)
    decreases q - p
  {
    if p != q { QuietJoin(prog, p + Offset(prog, p), q, t); }
  }

  lemma QuietStep(prog: seq<byte>, p: nat, op: byte, target: nat)
    requires Node(prog, p, op, target) && op != BACK && op != EXACTLY && p < target
    ensures Quiet(prog, p, target)
  {
    assert Quiet(prog, target, target);
  }

  lemma {:induction false} AltsQuiet(prog: seq<byte>, at: nat, a: Alts, out: int, hooked: nat, last: nat)
    requires AltsLaid(prog, at, a, out, hooked, last) && at + AltsSize(a) <= last
    ensures Quiet(prog, at, last)
    decreases a
  {
    hide Node, BodyLaid, Quiet, BodySize, BodyTail;
    if a.Or? {
      var next := at + 3 + BodySize(a.b);
      QuietStep(prog, at, BRANCH, next);
      AltsQuiet(prog, next, a.rest, out, Less(hooked), last);
      QuietJoin(prog, at, next, last);
    } else {
      QuietStep(prog, at, BRANCH, last);
    }
  }

  lemma GroupQuiet(prog: seq<byte>, at: nat, no: nat, a: Alts, out: nat)
    requires Laid(prog, at, Group(no, a), out) && at + Size(Group(no, a)) <= out
    ensures Quiet(prog, at, out)
  {
    hide Node, AltsLaid, Quiet, AltsSize, Count;
    var close := at + 3 + AltsSize(a);
    QuietStep(prog, at, OPEN + no, at + 3);
    AltsQuiet(prog, at + 3, a, close, Count(a), close);
    QuietJoin(prog, at, at + 3, close);
    QuietStep(prog, close, CLOSE + no, out);
    QuietJoin(prog, at, close, out);
  }

  /** Through any piece that is not a string. */
  lemma PieceQuiet(prog: seq<byte>, at: nat, x: Re, out: nat)
    requires Good(x) && !x.Str? && Laid(prog, at, x, out) && at + Size(x) <= out
    ensures Quiet(prog, at, out)
  {
    hide Node, Operand, AltsLaid, AltsSize, Quiet;
    match x
    case Bol => QuietStep(prog, at, BOL, out);
    case Eol => QuietStep(prog, at, EOL, out);
    case Any => QuietStep(prog, at, ANY, out);
    case Set(negate, _, _) => QuietStep(prog, at, if negate then ANYBUT else ANYOF, out);
    case Group(no, a) => GroupQuiet(prog, at, no, a, out);
    case Star(y) =>
      if Simple(y) { QuietStep(prog, at, STAR, out); } else { BranchesQuiet(prog, at, at + 6 + Size(y), out); }
    case Plus(y) =>
      if Simple(y) {
        QuietStep(prog, at, PLUS, out);
      } else {
        GroupQuiet(prog, at, y.no, y.alts, at + Size(y));
        BranchesQuiet(prog, at + Size(y), at + 6 + Size(y), out);
        QuietJoin(prog, at, at + Size(y), out);
      }
    case Opt(y) => BranchesQuiet(prog, at, at + 3 + Size(y), out);
  }

  lemma BranchesQuiet(prog: seq<byte>, p: nat, q: nat, out: nat)
    requires Node(prog, p, BRANCH, q) && Node(prog, q, BRANCH, q + 3) && Node(prog, q + 3, NOTHING, out) && p < q
    requires q + 3 < out
    ensures Quiet(prog, p, out)
  {
    hide Quiet;
    QuietStep(prog, p, BRANCH, q);
    QuietStep(prog, q, BRANCH, q + 3);
    QuietJoin(prog, p, q, q + 3);
    QuietStep(prog, q + 3, NOTHING, out);
    QuietJoin(prog, p, q + 3, out);
  }

  // ------------------------------------------------------- finding the hints

  /** The walk along the top level is at `scan`: on a quiet way to `q`, where
      the pieces `rest` follow. */
  ghost predicate OnWay(prog: seq<byte>, scan: nat, q: nat, rest: Branch, end: nat) {
    && scan <= q <= end && Quiet(prog, scan, q) && GoodBranch(rest)
    && (rest.Cons? ==> PiecesLaid(prog, q, rest, end) && q + BodySize(rest) <= end)
    && (rest.Nil? ==> q == end)
  }

  /** At a piece: the way goes on through it. */
  lemma Onward(prog: seq<byte>, q: nat, rest: Branch, end: nat)
    requires OnWay(prog, q, q, rest, end) && rest.Cons?
    ensures
      var out := if rest.rest.Nil? then end else q + Size(rest.p);
      && Laid(prog, q, rest.p, out) && q + Size(rest.p) <= out && OnWay(prog, out, out, rest.rest, end)
      && (!rest.p.Str? ==> Quiet(prog, q, out))
      && (rest.p.Str? ==> Node(prog, q, EXACTLY, out) && Operand(prog, q + 3, rest.p.chars))
      && (rest.p.Str? ==> rest.p.chars != [] && CString(rest.p.chars))
  {
    hide Node, Operand, AltsLaid, Quiet, Size;
    assert Good(rest.p) && GoodBranch(rest.rest);
    var out := if rest.rest.Nil? then end else q + Size(rest.p);
    if rest.rest.Cons? { assert BodySize(rest) == Size(rest.p) + BodySize(rest.rest); }
    assert Quiet(prog, out, out) by { QuietHere(prog, out); }
    if !rest.p.Str? { PieceQuiet(prog, q, rest.p, out); }
  }

  lemma QuietHere(prog: seq<byte>, p: nat)
    ensures Quiet(prog, p, p)
  {
  }

  /** `rest` is an end of `b`. */
  predicate IsTail(b: Branch, rest: Branch) {
    b == rest || (b.Cons? && IsTail(b.rest, rest))
  }

  lemma {:induction false} TailMore(b: Branch, rest: Branch)
    requires IsTail(b, rest) && rest.Cons?
    ensures IsTail(b, rest.rest) && (rest.p.Str? ==> HasStr(b, rest.p.chars))
    decreases b
  {
    if b == rest {
      assert IsTail(b.rest, rest.rest);
    } else {
      TailMore(b.rest, rest);
    }
  }

  /** The longest string on the top level, the last one of that length. */
  method FindMust(prog: seq<byte>, start: nat, end: nat, ghost b: Branch) returns (longest: int, len: nat)
    requires end + 3 <= |prog| && exists q, rest :: OnWay(prog, start, q, rest, end) && IsTail(b, rest)
    ensures longest == -1 || exists chars :: MustBe(prog, longest, b, chars) && len == |chars|
  {
    ghost var q, rest :| OnWay(prog, start, q, rest, end) && IsTail(b, rest);
    var scan := start;
    longest, len := -1, 0;
    ghost var chars: seq<byte> := [];
    hide OnWay, MustBe, Node, Operand, CString;
    while scan != end
      invariant scan <= end && OnWay(prog, scan, q, rest, end) && IsTail(b, rest)
      invariant longest == -1 || (MustBe(prog, longest, b, chars) && len == |chars|)
      decreases end - scan
    {
      ghost var here;
      q, rest, here := Walk(prog, scan, q, rest, end, b);
      if prog[scan] == EXACTLY {
        var n := StrLen(prog, scan + 3, here);
        if n >= len {
          longest, len := scan + 3, n;
          chars := here;
        }
      }
      scan := RegNext(prog, scan);
    }
  }

  /** One step of the walk; at a string, that string. */
  lemma Walk(prog: seq<byte>, scan: nat, q: nat, rest: Branch, end: nat, b: Branch) returns (q': nat, rest': Branch,
      here: seq<byte>)
    requires OnWay(prog, scan, q, rest, end) && IsTail(b, rest) && scan != end && end + 3 <= |prog|
    ensures scan + 3 <= |prog| && scan < RegNext(prog, scan) <= end
    ensures OnWay(prog, RegNext(prog, scan), q', rest', end) && IsTail(b, rest')
    ensures prog[scan] == EXACTLY ==> MustBe(prog, scan + 3, b, here) && Operand(prog, scan + 3, here) && CString(here)
  {
    q', rest', here := q, rest, [];
    if scan == q {
      Onward(prog, q, rest, end);
      TailMore(b, rest);
      q', rest' := if rest.rest.Nil? then end else q + Size(rest.p), rest.rest;
      if rest.p.Str? { here := rest.p.chars; }
    }
  }

  /** What the first node of a branch says about it. */
  lemma FirstNode(prog: seq<byte>, at: nat, b: Branch, end: nat)
    requires GoodBranch(b) && BodyLaid(prog, at, b, end) && end + 3 <= |prog| && prog[end] == END
    ensures at + 3 <= |prog|
    ensures prog[at] == EXACTLY ==> at + 3 < |prog| && StartsWith(b, prog[at + 3])
    ensures prog[at] == BOL ==> b.Cons? && b.p.Bol?
  {
    assert TodoLaid(prog, end, []);
    BodyTodoLaid(prog, at, b, end, []);
    var todo := BodyTodo(at, b, end) + [];
    assert todo[0].item == if b.Nil? then Null else Piece(b.p);
    hide TodoLaid;
    HeadInside(prog, at, todo);
    TodoHead(prog, at, todo);
    if !Hidden(todo[0].item) {
      HeadOp(prog, at, todo[0].item, todo[0].out);
    } else {
      HiddenOp(prog, at, todo[0].item, todo[0].out);
    }
  }

  lemma HiddenOp(prog: seq<byte>, p: nat, item: Item, out: nat)
    requires ItemLaid(prog, p, item, out) && Hidden(item)
    ensures p + 3 <= |prog| && prog[p] > OPEN
  {
    hide AltsLaid;
    var y := item.x.x;
    assert Laid(prog, p, y, p + Size(y)) && y.Group?;
  }

  /** One alternative: its BRANCH points to the END.  Several: to the next. */
  lemma OnlyChoice(prog: seq<byte>, a: Alts)
    requires Programmed(prog, a)
    ensures RegNext(prog, 1) >= 0 && RegNext(prog, 1) + 3 <= |prog| && (prog[RegNext(prog, 1)] == END <==> a.One?)
    ensures |prog| == EndOf(a) + 3 && prog[EndOf(a)] == END && (a.One? ==> BodyLaid(prog, 4, a.b, EndOf(a)))
  {
    hide BodyLaid, BodySize;
    assert BranchLaid(prog, 1, a.b, BodyOut(1, a.b, EndOf(a), Count(a)),
        if a.One? then EndOf(a) else 4 + BodySize(a.b));
    if a.Or? {
      FirstBranch(prog, 4 + BodySize(a.b), a.rest, EndOf(a), Less(Count(a)), EndOf(a));
    }
  }

  lemma FirstBranch(prog: seq<byte>, at: nat, a: Alts, out: int, hooked: nat, last: int)
    requires AltsLaid(prog, at, a, out, hooked, last)
    ensures at + 3 <= |prog| && prog[at] == BRANCH
  {
    hide BodyLaid, BodySize, BodyOut;
  }

  lemma BodyOnWay(prog: seq<byte>, b: Branch, end: nat)
    requires GoodBranch(b) && BodyLaid(prog, 4, b, end) && end == 4 + BodySize(b)
    ensures exists q, rest :: OnWay(prog, 4, q, rest, end) && IsTail(b, rest)
  {
    QuietHere(prog, 4);
    if b.Nil? {
      QuietStep(prog, 4, NOTHING, end);
      assert OnWay(prog, 4, end, Nil, end) && IsTail(b, Nil);
    } else {
      assert OnWay(prog, 4, 4, b, end) && IsTail(b, b);
    }
  }

  /** How a match has to start. */
  method StartHint(prog: seq<byte>, ghost a: Alts) returns (regstart: byte, reganch: bool)
    requires GoodAlts(a) && a.One? && |prog| == EndOf(a) + 3 && prog[EndOf(a)] == END
    requires BodyLaid(prog, 4, a.b, EndOf(a))
    ensures (regstart != 0 ==> StartsWith(a.b, regstart)) && (reganch ==> a.b.Cons? && a.b.p.Bol?)
  {
    hide BodyLaid, AltsSize, StartsWith, Good;
    FirstNode(prog, 4, a.b, EndOf(a));
    regstart, reganch := 0, false;
    if prog[4] == EXACTLY {
      regstart := prog[7];
    } else if prog[4] == BOL {
      reganch := true;
    }
  }

  /** What it has to contain. */
  method MustHint(prog: seq<byte>, ghost a: Alts) returns (regmust: int, regmlen: nat)
    requires GoodAlts(a) && a.One? && |prog| == EndOf(a) + 3 && BodyLaid(prog, 4, a.b, EndOf(a))
    ensures regmust == -1 || exists chars :: MustBe(prog, regmust, a.b, chars) && regmlen == |chars| % 256
  {
    hide BodyLaid, OnWay, IsTail, MustBe, Good;
    OneSize(a.b);
    BodyOnWay(prog, a.b, EndOf(a));
    var len;
    regmust, len := FindMust(prog, 4, |prog| - 3, a.b);
    regmlen := len % 256;
  }

  /** The last part of regcomp. */
  method Hints(prog: seq<byte>, spstart: bool, ghost a: Alts) returns (r: Regexp)
    requires GoodAlts(a) && Programmed(prog, a)
    ensures r.program == prog && Compiled(r, a)
  {
    hide Programmed, GoodAlts, BodyLaid, AltsSize, MustBe, StartsWith;
    OnlyChoice(prog, a);
    r := Regexp(prog, 0, false, -1, 0);
    if prog[RegNext(prog, 1)] == END {
      var regstart, reganch := StartHint(prog, a);
      var regmust, regmlen := -1, 0;
      if spstart {
        regmust, regmlen := MustHint(prog, a);
      }
      r := Regexp(prog, regstart, reganch, regmust, regmlen);
    }
  }

  // ----------------------------------------------------------------- regcomp

  /** One pass: the magic byte and the code, counted or made. */
  method Pass(exp: seq<byte>, emit: bool, size: nat) returns (ok: bool, n: nat, code: seq<byte>, sp: bool)
    requires CString(exp) && size < MAX_SIZE
    requires emit ==> Parse(exp).Ok? && size == EndOf(Parse(exp).tree) + 3
    ensures ok == Parse(exp).Ok?
    ensures ok && !emit ==> n == EndOf(Parse(exp).tree) + 3
    ensures ok && emit ==> Programmed(code, Parse(exp).tree)
    ensures ok ==> sp == AltsSpStart(Parse(exp).tree)
  {
    hide CString, ParseAlts, AltsSize;
    var e := new Emitter(emit, size);
    var c := new Compiler(exp, e);
    e.RegC(MAGIC);
    var ret, width;
    assert RegSpec(false, exp, 0, 1) == Parse(exp);
    ok, ret, width, sp := c.Reg(false);
    n, code := e.regsize, e.program[..e.regcode];
    if ok && emit { ClosingProgram(code, Parse(exp).tree); }
  }

  lemma ClosingProgram(code: seq<byte>, a: Alts)
    requires Closing(code, 1, false, 1, a, Count(a)) && |code| > 0 && code[..1] == [MAGIC]
    ensures Programmed(code, a)
  {
    hide AltsLaid, AltsSize, Node;
    assert code[0] == code[..1][0];
  }

  /** regcomp.  The size counted by the first pass is the size of the program,
      to the byte. */
  method RegComp(exp: seq<byte>) returns (r: Option<Regexp>)
    requires CString(exp)
    ensures r.Some? <==> Parse(exp).Ok? && EndOf(Parse(exp).tree) + 3 < MAX_SIZE
    ensures r.Some? ==> Compiled(r.value, Parse(exp).tree)
  {
    hide Programmed, HintsOk, AltsSize, Parse;
    var ok, size, code, sp := Pass(exp, false, 0);
    if !ok || size >= MAX_SIZE {
      return None;
    }
    ParsedGood(exp);
    ok, size, code, sp := Pass(exp, true, size);
    var compiled := Hints(code, sp, Parse(exp).tree);
    r := Some(compiled);
  }

  lemma ParsedGood(exp: seq<byte>)
    requires CString(exp) && Parse(exp).Ok?
    ensures GoodAlts(Parse(exp).tree)
  {
    ParseShows(exp);
  }

  // ----------------------------------------------------------------- regexec

  /** What regtry starts with: all alternatives, and then the END. */
  ghost function Whole(a: Alts): seq<Todo> {
    [Todo(Choice(a), EndOf(a))]
  }

  lemma WholeLaid(prog: seq<byte>, a: Alts)
    requires GoodAlts(a) && Programmed(prog, a)
    ensures TodoLaid(prog, 1, Whole(a))
  {
    hide AltsLaid, AltsSize;
    assert Whole(a)[1..] == [];
    assert TodoLaid(prog, EndOf(a), []);
  }

  lemma WholeEnds(a: Alts, t: seq<byte>, i: nat)
    requires i <= |t|
    ensures GoEnds(Whole(a), t, i) == AltsEnds(a, t, i)
  {
    hide AltsEnds;
    assert Whole(a) == [Todo(Choice(a), EndOf(a))] + [];
    Split(Choice(a), EndOf(a), [], t, i);
    NothingLeft(t, i, AltsEnds(a, t, i));
  }

  lemma {:induction false} NothingLeft(t: seq<byte>, i: nat, ks: seq<nat>)
    requires i <= |t| && Within(ks, i, t)
    ensures GoAll([], t, i, ks) == ks
    decreases |ks|
  {
    if ks != [] {
      NothingLeft(t, i, ks[1..]);
      assert ks == [ks[0]] + ks[1..];
    }
  }

  /** No match starts at `i`. */
  ghost predicate NoneAt(a: Alts, t: seq<byte>, i: nat)
    requires i <= |t|
  {
    forall j :: i <= j <= |t| ==> !AltsMatch(a, t, i, j)
  }

  /** A match from `i` to `j`, and the preferred one of those from `i`. */
  ghost predicate Best(a: Alts, t: seq<byte>, i: nat, j: nat)
    requires i <= |t|
  {
    i <= j <= |t| && AltsMatch(a, t, i, j) && AltsEnds(a, t, i) != [] && AltsEnds(a, t, i)[0] == j
  }

  lemma NoEnds(a: Alts, t: seq<byte>, i: nat)
    requires GoodAlts(a) && i <= |t| && AltsEnds(a, t, i) == []
    ensures NoneAt(a, t, i)
  {
    hide AltsEnds, AltsMatch, GoodAlts;
    forall j | i <= j <= |t| ensures !AltsMatch(a, t, i, j) { AltsExact(a, t, i, j); }
  }

  method RegTry(r: Regexp, text: seq<byte>, s: nat, ghost a: Alts) returns (ok: bool, end: nat)
    requires Compiled(r, a) && CString(text) && s <= |text|
    ensures if ok then Best(a, text, s, end) else NoneAt(a, text, s)
  {
    hide CString, Programmed, HintsOk, AltsMatch, AltsEnds, GoEnds, TodoLaid, GoodAlts;
    var m := new Matcher(r.program, text);
    m.reginput := s;
    WholeLaid(r.program, a);
    ok := m.RegMatch(1, Whole(a));
    end := m.reginput;
    WholeEnds(a, text, s);
    if ok { AltsExact(a, text, s, end); } else { NoEnds(a, text, s); }
  }

  /** Whether the string that must appear does; only its first bytes are
      compared, as many as its length says. */
  method MustAppear(r: Regexp, text: seq<byte>, ghost chars: seq<byte>) returns (found: bool)
    requires r.regmust >= 0 && Operand(r.program, r.regmust, chars) && chars != [] && r.regmlen <= |chars|
    ensures Contains(text, chars) ==> found
  {
    OperandIs(r.program, r.regmust, chars);
    hide Operand;
    var s := 0;
    while s < |text|
      invariant s <= |text| && forall i: nat :: i < s ==> !OccursAt(text, chars, i)
    {
      var same := SameBytes(r.program, r.regmust, r.regmlen, text, s);
      if text[s] == r.program[r.regmust] && same {
        return true;
      }
      IfHere(r.program, r.regmust, r.regmlen, text, s, chars);
      s := s + 1;
    }
    assert forall i: nat :: |text| <= i ==> !OccursAt(text, chars, i);
    return false;
  }

  lemma IfHere(prog: seq<byte>, p: nat, n: nat, t: seq<byte>, i: nat, chars: seq<byte>)
    requires p + |chars| < |prog| && prog[p..p + |chars|] == chars && chars != [] && n <= |chars| && i < |t|
    ensures OccursAt(t, chars, i) ==> t[i] == prog[p] && i + n <= |t| && t[i..i + n] == prog[p..p + n]
  {
    if OccursAt(t, chars, i) {
      assert t[i..i + |chars|][0] == t[i] && prog[p..p + |chars|][0] == prog[p];
      assert t[i..i + n] == t[i..i + |chars|][..n] && prog[p..p + n] == prog[p..p + |chars|][..n];
    }
  }

  /** regexec: whether some stretch of the text matches; if so the first place
      where one starts, and where the preferred one of those ends. */
  method RegExec(r: Regexp, text: seq<byte>, ghost a: Alts) returns (ok: bool, start: nat, end: nat)
    requires Compiled(r, a) && CString(text)
    ensures ok <==> Found(a, text)
    ensures ok ==> start <= |text| && Best(a, text, start, end) && forall i :: 0 <= i < start ==> NoneAt(a, text, i)
  {
    hide CString, Programmed, GoodAlts, AltsMatch, HintsOk, AltsEnds;
    ok, start, end := false, 0, 0;
    if r.regmust != -1 {
      ghost var chars := TheMust(r, a);
      var found := MustAppear(r, text, chars);
      if !found {
        WithoutMust(a, text, chars);
        return;
      }
    }
    if r.reganch {
      ok, end := RegTry(r, text, 0, a);
      Anchored(r, a, text);
      if !ok { NotFound(a, text); }
      return;
    }
    while true
      invariant start <= |text| && forall i :: 0 <= i < start ==> NoneAt(a, text, i)
      decreases |text| - start
    {
      if r.regstart == 0 || (start < |text| && text[start] == r.regstart) {
        ok, end := RegTry(r, text, start, a);
        if ok {
          return;
        }
      } else {
        WrongStart(r, a, text, start);
      }
      if start == |text| {
        NotFound(a, text);
        return;
      }
      start := start + 1;
    }
  }

  lemma NotFound(a: Alts, t: seq<byte>)
    requires forall i :: 0 <= i <= |t| ==> NoneAt(a, t, i)
    ensures !Found(a, t)
  {
    forall i, j | 0 <= i <= j <= |t| ensures !AltsMatch(a, t, i, j) { assert NoneAt(a, t, i); }
  }

  lemma TheMust(r: Regexp, a: Alts) returns (chars: seq<byte>)
    requires HintsOk(r, a) && r.regmust != -1
    ensures a.One? && MustBe(r.program, r.regmust, a.b, chars) && r.regmlen <= |chars|
    ensures r.regmust >= 0 && Operand(r.program, r.regmust, chars) && chars != []
  {
    chars :| MustBe(r.program, r.regmust, a.b, chars) && r.regmlen == |chars| % 256;
  }

  lemma WithoutMust(a: Alts, t: seq<byte>, chars: seq<byte>)
    requires a.One? && HasStr(a.b, chars) && !Contains(t, chars)
    ensures !Found(a, t)
  {
    forall i, j | 0 <= i <= j <= |t| ensures !AltsMatch(a, t, i, j) {
      if BranchMatches(a.b, t, i, j) { StringMust(a.b, t, i, j, chars); }
    }
  }

  lemma Anchored(r: Regexp, a: Alts, t: seq<byte>)
    requires HintsOk(r, a) && r.reganch
    ensures forall i :: 0 < i <= |t| ==> NoneAt(a, t, i)
  {
    forall i, j | 0 < i <= j <= |t| ensures !AltsMatch(a, t, i, j) {
      if BranchMatches(a.b, t, i, j) { AnchorMust(a.b, t, i, j); }
    }
  }

  lemma WrongStart(r: Regexp, a: Alts, t: seq<byte>, i: nat)
    requires HintsOk(r, a) && r.regstart != 0 && i <= |t| && (i == |t| || t[i] != r.regstart)
    ensures NoneAt(a, t, i)
  {
    forall j | i <= j <= |t| ensures !AltsMatch(a, t, i, j) {
      if BranchMatches(a.b, t, i, j) { StartMust(a.b, t, i, j, r.regstart); }
    }
  }

  /** A pattern that regcomp accepts is found in a text if and only if some
      stretch of the text is in its language; the stretch reported is the
      preferred one of those that start first. */
  method Search(exp: seq<byte>, text: seq<byte>) returns (r: Option<bool>, start: nat, end: nat)
    requires CString(exp) && CString(text)
    ensures r == if Parse(exp).Ok? && EndOf(Parse(exp).tree) + 3 < MAX_SIZE
                 then Some(Found(Parse(exp).tree, text)) else None
    ensures r == Some(true) ==>
      && start <= |text| && Best(Parse(exp).tree, text, start, end)
      && forall i :: 0 <= i < start ==> NoneAt(Parse(exp).tree, text, i)
  {
    hide CString, Parse, Compiled, Found, AltsSize, Best, NoneAt;
    start, end := 0, 0;
    var compiled := RegComp(exp);
    if compiled.None? {
      r := None;
      return;
    }
    var ok;
    ok, start, end := RegExec(compiled.value, text, Parse(exp).tree);
    r := Some(ok);
  }
}
