/** Pieces and alternatives as they are collected: one more at the end. */
module RegexLists {
  import opened Common
  import opened RegexSyntax
  import opened RegexCode

  // ------------------------------------------------------------------ pieces

  function Append(a: Branch, b: Branch): Branch {
    if a.Nil? then b else Cons(a.p, Append(a.rest, b))
  }

  function Snoc(a: Branch, x: Re): (r: Branch)
    ensures r.Cons?
  {
    if a.Nil? then Cons(x, Nil) else Cons(a.p, Snoc(a.rest, x))
  }

  /** The rest of a branch behind pieces already read. */
  function Prepend(a: Branch, r: Parsed<Branch>): Parsed<Branch> {
    if r.Fail? then Fail else Ok(Append(a, r.tree), r.pos, r.npar)
  }

  lemma {:induction false} AppendSnoc(a: Branch, x: Re, b: Branch)
    ensures Append(Snoc(a, x), b) == Append(a, Cons(x, b))
    decreases a
  {
    if a.Cons? { AppendSnoc(a.rest, x, b); }
  }

  lemma {:induction false} AppendNil(a: Branch)
    ensures Append(a, Nil) == a
    decreases a
  {
    if a.Cons? { AppendNil(a.rest); }
  }

  lemma {:induction false} AppendSize(a: Branch, b: Branch)
    ensures PiecesSize(Append(a, b)) == PiecesSize(a) + PiecesSize(b)
    decreases a
  {
    if a.Cons? { AppendSize(a.rest, b); }
  }

  lemma {:induction false} SnocFacts(a: Branch, x: Re)
    ensures PiecesSize(Snoc(a, x)) == PiecesSize(a) + Size(x)
    ensures BranchWidth(Snoc(a, x)) == (BranchWidth(a) || HasWidth(x))
    ensures BranchSpStart(Snoc(a, x)) == if a.Nil? then SpStart(x) else BranchSpStart(a)
    ensures BodyTail(Snoc(a, x)) == PiecesSize(a) + Tail(x)
    decreases a
  {
    hide Size, HasWidth, SpStart, Tail;
    if a.Cons? { SnocFacts(a.rest, x); }
  }

  /** Where the last of some pieces is. */
  function LastAt(at: nat, b: Branch): nat
    requires b.Cons?
    decreases b
  {
    if b.rest.Nil? then at else LastAt(at + Size(b.p), b.rest)
  }

  lemma {:induction false} SnocLast(at: nat, a: Branch, x: Re)
    ensures LastAt(at, Snoc(a, x)) == at + PiecesSize(a)
    decreases a
  {
    hide Size;
    if a.Cons? { SnocLast(at + Size(a.p), a.rest, x); }
  }

  lemma {:induction false} PiecesSnoc(code: seq<byte>, at: nat, a: Branch, x: Re, out: int)
    requires a.Cons? ==> PiecesLaid(code, at, a, at + PiecesSize(a))
    requires Laid(code, at + PiecesSize(a), x, out)
    ensures PiecesLaid(code, at, Snoc(a, x), out)
    decreases a
  {
    hide Laid;
    if a.Cons? {
      if a.rest.Cons? { assert PiecesLaid(code, at + Size(a.p), a.rest, at + PiecesSize(a)); }
      PiecesSnoc(code, at + Size(a.p), a.rest, x, out);
    }
  }

  /** The last piece leads to the last node. */
  lemma {:induction false} LastPiecePath(code: seq<byte>, at: nat, b: Branch, out: int)
    requires b.Cons? && PiecesLaid(code, at, b, out)
    ensures LastAt(at, b) <= at + BodyTail(b) && Path(code, LastAt(at, b), at + BodyTail(b))
    ensures at + BodyTail(b) + 3 <= |code| && code[at + BodyTail(b)] != BACK && RegNext(code, at + BodyTail(b)) == out
    decreases b
  {
    hide Laid, Path, Size, Tail, RegNext;
    if b.rest.Nil? {
      TailPath(code, at, b.p, out);
      TailNext(code, at, b.p, out);
    } else {
      LastPiecePath(code, at + Size(b.p), b.rest, out);
    }
  }

  // ------------------------------------------------------------ alternatives

  function SnocAlt(a: Alts, b: Branch): (r: Alts)
    ensures r.Or?
  {
    if a.One? then Or(a.b, One(b)) else Or(a.b, SnocAlt(a.rest, b))
  }

  function AppendAlts(a: Alts, r: Alts): Alts {
    if a.One? then Or(a.b, r) else Or(a.b, AppendAlts(a.rest, r))
  }

  /** The whole choice, if `done` has been read up to `pos`. */
  function AltsRest(s: seq<byte>, pos: nat, npar: nat, done: Alts): Parsed<Alts>
    requires pos <= |s|
  {
    if At(s, pos) == BAR && pos < |s| then
      match ParseAlts(s, pos + 1, npar)
      case Fail => Fail
      case Ok(r, p, n) => Ok(AppendAlts(done, r), p, n)
    else Ok(done, pos, npar)
  }

  lemma AltsBegin(s: seq<byte>, pos: nat, npar: nat)
    requires pos <= |s|
    ensures
      var b := ParseBranch(s, pos, npar); var r := ParseAlts(s, pos, npar);
      && (b.Fail? ==> r.Fail?) && (b.Ok? ==> r == AltsRest(s, b.pos, b.npar, One(b.tree)))
      && (r.Ok? ==> b.Ok? && 3 + BodySize(b.tree) <= AltsSize(r.tree))
  {
    hide ParseBranch, BodySize;
  }

  lemma AltsStep(s: seq<byte>, pos: nat, npar: nat, done: Alts, r: Parsed<Alts>)
    requires pos < |s| && s[pos] == BAR && AltsRest(s, pos, npar, done) == r
    ensures
      var b := ParseBranch(s, pos + 1, npar);
      && (b.Fail? ==> r.Fail?) && (b.Ok? ==> r == AltsRest(s, b.pos, b.npar, SnocAlt(done, b.tree)))
      && (r.Ok? ==> b.Ok? && AltsSize(done) + 3 + BodySize(b.tree) <= AltsSize(r.tree))
  {
    hide ParseBranch, BodySize;
    var b := ParseBranch(s, pos + 1, npar);
    if b.Ok? {
      if At(s, b.pos) == BAR && b.pos < |s| {
        var rest := ParseAlts(s, b.pos + 1, b.npar);
        if rest.Ok? {
          AppendOne(done, b.tree, rest.tree);
          AppendAltsSize(done, Or(b.tree, rest.tree));
        }
      } else {
        AppendOne(done, b.tree, One(b.tree));
        AppendAltsSize(done, One(b.tree));
      }
    }
  }

  lemma {:induction false} AppendOne(a: Alts, b: Branch, r: Alts)
    ensures AppendAlts(a, One(b)) == SnocAlt(a, b)
    ensures AppendAlts(a, Or(b, r)) == AppendAlts(SnocAlt(a, b), r)
    decreases a
  {
    if a.Or? { AppendOne(a.rest, b, r); }
  }

  lemma {:induction false} SnocAltFacts(a: Alts, b: Branch)
    ensures AltsSize(SnocAlt(a, b)) == AltsSize(a) + 3 + BodySize(b)
    ensures Count(SnocAlt(a, b)) == Count(a) + 1
    ensures AltsWidth(SnocAlt(a, b)) == (AltsWidth(a) && BranchWidth(b))
    ensures AltsSpStart(SnocAlt(a, b)) == (AltsSpStart(a) || BranchSpStart(b))
    decreases a
  {
    hide BodySize, BranchWidth, BranchSpStart;
    if a.Or? { SnocAltFacts(a.rest, b); }
  }

  lemma {:induction false} AppendAltsSize(a: Alts, r: Alts)
    ensures AltsSize(AppendAlts(a, r)) == AltsSize(a) + AltsSize(r)
    decreases a
  {
    hide BodySize;
    if a.Or? { AppendAltsSize(a.rest, r); }
  }

  lemma {:induction false} SnocBranchAt(at: nat, a: Alts, b: Branch)
    ensures BranchAt(at, SnocAlt(a, b), Count(a)) == at + AltsSize(a)
    decreases a
  {
    hide BodySize;
    if a.Or? { SnocBranchAt(at + 3 + BodySize(a.b), a.rest, b); }
  }

  /** One more alternative behind those that end by pointing to it. */
  lemma {:induction false} AltsSnoc(code: seq<byte>, at: nat, a: Alts, b: Branch, out: int, last: int)
    requires AltsLaid(code, at, a, out, 0, at + AltsSize(a))
    requires
      var p := at + AltsSize(a);
      BranchLaid(code, p, b, p + 3 + BodyTail(b), last) && p + 3 + BodySize(b) <= |code|
    ensures AltsLaid(code, at, SnocAlt(a, b), out, 0, last)
    decreases a
  {
    hide BodySize, BodyTail, BranchLaid;
    SnocAltFacts(a, b);
    var next := at + 3 + BodySize(a.b);
    if a.Or? {
      AltsSnoc(code, next, a.rest, b, out, last);
    } else {
      assert AltsLaid(code, next, One(b), out, 0, last);
    }
  }
}
