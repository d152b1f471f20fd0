/** What the recursive descent keeps while it emits: the bytes of an atom, the
    pieces of a branch, and the branches of a choice until they are closed. */
module RegexParse {
  import opened Common
  import opened RegexSyntax
  import opened RegexCode
  import opened RegexEmit
  import opened RegexBuild
  import opened RegexCompile
  import opened RegexLists

  /** Since the code was `code` and the size `size`, `bytes` came. */
  ghost predicate Came(e: Emitter, code: seq<byte>, size: nat, bytes: seq<byte>)
    reads e, e.program
  {
    && e.Valid()
    && (e.emit ==> e.Code() == code + bytes && e.regsize == size)
    && (!e.emit ==> e.Code() == code && e.regsize == size + |bytes|)
  }

  method PutByte(e: Emitter, b: byte, ghost code: seq<byte>, ghost size: nat, ghost bytes: seq<byte>)
    requires Came(e, code, size, bytes) && (e.emit ==> |code| + |bytes| < e.program.Length)
    modifies e, e.program
    ensures Came(e, code, size, bytes + [b])
  {
    e.RegC(b);
    assert code + bytes + [b] == code + (bytes + [b]);
  }

  // ------------------------------------------------------------- sets and strings

  lemma LeafLoose(code: seq<byte>, x: Re, bytes: seq<byte>)
    requires Leaf(x) && CodeOf(x) == bytes
    ensures Loose(code + bytes, |code|, x)
  {
    var c, at := code + bytes, |code|;
    assert c[at] == bytes[0] && c[at + 1] == bytes[1] && c[at + 2] == bytes[2];
    if x.Set? || x.Str? {
      assert c[at + 3..at + 3 + |x.chars|] == bytes[3..3 + |x.chars|] == x.chars;
    }
  }

  /** The code of a leaf, not hooked. */
  function CodeOf(x: Re): (bytes: seq<byte>)
    requires Leaf(x)
    ensures |bytes| == Size(x)
  {
    match x
    case Bol => [BOL, 0, 0]
    case Eol => [EOL, 0, 0]
    case Any => [ANY, 0, 0]
    case Set(negate, _, chars) => [if negate then ANYBUT else ANYOF, 0, 0] + chars + [0]
    case Str(chars, _) => [EXACTLY, 0, 0] + chars + [0]
  }

  lemma {:induction false} SetItemsMore(s: seq<byte>, p: nat, chars: seq<byte>)
    requires 1 <= p <= |s|
    ensures SetItems(s, p, chars).Ok? ==> chars <= SetItems(s, p, chars).tree
    decreases |s| - p
  {
    var c := At(s, p);
    if c == CLOSE_SET || p == |s| || c == 0 {
    } else if c == DASH {
      var lo: nat, d := s[p - 1], At(s, p + 1);
      if p + 1 < |s| && d != 0 {
        if d == CLOSE_SET {
          SetItemsMore(s, p + 1, chars + [DASH]);
        } else if lo <= d {
          SetItemsMore(s, p + 2, chars + Span(lo + 1, d));
        }
      }
    } else {
      SetItemsMore(s, p + 1, chars + [c]);
    }
  }

  /** The characters of a range, one by one. */
  method PutSpan(e: Emitter, lo: nat, hi: byte, ghost code: seq<byte>, ghost size: nat, ghost bytes: seq<byte>)
    requires Came(e, code, size, bytes) && (e.emit ==> |code| + |bytes + Span(lo, hi)| <= e.program.Length)
    modifies e, e.program
    ensures Came(e, code, size, bytes + Span(lo, hi))
  {
    var c := lo;
    ghost var put: seq<byte> := bytes;
    while c <= hi
      invariant lo <= c && Came(e, code, size, put) && put + Span(c, hi) == bytes + Span(lo, hi)
      decreases hi as int + 1 - c
    {
      var b: byte := c;
      ghost var one: seq<byte> := [b];
      assert put + Span(c, hi) == (put + one) + Span(c + 1, hi);
      PutByte(e, b, code, size, put);
      put := put + one;
      c := c + 1;
    }
    assert put + Span(c, hi) == put;
  }

  /** The inside of brackets.  `head` came before, and then `chars`. */
  method PutSet(e: Emitter, exp: seq<byte>, start: nat, ghost code: seq<byte>, ghost size: nat, ghost head: seq<byte>,
      ghost chars0: seq<byte>)
    returns (ok: bool, end: nat)
    requires CString(exp) && 1 <= start <= |exp| && Came(e, code, size, head + chars0)
    requires e.emit ==>
      SetItems(exp, start, chars0).Ok? && |code| + |head| + |SetItems(exp, start, chars0).tree| <= e.program.Length
    modifies e, e.program
    ensures e.Valid() && ok == SetItems(exp, start, chars0).Ok?
    ensures ok ==>
      end == SetItems(exp, start, chars0).pos && Came(e, code, size, head + SetItems(exp, start, chars0).tree)
  {
    hide Came;
    ghost var chars, r := chars0, SetItems(exp, start, chars0);
    var p := start;
    while p < |exp| && exp[p] != CLOSE_SET
      invariant start <= p <= |exp| && Came(e, code, size, head + chars) && SetItems(exp, p, chars) == r
      decreases |exp| - p
    {
      SetItemsMore(exp, p, chars);
      if exp[p] == DASH {
        if p + 1 == |exp| {
          CameValid(e, code, size, head + chars);
          return false, p;
        } else if exp[p + 1] == CLOSE_SET {
          SetItemsMore(exp, p + 1, chars + [DASH]);
          PutByte(e, DASH, code, size, head + chars);
          assert head + chars + [DASH] == head + (chars + [DASH]);
          chars := chars + [DASH];
          p := p + 1;
        } else {
          var lo: nat, hi := exp[p - 1], exp[p + 1];
          if lo + 1 > hi as int + 1 {
            CameValid(e, code, size, head + chars);
            return false, p;
          }
          SetItemsMore(exp, p + 2, chars + Span(lo + 1, hi));
          assert head + chars + Span(lo + 1, hi) == head + (chars + Span(lo + 1, hi));
          PutSpan(e, lo + 1, hi, code, size, head + chars);
          chars := chars + Span(lo + 1, hi);
          p := p + 2;
        }
      } else {
        SetItemsMore(exp, p + 1, chars + [exp[p]]);
        PutByte(e, exp[p], code, size, head + chars);
        assert head + chars + [exp[p]] == head + (chars + [exp[p]]);
        chars := chars + [exp[p]];
        p := p + 1;
      }
    }
    CameValid(e, code, size, head + chars);
    ok, end := p < |exp|, p;
  }

  lemma CameFacts(e: Emitter, code: seq<byte>, size: nat, bytes: seq<byte>)
    requires Came(e, code, size, bytes)
    ensures e.Valid()
    ensures e.emit ==> |e.Code()| == |code| + |bytes| && e.regsize == size
    ensures !e.emit ==> e.Code() == code && e.regsize == size + |bytes|
  {
  }

  lemma CameValid(e: Emitter, code: seq<byte>, size: nat, bytes: seq<byte>)
    requires Came(e, code, size, bytes)
    ensures e.Valid()
  {
  }

  // ------------------------------------------------------------- one branch

  /** A branch under way: its BRANCH and the pieces so far, not hooked. */
  ghost predicate BranchState(c: seq<byte>, ret: nat, done: Branch) {
    && Node(c, ret, BRANCH, ret) && |c| == ret + 3 + PiecesSize(done)
    && (done.Cons? ==> PiecesLaid(c, ret + 3, done, ret + 3 + BodyTail(done)))
  }

  lemma BranchStart(code: seq<byte>)
    ensures BranchState(code + [BRANCH, 0, 0], |code|, Nil)
  {
    AddNode(code, BRANCH);
  }

  lemma GrowSame(c: seq<byte>, c': seq<byte>, at: nat, n: nat)
    requires |c| <= |c'| && c'[..|c|] == c && at + n <= |c|
    ensures Same(c, at, c', at, n)
  {
    Slice(c', 0, |c|, at, n);
    assert c'[0..|c|] == c'[..|c|];
  }

  lemma GrowPieces(c: seq<byte>, c': seq<byte>, ret: nat, done: Branch)
    requires BranchState(c, ret, done) && |c| <= |c'| && c'[..|c|] == c
    ensures Node(c', ret, BRANCH, ret) && (done.Cons? ==> PiecesLaid(c', ret + 3, done, ret + 3 + BodyTail(done)))
  {
    hide Node, Same, PiecesLaid;
    GrowSame(c, c', ret, 3);
    MoveNode(c, ret, c', ret, 3, 0, BRANCH, ret);
    if done.Cons? {
      GrowSame(c, c', ret + 3, BodySize(done));
      MovePieces(c, ret + 3, c', ret + 3, done, ret + 3 + BodyTail(done));
    }
  }

  /** The first piece. */
  lemma BranchFirst(c: seq<byte>, c': seq<byte>, ret: nat, x: Re)
    requires BranchState(c, ret, Nil) && |c| <= |c'| && c'[..|c|] == c && Loose(c', |c|, x)
    ensures BranchState(c', ret, Snoc(Nil, x))
  {
    hide Node, Laid;
    GrowPieces(c, c', ret, Nil);
    PiecesSnoc(c', ret + 3, Nil, x, ret + 3 + Tail(x));
    SnocFacts(Nil, x);
  }

  /** One more piece: the one before it can be hooked on to it. */
  lemma BranchReady(c: seq<byte>, c': seq<byte>, ret: nat, done: Branch)
    requires done.Cons? && BranchState(c, ret, done) && |c| <= |c'| && c'[..|c|] == c
    ensures
      var t := ret + 3 + BodyTail(done);
      && LastAt(ret + 3, done) <= t && t + 3 <= |c| && Path(c', LastAt(ret + 3, done), t) && RegNext(c', t) == t
      && c'[t] != BACK
  {
    hide Node, PiecesLaid, Path;
    GrowPieces(c, c', ret, done);
    LastPiecePath(c', ret + 3, done, ret + 3 + BodyTail(done));
  }

  lemma BranchNext(c: seq<byte>, c': seq<byte>, ret: nat, done: Branch, x: Re)
    requires done.Cons? && BranchState(c, ret, done) && |c| <= |c'| < MAX_SIZE && c'[..|c|] == c && Loose(c', |c|, x)
    ensures
      var c'' := Tailed(c', ret + 3 + BodyTail(done), |c|);
      BranchState(c'', ret, Snoc(done, x)) && c''[..ret] == c[..ret]
  {
    hide Node, PiecesLaid, Path, Laid, Patch;
    var t := ret + 3 + BodyTail(done);
    GrowPieces(c, c', ret, done);
    BranchReady(c, c', ret, done);
    TailedHooks(c', t, |c|);
    var c'' := Hooked(c', t, |c|);
    KeepNode(c', t, |c|, ret, BRANCH, ret);
    HookPieces(c', ret + 3, done, |c|);
    Keep(c', t, |c|, |c|, x, |c| + Tail(x));
    PiecesSnoc(c'', ret + 3, done, x, |c| + Tail(x));
    SnocFacts(done, x);
    HookedPrefix(c', t, |c|, ret);
    assert c'[..ret] == c[..ret] by { assert c'[..ret] == c'[..|c|][..ret]; }
  }

  /** The end: a branch without pieces gets its NOTHING. */
  lemma BranchDone(c: seq<byte>, ret: nat, done: Branch)
    requires BranchState(c, ret, done)
    ensures
      var c' := if done.Nil? then c + [NOTHING, 0, 0] else c;
      BranchLaid(c', ret, done, ret + 3 + BodyTail(done), ret) && |c'| == ret + 3 + BodySize(done)
      && c'[..ret] == c[..ret]
  {
    hide Node, PiecesLaid;
    if done.Nil? {
      AddNode(c, NOTHING);
      AddKeepsNode(c, [NOTHING, 0, 0], ret, BRANCH, ret);
      NodeEnd(c, ret, BRANCH, ret);
      AddPrefix(c, [NOTHING, 0, 0], ret);
    }
  }

  // ------------------------------------------------------------ alternatives

  /** Alternatives under way, each pointing to the next, the last to nothing. */
  ghost predicate AltState(c: seq<byte>, at: nat, done: Alts) {
    AltsLaid(c, at, done, 0, 0, BranchAt(at, done, Count(done) - 1)) && |c| == at + AltsSize(done)
  }

  /** The same behind the OPEN of a group. */
  ghost predicate RegState(c: seq<byte>, ret: nat, paren: bool, no: nat, done: Alts) {
    if paren
    then 1 <= no < NSUBEXP && Node(c, ret, OPEN + no, ret + 3) && AltState(c, ret + 3, done)
    else AltState(c, ret, done)
  }

  function First(ret: nat, paren: bool): nat {
    if paren then ret + 3 else ret
  }

  lemma AltStart(c: seq<byte>, at: nat, b: Branch)
    requires BranchLaid(c, at, b, at + 3 + BodyTail(b), at) && |c| == at + 3 + BodySize(b)
    ensures AltState(c, at, One(b))
  {
    hide BranchLaid, BodySize, BodyTail;
  }

  lemma GrowAlts(c: seq<byte>, c': seq<byte>, at: nat, done: Alts)
    requires AltState(c, at, done) && |c| <= |c'| && c'[..|c|] == c
    ensures AltsLaid(c', at, done, 0, 0, BranchAt(at, done, Count(done) - 1))
  {
    hide Same, AltsLaid, BranchAt, Count;
    GrowSame(c, c', at, AltsSize(done));
    MoveAlts(c, at, c', at, done, 0, 0, BranchAt(at, done, Count(done) - 1));
  }

  /** The way from `ret` to the last BRANCH so far. */
  lemma RegPath(c: seq<byte>, c': seq<byte>, ret: nat, paren: bool, no: nat, done: Alts)
    requires RegState(c, ret, paren, no, done) && |c| <= |c'| && c'[..|c|] == c
    ensures
      var t := BranchAt(First(ret, paren), done, Count(done) - 1);
      && First(ret, paren) <= t && t + 3 <= |c| && Path(c', ret, t) && RegNext(c', t) == t && c'[t] == BRANCH
      && (paren ==> Node(c', ret, OPEN + no, ret + 3))
  {
    hide AltsLaid, Path, Node, Same, BranchAt, AltsSize;
    var at := First(ret, paren);
    var t := BranchAt(at, done, Count(done) - 1);
    GrowAlts(c, c', at, done);
    AltsPath(c', at, done, 0, 0, t);
    LastPath(c', at, done, 0, 0, t);
    NodeIs(c', t, BRANCH, t);
    BranchBounds(at, done, Count(done) - 1);
    if paren {
      NodeEnd(c, ret, OPEN + no, ret + 3);
      GrowSame(c, c', ret, 3);
      MoveNode(c, ret, c', ret, 3, 0, OPEN + no, ret + 3);
      PathStep(c', ret, OPEN + no, ret + 3);
      PathJoin(c', ret, ret + 3, t);
    }
  }

  /** One more alternative, hooked on to the last. */
  lemma AltNext(c: seq<byte>, c': seq<byte>, ret: nat, paren: bool, no: nat, done: Alts, b: Branch)
    requires RegState(c, ret, paren, no, done) && |c| <= |c'| < MAX_SIZE && c'[..|c|] == c
    requires BranchLaid(c', |c|, b, |c| + 3 + BodyTail(b), |c|) && |c'| == |c| + 3 + BodySize(b)
    ensures
      var t := BranchAt(First(ret, paren), done, Count(done) - 1);
      var c'' := Tailed(c', t, |c|);
      RegState(c'', ret, paren, no, SnocAlt(done, b)) && c''[..ret] == c[..ret]
  {
    hide AltsLaid, Path, Node, Same, BranchAt, BodySize, BodyTail, BranchLaid, Patch, AltsSize, Count;
    var at := First(ret, paren);
    var t := BranchAt(at, done, Count(done) - 1);
    RegPath(c, c', ret, paren, no, done);
    GrowAlts(c, c', at, done);
    TailedHooks(c', t, |c|);
    var c'' := Hooked(c', t, |c|);
    HookLast(c', at, done, 0, |c|);
    PatchSame(c', t, |c| - t, |c|, 3 + BodySize(b));
    MoveBranch(c', |c|, c'', |c|, b, |c| + 3 + BodyTail(b), |c|);
    AltsSnoc(c'', at, done, b, 0, |c|);
    SnocAltFacts(done, b);
    SnocBranchAt(at, done, b);
    if paren { KeepNode(c', t, |c|, ret, OPEN + no, ret + 3); }
    HookedPrefix(c', t, |c|, ret);
    assert c'[..ret] == c[..ret] by { Slice(c', 0, |c|, 0, ret); assert c'[0..|c|] == c'[..|c|]; }
  }

  // ------------------------------------------------------------------ closing

  /** All alternatives there, the first `k` hooked on to the closing node. */
  ghost predicate Closing(c: seq<byte>, ret: nat, paren: bool, no: nat, a: Alts, k: nat) {
    var at := First(ret, paren);
    var close := at + AltsSize(a);
    && (paren ==> 1 <= no < NSUBEXP && Node(c, ret, OPEN + no, at))
    && AltsLaid(c, at, a, close, k, close) && |c| == close + 3
    && Node(c, close, if paren then CLOSE + no else END, close)
  }

  lemma {:induction false} Unhooked(c: seq<byte>, at: nat, a: Alts, out: int, out': int, last: int)
    requires AltsLaid(c, at, a, out, 0, last)
    ensures AltsLaid(c, at, a, out', 0, last)
    decreases a
  {
    hide BranchLaid, BodySize, BodyTail;
    if a.Or? { Unhooked(c, at + 3 + BodySize(a.b), a.rest, out, out', last); }
  }

  lemma CloseStart(c: seq<byte>, ret: nat, paren: bool, no: nat, a: Alts)
    requires RegState(c, ret, paren, no, a) && |c| + 3 < MAX_SIZE
    ensures
      var op := if paren then CLOSE + no else END;
      var c' := c + [op, 0, 0];
      var t := BranchAt(First(ret, paren), a, Count(a) - 1);
      && ret <= t && t + 3 <= |c'| && Path(c', ret, t) && RegNext(c', t) == t && c'[t] == BRANCH
      && var c'' := Tailed(c', t, |c|); Closing(c'', ret, paren, no, a, 0) && c''[..ret] == c[..ret]
  {
    hide AltsLaid, Path, Node, Same, BranchAt, Patch, AltsSize, Count;
    var at := First(ret, paren);
    var close := at + AltsSize(a);
    var op: byte := if paren then CLOSE + no else END;
    var c', t := c + [op, 0, 0], BranchAt(at, a, Count(a) - 1);
    assert c'[..|c|] == c;
    RegPath(c, c', ret, paren, no, a);
    GrowAlts(c, c', at, a);
    Unhooked(c', at, a, 0, close, t);
    TailedHooks(c', t, close);
    HookLast(c', at, a, close, close);
    AddNode(c, op);
    KeepNode(c', t, close, close, op, close);
    if paren { KeepNode(c', t, close, ret, OPEN + no, at); }
    HookedPrefix(c', t, close, ret);
    AddPrefix(c, [op, 0, 0], ret);
  }

  /** The k-th branch of a choice. */
  lemma {:induction false} BranchFacts(c: seq<byte>, at: nat, a: Alts, out: int, hooked: nat, last: int, k: nat)
    requires AltsLaid(c, at, a, out, hooked, last) && k < Count(a)
    ensures
      var p := BranchAt(at, a, k);
      && Node(c, p, BRANCH, if k + 1 < Count(a) then BranchAt(at, a, k + 1) else last)
      && BodyLaid(c, p + 3, BranchOf(a, k), if k < hooked then out else p + 3 + BodyTail(BranchOf(a, k)))
    decreases a
  {
    hide Node, BodyLaid, BodySize, BodyTail;
    if k > 0 { BranchFacts(c, at + 3 + BodySize(a.b), a.rest, out, Less(hooked), last, k - 1); }
  }

  lemma CloseReady(c: seq<byte>, ret: nat, paren: bool, no: nat, a: Alts, k: nat)
    requires Closing(c, ret, paren, no, a, k) && k < Count(a) && |c| < MAX_SIZE
    ensures
      var at := First(ret, paren); var close := at + AltsSize(a);
      var p := BranchAt(at, a, k); var t := p + 3 + BodyTail(BranchOf(a, k));
      && ret <= p && p + 3 <= t && t + 3 <= close && t + 3 <= |c| && c[p] == BRANCH && Path(c, p + 3, t)
      && RegNext(c, t) == t && c[t] != BACK
      && RegNext(c, p) == (if k + 1 < Count(a) then BranchAt(at, a, k + 1) else close)
  {
    hide AltsLaid, Path, Node, BodyLaid, BranchAt, BranchOf, AltsSize;
    var at := First(ret, paren);
    var close := at + AltsSize(a);
    var p, b := BranchAt(at, a, k), BranchOf(a, k);
    BranchFacts(c, at, a, close, k, close, k);
    BranchBounds(at, a, k);
    NodeIs(c, p, BRANCH, if k + 1 < Count(a) then BranchAt(at, a, k + 1) else close);
    BodyPath(c, p + 3, b, p + 3 + BodyTail(b));
    BodyNext(c, p + 3, b, p + 3 + BodyTail(b));
  }

  lemma BodyNext(c: seq<byte>, at: nat, b: Branch, out: int)
    requires BodyLaid(c, at, b, out)
    ensures at + BodyTail(b) + 3 <= |c| && c[at + BodyTail(b)] != BACK && RegNext(c, at + BodyTail(b)) == out
  {
    hide PiecesLaid;
    if b.Cons? { LastPiecePath(c, at, b, out); }
  }

  lemma CloseNext(c: seq<byte>, ret: nat, paren: bool, no: nat, a: Alts, k: nat)
    requires Closing(c, ret, paren, no, a, k) && k < Count(a) && |c| < MAX_SIZE
    ensures
      var at := First(ret, paren); var close := at + AltsSize(a);
      var t := BranchAt(at, a, k) + 3 + BodyTail(BranchOf(a, k));
      var c' := Tailed(c, t, close);
      Closing(c', ret, paren, no, a, k + 1) && c'[..ret] == c[..ret] && BranchAt(at, a, k) + 3 <= |c|
      && RegNext(c', BranchAt(at, a, k)) == RegNext(c, BranchAt(at, a, k))
  {
    hide AltsLaid, Path, Node, BodyLaid, BranchAt, BranchOf, AltsSize, Patch, BodyTail, Count;
    CloseReady(c, ret, paren, no, a, k);
    var at := First(ret, paren);
    var close := at + AltsSize(a);
    var p := BranchAt(at, a, k);
    var t := p + 3 + BodyTail(BranchOf(a, k));
    TailedHooks(c, t, close);
    HookBranch(c, at, a, close, k, close);
    KeepNode(c, t, close, close, if paren then CLOSE + no else END, close);
    if paren { KeepNode(c, t, close, ret, OPEN + no, at); }
    HookedPrefix(c, t, close, ret);
    HookedElsewhere(c, t, close, p);
  }

  lemma HookedElsewhere(c: seq<byte>, t: nat, val: int, p: nat)
    requires t + 3 <= |c| && t < val < t + REACH && p + 3 <= t
    ensures RegNext(Hooked(c, t, val), p) == RegNext(c, p)
  {
  }
}
