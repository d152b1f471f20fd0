/** Which of several matches counts: where a match may end, best first.  The
    branches of a choice are preferred from left to right, repetitions longest
    first, and of pieces in a row the earlier one decides. */
module RegexOrder {
  import opened Common
  import opened RegexSyntax
  import opened RegexMeaning

  ghost predicate Within(ks: seq<nat>, i: nat, t: seq<byte>) {
    forall n :: 0 <= n < |ks| ==> i <= ks[n] <= |t|
  }

  ghost function Ends(x: Re, t: seq<byte>, i: nat): (ends: seq<nat>)
    requires i <= |t|
    ensures Within(ends, i, t)
    decreases x, 0, 0, 0, 0
  {
    match x
    case Bol => if i == 0 then [i] else []
    case Eol => if i == |t| then [i] else []
    case Any => if i < |t| then [i + 1] else []
    case Set(_, _, _) => if i < |t| && CharOk(x, t[i]) then [i + 1] else []
    case Str(chars, _) => if i + |chars| <= |t| && t[i..i + |chars|] == chars then [i + |chars|] else []
    case Group(_, alts) => AltsEnds(alts, t, i)
    case Star(y) => StarEnds(y, t, i)
    case Plus(y) => AgainEnds(y, t, i, Ends(y, t, i))
    case Opt(y) => Ends(y, t, i) + [i]
  }

  /** Once more and on from there, or stop here. */
  ghost function StarEnds(y: Re, t: seq<byte>, i: nat): (ends: seq<nat>)
    requires i <= |t|
    ensures Within(ends, i, t)
    decreases y, 1, |t| - i, 1, 0
  {
    AgainEnds(y, t, i, Ends(y, t, i)) + [i]
  }

  /** On from each of `ks`; repetitions that match nothing are not gone into. */
  ghost function AgainEnds(y: Re, t: seq<byte>, i: nat, ks: seq<nat>): (ends: seq<nat>)
    requires i <= |t| && Within(ks, i, t)
    ensures Within(ends, i, t)
    decreases y, 1, |t| - i, 0, |ks|
  {
    if ks == [] then []
    else (if ks[0] > i then StarEnds(y, t, ks[0]) else []) + AgainEnds(y, t, i, ks[1..])
  }

  ghost function BranchEnds(b: Branch, t: seq<byte>, i: nat): (ends: seq<nat>)
    requires i <= |t|
    ensures Within(ends, i, t)
    decreases b, 0, 0, 0, 0
  {
    if b.Nil? then [i] else BranchAll(b.rest, t, i, Ends(b.p, t, i))
  }

  ghost function BranchAll(b: Branch, t: seq<byte>, i: nat, ks: seq<nat>): (ends: seq<nat>)
    requires i <= |t| && Within(ks, i, t)
    ensures Within(ends, i, t)
    decreases b, 1, |ks|, 0, 0
  {
    if ks == [] then [] else BranchEnds(b, t, ks[0]) + BranchAll(b, t, i, ks[1..])
  }

  ghost function AltsEnds(a: Alts, t: seq<byte>, i: nat): (ends: seq<nat>)
    requires i <= |t|
    ensures Within(ends, i, t)
    decreases a, 0, 0, 0, 0
  {
    BranchEnds(a.b, t, i) + if a.Or? then AltsEnds(a.rest, t, i) else []
  }

  // --------------------------------------------------------------- exactness

  /** The ends are exactly those of the matches. */
  lemma {:induction false} EndsExact(x: Re, t: seq<byte>, i: nat, j: nat)
    requires Good(x) && i <= j <= |t|
    ensures j in Ends(x, t, i) <==> Matches(x, t, i, j)
    decreases x, 0, 0, 0, 0
  {
    match x
    case Str(chars, _) => assert |t[i..j]| == j - i;
    case Group(_, alts) => AltsExact(alts, t, i, j);
    case Star(y) => StarExact(y, t, i, j);
    case Plus(y) => PlusExact(y, t, i, j);
    case Opt(y) => EndsExact(y, t, i, j);
    case _ =>
  }

  lemma {:induction false} PlusExact(y: Re, t: seq<byte>, i: nat, j: nat)
    requires Good(y) && HasWidth(y) && i <= j <= |t|
    ensures j in AgainEnds(y, t, i, Ends(y, t, i)) <==> Matches(Plus(y), t, i, j)
    decreases y, 1, |t| - i, 1, 0
  {
    hide Ends, HasWidth, Good, AgainEnds;
    forall k | i <= k <= j ensures k in Ends(y, t, i) <==> Matches(y, t, i, k) { EndsExact(y, t, i, k); }
    forall k | i <= k <= j && Matches(y, t, i, k) ensures k > i { WidthMoves(y, t, i, k); }
    AgainExact(y, t, i, Ends(y, t, i), j);
  }

  lemma {:induction false} StarExact(y: Re, t: seq<byte>, i: nat, j: nat)
    requires Good(y) && i <= j <= |t|
    ensures j in StarEnds(y, t, i) <==> StarMatches(y, t, i, j)
    decreases y, 1, |t| - i, 1, 0
  {
    hide Ends, Good, AgainEnds, Matches;
    forall k | i <= k <= j ensures k in Ends(y, t, i) <==> Matches(y, t, i, k) { EndsExact(y, t, i, k); }
    AgainExact(y, t, i, Ends(y, t, i), j);
  }

  ghost predicate AgainMatch(y: Re, t: seq<byte>, i: nat, ks: seq<nat>, j: nat)
    requires i <= j <= |t|
  {
    exists k :: k in ks && i < k <= j && StarMatches(y, t, k, j)
  }

  lemma {:induction false} AgainExact(y: Re, t: seq<byte>, i: nat, ks: seq<nat>, j: nat)
    requires Good(y) && i <= j <= |t| && Within(ks, i, t)
    ensures j in AgainEnds(y, t, i, ks) <==> AgainMatch(y, t, i, ks, j)
    decreases y, 1, |t| - i, 0, |ks|
  {
    hide StarMatches, StarEnds, Good;
    if ks != [] {
      var k, rest := ks[0], ks[1..];
      assert ks == [k] + rest;
      AgainExact(y, t, i, rest, j);
      if i < k <= j { StarExact(y, t, k, j); }
      assert k in ks;
    }
  }

  lemma {:induction false} BranchExact(b: Branch, t: seq<byte>, i: nat, j: nat)
    requires GoodBranch(b) && i <= j <= |t|
    ensures j in BranchEnds(b, t, i) <==> BranchMatches(b, t, i, j)
    decreases b, 0, 0, 0, 0
  {
    hide Ends, BranchAll, Matches;
    if b.Cons? {
      forall k | i <= k <= j ensures k in Ends(b.p, t, i) <==> Matches(b.p, t, i, k) { EndsExact(b.p, t, i, k); }
      BranchAllExact(b.rest, t, i, Ends(b.p, t, i), j);
    }
  }

  ghost predicate OnwardMatch(b: Branch, t: seq<byte>, ks: seq<nat>, j: nat)
    requires j <= |t|
  {
    exists k :: k in ks && k <= j && BranchMatches(b, t, k, j)
  }

  lemma {:induction false} BranchAllExact(b: Branch, t: seq<byte>, i: nat, ks: seq<nat>, j: nat)
    requires GoodBranch(b) && i <= j <= |t| && Within(ks, i, t)
    ensures j in BranchAll(b, t, i, ks) <==> OnwardMatch(b, t, ks, j)
    decreases b, 1, |ks|, 0, 0
  {
    hide BranchMatches, BranchEnds, GoodBranch;
    if ks != [] {
      var k, rest := ks[0], ks[1..];
      assert ks == [k] + rest;
      BranchAllExact(b, t, i, rest, j);
      if k <= j { BranchExact(b, t, k, j); }
      assert k in ks;
    }
  }

  lemma {:induction false} AltsExact(a: Alts, t: seq<byte>, i: nat, j: nat)
    requires GoodAlts(a) && i <= j <= |t|
    ensures j in AltsEnds(a, t, i) <==> AltsMatch(a, t, i, j)
    decreases a, 0, 0, 0, 0
  {
    hide BranchEnds, BranchMatches;
    BranchExact(a.b, t, i, j);
    if a.Or? { AltsExact(a.rest, t, i, j); }
  }

  /** Something with width ends farther on. */
  lemma WidthEnds(x: Re, t: seq<byte>, i: nat)
    requires Good(x) && HasWidth(x) && i <= |t|
    ensures forall n :: 0 <= n < |Ends(x, t, i)| ==> Ends(x, t, i)[n] > i
  {
    hide Ends, Good, HasWidth;
    var ends := Ends(x, t, i);
    forall n | 0 <= n < |ends| ensures ends[n] > i {
      EndsExact(x, t, i, ends[n]);
      WidthMoves(x, t, i, ends[n]);
    }
  }

  // --------------------------------------------------------- simple repeats

  /** hi, hi - 1, and so on down to lo. */
  ghost function Down(lo: nat, hi: nat): (ks: seq<nat>)
    ensures forall n :: 0 <= n < |ks| ==> lo <= ks[n] <= hi
    decreases hi - lo
  {
    if lo > hi then [] else Down(lo + 1, hi) + [lo]
  }

  lemma SimpleEnds(x: Re, t: seq<byte>, i: nat)
    requires Simple(x) && i <= |t|
    ensures Ends(x, t, i) == if i < |t| && CharOk(x, t[i]) then [i + 1] else []
  {
    if x.Str? && i < |t| { assert t[i..i + 1] == [t[i]]; }
  }

  lemma AgainOne(y: Re, t: seq<byte>, i: nat, k: nat)
    requires i < k <= |t|
    ensures AgainEnds(y, t, i, [k]) == StarEnds(y, t, k)
  {
    hide StarEnds;
    assert AgainEnds(y, t, i, [k]) == StarEnds(y, t, k) + AgainEnds(y, t, i, []);
  }

  /** Something simple, repeated: `most` is as far as it goes. */
  lemma {:induction false} SimpleStar(x: Re, t: seq<byte>, i: nat, most: nat)
    requires Simple(x) && i <= most <= |t|
    requires (forall k :: i <= k < most ==> CharOk(x, t[k])) && (most < |t| ==> !CharOk(x, t[most]))
    ensures StarEnds(x, t, i) == Down(i, most)
    ensures AgainEnds(x, t, i, Ends(x, t, i)) == Down(i + 1, most)
    decreases most - i
  {
    hide Ends, CharOk, AgainEnds;
    SimpleEnds(x, t, i);
    if i < most {
      SimpleStar(x, t, i + 1, most);
      AgainOne(x, t, i, i + 1);
    } else {
      AgainNone(x, t, i);
    }
  }

  lemma AgainNone(y: Re, t: seq<byte>, i: nat)
    requires i <= |t|
    ensures AgainEnds(y, t, i, []) == []
  {
  }
}
