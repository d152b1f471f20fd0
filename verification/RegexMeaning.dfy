/** What a regular expression matches: the stretches of a text, from position
    to position, with the start and the end of the text in view for ^ and $. */
module RegexMeaning {
  import opened Common
  import opened RegexSyntax

  /** One character against something simple. */
  predicate CharOk(x: Re, c: byte)
    requires Simple(x)
  {
    match x
    case Set(negate, _, chars) => (c in chars) != negate
    case Str(chars, _) => c == chars[0]
    case _ => true
  }

  ghost predicate Matches(x: Re, t: seq<byte>, i: nat, j: nat)
    requires i <= j <= |t|
    decreases x, 0, 0
  {
    match x
    case Bol => i == j == 0
    case Eol => i == j == |t|
    case Any => j == i + 1
    case Set(_, _, _) => j == i + 1 && CharOk(x, t[i])
    case Str(chars, _) => t[i..j] == chars
    case Group(_, alts) => AltsMatch(alts, t, i, j)
    case Star(y) => StarMatches(y, t, i, j)
    case Plus(y) => exists k :: i <= k <= j && Matches(y, t, i, k) && StarMatches(y, t, k, j)
    case Opt(y) => i == j || Matches(y, t, i, j)
  }

  /** Any number of times; repetitions that match nothing make no difference. */
  ghost predicate StarMatches(y: Re, t: seq<byte>, i: nat, j: nat)
    requires i <= j <= |t|
    decreases y, 1, j - i
  {
    i == j || exists k :: i < k <= j && Matches(y, t, i, k) && StarMatches(y, t, k, j)
  }

  ghost predicate BranchMatches(b: Branch, t: seq<byte>, i: nat, j: nat)
    requires i <= j <= |t|
    decreases b, 0, 0
  {
    if b.Nil? then i == j
    else exists k :: i <= k <= j && Matches(b.p, t, i, k) && BranchMatches(b.rest, t, k, j)
  }

  ghost predicate AltsMatch(a: Alts, t: seq<byte>, i: nat, j: nat)
    requires i <= j <= |t|
    decreases a, 0, 0
  {
    BranchMatches(a.b, t, i, j) || (a.Or? && AltsMatch(a.rest, t, i, j))
  }

  /** Some stretch of the text is in the language of the pattern. */
  ghost predicate Found(a: Alts, t: seq<byte>) {
    exists i, j :: 0 <= i <= j <= |t| && AltsMatch(a, t, i, j)
  }

  /** HASWIDTH means what it says. */
  lemma {:induction false} WidthMoves(x: Re, t: seq<byte>, i: nat, j: nat)
    requires Good(x) && HasWidth(x) && i <= j <= |t| && Matches(x, t, i, j)
    ensures i < j
    decreases x
  {
    match x
    case Group(_, alts) => AltsWidthMoves(alts, t, i, j);
    case Plus(y) =>
      var k :| i <= k <= j && Matches(y, t, i, k) && StarMatches(y, t, k, j);
      WidthMoves(y, t, i, k);
    case _ =>
  }

  lemma {:induction false} BranchWidthMoves(b: Branch, t: seq<byte>, i: nat, j: nat)
    requires GoodBranch(b) && BranchWidth(b) && i <= j <= |t| && BranchMatches(b, t, i, j)
    ensures i < j
    decreases b
  {
    var k :| i <= k <= j && Matches(b.p, t, i, k) && BranchMatches(b.rest, t, k, j);
    if HasWidth(b.p) { WidthMoves(b.p, t, i, k); } else { BranchWidthMoves(b.rest, t, k, j); }
  }

  lemma {:induction false} AltsWidthMoves(a: Alts, t: seq<byte>, i: nat, j: nat)
    requires GoodAlts(a) && AltsWidth(a) && i <= j <= |t| && AltsMatch(a, t, i, j)
    ensures i < j
    decreases a
  {
    if BranchMatches(a.b, t, i, j) { BranchWidthMoves(a.b, t, i, j); } else { AltsWidthMoves(a.rest, t, i, j); }
  }

  lemma BranchFirst(b: Branch, t: seq<byte>, i: nat, j: nat) returns (k: nat)
    requires i <= j <= |t| && b.Cons? && BranchMatches(b, t, i, j)
    ensures i <= k <= j && Matches(b.p, t, i, k) && BranchMatches(b.rest, t, k, j)
  {
    k :| i <= k <= j && Matches(b.p, t, i, k) && BranchMatches(b.rest, t, k, j);
  }
}
