/** Regular expressions as cawf's regexp.c reads them: the tree of a pattern and
    the recursive descent that finds it. */
module RegexSyntax {
  import opened Common

  /** A C string without its final zero. */
  ghost predicate CString(s: seq<byte>) {
    forall i :: 0 <= i < |s| ==> s[i] != 0
  }

  function At(s: seq<byte>, i: nat): byte {
    if i < |s| then s[i] else 0
  }

  /** What stands between alternatives' bars; the pieces of one alternative; and
      one piece.  A set keeps its text, for the brackets, and the characters it
      lists. */
  datatype Alts = One(b: Branch) | Or(b: Branch, rest: Alts)
  datatype Branch = Nil | Cons(p: Re, rest: Branch)
  datatype Re =
    | Bol | Eol | Any
    | Set(negate: bool, text: seq<byte>, chars: seq<byte>)
    | Str(chars: seq<byte>, escaped: bool)
    | Group(no: nat, alts: Alts)
    | Star(x: Re) | Plus(x: Re) | Opt(x: Re)

  const NSUBEXP: nat := 10

  const BAR: byte := 0x7C
  const OPEN_PAREN: byte := 0x28
  const CLOSE_PAREN: byte := 0x29
  const OPEN_SET: byte := 0x5B
  const CLOSE_SET: byte := 0x5D
  const CARET: byte := 0x5E
  const DOLLAR: byte := 0x24
  const DOT: byte := 0x2E
  const DASH: byte := 0x2D
  const STAR_SIGN: byte := 0x2A
  const PLUS_SIGN: byte := 0x2B
  const QUESTION: byte := 0x3F
  const BACKSLASH: byte := 0x5C

  predicate IsMult(c: byte) {
    c == STAR_SIGN || c == PLUS_SIGN || c == QUESTION
  }

  /** The characters that end a run of ordinary ones. */
  predicate IsMeta(c: byte) {
    || c == CARET || c == DOLLAR || c == DOT || c == OPEN_SET || c == OPEN_PAREN || c == CLOSE_PAREN
    || c == BAR || c == QUESTION || c == PLUS_SIGN || c == STAR_SIGN || c == BACKSLASH
  }

  // ------------------------------------------------------------------- flags

  /** HASWIDTH: never matches the empty string. */
  predicate HasWidth(x: Re) {
    match x
    case Bol => false
    case Eol => false
    case Any => true
    case Set(_, _, _) => true
    case Str(_, _) => true
    case Group(_, alts) => AltsWidth(alts)
    case Star(_) => false
    case Plus(_) => true
    case Opt(_) => false
  }

  predicate BranchWidth(b: Branch) {
    b.Cons? && (HasWidth(b.p) || BranchWidth(b.rest))
  }

  predicate AltsWidth(a: Alts) {
    BranchWidth(a.b) && (a.Or? ==> AltsWidth(a.rest))
  }

  /** SIMPLE: matches exactly one character. */
  predicate Simple(x: Re) {
    x.Any? || x.Set? || (x.Str? && |x.chars| == 1)
  }

  /** SPSTART: starts with a star, as far as the compiler notices. */
  predicate SpStart(x: Re) {
    match x
    case Star(_) => true
    case Opt(_) => true
    case Group(_, alts) => AltsSpStart(alts)
    case _ => false
  }

  predicate BranchSpStart(b: Branch) {
    b.Cons? && SpStart(b.p)
  }

  predicate AltsSpStart(a: Alts) {
    BranchSpStart(a.b) || (a.Or? && AltsSpStart(a.rest))
  }

  // ------------------------------------------------------------------ parsing

  datatype Parsed<T> = Fail | Ok(tree: T, pos: nat, npar: nat)

  function ParseAlts(s: seq<byte>, pos: nat, npar: nat): (r: Parsed<Alts>)
    requires pos <= |s|
    ensures r.Ok? ==> pos <= r.pos <= |s|
    decreases |s| - pos, 3
  {
    match ParseBranch(s, pos, npar)
    case Fail => Fail
    case Ok(b, p, n) =>
      if At(s, p) == BAR && p < |s| then
        match ParseAlts(s, p + 1, n)
        case Fail => Fail
        case Ok(rest, p', n') => Ok(Or(b, rest), p', n')
      else Ok(One(b), p, n)
  }

  predicate EndsBranch(c: byte) {
    c == 0 || c == BAR || c == CLOSE_PAREN
  }

  function ParseBranch(s: seq<byte>, pos: nat, npar: nat): (r: Parsed<Branch>)
    requires pos <= |s|
    ensures r.Ok? ==> pos <= r.pos <= |s|
    decreases |s| - pos, 2
  {
    if EndsBranch(At(s, pos)) then Ok(Nil, pos, npar)
    else
      match ParsePiece(s, pos, npar)
      case Fail => Fail
      case Ok(x, p, n) =>
        match ParseBranch(s, p, n)
        case Fail => Fail
        case Ok(rest, p', n') => Ok(Cons(x, rest), p', n')
  }

  function Repeated(x: Re, op: byte): Re {
    if op == STAR_SIGN then Star(x) else if op == PLUS_SIGN then Plus(x) else Opt(x)
  }

  function ParsePiece(s: seq<byte>, pos: nat, npar: nat): (r: Parsed<Re>)
    requires pos < |s|
    ensures r.Ok? ==> pos < r.pos <= |s|
    decreases |s| - pos, 1
  {
    match ParseAtom(s, pos, npar)
    case Fail => Fail
    case Ok(x, p, n) =>
      var op := At(s, p);
      if !IsMult(op) then Ok(x, p, n)
      else if !HasWidth(x) && op != QUESTION then Fail
      else if IsMult(At(s, p + 1)) then Fail
      else Ok(Repeated(x, op), p + 1, n)
  }

  function ParseAtom(s: seq<byte>, pos: nat, npar: nat): (r: Parsed<Re>)
    requires pos < |s|
    ensures r.Ok? ==> pos < r.pos <= |s|
    decreases |s| - pos, 0
  {
    var c := s[pos];
    if c == CARET then Ok(Bol, pos + 1, npar)
    else if c == DOLLAR then Ok(Eol, pos + 1, npar)
    else if c == DOT then Ok(Any, pos + 1, npar)
    else if c == OPEN_SET then ParseSet(s, pos + 1, npar)
    else if c == OPEN_PAREN then
      if npar >= NSUBEXP then Fail
      else
        match ParseAlts(s, pos + 1, npar + 1)
        case Fail => Fail
        case Ok(alts, p, n) => if At(s, p) == CLOSE_PAREN then Ok(Group(npar, alts), p + 1, n) else Fail
    else if EndsBranch(c) || IsMult(c) then Fail
    else if c == BACKSLASH then
      if pos + 1 == |s| then Fail else Ok(Str([s[pos + 1]], true), pos + 2, npar)
    else
      var n := PlainRun(s, pos);
      Ok(Str(s[pos..pos + n], false), pos + n, npar)
  }

  /** strcspn up to the next metacharacter, from `i` on. */
  function Plain(s: seq<byte>, i: nat): (n: nat)
    requires i <= |s|
    ensures i + n <= |s| && (forall k :: i <= k < i + n ==> !IsMeta(s[k]) && s[k] != 0)
    ensures i + n < |s| ==> IsMeta(s[i + n]) || s[i + n] == 0
    decreases |s| - i
  {
    if i == |s| || s[i] == 0 || IsMeta(s[i]) then 0 else 1 + Plain(s, i + 1)
  }

  /** How much of it goes into one node: the last character is left to a star,
      plus or question mark behind it. */
  function PlainRun(s: seq<byte>, pos: nat): (n: nat)
    requires pos < |s| && s[pos] != 0 && !IsMeta(s[pos])
    ensures 1 <= n && pos + n <= |s| && (forall k :: pos <= k < pos + n ==> s[k] != 0)
    ensures n == 1 || !IsMult(At(s, pos + n))
  {
    var n := Plain(s, pos);
    if n > 1 && IsMult(At(s, pos + n)) then n - 1 else n
  }

  /** The characters from `lo` to `hi`. */
  function Span(lo: nat, hi: nat): (r: seq<byte>)
    requires hi < 256
    ensures forall c :: c in r <==> lo <= c <= hi
    decreases hi + 1 - lo
  {
    if lo > hi then [] else [lo] + Span(lo + 1, hi)
  }

  /** The inside of brackets from `p` on, at least one character of which came
      before; `chars` are those listed so far. */
  function SetItems(s: seq<byte>, p: nat, chars: seq<byte>): (r: Parsed<seq<byte>>)
    requires 1 <= p <= |s|
    ensures r.Ok? ==> p <= r.pos < |s| && s[r.pos] == CLOSE_SET
    decreases |s| - p
  {
    var c := At(s, p);
    if c == CLOSE_SET then Ok(chars, p, 0)
    else if p == |s| || c == 0 then Fail
    else if c == DASH then
      var lo: nat, d := s[p - 1], At(s, p + 1);
      if p + 1 == |s| || d == 0 then Fail
      else if d == CLOSE_SET then SetItems(s, p + 1, chars + [DASH])
      else if lo > d then Fail
      else SetItems(s, p + 2, chars + Span(lo + 1, d))
    else SetItems(s, p + 1, chars + [c])
  }

  /** A set is complemented by a caret in front. */
  function SetBody(s: seq<byte>, pos: nat): (p: nat)
    requires pos <= |s|
    ensures pos <= p <= |s| && s[pos..p] == if At(s, pos) == CARET then [CARET] else []
  {
    if At(s, pos) == CARET then pos + 1 else pos
  }

  /** A bracket or dash that comes first stands for itself. */
  function SetFirst(s: seq<byte>, p: nat): (first: seq<byte>)
    requires p <= |s|
    ensures p + |first| <= |s| && first == s[p..p + |first|]
  {
    if At(s, p) == CLOSE_SET || At(s, p) == DASH then [s[p]] else []
  }

  /** A set, from behind its opening bracket. */
  function ParseSet(s: seq<byte>, pos: nat, npar: nat): (r: Parsed<Re>)
    requires 1 <= pos <= |s|
    ensures r.Ok? ==> pos < r.pos <= |s| && r.tree.Set?
  {
    var p := SetBody(s, pos);
    var first := SetFirst(s, p);
    match SetItems(s, p + |first|, first)
    case Fail => Fail
    case Ok(chars, q, _) => Ok(Set(At(s, pos) == CARET, s[p..q], chars), q + 1, npar)
  }

  /** The whole pattern. */
  function Parse(s: seq<byte>): (r: Parsed<Alts>) {
    match ParseAlts(s, 0, 1)
    case Fail => Fail
    case Ok(alts, p, n) => if p == |s| then Ok(alts, p, n) else Fail
  }

  // --------------------------------------------------------- well-formed trees

  /** What the parser makes sure of: only something that has width is starred,
      and unless it is a group it is one character. */
  ghost predicate Good(x: Re) {
    match x
    case Set(_, _, chars) => CString(chars)
    case Str(chars, _) => chars != [] && CString(chars)
    case Group(no, alts) => 1 <= no < NSUBEXP && GoodAlts(alts)
    case Star(y) => Good(y) && HasWidth(y) && (Simple(y) || y.Group?)
    case Plus(y) => Good(y) && HasWidth(y) && (Simple(y) || y.Group?)
    case Opt(y) => Good(y)
    case _ => true
  }

  ghost predicate GoodBranch(b: Branch) {
    b.Cons? ==> Good(b.p) && GoodBranch(b.rest)
  }

  ghost predicate GoodAlts(a: Alts) {
    GoodBranch(a.b) && (a.Or? ==> GoodAlts(a.rest))
  }

  // ----------------------------------------------------------------- printing

  /** The text of a tree. */
  function Show(x: Re): seq<byte> {
    match x
    case Bol => [CARET]
    case Eol => [DOLLAR]
    case Any => [DOT]
    case Set(negate, text, _) => [OPEN_SET] + (if negate then [CARET] else []) + text + [CLOSE_SET]
    case Str(chars, escaped) => (if escaped then [BACKSLASH] else []) + chars
    case Group(_, alts) => [OPEN_PAREN] + ShowAlts(alts) + [CLOSE_PAREN]
    case Star(y) => Show(y) + [STAR_SIGN]
    case Plus(y) => Show(y) + [PLUS_SIGN]
    case Opt(y) => Show(y) + [QUESTION]
  }

  function ShowBranch(b: Branch): seq<byte> {
    if b.Nil? then [] else Show(b.p) + ShowBranch(b.rest)
  }

  function ShowAlts(a: Alts): seq<byte> {
    if a.One? then ShowBranch(a.b) else ShowBranch(a.b) + [BAR] + ShowAlts(a.rest)
  }

  // -------------------------------------------------------- about the parser

  lemma {:induction false} AltsParsed(s: seq<byte>, pos: nat, npar: nat)
    requires CString(s) && pos <= |s| && 1 <= npar && ParseAlts(s, pos, npar).Ok?
    ensures
      var r := ParseAlts(s, pos, npar);
      GoodAlts(r.tree) && ShowAlts(r.tree) == s[pos..r.pos] && npar <= r.npar
    decreases |s| - pos, 3
  {
    hide ParseBranch, ShowBranch, GoodBranch, CString;
    BranchParsed(s, pos, npar);
    var b := ParseBranch(s, pos, npar);
    if At(s, b.pos) == BAR && b.pos < |s| {
      AltsParsed(s, b.pos + 1, b.npar);
      var r := ParseAlts(s, pos, npar);
      assert s[pos..r.pos] == s[pos..b.pos] + [BAR] + s[b.pos + 1..r.pos];
    }
  }

  lemma {:induction false} BranchParsed(s: seq<byte>, pos: nat, npar: nat)
    requires CString(s) && pos <= |s| && 1 <= npar && ParseBranch(s, pos, npar).Ok?
    ensures
      var r := ParseBranch(s, pos, npar);
      GoodBranch(r.tree) && ShowBranch(r.tree) == s[pos..r.pos] && npar <= r.npar
    decreases |s| - pos, 2
  {
    hide ParsePiece, Show, Good, CString;
    if !EndsBranch(At(s, pos)) {
      PieceParsed(s, pos, npar);
      var x := ParsePiece(s, pos, npar);
      BranchParsed(s, x.pos, x.npar);
      var r := ParseBranch(s, pos, npar);
      assert s[pos..r.pos] == s[pos..x.pos] + s[x.pos..r.pos];
    }
  }

  lemma {:induction false} PieceParsed(s: seq<byte>, pos: nat, npar: nat)
    requires CString(s) && pos < |s| && 1 <= npar && ParsePiece(s, pos, npar).Ok?
    ensures
      var r := ParsePiece(s, pos, npar);
      Good(r.tree) && Show(r.tree) == s[pos..r.pos] && npar <= r.npar
    decreases |s| - pos, 1
  {
    hide ParseAtom, CString;
    AtomParsed(s, pos, npar);
    var x := ParseAtom(s, pos, npar);
    var op := At(s, x.pos);
    if IsMult(op) {
      assert s[pos..x.pos + 1] == s[pos..x.pos] + [op];
    }
  }

  lemma {:induction false} AtomParsed(s: seq<byte>, pos: nat, npar: nat)
    requires CString(s) && pos < |s| && 1 <= npar && ParseAtom(s, pos, npar).Ok?
    ensures
      var r := ParseAtom(s, pos, npar);
      && Good(r.tree) && Show(r.tree) == s[pos..r.pos] && npar <= r.npar
      && !r.tree.Star? && !r.tree.Plus? && !r.tree.Opt?
      && (r.tree.Str? && !Simple(r.tree) ==> !IsMult(At(s, r.pos)))
    decreases |s| - pos, 0
  {
    hide ParseAlts, ParseSet, ShowAlts, GoodAlts;
    var c := s[pos];
    if c == OPEN_SET {
      SetParsed(s, pos + 1, npar);
      var r := ParseSet(s, pos + 1, npar);
      assert s[pos..r.pos] == [c] + s[pos + 1..r.pos];
    } else if c == OPEN_PAREN {
      AltsParsed(s, pos + 1, npar + 1);
      var p := ParseAlts(s, pos + 1, npar + 1).pos;
      assert p < |s| && s[p] == CLOSE_PAREN;
      Middle(s, pos, p);
    }
  }

  lemma Middle(s: seq<byte>, pos: nat, p: nat)
    requires pos < p < |s|
    ensures s[pos..p + 1] == [s[pos]] + s[pos + 1..p] + [s[p]]
  {
  }

  lemma SetParsed(s: seq<byte>, pos: nat, npar: nat)
    requires CString(s) && 1 <= pos <= |s| && ParseSet(s, pos, npar).Ok?
    ensures
      var r := ParseSet(s, pos, npar);
      Good(r.tree) && Show(r.tree) == [OPEN_SET] + s[pos..r.pos] && npar == r.npar
  {
    hide SetItems, SetBody, SetFirst;
    var p := SetBody(s, pos);
    var first := SetFirst(s, p);
    SetItemsGood(s, p + |first|, first);
    var r := ParseSet(s, pos, npar);
    assert s[pos..r.pos] == s[pos..p] + s[p..r.pos - 1] + [CLOSE_SET];
  }

  lemma {:induction false} SetItemsGood(s: seq<byte>, p: nat, chars: seq<byte>)
    requires CString(s) && CString(chars) && 1 <= p <= |s|
    ensures SetItems(s, p, chars).Ok? ==> CString(SetItems(s, p, chars).tree)
    decreases |s| - p
  {
    var c := At(s, p);
    if c == CLOSE_SET || p == |s| {
    } else if c == DASH {
      var lo: nat, d := s[p - 1], At(s, p + 1);
      if p + 1 < |s| {
        if d == CLOSE_SET {
          SetItemsGood(s, p + 1, chars + [DASH]);
        } else if lo <= d {
          SpanNonzero(lo + 1, d);
          SetItemsGood(s, p + 2, chars + Span(lo + 1, d));
        }
      }
    } else {
      SetItemsGood(s, p + 1, chars + [c]);
    }
  }

  lemma SpanNonzero(lo: nat, hi: nat)
    requires 1 <= lo && hi < 256
    ensures CString(Span(lo, hi))
  {
    var r := Span(lo, hi);
    forall i | 0 <= i < |r| ensures r[i] != 0 { assert r[i] in r; }
  }

  /** What the parser reads is the text of the tree it gives, and the tree is
      well formed. */
  lemma ParseShows(s: seq<byte>)
    requires CString(s) && Parse(s).Ok?
    ensures ShowAlts(Parse(s).tree) == s && GoodAlts(Parse(s).tree)
  {
    AltsParsed(s, 0, 1);
    assert s[0..|s|] == s;
  }
}
