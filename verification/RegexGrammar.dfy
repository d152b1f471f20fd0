/** The patterns that regcomp accepts, without its descent: the printed forms of
    canonical trees. */
module RegexGrammar {
  import opened Common
  import opened RegexSyntax

  // ----------------------------------------------------------- canonical trees

  predicate PlainChar(c: byte) {
    c != 0 && !IsMeta(c)
  }

  /** A string of ordinary characters. */
  predicate IsPlain(x: Re) {
    x.Str? && !x.escaped
  }

  /** How many pairs of parentheses there are. */
  function Groups(x: Re): nat {
    match x
    case Group(_, alts) => 1 + AltsGroups(alts)
    case Star(y) => Groups(y)
    case Plus(y) => Groups(y)
    case Opt(y) => Groups(y)
    case _ => 0
  }

  function BranchGroups(b: Branch): nat {
    if b.Nil? then 0 else Groups(b.p) + BranchGroups(b.rest)
  }

  function AltsGroups(a: Alts): nat {
    BranchGroups(a.b) + if a.Or? then AltsGroups(a.rest) else 0
  }

  /** The characters that the text of a set lists from its k-th on: themselves,
      ranges that begin with the character before the dash, and a dash that
      comes last. */
  function Listed(text: seq<byte>, k: nat): Option<seq<byte>>
    requires 1 <= k <= |text|
    decreases |text| - k
  {
    if k == |text| then Some([])
    else if text[k] == CLOSE_SET then None
    else if text[k] != DASH then Join([text[k]], Listed(text, k + 1))
    else if k + 1 == |text| then Some([DASH])
    else
      var lo: nat := text[k - 1];
      if text[k + 1] == CLOSE_SET || lo > text[k + 1] then None
      else Join(Span(lo + 1, text[k + 1]), Listed(text, k + 2))
  }

  function Join(chars: seq<byte>, rest: Option<seq<byte>>): Option<seq<byte>> {
    if rest.None? then None else Some(chars + rest.value)
  }

  /** The first character stands for itself, whatever it is. */
  ghost predicate CanonSet(negate: bool, text: seq<byte>, chars: seq<byte>) {
    && text != [] && CString(text) && (negate || text[0] != CARET)
    && Join([text[0]], Listed(text, 1)) == Some(chars)
  }

  /** Not a repetition; its parentheses are numbered from `no` on. */
  ghost predicate CanonAtom(x: Re, no: nat)
    decreases x, 0
  {
    match x
    case Set(negate, text, chars) => CanonSet(negate, text, chars)
    case Str(chars, true) => |chars| == 1 && chars[0] != 0
    case Str(chars, false) => chars != [] && forall i :: 0 <= i < |chars| ==> PlainChar(chars[i])
    case Group(n, alts) => n == no < NSUBEXP && CanonAlts(alts, no + 1)
    case Star(_) => false
    case Plus(_) => false
    case Opt(_) => false
    case _ => true
  }

  /** A repetition is of something with width, but for `?`, and of one character
      of a string. */
  ghost predicate CanonPiece(x: Re, no: nat)
    decreases x, 1
  {
    match x
    case Star(y) => CanonAtom(y, no) && HasWidth(y) && Single(y)
    case Plus(y) => CanonAtom(y, no) && HasWidth(y) && Single(y)
    case Opt(y) => CanonAtom(y, no) && Single(y)
    case _ => CanonAtom(x, no)
  }

  predicate Single(x: Re) {
    IsPlain(x) ==> |x.chars| == 1
  }

  /** Ordinary characters are gathered: no two strings of them in a row. */
  ghost predicate CanonBranch(b: Branch, no: nat)
    decreases b, 2
  {
    b.Cons? ==>
      && CanonPiece(b.p, no) && CanonBranch(b.rest, no + Groups(b.p))
      && !(IsPlain(b.p) && b.rest.Cons? && IsPlain(b.rest.p))
  }

  ghost predicate CanonAlts(a: Alts, no: nat)
    decreases a, 3
  {
    CanonBranch(a.b, no) && (a.Or? ==> CanonAlts(a.rest, no + BranchGroups(a.b)))
  }

  // ------------------------------------------------------------- reading them

  /** The text `t` stands in `s` at `pos`. */
  predicate Stands(s: seq<byte>, pos: nat, t: seq<byte>) {
    pos + |t| <= |s| && s[pos..pos + |t|] == t
  }

  lemma StandsIn(s: seq<byte>, pos: nat, a: seq<byte>, b: seq<byte>)
    requires Stands(s, pos, a + b)
    ensures Stands(s, pos, a) && Stands(s, pos + |a|, b) && pos + |a| + |b| <= |s|
  {
    assert s[pos..pos + |a|] == (a + b)[..|a|];
    assert s[pos + |a|..pos + |a| + |b|] == (a + b)[|a|..];
  }

  lemma StandsChar(s: seq<byte>, pos: nat, c: byte)
    requires Stands(s, pos, [c])
    ensures pos < |s| && s[pos] == c
  {
    assert s[pos] == s[pos..pos + 1][0];
  }

  lemma StandsHead(s: seq<byte>, pos: nat, t: seq<byte>)
    requires Stands(s, pos, t) && t != []
    ensures pos < |s| && s[pos] == t[0]
  {
    assert s[pos] == s[pos..pos + |t|][0];
  }

  lemma {:induction false} PlainIs(s: seq<byte>, i: nat, n: nat)
    requires i + n <= |s| && (forall k :: i <= k < i + n ==> PlainChar(s[k])) && (i + n == |s| || !PlainChar(s[i + n]))
    ensures Plain(s, i) == n
    decreases n
  {
    if n > 0 { PlainIs(s, i + 1, n - 1); }
  }

  /** What may stand behind a string of `n` ordinary characters that end at `e`. */
  predicate Cut(s: seq<byte>, e: nat, n: nat) {
    || e == |s|
    || (e < |s| && !PlainChar(s[e]) && (n == 1 || !IsMult(s[e])))
    || (e + 1 < |s| && PlainChar(s[e]) && IsMult(s[e + 1]))
  }

  lemma PlainRead(s: seq<byte>, pos: nat, n: nat)
    requires 1 <= n && pos + n <= |s| && (forall k :: pos <= k < pos + n ==> PlainChar(s[k])) && Cut(s, pos + n, n)
    ensures PlainChar(s[pos]) && PlainRun(s, pos) == n
  {
    if pos + n < |s| && PlainChar(s[pos + n]) {
      PlainIs(s, pos, n + 1);
    } else {
      PlainIs(s, pos, n);
    }
  }

  /** The text of a set stands in `s` at `pos`, with its bracket. */
  ghost predicate Enclosed(s: seq<byte>, pos: nat, text: seq<byte>) {
    && pos + |text| < |s| && s[pos + |text|] == CLOSE_SET
    && forall j :: 0 <= j < |text| ==> s[pos + j] == text[j]
  }

  lemma EnclosedStands(s: seq<byte>, pos: nat, text: seq<byte>)
    requires Stands(s, pos, text + [CLOSE_SET])
    ensures Enclosed(s, pos, text)
  {
    StandsIn(s, pos, text, [CLOSE_SET]);
    StandsChar(s, pos + |text|, CLOSE_SET);
    forall j | 0 <= j < |text| ensures s[pos + j] == text[j] { assert s[pos..pos + |text|][j] == text[j]; }
  }

  lemma Ordinary(s: seq<byte>, p: nat, chars: seq<byte>)
    requires 1 <= p < |s| && s[p] != CLOSE_SET && s[p] != DASH && s[p] != 0
    ensures SetItems(s, p, chars) == SetItems(s, p + 1, chars + [s[p]])
  {
  }

  lemma LastDash(s: seq<byte>, p: nat, chars: seq<byte>)
    requires 1 <= p && p + 1 < |s| && s[p] == DASH && s[p + 1] == CLOSE_SET
    ensures SetItems(s, p, chars) == Ok(chars + [DASH], p + 1, 0)
  {
    assert SetItems(s, p + 1, chars + [DASH]) == Ok(chars + [DASH], p + 1, 0);
  }

  lemma RangeTo(s: seq<byte>, p: nat, lo: nat, chars: seq<byte>)
    requires 1 <= p && p + 1 < |s| && s[p] == DASH && s[p + 1] != CLOSE_SET && s[p + 1] != 0
    requires lo == s[p - 1] <= s[p + 1]
    ensures SetItems(s, p, chars) == SetItems(s, p + 2, chars + Span(lo + 1, s[p + 1]))
  {
  }

  lemma Joined(a: seq<byte>, b: seq<byte>, c: seq<byte>)
    ensures a + b + c == a + (b + c)
  {
  }

  lemma {:induction false} ItemsRead(s: seq<byte>, pos: nat, text: seq<byte>, k: nat, chars: seq<byte>)
    requires 1 <= k <= |text| && CString(text) && Listed(text, k).Some? && Enclosed(s, pos, text)
    ensures SetItems(s, pos + k, chars) == Ok(chars + Listed(text, k).value, pos + |text|, 0)
    decreases |text| - k
  {
    hide SetItems, Span;
    var p := pos + k;
    assert s[p - 1] == text[k - 1];
    if k == |text| {
      assert chars + [] == chars;
      AtBracket(s, p, chars);
    } else if text[k] != DASH {
      Ordinary(s, p, chars);
      ItemsRead(s, pos, text, k + 1, chars + [text[k]]);
      Joined(chars, [text[k]], Listed(text, k + 1).value);
    } else if k + 1 == |text| {
      LastDash(s, p, chars);
    } else {
      var lo: nat := text[k - 1];
      assert s[p + 1] == text[k + 1];
      RangeTo(s, p, lo, chars);
      ItemsRead(s, pos, text, k + 2, chars + Span(lo + 1, text[k + 1]));
      Joined(chars, Span(lo + 1, text[k + 1]), Listed(text, k + 2).value);
    }
  }

  lemma AtBracket(s: seq<byte>, p: nat, chars: seq<byte>)
    requires 1 <= p < |s| && s[p] == CLOSE_SET
    ensures SetItems(s, p, chars) == Ok(chars, p, 0)
  {
  }

  lemma SetRead(s: seq<byte>, pos: nat, negate: bool, text: seq<byte>, chars: seq<byte>, npar: nat)
    requires CanonSet(negate, text, chars) && 1 <= pos <= |s|
    requires Stands(s, pos, (if negate then [CARET] else []) + (text + [CLOSE_SET]))
    ensures ParseSet(s, pos, npar) == Ok(Set(negate, text, chars), pos + (if negate then 1 else 0) + |text| + 1, npar)
  {
    hide Listed, SetItems, SetFirst, SetBody, Stands, CString;
    var p := pos + if negate then 1 else 0;
    StandsIn(s, pos, if negate then [CARET] else [], text + [CLOSE_SET]);
    EnclosedStands(s, p, text);
    assert text[0] != 0 && s[p + 0] == text[0] by { FirstNonzero(text); }
    if negate { StandsChar(s, pos, CARET); }
    BodyAt(s, pos, negate);
    FirstTaken(s, p);
    ItemsRead(s, p, text, 1, [text[0]]);
    SetText(s, p, text);
  }

  lemma FirstNonzero(text: seq<byte>)
    requires text != [] && CString(text)
    ensures text[0] != 0
  {
  }

  lemma BodyAt(s: seq<byte>, pos: nat, negate: bool)
    requires pos < |s| && negate == (s[pos] == CARET)
    ensures SetBody(s, pos) == pos + if negate then 1 else 0
  {
  }

  lemma SetText(s: seq<byte>, p: nat, text: seq<byte>)
    requires Enclosed(s, p, text)
    ensures s[p..p + |text|] == text
  {
  }

  /** The first character of a set is taken as it is. */
  lemma FirstTaken(s: seq<byte>, p: nat)
    requires 1 <= p < |s| && s[p] != 0
    ensures SetItems(s, p + |SetFirst(s, p)|, SetFirst(s, p)) == SetItems(s, p + 1, [s[p]])
  {
    hide SetItems;
    if s[p] != CLOSE_SET && s[p] != DASH {
      Ordinary(s, p, []);
      assert [] + [s[p]] == [s[p]];
    }
  }

  /** What a piece begins with. */
  lemma Starts(x: Re, no: nat)
    requires CanonPiece(x, no)
    ensures Show(x) != [] && Show(x)[0] != 0 && !EndsBranch(Show(x)[0]) && !IsMult(Show(x)[0])
    ensures !IsPlain(x) ==> IsMeta(Show(x)[0]) || (|Show(x)| == 2 && PlainChar(Show(x)[0]) && IsMult(Show(x)[1]))
  {
    hide ShowAlts, CanonAlts, CanonSet;
    AtomStarts(if x.Star? || x.Plus? || x.Opt? then x.x else x, no);
  }

  lemma AtomStarts(x: Re, no: nat)
    requires CanonAtom(x, no)
    ensures Show(x) != [] && !EndsBranch(Show(x)[0]) && !IsMult(Show(x)[0])
    ensures if IsPlain(x) then PlainChar(Show(x)[0]) && |Show(x)| == |x.chars| else IsMeta(Show(x)[0])
  {
    hide ShowAlts, CanonAlts, CanonSet;
    if IsPlain(x) {
      assert [] + x.chars == x.chars;
      assert PlainChar(x.chars[0]);
    }
  }

  lemma {:induction false} AtomRead(s: seq<byte>, pos: nat, x: Re, no: nat)
    requires CanonAtom(x, no) && Stands(s, pos, Show(x)) && (IsPlain(x) ==> Cut(s, pos + |Show(x)|, |x.chars|))
    ensures pos < |s| && ParseAtom(s, pos, no) == Ok(x, pos + |Show(x)|, no + Groups(x))
    decreases x, 0
  {
    hide ParseAlts, ParseAtom, ParseSet, ShowAlts, CanonAlts, CanonSet, Cut, PlainRun, Stands;
    match x
    case Bol => OneRead(s, pos, x, CARET, no);
    case Eol => OneRead(s, pos, x, DOLLAR, no);
    case Any => OneRead(s, pos, x, DOT, no);
    case Set(negate, text, chars) => SetAtomRead(s, pos, negate, text, chars, no);
    case Str(chars, escaped) => StrRead(s, pos, chars, escaped, no);
    case Group(n, alts) =>
      GroupShown(s, pos, n, alts);
      AltsRead(s, pos + 1, alts, no + 1);
      GroupRead(s, pos, n, alts, no);
  }

  lemma OneRead(s: seq<byte>, pos: nat, x: Re, c: byte, no: nat)
    requires (x.Bol? && c == CARET) || (x.Eol? && c == DOLLAR) || (x.Any? && c == DOT)
    requires Stands(s, pos, [c])
    ensures pos < |s| && ParseAtom(s, pos, no) == Ok(x, pos + 1, no)
  {
    hide ParseAlts, ParseSet, PlainRun, Stands;
    StandsChar(s, pos, c);
  }

  lemma SetAtomRead(s: seq<byte>, pos: nat, negate: bool, text: seq<byte>, chars: seq<byte>, no: nat)
    requires CanonAtom(Set(negate, text, chars), no) && Stands(s, pos, Show(Set(negate, text, chars)))
    ensures
      var x := Set(negate, text, chars); pos < |s| && ParseAtom(s, pos, no) == Ok(x, pos + |Show(x)|, no)
  {
    hide ParseAlts, ParseSet, CanonSet, PlainRun, Stands;
    var inside := (if negate then [CARET] else []) + (text + [CLOSE_SET]);
    assert Show(Set(negate, text, chars)) == [OPEN_SET] + inside;
    StandsIn(s, pos, [OPEN_SET], inside);
    StandsChar(s, pos, OPEN_SET);
    SetRead(s, pos + 1, negate, text, chars, no);
  }

  lemma GroupShown(s: seq<byte>, pos: nat, n: nat, alts: Alts)
    requires Stands(s, pos, Show(Group(n, alts)))
    ensures |Show(Group(n, alts))| == |ShowAlts(alts)| + 2 && Stands(s, pos + 1, ShowAlts(alts))
    ensures At(s, pos) == OPEN_PAREN && At(s, pos + 1 + |ShowAlts(alts)|) == CLOSE_PAREN
    ensures pos + 1 + |ShowAlts(alts)| < |s|
  {
    hide Stands, ShowAlts;
    Joined([OPEN_PAREN], ShowAlts(alts), [CLOSE_PAREN]);
    StandsIn(s, pos, [OPEN_PAREN], ShowAlts(alts) + [CLOSE_PAREN]);
    StandsIn(s, pos + 1, ShowAlts(alts), [CLOSE_PAREN]);
    StandsChar(s, pos, OPEN_PAREN);
    StandsChar(s, pos + 1 + |ShowAlts(alts)|, CLOSE_PAREN);
  }

  lemma GroupRead(s: seq<byte>, pos: nat, n: nat, alts: Alts, no: nat)
    requires CanonAtom(Group(n, alts), no) && Stands(s, pos, Show(Group(n, alts)))
    requires ParseAlts(s, pos + 1, no + 1) == Ok(alts, pos + 1 + |ShowAlts(alts)|, no + 1 + AltsGroups(alts))
    ensures
      var x := Group(n, alts); pos < |s| && ParseAtom(s, pos, no) == Ok(x, pos + |Show(x)|, no + Groups(x))
  {
    hide ParseAlts, ShowAlts, CanonAlts, Stands;
    GroupShown(s, pos, n, alts);
  }

  lemma StrRead(s: seq<byte>, pos: nat, chars: seq<byte>, escaped: bool, no: nat)
    requires CanonAtom(Str(chars, escaped), no) && Stands(s, pos, Show(Str(chars, escaped)))
    requires !escaped ==> Cut(s, pos + |Show(Str(chars, escaped))|, |chars|)
    ensures pos < |s| && ParseAtom(s, pos, no) == Ok(Str(chars, escaped), pos + |Show(Str(chars, escaped))|, no)
  {
    hide ParseAlts, ParseSet, Cut, PlainRun;
    if escaped {
      StandsIn(s, pos, [BACKSLASH], chars);
      StandsChar(s, pos, BACKSLASH);
      assert chars == [chars[0]];
      StandsChar(s, pos + 1, chars[0]);
    } else {
      assert [] + chars == chars;
      forall k | pos <= k < pos + |chars| ensures PlainChar(s[k]) {
        assert s[k] == s[pos..pos + |chars|][k - pos] == chars[k - pos];
      }
      PlainRead(s, pos, |chars|);
    }
  }

  lemma {:induction false} PieceRead(s: seq<byte>, pos: nat, x: Re, no: nat)
    requires CanonPiece(x, no) && Stands(s, pos, Show(x)) && !IsMult(At(s, pos + |Show(x)|))
    requires IsPlain(x) ==> Cut(s, pos + |Show(x)|, |x.chars|)
    ensures pos < |s| && ParsePiece(s, pos, no) == Ok(x, pos + |Show(x)|, no + Groups(x))
    decreases x, 1
  {
    hide ParseAtom, CanonAtom;
    if x.Star? || x.Plus? || x.Opt? {
      var op := if x.Star? then STAR_SIGN else if x.Plus? then PLUS_SIGN else QUESTION;
      var e := pos + |Show(x.x)|;
      assert Show(x) == Show(x.x) + [op];
      StandsIn(s, pos, Show(x.x), [op]);
      StandsChar(s, e, op);
      AtomRead(s, pos, x.x, no);
    } else {
      AtomRead(s, pos, x, no);
    }
  }

  predicate BranchEnd(s: seq<byte>, e: nat) {
    e == |s| || (e < |s| && (s[e] == BAR || s[e] == CLOSE_PAREN))
  }

  lemma {:induction false} BranchRead(s: seq<byte>, pos: nat, b: Branch, no: nat)
    requires CanonBranch(b, no) && Stands(s, pos, ShowBranch(b)) && BranchEnd(s, pos + |ShowBranch(b)|)
    ensures ParseBranch(s, pos, no) == Ok(b, pos + |ShowBranch(b)|, no + BranchGroups(b))
    decreases b, 2
  {
    hide ParseBranch, ParsePiece, CanonPiece, Show, Cut, IsMult, IsMeta, PlainChar, EndsBranch, BranchEnd, IsPlain,
         Stands, Groups;
    if b.Cons? {
      var e := pos + |Show(b.p)|;
      StandsIn(s, pos, Show(b.p), ShowBranch(b.rest));
      Behind(s, e, b, no);
      PieceRead(s, pos, b.p, no);
      BranchRead(s, e, b.rest, no + Groups(b.p));
      Starts(b.p, no);
      StandsHead(s, pos, Show(b.p));
      OnePiece(s, pos, no);
    } else {
      NoPiece(s, pos, no);
    }
  }

  lemma OnePiece(s: seq<byte>, pos: nat, no: nat)
    requires pos < |s| && !EndsBranch(s[pos]) && ParsePiece(s, pos, no).Ok?
    ensures
      var x := ParsePiece(s, pos, no); var rest := ParseBranch(s, x.pos, x.npar);
      rest.Ok? ==> ParseBranch(s, pos, no) == Ok(Cons(x.tree, rest.tree), rest.pos, rest.npar)
  {
    hide ParsePiece;
  }

  lemma NoPiece(s: seq<byte>, pos: nat, no: nat)
    requires BranchEnd(s, pos)
    ensures pos <= |s| && ParseBranch(s, pos, no) == Ok(Nil, pos, no)
  {
    hide ParsePiece;
  }

  /** What stands behind the first piece of a branch. */
  lemma Behind(s: seq<byte>, e: nat, b: Branch, no: nat)
    requires b.Cons? && CanonBranch(b, no) && Stands(s, e, ShowBranch(b.rest)) && BranchEnd(s, e + |ShowBranch(b.rest)|)
    ensures !IsMult(At(s, e)) && (IsPlain(b.p) ==> Cut(s, e, |b.p.chars|))
  {
    hide CanonPiece, Show;
    if b.rest.Cons? {
      var x := b.rest.p;
      StandsIn(s, e, Show(x), ShowBranch(b.rest.rest));
      Starts(x, no + Groups(b.p));
      assert s[e] == s[e..e + |Show(x)|][0];
      assert |Show(x)| == 2 ==> s[e + 1] == s[e..e + |Show(x)|][1];
    }
  }

  lemma {:induction false} AltsRead(s: seq<byte>, pos: nat, a: Alts, no: nat)
    requires CanonAlts(a, no) && Stands(s, pos, ShowAlts(a))
    requires var e := pos + |ShowAlts(a)|; e == |s| || s[e] == CLOSE_PAREN
    ensures ParseAlts(s, pos, no) == Ok(a, pos + |ShowAlts(a)|, no + AltsGroups(a))
    decreases a, 3
  {
    assert pos + |ShowAlts(a)| <= |s|;
    hide ParseAlts, CanonBranch, Stands, ShowBranch, AltsGroups;
    if a.One? {
      BranchRead(s, pos, a.b, no);
      LastBranch(s, pos, no);
      assert AltsGroups(a) == BranchGroups(a.b) by { GroupsSum(a); }
    } else {
      OrRead(s, pos, a, no);
    }
  }

  lemma GroupsSum(a: Alts)
    ensures AltsGroups(a) == BranchGroups(a.b) + if a.Or? then AltsGroups(a.rest) else 0
  {
  }

  lemma {:induction false} OrRead(s: seq<byte>, pos: nat, a: Alts, no: nat)
    requires CanonAlts(a, no) && Stands(s, pos, ShowAlts(a)) && a.Or?
    requires var e := pos + |ShowAlts(a)|; e == |s| || s[e] == CLOSE_PAREN
    ensures ParseAlts(s, pos, no) == Ok(a, pos + |ShowAlts(a)|, no + AltsGroups(a))
    decreases a, 2
  {
    hide ParseAlts, ParseBranch, CanonBranch, Stands, ShowAlts, ShowBranch, AltsGroups, BranchGroups;
    OrStands(s, pos, a);
    BranchRead(s, pos, a.b, no);
    AltsRead(s, pos + |ShowBranch(a.b)| + 1, a.rest, no + BranchGroups(a.b));
    OneBranch(s, pos, no);
    GroupsSum(a);
  }

  lemma OrStands(s: seq<byte>, pos: nat, a: Alts)
    requires a.Or? && Stands(s, pos, ShowAlts(a))
    ensures
      var e := pos + |ShowBranch(a.b)|;
      && Stands(s, pos, ShowBranch(a.b)) && e < |s| && s[e] == BAR && Stands(s, e + 1, ShowAlts(a.rest))
      && pos + |ShowAlts(a)| == e + 1 + |ShowAlts(a.rest)|
  {
    hide Stands, ShowBranch;
    var e := pos + |ShowBranch(a.b)|;
    Joined(ShowBranch(a.b), [BAR], ShowAlts(a.rest));
    StandsIn(s, pos, ShowBranch(a.b), [BAR] + ShowAlts(a.rest));
    StandsIn(s, e, [BAR], ShowAlts(a.rest));
    StandsChar(s, e, BAR);
  }

  lemma LastBranch(s: seq<byte>, pos: nat, no: nat)
    requires pos <= |s| && ParseBranch(s, pos, no).Ok?
    ensures
      var b := ParseBranch(s, pos, no);
      b.pos == |s| || s[b.pos] != BAR ==> ParseAlts(s, pos, no) == Ok(One(b.tree), b.pos, b.npar)
  {
    hide ParseBranch;
  }

  lemma OneBranch(s: seq<byte>, pos: nat, no: nat)
    requires pos <= |s| && ParseBranch(s, pos, no).Ok?
    ensures
      var b := ParseBranch(s, pos, no);
      b.pos < |s| && s[b.pos] == BAR && ParseAlts(s, b.pos + 1, b.npar).Ok? ==>
        var rest := ParseAlts(s, b.pos + 1, b.npar);
        ParseAlts(s, pos, no) == Ok(Or(b.tree, rest.tree), rest.pos, rest.npar)
  {
    hide ParseBranch;
  }

  /** The text of a canonical tree is read as that tree. */
  lemma ShowParses(a: Alts)
    requires CanonAlts(a, 1)
    ensures Parse(ShowAlts(a)) == Ok(a, |ShowAlts(a)|, 1 + AltsGroups(a))
  {
    hide ParseAlts, CanonAlts;
    var s := ShowAlts(a);
    assert s[0..|s|] == s;
    AltsRead(s, 0, a, 1);
  }

  // ------------------------------------------- and nothing but them is read

  /** The items of a set list what its text says. */
  lemma {:induction false} ItemsListed(s: seq<byte>, pos: nat, p: nat, chars: seq<byte>)
    requires CString(s) && pos < p <= |s| && SetItems(s, p, chars).Ok?
    ensures
      var r := SetItems(s, p, chars); var rest := Listed(s[pos..r.pos], p - pos);
      p <= r.pos && rest.Some? && r.tree == chars + rest.value
    decreases |s| - p
  {
    hide Span;
    var r := SetItems(s, p, chars);
    var text, k := s[pos..r.pos], p - pos;
    if s[p] == CLOSE_SET {
      assert chars + [] == chars;
    } else if s[p] != DASH {
      ItemsListed(s, pos, p + 1, chars + [s[p]]);
      assert text[k] == s[p];
      Joined(chars, [s[p]], Listed(text, k + 1).value);
    } else if s[p + 1] == CLOSE_SET {
      LastDash(s, p, chars);
      assert text[k] == DASH && |text| == k + 1;
    } else {
      var lo: nat := s[p - 1];
      ItemsListed(s, pos, p + 2, chars + Span(lo + 1, s[p + 1]));
      assert text[k - 1] == s[p - 1] && text[k] == s[p] && text[k + 1] == s[p + 1];
      Joined(chars, Span(lo + 1, s[p + 1]), Listed(text, k + 2).value);
    }
  }

  lemma SetCanon(s: seq<byte>, pos: nat, npar: nat)
    requires CString(s) && 1 <= pos <= |s| && ParseSet(s, pos, npar).Ok?
    ensures var r := ParseSet(s, pos, npar); CanonSet(r.tree.negate, r.tree.text, r.tree.chars) && r.npar == npar
  {
    hide Listed, SetItems, Join;
    var p := SetBody(s, pos);
    var r := ParseSet(s, pos, npar);
    FirstListed(s, p);
    ItemsListed(s, p, p + 1, [s[p]]);
    var text := s[p..r.pos - 1];
    assert text[0] == s[p];
    assert Join([text[0]], Listed(text, 1)) == Some(r.tree.chars) by { JoinSome([text[0]], Listed(text, 1)); }
  }

  lemma JoinSome(chars: seq<byte>, rest: Option<seq<byte>>)
    ensures rest.Some? ==> Join(chars, rest) == Some(chars + rest.value)
  {
  }

  /** The first character is listed in any case. */
  lemma FirstListed(s: seq<byte>, p: nat)
    requires CString(s) && 1 <= p <= |s| && SetItems(s, p + |SetFirst(s, p)|, SetFirst(s, p)).Ok?
    ensures p < |s| && SetItems(s, p + |SetFirst(s, p)|, SetFirst(s, p)) == SetItems(s, p + 1, [s[p]])
  {
    hide SetItems;
    if p == |s| { NotClosed(s, []); } else { FirstTaken(s, p); }
  }

  lemma NotClosed(s: seq<byte>, chars: seq<byte>)
    requires 1 <= |s|
    ensures SetItems(s, |s|, chars) == Fail
  {
  }

  lemma PlainCut(s: seq<byte>, pos: nat)
    requires CString(s) && pos < |s| && PlainChar(s[pos])
    ensures var n := PlainRun(s, pos); Cut(s, pos + n, n) && forall k :: pos <= k < pos + n ==> PlainChar(s[k])
  {
  }

  lemma AllPlain(chars: seq<byte>, s: seq<byte>, pos: nat)
    requires Stands(s, pos, chars) && forall k :: pos <= k < pos + |chars| ==> PlainChar(s[k])
    ensures forall i :: 0 <= i < |chars| ==> PlainChar(chars[i])
  {
    forall i | 0 <= i < |chars| ensures PlainChar(chars[i]) { assert s[pos..pos + |chars|][i] == s[pos + i]; }
  }

  /** What is known of a string that was read. */
  predicate ReadPlain(s: seq<byte>, pos: nat, r: Parsed<Re>)
    requires pos < |s| && r.Ok?
  {
    IsPlain(r.tree) ==>
      PlainChar(s[pos]) && Cut(s, r.pos, |r.tree.chars|) && (|r.tree.chars| == 1 || !IsMult(At(s, pos + 1)))
  }

  lemma {:induction false} AtomCanon(s: seq<byte>, pos: nat, npar: nat)
    requires CString(s) && pos < |s| && 1 <= npar && ParseAtom(s, pos, npar).Ok?
    ensures
      var r := ParseAtom(s, pos, npar);
      CanonAtom(r.tree, npar) && r.npar == npar + Groups(r.tree) && ReadPlain(s, pos, r)
      && (IsPlain(r.tree) ==> r.pos == pos + |r.tree.chars|)
    decreases |s| - pos, 0
  {
    hide ParseAlts, ParseSet, CanonAlts, CanonSet, Cut, PlainRun;
    var c := s[pos];
    if c == OPEN_SET {
      SetCanon(s, pos + 1, npar);
    } else if c == OPEN_PAREN {
      AltsCanon(s, pos + 1, npar + 1);
    } else if PlainChar(c) {
      PlainCut(s, pos);
      var n := PlainRun(s, pos);
      AllPlain(s[pos..pos + n], s, pos);
      assert n > 1 ==> PlainChar(s[pos + 1]);
    }
  }

  lemma {:induction false} PieceCanon(s: seq<byte>, pos: nat, npar: nat)
    requires CString(s) && pos < |s| && 1 <= npar && ParsePiece(s, pos, npar).Ok?
    ensures
      var r := ParsePiece(s, pos, npar);
      CanonPiece(r.tree, npar) && r.npar == npar + Groups(r.tree) && ReadPlain(s, pos, r)
      && (IsPlain(r.tree) ==> !IsMult(At(s, pos + 1)))
    decreases |s| - pos, 1
  {
    hide ParseAtom, CanonAtom, Cut;
    AtomCanon(s, pos, npar);
    AtomParsed(s, pos, npar);
    NotRepeated(s, pos, npar);
  }

  lemma NotRepeated(s: seq<byte>, pos: nat, npar: nat)
    requires CString(s) && pos < |s| && 1 <= npar && ParseAtom(s, pos, npar).Ok?
    ensures var x := ParseAtom(s, pos, npar).tree; CanonAtom(x, npar) ==> CanonPiece(x, npar)
  {
    hide ParseAtom, CanonAlts, CanonSet;
    AtomParsed(s, pos, npar);
  }

  lemma {:induction false} BranchCanon(s: seq<byte>, pos: nat, npar: nat)
    requires CString(s) && pos <= |s| && 1 <= npar && ParseBranch(s, pos, npar).Ok?
    ensures
      var r := ParseBranch(s, pos, npar);
      && CanonBranch(r.tree, npar) && r.npar == npar + BranchGroups(r.tree)
      && (r.tree.Cons? && IsPlain(r.tree.p) ==> pos < |s| && PlainChar(s[pos]) && !IsMult(At(s, pos + 1)))
    decreases |s| - pos, 2
  {
    hide ParsePiece, CanonPiece;
    if !EndsBranch(At(s, pos)) {
      PieceCanon(s, pos, npar);
      var x := ParsePiece(s, pos, npar);
      BranchCanon(s, x.pos, x.npar);
    }
  }

  lemma {:induction false} AltsCanon(s: seq<byte>, pos: nat, npar: nat)
    requires CString(s) && pos <= |s| && 1 <= npar && ParseAlts(s, pos, npar).Ok?
    ensures var r := ParseAlts(s, pos, npar); CanonAlts(r.tree, npar) && r.npar == npar + AltsGroups(r.tree)
    decreases |s| - pos, 3
  {
    hide ParseBranch, CanonBranch, CString;
    BranchCanon(s, pos, npar);
    var b := ParseBranch(s, pos, npar);
    if At(s, b.pos) == BAR && b.pos < |s| { AltsCanon(s, b.pos + 1, b.npar); }
  }

  /** A pattern is accepted if and only if it is the text of a canonical tree,
      and that tree is the one it is read as. */
  lemma AcceptsExactly(s: seq<byte>, a: Alts)
    requires CString(s)
    ensures Parse(s).Ok? && Parse(s).tree == a <==> CanonAlts(a, 1) && ShowAlts(a) == s
  {
    hide Parse, CanonAlts, ShowAlts;
    if Parse(s).Ok? {
      ParseShows(s);
      ParseCanon(s);
    }
    if CanonAlts(a, 1) { ShowParses(a); }
  }

  lemma ParseCanon(s: seq<byte>)
    requires CString(s) && Parse(s).Ok?
    ensures CanonAlts(Parse(s).tree, 1)
  {
    AltsCanon(s, 0, 1);
  }
}
