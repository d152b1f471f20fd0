/** How the code of *, + and ? is put together around that of their operand. */
module RegexBuild {
  import opened Common
  import opened RegexSyntax
  import opened RegexCode
  import opened RegexEmit

  // ------------------------------------------------- what a change leaves alone

  lemma AddNode(code: seq<byte>, op: byte)
    ensures Node(code + [op, 0, 0], |code|, op, |code|)
  {
  }

  lemma AddPrefix(code: seq<byte>, more: seq<byte>, n: nat)
    requires n <= |code|
    ensures (code + more)[..n] == code[..n]
  {
  }

  lemma InsertPrefix(code: seq<byte>, p: nat, op: byte)
    requires p <= |code|
    ensures |Inserted(code, p, op)| == |code| + 3 && Inserted(code, p, op)[..p] == code[..p]
  {
  }

  lemma AddKeepsNode(code: seq<byte>, more: seq<byte>, p: nat, op: byte, target: int)
    requires Node(code, p, op, target)
    ensures Node(code + more, p, op, target)
  {
  }

  lemma AddSame(code: seq<byte>, more: seq<byte>, at: nat, n: nat)
    requires at + n <= |code|
    ensures Same(code, at, code + more, at, n)
  {
    assert (code + more)[at..at + n] == code[at..at + n];
  }

  lemma AddKeeps(code: seq<byte>, more: seq<byte>, at: nat, x: Re, out: int)
    requires Laid(code, at, x, out)
    ensures Laid(code + more, at, x, out)
  {
    hide Same, Size;
    LaidEnd(code, at, x, out);
    AddSame(code, more, at, Size(x));
    Move(code, at, code + more, at, x, out);
  }

  lemma InsertNode(code: seq<byte>, p: nat, op: byte)
    requires p <= |code|
    ensures Node(Inserted(code, p, op), p, op, p)
  {
  }

  lemma InsertMoves(code: seq<byte>, p: nat, op: byte, x: Re, out: int)
    requires Laid(code, p, x, out)
    ensures Laid(Inserted(code, p, op), p + 3, x, out + 3)
  {
    hide Size;
    LaidEnd(code, p, x, out);
    var code' := Inserted(code, p, op);
    var n := Size(x);
    assert code'[p + 3..] == code[p..];
    assert code'[p + 3..p + 3 + n] == code'[p + 3..][..n] == code[p..][..n] == code[p..p + n];
    hide Laid;
    assert Same(code, p, code', p + 3, n);
    Move(code, p, code', p + 3, x, out);
  }

  lemma TailedHooks(code: seq<byte>, t: nat, val: nat)
    requires t + 3 <= |code| && code[t] != BACK && t < val < t + REACH
    ensures Tailed(code, t, val) == Hooked(code, t, val)
  {
  }

  lemma TailedBack(code: seq<byte>, t: nat, val: nat)
    requires Node(code, t, BACK, t) && val < t < val + REACH
    ensures Tailed(code, t, val) == Hooked(code, t, t + t - val) && Node(Tailed(code, t, val), t, BACK, val)
  {
    PatchNode(code, t, t - val);
  }

  // ---------------------------------------------------------------- building

  lemma SimpleBuilt(code: seq<byte>, ret: nat, x: Re)
    requires Simple(x) && Laid(code, ret, x, ret)
    ensures Laid(Inserted(code, ret, STAR), ret, Star(x), ret)
    ensures Laid(Inserted(code, ret, PLUS), ret, Plus(x), ret)
  {
    hide Node, Inserted;
    InsertNode(code, ret, STAR);
    InsertMoves(code, ret, STAR, x, ret);
    LaidEnd(Inserted(code, ret, STAR), ret + 3, x, ret + 3);
    InsertNode(code, ret, PLUS);
    InsertMoves(code, ret, PLUS, x, ret);
    LaidEnd(Inserted(code, ret, PLUS), ret + 3, x, ret + 3);
  }

  /** A BRANCH at `ret`, which points to `target`, and x behind it. */
  ghost predicate BranchAnd(code: seq<byte>, ret: nat, target: int, x: Re, out: int) {
    Node(code, ret, BRANCH, target) && Laid(code, ret + 3, x, out)
  }

  lemma BranchInserted(code: seq<byte>, ret: nat, x: Re)
    requires Laid(code, ret, x, ret + Tail(x))
    ensures BranchAnd(Inserted(code, ret, BRANCH), ret, ret, x, ret + 3 + Tail(x))
  {
    hide Node, Laid, Inserted;
    LaidEnd(code, ret, x, ret + Tail(x));
    InsertNode(code, ret, BRANCH);
    InsertMoves(code, ret, BRANCH, x, ret + Tail(x));
  }

  lemma BranchAndAdd(code: seq<byte>, ret: nat, target: int, x: Re, out: int, more: seq<byte>)
    requires BranchAnd(code, ret, target, x, out)
    ensures BranchAnd(code + more, ret, target, x, out)
  {
    hide Node, Laid;
    AddKeepsNode(code, more, ret, BRANCH, target);
    AddKeeps(code, more, ret + 3, x, out);
  }

  /** A node behind x is hooked. */
  lemma BranchAndKeep(code: seq<byte>, ret: nat, target: int, x: Re, out: int, t: nat, val: int)
    requires BranchAnd(code, ret, target, x, out) && ret + 3 + Size(x) <= t && t + 3 <= |code| && t < val < t + REACH
    ensures BranchAnd(Hooked(code, t, val), ret, target, x, out)
  {
    hide Node, Laid, Patch;
    KeepNode(code, t, val, ret, BRANCH, target);
    Keep(code, t, val, ret + 3, x, out);
  }

  /** x is hooked. */
  lemma BranchAndHook(code: seq<byte>, ret: nat, target: int, x: Re, out: int)
    requires BranchAnd(code, ret, target, x, ret + 3 + Tail(x)) && ret + 3 + Tail(x) < out < ret + 3 + Tail(x) + REACH
    ensures ret + 6 + Tail(x) <= |code|
    ensures BranchAnd(Hooked(code, ret + 3 + Tail(x), out), ret, target, x, out)
  {
    hide Node, Laid, Patch;
    LaidEnd(code, ret + 3, x, ret + 3 + Tail(x));
    KeepNode(code, ret + 3 + Tail(x), out, ret, BRANCH, target);
    Hook(code, ret + 3, x, out);
  }

  /** The BRANCH is hooked. */
  lemma BranchAndPoint(code: seq<byte>, ret: nat, x: Re, out: int, val: int)
    requires BranchAnd(code, ret, ret, x, out) && ret < val < ret + REACH
    ensures ret + 3 <= |code|
    ensures BranchAnd(Hooked(code, ret, val), ret, val, x, out)
  {
    NodeEnd(code, ret, BRANCH, ret);
    hide Node, Laid, Patch;
    HookNode(code, ret, BRANCH, val);
    Keep(code, ret, val, ret + 3, x, out);
  }

  lemma HookedPrefix(code: seq<byte>, t: nat, val: int, ret: nat)
    requires t + 3 <= |code| && t < val < t + REACH && ret <= t
    ensures Hooked(code, t, val)[..ret] == code[..ret]
  {
  }

  /** The path through x to the node behind it. */
  lemma PathThrough(code: seq<byte>, at: nat, x: Re, out: nat)
    requires Laid(code, at, x, out) && at + Tail(x) < out
    ensures Path(code, at, out)
  {
    hide Laid, Path;
    TailPath(code, at, x, out);
    TailNext(code, at, x, out);
    PathOut(code, at + Tail(x), out);
    PathJoin(code, at, at + Tail(x), out);
  }

  // -------------------------------------------------------------------- x*

  /** After the operand is hooked on to the BACK. */
  lemma StarStep1(c0: seq<byte>, ret: nat, x: Re)
    requires Laid(c0, ret, x, ret + Tail(x)) && ret + Size(x) == |c0| && |c0| + 12 < MAX_SIZE
    ensures
      var back := ret + 3 + Size(x); var t := ret + 3 + Tail(x);
      var c2 := Inserted(c0, ret, BRANCH) + [BACK, 0, 0];
      && |c2| == back + 3 && t + 3 <= |c2| && Path(c2, ret + 3, t) && RegNext(c2, t) == t && c2[t] != BACK
      && c2[ret] == BRANCH
      && var c3 := Tailed(c2, t, back);
         BranchAnd(c3, ret, ret, x, back) && Node(c3, back, BACK, back) && c3[..ret] == c0[..ret]
  {
    hide Node, Laid, Patch, Path;
    var back, t := ret + 3 + Size(x), ret + 3 + Tail(x);
    var c1 := Inserted(c0, ret, BRANCH);
    var c2 := c1 + [BACK, 0, 0];
    BranchInserted(c0, ret, x);
    BranchAndAdd(c1, ret, ret, x, t, [BACK, 0, 0]);
    AddNode(c1, BACK);
    TailPath(c2, ret + 3, x, t);
    TailNext(c2, ret + 3, x, t);
    NodeIs(c2, ret, BRANCH, ret);
    TailedHooks(c2, t, back);
    BranchAndHook(c2, ret, ret, x, back);
    KeepNode(c2, t, back, back, BACK, back);
    HookedPrefix(c2, t, back, ret);
    InsertPrefix(c0, ret, BRANCH);
    AddPrefix(c1, [BACK, 0, 0], ret);
  }

  lemma NodeIs(code: seq<byte>, p: nat, op: byte, target: int)
    requires Node(code, p, op, target)
    ensures p + 3 <= |code| && code[p] == op && RegNext(code, p) == target
  {
  }

  /** After the BACK points back. */
  lemma StarStep2(c3: seq<byte>, ret: nat, x: Re)
    requires var back := ret + 3 + Size(x);
      BranchAnd(c3, ret, ret, x, back) && Node(c3, back, BACK, back) && |c3| == back + 3 && |c3| + 6 < MAX_SIZE
    ensures
      var back := ret + 3 + Size(x);
      && Path(c3, ret + 3, back) && RegNext(c3, back) == back && c3[back] == BACK && c3[ret] == BRANCH
      && var c5 := Tailed(c3, back, ret) + [BRANCH, 0, 0];
         && BranchAnd(c5, ret, ret, x, back) && Node(c5, back, BACK, ret) && Node(c5, back + 3, BRANCH, back + 3)
         && c5[..ret] == c3[..ret] && Path(c5, ret, ret) && RegNext(c5, ret) == ret && c5[ret] == BRANCH
  {
    hide Node, Laid, Patch, Path;
    var back := ret + 3 + Size(x);
    PathThrough(c3, ret + 3, x, back);
    NodeIs(c3, back, BACK, back);
    NodeIs(c3, ret, BRANCH, ret);
    TailedBack(c3, back, ret);
    var c4 := Tailed(c3, back, ret);
    BranchAndKeep(c3, ret, ret, x, back, back, back + back - ret);
    HookedPrefix(c3, back, back + back - ret, ret);
    BranchAndAdd(c4, ret, ret, x, back, [BRANCH, 0, 0]);
    AddKeepsNode(c4, [BRANCH, 0, 0], back, BACK, ret);
    AddNode(c4, BRANCH);
    var c5 := c4 + [BRANCH, 0, 0];
    PathHere(c5, ret);
    NodeIs(c5, ret, BRANCH, ret);
    AddPrefix(c4, [BRANCH, 0, 0], ret);
  }

  /** After the first BRANCH points to the second. */
  lemma StarStep3(c5: seq<byte>, ret: nat, x: Re)
    requires var back := ret + 3 + Size(x);
      && BranchAnd(c5, ret, ret, x, back) && Node(c5, back, BACK, ret) && Node(c5, back + 3, BRANCH, back + 3)
      && |c5| == back + 6 && |c5| + 3 < MAX_SIZE && ret + 3 <= |c5| && c5[ret] == BRANCH
    ensures
      var back := ret + 3 + Size(x);
      var c7 := Tailed(c5, ret, back + 3) + [NOTHING, 0, 0];
      && BranchAnd(c7, ret, back + 3, x, back) && Node(c7, back, BACK, ret) && Node(c7, back + 3, BRANCH, back + 3)
      && Node(c7, back + 6, NOTHING, back + 6) && c7[..ret] == c5[..ret]
      && Path(c7, ret, back + 3) && RegNext(c7, back + 3) == back + 3 && c7[back + 3] == BRANCH
  {
    hide Node, Laid, Patch, Path;
    var back := ret + 3 + Size(x);
    TailedHooks(c5, ret, back + 3);
    var c6 := Hooked(c5, ret, back + 3);
    BranchAndPoint(c5, ret, x, back, back + 3);
    KeepNode(c5, ret, back + 3, back, BACK, ret);
    KeepNode(c5, ret, back + 3, back + 3, BRANCH, back + 3);
    HookedPrefix(c5, ret, back + 3, ret);
    BranchAndAdd(c6, ret, back + 3, x, back, [NOTHING, 0, 0]);
    AddKeepsNode(c6, [NOTHING, 0, 0], back, BACK, ret);
    AddKeepsNode(c6, [NOTHING, 0, 0], back + 3, BRANCH, back + 3);
    AddNode(c6, NOTHING);
    var c7 := c6 + [NOTHING, 0, 0];
    PathStep(c7, ret, BRANCH, back + 3);
    NodeIs(c7, back + 3, BRANCH, back + 3);
    AddPrefix(c6, [NOTHING, 0, 0], ret);
  }

  lemma StarBuilt(c7: seq<byte>, ret: nat, x: Re)
    requires !Simple(x)
    requires var back := ret + 3 + Size(x);
      && BranchAnd(c7, ret, back + 3, x, back) && Node(c7, back, BACK, ret) && Node(c7, back + 3, BRANCH, back + 3)
      && Node(c7, back + 6, NOTHING, back + 6) && |c7| == back + 9 && |c7| < MAX_SIZE && c7[back + 3] == BRANCH
    ensures
      var back := ret + 3 + Size(x);
      var c8 := Tailed(c7, back + 3, back + 6);
      Laid(c8, ret, Star(x), back + 6) && c8[..ret] == c7[..ret]
  {
    hide Node, Patch;
    var back := ret + 3 + Size(x);
    TailedHooks(c7, back + 3, back + 6);
    BranchAndKeep(c7, ret, back + 3, x, back, back + 3, back + 6);
    KeepNode(c7, back + 3, back + 6, back, BACK, ret);
    HookNode(c7, back + 3, BRANCH, back + 6);
    KeepNode(c7, back + 3, back + 6, back + 6, NOTHING, back + 6);
    HookedPrefix(c7, back + 3, back + 6, ret);
  }

  // -------------------------------------------------------------------- x+

  lemma PlusStep1(c0: seq<byte>, ret: nat, x: Re)
    requires Laid(c0, ret, x, ret + Tail(x)) && ret + Size(x) == |c0| && |c0| + 12 < MAX_SIZE
    ensures
      var again := ret + Size(x); var t := ret + Tail(x); var c1 := c0 + [BRANCH, 0, 0];
      && |c1| == again + 3 && t + 3 <= |c1| && Path(c1, ret, t) && RegNext(c1, t) == t && c1[t] != BACK
      && var c3 := Tailed(c1, t, again) + [BACK, 0, 0];
         && Laid(c3, ret, x, again) && Node(c3, again, BRANCH, again) && Node(c3, again + 3, BACK, again + 3)
         && c3[..ret] == c0[..ret]
         && Path(c3, again + 3, again + 3) && RegNext(c3, again + 3) == again + 3 && c3[again + 3] == BACK
  {
    hide Node, Laid, Patch, Path;
    var again, t, c1 := ret + Size(x), ret + Tail(x), c0 + [BRANCH, 0, 0];
    AddKeeps(c0, [BRANCH, 0, 0], ret, x, t);
    AddNode(c0, BRANCH);
    TailPath(c1, ret, x, t);
    TailNext(c1, ret, x, t);
    TailedHooks(c1, t, again);
    var c2 := Hooked(c1, t, again);
    Hook(c1, ret, x, again);
    KeepNode(c1, t, again, again, BRANCH, again);
    HookedPrefix(c1, t, again, ret);
    AddKeeps(c2, [BACK, 0, 0], ret, x, again);
    AddKeepsNode(c2, [BACK, 0, 0], again, BRANCH, again);
    AddNode(c2, BACK);
    var c3 := c2 + [BACK, 0, 0];
    PathHere(c3, again + 3);
    NodeIs(c3, again + 3, BACK, again + 3);
    AddPrefix(c0, [BRANCH, 0, 0], ret);
    AddPrefix(c2, [BACK, 0, 0], ret);
  }

  lemma PlusStep2(c3: seq<byte>, ret: nat, x: Re)
    requires var again := ret + Size(x);
      && Laid(c3, ret, x, again) && Node(c3, again, BRANCH, again) && Node(c3, again + 3, BACK, again + 3)
      && |c3| == again + 6 && |c3| + 6 < MAX_SIZE && c3[again + 3] == BACK
    ensures
      var again := ret + Size(x);
      var c5 := Tailed(c3, again + 3, ret) + [BRANCH, 0, 0];
      && Laid(c5, ret, x, again) && Node(c5, again, BRANCH, again) && Node(c5, again + 3, BACK, ret)
      && Node(c5, again + 6, BRANCH, again + 6) && c5[..ret] == c3[..ret]
      && Path(c5, again, again) && RegNext(c5, again) == again && c5[again] == BRANCH
  {
    hide Node, Laid, Patch, Path;
    var again := ret + Size(x);
    var off := again + 3 - ret;
    TailedBack(c3, again + 3, ret);
    var c4 := Tailed(c3, again + 3, ret);
    Keep(c3, again + 3, again + 3 + off, ret, x, again);
    KeepNode(c3, again + 3, again + 3 + off, again, BRANCH, again);
    HookedPrefix(c3, again + 3, again + 3 + off, ret);
    AddKeeps(c4, [BRANCH, 0, 0], ret, x, again);
    AddKeepsNode(c4, [BRANCH, 0, 0], again, BRANCH, again);
    AddKeepsNode(c4, [BRANCH, 0, 0], again + 3, BACK, ret);
    AddNode(c4, BRANCH);
    var c5 := c4 + [BRANCH, 0, 0];
    PathHere(c5, again);
    NodeIs(c5, again, BRANCH, again);
    AddPrefix(c4, [BRANCH, 0, 0], ret);
  }

  lemma PlusStep3(c5: seq<byte>, ret: nat, x: Re)
    requires var again := ret + Size(x);
      && Laid(c5, ret, x, again) && Node(c5, again, BRANCH, again) && Node(c5, again + 3, BACK, ret)
      && Node(c5, again + 6, BRANCH, again + 6) && |c5| == again + 9 && |c5| + 3 < MAX_SIZE && c5[again] == BRANCH
    ensures
      var again := ret + Size(x);
      var c7 := Tailed(c5, again, again + 6) + [NOTHING, 0, 0];
      && Laid(c7, ret, x, again) && Node(c7, again, BRANCH, again + 6) && Node(c7, again + 3, BACK, ret)
      && Node(c7, again + 6, BRANCH, again + 6) && Node(c7, again + 9, NOTHING, again + 9) && c7[..ret] == c5[..ret]
      && Path(c7, ret, again + 6) && RegNext(c7, again + 6) == again + 6 && c7[again + 6] == BRANCH
  {
    hide Node, Laid, Patch, Path;
    var again := ret + Size(x);
    TailedHooks(c5, again, again + 6);
    var c6 := Hooked(c5, again, again + 6);
    Keep(c5, again, again + 6, ret, x, again);
    HookNode(c5, again, BRANCH, again + 6);
    KeepNode(c5, again, again + 6, again + 3, BACK, ret);
    KeepNode(c5, again, again + 6, again + 6, BRANCH, again + 6);
    HookedPrefix(c5, again, again + 6, ret);
    AddKeeps(c6, [NOTHING, 0, 0], ret, x, again);
    AddKeepsNode(c6, [NOTHING, 0, 0], again, BRANCH, again + 6);
    AddKeepsNode(c6, [NOTHING, 0, 0], again + 3, BACK, ret);
    AddKeepsNode(c6, [NOTHING, 0, 0], again + 6, BRANCH, again + 6);
    AddNode(c6, NOTHING);
    var c7 := c6 + [NOTHING, 0, 0];
    PathThrough(c7, ret, x, again);
    PathStep(c7, again, BRANCH, again + 6);
    PathJoin(c7, ret, again, again + 6);
    NodeIs(c7, again + 6, BRANCH, again + 6);
    AddPrefix(c6, [NOTHING, 0, 0], ret);
  }

  lemma PlusBuilt(c7: seq<byte>, ret: nat, x: Re)
    requires !Simple(x)
    requires var again := ret + Size(x);
      && Laid(c7, ret, x, again) && Node(c7, again, BRANCH, again + 6) && Node(c7, again + 3, BACK, ret)
      && Node(c7, again + 6, BRANCH, again + 6) && Node(c7, again + 9, NOTHING, again + 9)
      && |c7| == again + 12 && |c7| < MAX_SIZE && c7[again + 6] == BRANCH
    ensures
      var again := ret + Size(x);
      var c8 := Tailed(c7, again + 6, again + 9);
      Laid(c8, ret, Plus(x), again + 9) && c8[..ret] == c7[..ret]
  {
    hide Node, Patch;
    var again := ret + Size(x);
    var t, val := again + 6, again + 9;
    TailedHooks(c7, t, val);
    Keep(c7, t, val, ret, x, again);
    KeepNode(c7, t, val, again, BRANCH, again + 6);
    KeepNode(c7, t, val, again + 3, BACK, ret);
    HookNode(c7, t, BRANCH, val);
    KeepNode(c7, t, val, val, NOTHING, val);
    HookedPrefix(c7, t, val, ret);
  }

  // -------------------------------------------------------------------- x?

  lemma OptStep1(c0: seq<byte>, ret: nat, x: Re)
    requires Laid(c0, ret, x, ret + Tail(x)) && ret + Size(x) == |c0| && |c0| + 9 < MAX_SIZE
    ensures
      var or := ret + 3 + Size(x); var c2 := Inserted(c0, ret, BRANCH) + [BRANCH, 0, 0];
      && |c2| == or + 3 && ret + 3 <= |c2| && Path(c2, ret, ret) && RegNext(c2, ret) == ret && c2[ret] == BRANCH
      && var c4 := Tailed(c2, ret, or) + [NOTHING, 0, 0];
         && BranchAnd(c4, ret, or, x, ret + 3 + Tail(x)) && Node(c4, or, BRANCH, or)
         && Node(c4, or + 3, NOTHING, or + 3)
         && c4[..ret] == c0[..ret] && Path(c4, ret, or) && RegNext(c4, or) == or && c4[or] == BRANCH
  {
    hide Node, Laid, Patch, Path;
    var or, t, c1 := ret + 3 + Size(x), ret + 3 + Tail(x), Inserted(c0, ret, BRANCH);
    var c2 := c1 + [BRANCH, 0, 0];
    BranchInserted(c0, ret, x);
    BranchAndAdd(c1, ret, ret, x, t, [BRANCH, 0, 0]);
    AddNode(c1, BRANCH);
    PathHere(c2, ret);
    NodeIs(c2, ret, BRANCH, ret);
    TailedHooks(c2, ret, or);
    var c3 := Hooked(c2, ret, or);
    BranchAndPoint(c2, ret, x, t, or);
    KeepNode(c2, ret, or, or, BRANCH, or);
    HookedPrefix(c2, ret, or, ret);
    BranchAndAdd(c3, ret, or, x, t, [NOTHING, 0, 0]);
    AddKeepsNode(c3, [NOTHING, 0, 0], or, BRANCH, or);
    AddNode(c3, NOTHING);
    var c4 := c3 + [NOTHING, 0, 0];
    PathStep(c4, ret, BRANCH, or);
    NodeIs(c4, or, BRANCH, or);
    InsertPrefix(c0, ret, BRANCH);
    AddPrefix(c1, [BRANCH, 0, 0], ret);
    AddPrefix(c3, [NOTHING, 0, 0], ret);
  }

  lemma OptStep2(c4: seq<byte>, ret: nat, x: Re)
    requires var or := ret + 3 + Size(x);
      && BranchAnd(c4, ret, or, x, ret + 3 + Tail(x)) && Node(c4, or, BRANCH, or) && Node(c4, or + 3, NOTHING, or + 3)
      && |c4| == or + 6 && |c4| < MAX_SIZE && c4[or] == BRANCH
    ensures
      var or := ret + 3 + Size(x); var t := ret + 3 + Tail(x);
      var c5 := Tailed(c4, or, or + 3);
      && BranchAnd(c5, ret, or, x, t) && Node(c5, or, BRANCH, or + 3) && Node(c5, or + 3, NOTHING, or + 3)
      && c5[..ret] == c4[..ret]
      && t + 3 <= |c5| && Path(c5, ret + 3, t) && RegNext(c5, t) == t && c5[t] != BACK && c5[ret] == BRANCH
  {
    hide Node, Patch, Path, Laid;
    var or, t := ret + 3 + Size(x), ret + 3 + Tail(x);
    TailedHooks(c4, or, or + 3);
    var c5 := Hooked(c4, or, or + 3);
    BranchAndKeep(c4, ret, or, x, t, or, or + 3);
    HookNode(c4, or, BRANCH, or + 3);
    KeepNode(c4, or, or + 3, or + 3, NOTHING, or + 3);
    HookedPrefix(c4, or, or + 3, ret);
    TailPath(c5, ret + 3, x, t);
    TailNext(c5, ret + 3, x, t);
    NodeIs(c5, ret, BRANCH, or);
  }

  lemma OptBuilt(c5: seq<byte>, ret: nat, x: Re)
    requires var or := ret + 3 + Size(x); var t := ret + 3 + Tail(x);
      && BranchAnd(c5, ret, or, x, t) && Node(c5, or, BRANCH, or + 3) && Node(c5, or + 3, NOTHING, or + 3)
      && |c5| == or + 6 && |c5| < MAX_SIZE && c5[t] != BACK
    ensures
      var or := ret + 3 + Size(x); var t := ret + 3 + Tail(x);
      var c6 := Tailed(c5, t, or + 3); Laid(c6, ret, Opt(x), or + 3) && c6[..ret] == c5[..ret]
  {
    hide Node, Patch, Laid;
    var or, t := ret + 3 + Size(x), ret + 3 + Tail(x);
    TailedHooks(c5, t, or + 3);
    var c6 := Hooked(c5, t, or + 3);
    BranchAndHook(c5, ret, or, x, or + 3);
    KeepNode(c5, t, or + 3, or, BRANCH, or + 3);
    KeepNode(c5, t, or + 3, or + 3, NOTHING, or + 3);
    HookedPrefix(c5, t, or + 3, ret);
    OptIs(c6, ret, x, or + 3);
  }

  lemma OptIs(code: seq<byte>, ret: nat, x: Re, out: int)
    requires ret + 9 + Size(x) <= |code| && OptNodes(code, ret, Size(x), out)
    requires Laid(code, ret + 3, x, ret + 6 + Size(x))
    ensures Laid(code, ret, Opt(x), out)
  {
    hide OptNodes;
  }
}
