/** decomp16: the decoder that splits its dictionary over five passes in a
    pipeline, each owning 13056 entries. */
module Decomp16 {
  import opened Common
  import opened LzwSpec

  const DICTSZ: nat := 13056

  /** First entry of pass `q`. */
  function Base(q: nat): nat {
    DICTSZ * q + 256
  }

  /** What flows through a pipe: an index, and whether only the first character
      of its string is meant. */
  datatype Item = Item(index: nat, firstOnly: bool)

  /** One pass: its part of the dictionary (an index and, for the last
      character, another index), the end of the global dictionary and the slot
      that waits for its character. */
  datatype Pass = Pass(q: nat, f: Format, dindex: seq<nat>, dchar: seq<nat>, curend: nat, dcharp: nat)
  {
    ghost predicate Wf() {
      |dindex| == |dchar| == DICTSZ && q < 5 && f.Valid()
    }
  }

  /** Where the global dictionary ends, as far as pass `q` counts. */
  function MaxEnd(q: nat, f: Format): nat {
    if f.Limit() - 1 > Base(q + 1) - 1 then Base(q + 1) - 1 else f.Limit() - 1
  }

  // ------------------------------------------------------------- pure passes

  /** Follow the index part down below the pass's own entries. */
  function RootOf(dindex: seq<nat>, base: nat, i: nat): nat {
    if i < base || i - base >= |dindex| || dindex[i - base] >= i then i else RootOf(dindex, base, dindex[i - base])
  }

  /** The pass's entries on the way, lowest first. */
  function ChainOf(dindex: seq<nat>, base: nat, i: nat): seq<nat> {
    if i < base || i - base >= |dindex| || dindex[i - base] >= i then []
    else ChainOf(dindex, base, dindex[i - base]) + [i]
  }

  /** The characters of a chain, flagged first-only. */
  function Spawned(dchar: seq<nat>, base: nat, chain: seq<nat>): (r: seq<Item>)
    ensures |r| == |chain|
  {
    if chain == [] then []
    else
      var e := chain[|chain| - 1];
      Spawned(dchar, base, chain[..|chain| - 1]) +
      [Item(if base <= e < base + |dchar| then dchar[e - base] else 0, true)]
  }

  /** The dictionary part of handling a whole index. */
  function Enter(s: Pass, i: nat, root: nat): (s': Pass)
    requires s.Wf()
    ensures s'.Wf() && s'.q == s.q && s'.f == s.f
  {
    var s1 := if s.dcharp < DICTSZ then s.(dchar := s.dchar[s.dcharp := root], dcharp := s.dcharp + 1) else s;
    if s1.curend < MaxEnd(s1.q, s1.f) then
      var e := s1.curend + 1;
      if e >= Base(s.q) && e - Base(s.q) < DICTSZ
      then s1.(curend := e, dcharp := e - Base(s.q), dindex := s1.dindex[e - Base(s.q) := i])
      else s1.(curend := e)
    else s1
  }

  function Start(q: nat, f: Format, dindex: seq<nat>, dchar: seq<nat>): Pass {
    Pass(q, f, dindex, dchar, f.First() - 1, DICTSZ)
  }

  /** One index through a pass; None is the exit for invalid data. */
  function Feed(s: Pass, it: Item): (r: Option<(Pass, seq<Item>)>)
    requires s.Wf()
    ensures r.Some? ==> r.value.0.Wf() && r.value.0.q == s.q && r.value.0.f == s.f
  {
    var base := Base(s.q);
    if it.index > s.curend then None
    else if it.firstOnly then Some((s, [Item(RootOf(s.dindex, base, it.index), true)]))
    else if s.f.IsClear(it.index) then
      Some((Start(s.q, s.f, s.dindex, s.dchar), if s.q > 0 then [it] else []))
    else
      var root := RootOf(s.dindex, base, it.index);
      var s' := Enter(s, it.index, root);
      Some((s', [Item(root, false)] + Spawned(s'.dchar, base, ChainOf(s'.dindex, base, it.index))))
  }

  function FeedAll(s: Pass, its: seq<Item>): (r: Option<(Pass, seq<Item>)>)
    requires s.Wf()
    ensures r.Some? ==> r.value.0.Wf() && r.value.0.q == s.q && r.value.0.f == s.f
    decreases |its|
  {
    if its == [] then Some((s, []))
    else match Feed(s, its[0])
      case None => None
      case Some((s1, out1)) =>
        match FeedAll(s1, its[1..])
        case None => None
        case Some((s2, out2)) => Some((s2, out1 + out2))
  }

  lemma {:induction false} FeedAllAppend(s: Pass, a: seq<Item>, b: seq<Item>)
    requires s.Wf() && FeedAll(s, a).Some?
    ensures
      var (s1, out1) := FeedAll(s, a).value;
      FeedAll(s, a + b) == match FeedAll(s1, b)
                           case None => None
                           case Some((s2, out2)) => Some((s2, out1 + out2))
    decreases |a|
  {
    hide Feed;
    if a == [] {
      assert a + b == b;
      match FeedAll(s, b) {
        case None =>
        case Some((s2, out2)) => assert [] + out2 == out2;
      }
    } else {
      var (s1, out1) := Feed(s, a[0]).value;
      assert (a + b)[1..] == a[1..] + b;
      FeedAllAppend(s1, a[1..], b);
      var (s2, out2) := FeedAll(s1, a[1..]).value;
      match FeedAll(s2, b) {
        case None =>
        case Some((s3, out3)) => assert out1 + (out2 + out3) == out1 + out2 + out3;
      }
    }
  }

  // ------------------------------------------------------ what a pass knows

  ghost predicate EntryHolds(s: Pass, strs: seq<seq<byte>>, e: nat)
    requires s.Wf()
  {
    && Base(s.q) <= e < Base(s.q + 1) && s.f.First() <= e < s.f.First() + |strs|
    && var i, c := s.dindex[e - Base(s.q)], s.dchar[e - Base(s.q)];
       && i < e && Known(s.f, strs, i)
       && c < Base(s.q) && Known(s.f, strs, c) && StringOf(s.f, strs, c) != []
       && strs[e - s.f.First()] == StringOf(s.f, strs, i) + [StringOf(s.f, strs, c)[0]]
  }

  /** The entry that waits for its character spells the previous string so far. */
  ghost predicate PendingHolds(s: Pass, d: Decoder)
    requires s.Wf()
  {
    var e := s.f.First() + |d.strs|;
    && Base(s.q) <= e < Base(s.q + 1) && s.dcharp == e - Base(s.q)
    && var i := s.dindex[e - Base(s.q)];
       i < e && Known(s.f, d.strs, i) && StringOf(s.f, d.strs, i) == d.prev
  }

  predicate HasPending(f: Format, q: nat, d: Decoder) {
    d.prev != [] && !Full(f, d.strs) && Base(q) <= f.First() + |d.strs| < Base(q + 1)
  }

  /** End of the dictionary, were one pass to hold all of it. */
  function GlobalEnd(f: Format, d: Decoder): nat {
    if d.prev == [] then f.First() - 1 else if Full(f, d.strs) then f.Limit() - 1 else f.First() + |d.strs|
  }

  ghost predicate PassOk(s: Pass, d: Decoder) {
    && s.Wf() && s.f.First() + |d.strs| <= s.f.Limit() && (d.prev == [] ==> d.strs == [])
    && (forall i :: 0 <= i < |d.strs| ==> d.strs[i] != [])
    && s.curend == (if GlobalEnd(s.f, d) < MaxEnd(s.q, s.f) then GlobalEnd(s.f, d) else MaxEnd(s.q, s.f))
    && (forall e :: Base(s.q) <= e < Base(s.q + 1) && s.f.First() <= e < s.f.First() + |d.strs| ==>
         EntryHolds(s, d.strs, e))
    && (if HasPending(s.f, s.q, d) then PendingHolds(s, d)
        else s.dcharp < DICTSZ ==> Base(s.q) + s.dcharp >= s.f.First() + |d.strs|)
  }

  // ------------------------------------------------------------ dictionaries

  lemma BaseStep(q: nat)
    ensures Base(q + 1) == Base(q) + DICTSZ && Base(q) >= 256 && Base(0) == 256
  {
  }

  /** What one code does to the reference decoder. */
  lemma LearnCases(f: Format, d: Decoder, c: nat, d': Decoder)
    requires f.Valid() && Decode1(f, d, c) == Some(d') && !f.IsClear(c)
    requires f.First() + |d.strs| <= f.Limit() && (d.prev == [] ==> d.strs == [])
    requires forall i :: 0 <= i < |d.strs| ==> d.strs[i] != []
    ensures d'.prev != [] && Known(f, d'.strs, c) && StringOf(f, d'.strs, c) == d'.prev && d'.text == d.text + d'.prev
    ensures d'.strs == (if d.prev == [] || Full(f, d.strs) then d.strs else d.strs + [d.prev + [d'.prev[0]]])
    ensures f.First() + |d'.strs| <= f.Limit()
    ensures forall i :: 0 <= i < |d'.strs| ==> d'.strs[i] != []
  {
  }

  lemma KnownGrows(f: Format, strs: seq<seq<byte>>, strs': seq<seq<byte>>, c: nat)
    requires Known(f, strs, c) && strs <= strs'
    ensures Known(f, strs', c) && StringOf(f, strs', c) == StringOf(f, strs, c)
  {
  }

  lemma KnownNonempty(f: Format, strs: seq<seq<byte>>, c: nat)
    requires Known(f, strs, c) && forall i :: 0 <= i < |strs| ==> strs[i] != []
    ensures StringOf(f, strs, c) != []
  {
  }

  /** The index parts of a pass's entries name proper prefixes. */
  ghost predicate IndexHolds(s: Pass, strs: seq<seq<byte>>, e: nat)
    requires s.Wf()
  {
    && Base(s.q) <= e < Base(s.q + 1) && s.f.First() <= e < s.f.First() + |strs|
    && var i := s.dindex[e - Base(s.q)];
       && i < e && Known(s.f, strs, i) && StringOf(s.f, strs, i) != []
       && StringOf(s.f, strs, i) <= strs[e - s.f.First()]
  }

  ghost predicate IndicesHold(s: Pass, strs: seq<seq<byte>>)
    requires s.Wf()
  {
    forall e :: Base(s.q) <= e < Base(s.q + 1) && s.f.First() <= e < s.f.First() + |strs| ==> IndexHolds(s, strs, e)
  }

  /** ... also that of the entry the next code completes. */
  lemma IndicesAfter(s: Pass, d: Decoder, c: nat, d': Decoder)
    requires PassOk(s, d) && Decode1(s.f, d, c) == Some(d') && !s.f.IsClear(c)
    ensures IndicesHold(s, d'.strs)
  {
    hide Base, Decode1, Full;
    LearnCases(s.f, d, c, d');
    forall e | Base(s.q) <= e < Base(s.q + 1) && s.f.First() <= e < s.f.First() + |d'.strs|
      ensures IndexHolds(s, d'.strs, e)
    {
      BaseStep(s.q);
      var i := s.dindex[e - Base(s.q)];
      if e < s.f.First() + |d.strs| {
        assert EntryHolds(s, d.strs, e);
      } else {
        assert PendingHolds(s, d);
      }
      KnownGrows(s.f, d.strs, d'.strs, i);
      KnownNonempty(s.f, d'.strs, i);
    }
  }

  /** Going down to the root keeps the first character. */
  lemma {:induction false} RootHolds(s: Pass, strs: seq<seq<byte>>, i: nat)
    requires s.Wf() && IndicesHold(s, strs) && Known(s.f, strs, i) && i < Base(s.q + 1) && StringOf(s.f, strs, i) != []
    ensures
      var r := RootOf(s.dindex, Base(s.q), i);
      && r < Base(s.q) && r <= i && (i < Base(s.q) ==> r == i) && Known(s.f, strs, r) && StringOf(s.f, strs, r) != []
      && StringOf(s.f, strs, r) <= StringOf(s.f, strs, i)
    decreases i
  {
    hide Base;
    BaseStep(s.q);
    if i >= Base(s.q) {
      assert IndexHolds(s, strs, i);
      RootHolds(s, strs, s.dindex[i - Base(s.q)]);
    }
  }

  /** A write above an index does not change its root or its chain. */
  lemma {:induction false} RootSame(dindex: seq<nat>, base: nat, k: nat, v: nat, i: nat)
    requires k < |dindex| && i < base + k
    ensures RootOf(dindex[k := v], base, i) == RootOf(dindex, base, i)
    ensures ChainOf(dindex[k := v], base, i) == ChainOf(dindex, base, i)
    decreases i
  {
    if !(i < base || i - base >= |dindex| || dindex[i - base] >= i) {
      RootSame(dindex, base, k, v, dindex[i - base]);
    }
  }

  /** What an index must be for pass `q` to stand for code `c`. */
  ghost predicate Stands(f: Format, bound: nat, c: nat, d': Decoder, i: nat) {
    && i < bound && Known(f, d'.strs, i) && (c < bound ==> i == c)
    && StringOf(f, d'.strs, i) != [] && StringOf(f, d'.strs, i) <= d'.prev
  }

  lemma EndAfter(s: Pass, d: Decoder, c: nat, d': Decoder, i: nat, root: nat)
    requires PassOk(s, d) && Decode1(s.f, d, c) == Some(d') && !s.f.IsClear(c)
    ensures
      var s' := Enter(s, i, root);
      s'.curend == (if GlobalEnd(s.f, d') < MaxEnd(s.q, s.f) then GlobalEnd(s.f, d') else MaxEnd(s.q, s.f))
  {
    hide Base, Decode1, EntryHolds, PendingHolds;
    LearnCases(s.f, d, c, d');
    BaseStep(s.q);
    BaseLow(s.q);
    LimitBounds(s.f);
  }

  lemma BaseLow(q: nat)
    ensures Base(q + 1) > 257
  {
  }

  /** The entries that are complete after the code. */
  lemma EntriesAfter(s: Pass, d: Decoder, c: nat, d': Decoder, i: nat, root: nat, e: nat)
    requires PassOk(s, d) && Decode1(s.f, d, c) == Some(d') && !s.f.IsClear(c)
    requires root < Base(s.q) && Known(s.f, d'.strs, root)
    requires StringOf(s.f, d'.strs, root) != [] && StringOf(s.f, d'.strs, root)[0] == d'.prev[0]
    requires Base(s.q) <= e < Base(s.q + 1) && s.f.First() <= e < s.f.First() + |d'.strs|
    ensures EntryHolds(Enter(s, i, root), d'.strs, e)
  {
    hide Base, Decode1;
    LearnCases(s.f, d, c, d');
    BaseStep(s.q);
    var k := e - Base(s.q);
    var s' := Enter(s, i, root);
    assert s'.dindex[k] == s.dindex[k];
    if e < s.f.First() + |d.strs| {
      assert EntryHolds(s, d.strs, e);
      KnownGrows(s.f, d.strs, d'.strs, s.dindex[k]);
      KnownGrows(s.f, d.strs, d'.strs, s.dchar[k]);
      assert s'.dchar[k] == s.dchar[k];
    } else {
      assert PendingHolds(s, d);
      KnownGrows(s.f, d.strs, d'.strs, s.dindex[k]);
    }
  }

  /** The entry that waits for a character after the code. */
  lemma PendingAfter(s: Pass, d: Decoder, c: nat, d': Decoder, i: nat, root: nat)
    requires PassOk(s, d) && Decode1(s.f, d, c) == Some(d') && !s.f.IsClear(c)
    requires Stands(s.f, Base(s.q + 1), c, d', i)
    ensures
      var s' := Enter(s, i, root);
      if HasPending(s.f, s.q, d') then PendingHolds(s', d')
      else s'.dcharp < DICTSZ ==> Base(s.q) + s'.dcharp >= s.f.First() + |d'.strs|
  {
    hide Base, Decode1, EntryHolds;
    LearnCases(s.f, d, c, d');
    BaseStep(s.q);
    LimitBounds(s.f);
  }

  lemma EnterKeeps(s: Pass, d: Decoder, c: nat, d': Decoder, i: nat, root: nat)
    requires PassOk(s, d) && Decode1(s.f, d, c) == Some(d') && !s.f.IsClear(c)
    requires Stands(s.f, Base(s.q + 1), c, d', i)
    requires root < Base(s.q) && Known(s.f, d'.strs, root)
    requires StringOf(s.f, d'.strs, root) != [] && StringOf(s.f, d'.strs, root)[0] == d'.prev[0]
    ensures PassOk(Enter(s, i, root), d')
  {
    hide Base, Decode1, EntryHolds, PendingHolds, Enter, HasPending, GlobalEnd;
    LearnCases(s.f, d, c, d');
    EndAfter(s, d, c, d', i, root);
    PendingAfter(s, d, c, d', i, root);
    var s' := Enter(s, i, root);
    forall e | Base(s.q) <= e < Base(s.q + 1) && s.f.First() <= e < s.f.First() + |d'.strs|
      ensures EntryHolds(s', d'.strs, e)
    {
      EntriesAfter(s, d, c, d', i, root, e);
    }
  }

  // ------------------------------------------------------ meaning of a pipe

  function ItemText(f: Format, strs: seq<seq<byte>>, it: Item): seq<byte> {
    if !Known(f, strs, it.index) then []
    else
      var t := StringOf(f, strs, it.index);
      if it.firstOnly && t != [] then [t[0]] else t
  }

  function ItemsText(f: Format, strs: seq<seq<byte>>, its: seq<Item>): seq<byte> {
    if its == [] then [] else ItemsText(f, strs, its[..|its| - 1]) + ItemText(f, strs, its[|its| - 1])
  }

  lemma {:induction false} ItemsTextAppend(f: Format, strs: seq<seq<byte>>, a: seq<Item>, b: seq<Item>)
    ensures ItemsText(f, strs, a + b) == ItemsText(f, strs, a) + ItemsText(f, strs, b)
  {
    hide ItemText;
    if b == [] {
      assert a + b == a;
    } else {
      var b' := b[..|b| - 1];
      assert (a + b)[..|a + b| - 1] == a + b';
      ItemsTextAppend(f, strs, a, b');
    }
  }

  ghost predicate FirstItem(f: Format, bound: nat, strs: seq<seq<byte>>, it: Item) {
    it.firstOnly && it.index < bound && Known(f, strs, it.index) && StringOf(f, strs, it.index) != []
  }

  ghost predicate FirstItems(f: Format, bound: nat, strs: seq<seq<byte>>, its: seq<Item>) {
    forall k :: 0 <= k < |its| ==> FirstItem(f, bound, strs, its[k])
  }

  /** The part of a pipe that carries code `c` below `bound`: an index that
      stands for the code, then first-only indices for the rest of its string. */
  ghost predicate GroupOk(f: Format, bound: nat, d: Decoder, c: nat, g: seq<Item>)
    requires Decode1(f, d, c).Some?
  {
    var d' := Decode1(f, d, c).value;
    if f.IsClear(c) then g == if bound > 256 then [Item(CLEAR, false)] else []
    else
      && g != [] && !g[0].firstOnly && Stands(f, bound, c, d', g[0].index)
      && FirstItems(f, bound, d'.strs, g[1..]) && ItemsText(f, d'.strs, g) == d'.prev
  }

  /** The spawned characters complete the root to the whole string. */
  lemma {:induction false} ChainText(s: Pass, d: Decoder, i: nat)
    requires PassOk(s, d) && IndicesHold(s, d.strs) && Known(s.f, d.strs, i) && i < Base(s.q + 1)
    ensures
      var base := Base(s.q);
      var out := Spawned(s.dchar, base, ChainOf(s.dindex, base, i));
      && Known(s.f, d.strs, RootOf(s.dindex, base, i)) && FirstItems(s.f, base, d.strs, out)
      && StringOf(s.f, d.strs, i) == StringOf(s.f, d.strs, RootOf(s.dindex, base, i)) + ItemsText(s.f, d.strs, out)
    decreases i
  {
    hide Base, PendingHolds, GlobalEnd, HasPending, Spawned, ItemsText;
    var base := Base(s.q);
    BaseStep(s.q);
    NoneSpawned(s, d.strs, base);
    if i >= base {
      assert EntryHolds(s, d.strs, i);
      var j := s.dindex[i - base];
      var c := Item(s.dchar[i - base], true);
      ChainText(s, d, j);
      var chain := ChainOf(s.dindex, base, j);
      assert ChainOf(s.dindex, base, i) == chain + [i];
      SpawnedMore(s.dchar, base, chain, i);
      ItemsTextOne(s.f, d.strs, Spawned(s.dchar, base, chain), c);
    }
  }

  lemma NoneSpawned(s: Pass, strs: seq<seq<byte>>, base: nat)
    ensures Spawned(s.dchar, base, []) == [] && ItemsText(s.f, strs, []) == []
  {
  }

  lemma SpawnedMore(dchar: seq<nat>, base: nat, chain: seq<nat>, e: nat)
    requires base <= e < base + |dchar|
    ensures Spawned(dchar, base, chain + [e]) == Spawned(dchar, base, chain) + [Item(dchar[e - base], true)]
  {
    assert (chain + [e])[..|chain + [e]| - 1] == chain;
  }

  lemma ItemsTextOne(f: Format, strs: seq<seq<byte>>, its: seq<Item>, it: Item)
    ensures ItemsText(f, strs, its + [it]) == ItemsText(f, strs, its) + ItemText(f, strs, it)
  {
    assert (its + [it])[..|its + [it]| - 1] == its;
  }

  lemma IndicesOf(s: Pass, d: Decoder)
    requires PassOk(s, d)
    ensures IndicesHold(s, d.strs)
  {
    hide Base, PendingHolds, GlobalEnd, HasPending;
    forall e | Base(s.q) <= e < Base(s.q + 1) && s.f.First() <= e < s.f.First() + |d.strs|
      ensures IndexHolds(s, d.strs, e)
    {
      BaseStep(s.q);
      assert EntryHolds(s, d.strs, e);
      KnownNonempty(s.f, d.strs, s.dindex[e - Base(s.q)]);
    }
  }

  /** The end of the dictionary admits every index that may come. */
  lemma EndAdmits(s: Pass, d: Decoder, c: nat, d': Decoder, i: nat)
    requires PassOk(s, d) && Decode1(s.f, d, c) == Some(d') && !s.f.IsClear(c)
    requires Known(s.f, d'.strs, i) && i < Base(s.q + 1)
    ensures i <= s.curend && !s.f.IsClear(i)
  {
    hide Base, Decode1, EntryHolds, PendingHolds, HasPending;
    LearnCases(s.f, d, c, d');
    LimitBounds(s.f);
  }

  lemma EndAdmitsFirst(s: Pass, d: Decoder, j: nat)
    requires PassOk(s, d) && d.prev != [] && Known(s.f, d.strs, j) && j < Base(s.q + 1)
    ensures j <= s.curend
  {
    hide Base, EntryHolds, PendingHolds, HasPending;
    LimitBounds(s.f);
  }

  /** A whole index through a pass. */
  lemma FeedWhole(s: Pass, d: Decoder, c: nat, d': Decoder, i: nat) returns (s': Pass, out: seq<Item>)
    requires PassOk(s, d) && Decode1(s.f, d, c) == Some(d') && !s.f.IsClear(c)
    requires Stands(s.f, Base(s.q + 1), c, d', i)
    ensures Feed(s, Item(i, false)) == Some((s', out)) && PassOk(s', d') && s'.q == s.q && s'.f == s.f
    ensures out != [] && !out[0].firstOnly && Stands(s.f, Base(s.q), c, d', out[0].index)
    ensures FirstItems(s.f, Base(s.q), d'.strs, out[1..])
    ensures ItemsText(s.f, d'.strs, out) == StringOf(s.f, d'.strs, i)
  {
    hide Base, Decode1, EntryHolds, PendingHolds, GlobalEnd, HasPending, RootOf, ChainOf, Spawned, ItemsText;
    LearnCases(s.f, d, c, d');
    EndAdmits(s, d, c, d', i);
    IndicesAfter(s, d, c, d');
    RootHolds(s, d'.strs, i);
    BaseStep(s.q);
    var base := Base(s.q);
    var root := RootOf(s.dindex, base, i);
    EnterKeeps(s, d, c, d', i, root);
    s' := Enter(s, i, root);
    EnterRoot(s, i, root, d, c, d');
    IndicesOf(s', d');
    ChainText(s', d', i);
    var spawned := Spawned(s'.dchar, base, ChainOf(s'.dindex, base, i));
    out := [Item(root, false)] + spawned;
    ItemsTextAppend(s.f, d'.strs, [Item(root, false)], spawned);
    ItemsTextSingle(s.f, d'.strs, Item(root, false));
    assert out[1..] == spawned;
  }

  lemma ItemsTextSingle(f: Format, strs: seq<seq<byte>>, it: Item)
    ensures ItemsText(f, strs, [it]) == ItemText(f, strs, it)
  {
    assert [it][..0] == [];
  }

  /** The entry made for the index lies above it. */
  lemma EnterRoot(s: Pass, i: nat, root: nat, d: Decoder, c: nat, d': Decoder)
    requires PassOk(s, d) && Decode1(s.f, d, c) == Some(d') && !s.f.IsClear(c)
    requires i <= s.curend
    ensures RootOf(Enter(s, i, root).dindex, Base(s.q), i) == RootOf(s.dindex, Base(s.q), i)
  {
    hide Base, Decode1, EntryHolds, PendingHolds, HasPending, GlobalEnd, RootOf;
    BaseStep(s.q);
    var e := s.curend + 1;
    if e >= Base(s.q) && e - Base(s.q) < DICTSZ {
      RootSame(s.dindex, Base(s.q), e - Base(s.q), i, i);
    }
  }

  /** First-only indices go on as their roots; the pass does not change. */
  lemma {:induction false} FeedFirsts(s: Pass, d: Decoder, its: seq<Item>) returns (out: seq<Item>)
    requires PassOk(s, d) && d.prev != [] && FirstItems(s.f, Base(s.q + 1), d.strs, its)
    ensures FeedAll(s, its) == Some((s, out)) && FirstItems(s.f, Base(s.q), d.strs, out)
    ensures ItemsText(s.f, d.strs, out) == ItemsText(s.f, d.strs, its)
    decreases |its|
  {
    hide Base, EntryHolds, PendingHolds, GlobalEnd, HasPending, RootOf, ChainOf, Spawned, ItemsText, Enter;
    if its == [] {
      out := [];
    } else {
      var it := its[0];
      assert FirstItem(s.f, Base(s.q + 1), d.strs, it);
      EndAdmitsFirst(s, d, it.index);
      IndicesOf(s, d);
      RootHolds(s, d.strs, it.index);
      var r := Item(RootOf(s.dindex, Base(s.q), it.index), true);
      var more := FeedFirsts(s, d, its[1..]);
      out := [r] + more;
      assert its == [it] + its[1..];
      ItemsTextAppend(s.f, d.strs, [r], more);
      ItemsTextAppend(s.f, d.strs, [it], its[1..]);
      ItemsTextSingle(s.f, d.strs, r);
      ItemsTextSingle(s.f, d.strs, it);
    }
  }

  lemma PassWf(s: Pass, d: Decoder)
    requires PassOk(s, d)
    ensures s.Wf()
  {
  }

  lemma FeedOne(s: Pass, it: Item)
    requires s.Wf()
    ensures FeedAll(s, [it]) == Feed(s, it)
  {
    hide Feed;
    match Feed(s, it) {
      case None =>
      case Some((s1, out1)) => assert [it][1..] == [] && out1 + [] == out1;
    }
  }

  /** The group of one code through a pass. */
  lemma FeedGroup(s: Pass, d: Decoder, c: nat, g: seq<Item>) returns (s': Pass, out: seq<Item>)
    requires PassOk(s, d) && Decode1(s.f, d, c).Some? && GroupOk(s.f, Base(s.q + 1), d, c, g)
    ensures FeedAll(s, g) == Some((s', out)) && PassOk(s', Decode1(s.f, d, c).value) && s'.q == s.q && s'.f == s.f
    ensures GroupOk(s.f, Base(s.q), d, c, out)
  {
    hide Base, EntryHolds, PendingHolds, Feed, FeedAll, ItemsText, PassOk;
    var d' := Decode1(s.f, d, c).value;
    PassWf(s, d);
    BaseStep(s.q);
    if s.f.IsClear(c) {
      s', out := FeedClear(s, d, d');
    } else {
      var head, rest := g[0], g[1..];
      assert g == [head] + rest;
      var out1;
      s', out1 := FeedWhole(s, d, c, d', head.index);
      FeedOne(s, head);
      assert d'.prev != [];
      var out2 := FeedFirsts(s', d', rest);
      FeedAllAppend(s, [head], rest);
      out := out1 + out2;
      assert out[1..] == out1[1..] + out2;
      ItemsTextAppend(s.f, d'.strs, out1, out2);
      ItemsTextAppend(s.f, d'.strs, [head], rest);
      ItemsTextSingle(s.f, d'.strs, head);
    }
  }

  lemma FeedClear(s: Pass, d: Decoder, d': Decoder) returns (s': Pass, out: seq<Item>)
    requires PassOk(s, d) && s.f.block && Decode1(s.f, d, CLEAR) == Some(d')
    ensures FeedAll(s, [Item(CLEAR, false)]) == Some((s', out)) && PassOk(s', d') && s'.q == s.q && s'.f == s.f
    ensures out == if Base(s.q) > 256 then [Item(CLEAR, false)] else []
  {
    hide EntryHolds, PendingHolds;
    LimitBounds(s.f);
    FeedOne(s, Item(CLEAR, false));
    s' := Start(s.q, s.f, s.dindex, s.dchar);
    out := if s.q > 0 then [Item(CLEAR, false)] else [];
  }

  lemma StartOk(q: nat, f: Format, dindex: seq<nat>, dchar: seq<nat>)
    requires q < 5 && f.Valid() && |dindex| == |dchar| == DICTSZ
    ensures PassOk(Start(q, f, dindex, dchar), START)
  {
    LimitBounds(f);
  }

  // ------------------------------------------------------------ whole pipes

  function Concat(groups: seq<seq<Item>>): seq<Item> {
    if groups == [] then [] else groups[0] + Concat(groups[1..])
  }

  /** The groups carry the codes, from decoder `d` on. */
  ghost predicate Carries(f: Format, bound: nat, d: Decoder, codes: seq<nat>, groups: seq<seq<Item>>)
    decreases |codes|
  {
    |groups| == |codes| &&
    (codes == [] ||
     (Decode1(f, d, codes[0]).Some? && GroupOk(f, bound, d, codes[0], groups[0])
      && Carries(f, bound, Decode1(f, d, codes[0]).value, codes[1..], groups[1..])))
  }

  /** A pass turns a pipe that carries the codes above its entries into one
      that carries the same codes below them. */
  lemma {:induction false} PassCarries(s: Pass, d: Decoder, codes: seq<nat>, groups: seq<seq<Item>>)
    returns (s': Pass, outs: seq<seq<Item>>)
    requires PassOk(s, d) && Carries(s.f, Base(s.q + 1), d, codes, groups)
    ensures FeedAll(s, Concat(groups)) == Some((s', Concat(outs))) && Carries(s.f, Base(s.q), d, codes, outs)
    decreases |codes|
  {
    hide Base, PassOk, GroupOk, Decode1, Feed;
    if codes == [] {
      s', outs := s, [];
    } else {
      PassWf(s, d);
      var s1, out := FeedGroup(s, d, codes[0], groups[0]);
      var d' := Decode1(s.f, d, codes[0]).value;
      var more;
      s', more := PassCarries(s1, d', codes[1..], groups[1..]);
      FeedAllAppend(s, groups[0], Concat(groups[1..]));
      outs := [out] + more;
      assert outs[1..] == more;
    }
  }

  // ------------------------------------------------------------- the program

  ghost predicate Descends(dindex: seq<nat>, base: nat, end: nat) {
    forall k :: 0 <= k < |dindex| && base + k <= end ==> dindex[k] < base + k
  }

  /** A chain climbs from just above the root to the index itself. */
  lemma {:induction false} ChainClimbs(dindex: seq<nat>, base: nat, i: nat, end: nat)
    requires Descends(dindex, base, end) && i <= end && i < base + |dindex|
    ensures
      var c := ChainOf(dindex, base, i);
      && (i >= base <==> c != []) && (c != [] ==> c[|c| - 1] == i)
      && (forall m :: 0 <= m < |c| ==>
           base <= c[m] <= i && dindex[c[m] - base] == if m == 0 then RootOf(dindex, base, i) else c[m - 1])
      && (forall m :: 1 <= m < |c| ==> c[m - 1] < c[m])
      && RootOf(dindex, base, i) <= i && (i >= base ==> RootOf(dindex, base, i) < base)
    decreases i
  {
    if i >= base {
      var j := dindex[i - base];
      ChainClimbs(dindex, base, j, end);
      var c := ChainOf(dindex, base, j);
      assert ChainOf(dindex, base, i) == c + [i] && RootOf(dindex, base, i) == RootOf(dindex, base, j);
      assert c == [] ==> RootOf(dindex, base, j) == j;
    }
  }

  /** One copy of the program, with its tables and counters. */
  class Process {
    const q: nat
    const f: Format
    const dindex: array<nat>
    const dchar: array<nat>
    var curend: nat
    var dcharp: nat
    var out: seq<Item>

    constructor (q: nat, f: Format)
      requires q < 5 && f.Valid()
      ensures this.q == q && this.f == f && Safe() && fresh(dindex) && fresh(dchar) && out == []
      ensures AsPass() == Start(q, f, seq(DICTSZ, _ => 0), seq(DICTSZ, _ => 0))
    {
      this.q, this.f := q, f;
      dindex := new nat[DICTSZ](_ => 0);
      dchar := new nat[DICTSZ](_ => 0);
      curend, dcharp, out := f.First() - 1, DICTSZ, [];
      new;
      assert dindex[..] == seq(DICTSZ, _ => 0);
      assert dchar[..] == seq(DICTSZ, _ => 0);
      LimitBounds(f);
    }

    ghost predicate Safe()
      reads this, dindex
    {
      && q < 5 && f.Valid() && dindex.Length == dchar.Length == DICTSZ && dindex != dchar
      && curend < Base(q + 1) && Descends(dindex[..], Base(q), curend)
    }

    ghost function AsPass(): Pass
      reads this, dindex, dchar
    {
      Pass(q, f, dindex[..], dchar[..], curend, dcharp)
    }

    method PutPipe(index: nat, firstOnly: bool)
      modifies this`out
      ensures out == old(out) + [Item(index, firstOnly)]
    {
      out := out + [Item(index, firstOnly)];
    }

    method Root(i: nat) returns (t: nat)
      requires Safe() && i <= curend
      ensures t == RootOf(dindex[..], Base(q), i)
    {
      hide Base;
      BaseStep(q);
      var base := Base(q);
      t := i;
      while t >= base
        invariant t <= i && RootOf(dindex[..], base, i) == RootOf(dindex[..], base, t)
      {
        t := dindex[t - base];
      }
    }

    /** The spawned characters come out in order without a stack: each turn
        scans down from the index to the lowest entry not yet done. */
    method Spawn(i: nat)
      requires Safe() && i <= curend
      modifies this`out
      ensures out == old(out) + Spawned(dchar[..], Base(q), ChainOf(dindex[..], Base(q), i))
    {
      hide Base, RootOf, ChainOf, Spawned, Descends;
      BaseStep(q);
      var base := Base(q);
      ghost var chain := ChainOf(dindex[..], base, i);
      ChainClimbs(dindex[..], base, i, curend);
      SpawnedNone(dchar[..], base);
      ghost var k := 0;
      var tbase := base;
      while i >= tbase
        invariant 0 <= k <= |chain| && tbase == if k == 0 then base else chain[k - 1] + 1
        invariant out == old(out) + Spawned(dchar[..], base, chain[..k])
        decreases |chain| - k
      {
        ChainAbove(chain, k, i);
        var t := i;
        ghost var m := |chain| - 1;
        while dindex[t - base] >= tbase
          invariant k <= m < |chain| && t == chain[m]
          decreases m
        {
          t := dindex[t - base];
          m := m - 1;
        }
        ChainMonotone(chain, m, k);
        assert k > 0 ==> chain[k - 1] < chain[k];
        assert m == k;
        PutPipe(dchar[t - base], true);
        SpawnedNext(dchar[..], base, chain, k);
        k, tbase := k + 1, t + 1;
      }
      ChainDone(chain, k, i);
      assert chain[..|chain|] == chain;
    }

    /** The tables after a whole index. */
    method Record(i: nat, root: nat)
      requires Safe() && i <= curend
      modifies this`curend, this`dcharp, dindex, dchar
      ensures Safe() && i <= curend && AsPass() == Enter(old(AsPass()), i, root)
    {
      hide Base;
      BaseStep(q);
      var maxend := MaxEnd(q, f);
      if dcharp < DICTSZ {
        dchar[dcharp] := root;
        dcharp := dcharp + 1;
      }
      if curend < maxend {
        curend := curend + 1;
        if curend > Base(q) - 1 {
          dcharp := curend - Base(q);
          dindex[dcharp] := i;
        }
      }
    }

    /** getpipe and the body of the main loop, for one index. */
    method Handle(it: Item) returns (ok: bool)
      requires Safe()
      modifies this`curend, this`dcharp, this`out, dindex, dchar
      ensures Safe()
      ensures ok ==> Feed(old(AsPass()), it).Some? && AsPass() == Feed(old(AsPass()), it).value.0
                     && out == old(out) + Feed(old(AsPass()), it).value.1
      ensures !ok ==> Feed(old(AsPass()), it).None?
    {
      hide Base, RootOf, ChainOf, Spawned, Enter, Descends;
      if it.index > curend {
        return false;
      }
      if it.firstOnly {
        var t := Root(it.index);
        PutPipe(t, true);
      } else if it.index == 256 && f.block {
        if q > 0 {
          PutPipe(it.index, false);
        }
        Reset();
      } else {
        var t := Root(it.index);
        PutPipe(t, false);
        Record(it.index, t);
        Spawn(it.index);
      }
      return true;
    }

    method Reset()
      requires Safe() && curend >= f.First() - 1
      modifies this`curend, this`dcharp
      ensures Safe() && AsPass() == Start(q, f, dindex[..], dchar[..])
    {
      curend := f.First() - 1;
      dcharp := DICTSZ;
    }

    /** All of the input. */
    method Run(its: seq<Item>) returns (ok: bool)
      requires Safe() && out == []
      modifies this`curend, this`dcharp, this`out, dindex, dchar
      ensures ok ==> FeedAll(old(AsPass()), its).Some? && out == FeedAll(old(AsPass()), its).value.1
      ensures !ok ==> FeedAll(old(AsPass()), its).None?
    {
      hide Feed, Base, Descends;
      ghost var s := AsPass();
      var n := 0;
      while n < |its|
        invariant 0 <= n <= |its| && Safe()
        invariant FeedAll(s, its[..n]) == Some((AsPass(), out))
      {
        assert its[..n + 1] == its[..n] + [its[n]];
        FeedAllAppend(s, its[..n], [its[n]]);
        FeedOne(AsPass(), its[n]);
        ok := Handle(its[n]);
        if !ok {
          FeedFails(s, its, n + 1);
          return;
        }
        n := n + 1;
      }
      assert its[..n] == its;
      ok := true;
    }
  }

  /** Invalid data in the front part stops the pass whatever follows. */
  lemma {:induction false} FeedFails(s: Pass, its: seq<Item>, n: nat)
    requires s.Wf() && n <= |its| && FeedAll(s, its[..n]).None?
    ensures FeedAll(s, its).None?
    decreases n
  {
    hide Feed;
    if n != 0 {
      assert its[..n][1..] == its[1..][..n - 1];
      if Feed(s, its[0]).Some? {
        FeedFails(Feed(s, its[0]).value.0, its[1..], n - 1);
      }
    }
  }

  lemma SpawnedNone(dchar: seq<nat>, base: nat)
    ensures Spawned(dchar, base, []) == []
  {
  }

  lemma SpawnedNext(dchar: seq<nat>, base: nat, chain: seq<nat>, k: nat)
    requires k < |chain| && base <= chain[k] < base + |dchar|
    ensures Spawned(dchar, base, chain[..k + 1])
      == Spawned(dchar, base, chain[..k]) + [Item(dchar[chain[k] - base], true)]
  {
    assert chain[..k + 1][..k] == chain[..k];
  }

  /** Later entries of a chain are larger. */
  lemma {:induction false} ChainMonotone(chain: seq<nat>, m: nat, k: nat)
    requires k <= m < |chain| && forall j :: 1 <= j < |chain| ==> chain[j - 1] < chain[j]
    ensures k < m ==> chain[k] <= chain[m - 1]
    ensures k > 0 ==> chain[k - 1] < chain[m]
    ensures chain[k] <= chain[m]
  {
    if k < m {
      ChainMonotone(chain, m - 1, k);
    }
  }

  lemma ChainAbove(chain: seq<nat>, k: nat, i: nat)
    requires k <= |chain| && (k > 0 && k == |chain| ==> chain[k - 1] < i)
    requires chain != [] ==> chain[|chain| - 1] == i
    requires k == 0 ==> chain != []
    ensures k < |chain|
  {
  }

  lemma ChainDone(chain: seq<nat>, k: nat, i: nat)
    requires k <= |chain| && (chain != [] ==> chain[|chain| - 1] == i)
    requires k > 0 ==> chain[k - 1] >= i
    requires k == 0 ==> chain == []
    requires forall j :: 1 <= j < |chain| ==> chain[j - 1] < chain[j]
    ensures k == |chain|
  {
    if 0 < k < |chain| {
      ChainMonotone(chain, |chain| - 1, k);
    }
  }

  // ------------------------------------------------------------ the pipeline

  function Zeros(): (z: seq<nat>)
    ensures |z| == DICTSZ
  {
    seq(DICTSZ, _ => 0)
  }

  function PassOut(q: nat, f: Format, its: seq<Item>): Option<seq<Item>>
    requires q < 5 && f.Valid()
  {
    match FeedAll(Start(q, f, Zeros(), Zeros()), its)
    case None => None
    case Some((_, out)) => Some(out)
  }

  /** Pass `q` and the passes below it. */
  function Pipeline(q: nat, f: Format, its: seq<Item>): Option<seq<Item>>
    requires q < 5 && f.Valid()
  {
    match PassOut(q, f, its)
    case None => None
    case Some(out) => if q == 0 then Some(out) else Pipeline(q - 1, f, out)
  }

  function Whole(codes: seq<nat>): seq<Item> {
    seq(|codes|, k requires 0 <= k < |codes| => Item(codes[k], false))
  }

  /** Pass 0 writes each index as a character. */
  function BytesOf(its: seq<Item>): (bs: seq<byte>)
    ensures |bs| == |its|
  {
    seq(|its|, k requires 0 <= k < |its| => its[k].index % 256)
  }

  function DecodeFrom(f: Format, d: Decoder, codes: seq<nat>): Option<Decoder>
    decreases |codes|
  {
    if codes == [] then Some(d)
    else match Decode1(f, d, codes[0])
      case None => None
      case Some(d') => DecodeFrom(f, d', codes[1..])
  }

  lemma {:induction false} DecodeFromAppend(f: Format, d: Decoder, codes: seq<nat>, c: nat)
    ensures DecodeFrom(f, d, codes + [c]) == match DecodeFrom(f, d, codes)
                                             case None => None
                                             case Some(d') => Decode1(f, d', c)
    decreases |codes|
  {
    hide Decode1;
    if codes == [] {
      assert (codes + [c])[1..] == [];
    } else {
      assert (codes + [c])[1..] == codes[1..] + [c];
      match Decode1(f, d, codes[0]) {
        case None =>
        case Some(d') => DecodeFromAppend(f, d', codes[1..], c);
      }
    }
  }

  lemma {:induction false} DecodeBothWays(f: Format, codes: seq<nat>)
    ensures DecodeFrom(f, START, codes) == DecodeCodes(f, codes)
    decreases |codes|
  {
    hide Decode1;
    if codes != [] {
      var k := |codes| - 1;
      DecodeBothWays(f, codes[..k]);
      DecodeFromAppend(f, START, codes[..k], codes[k]);
      assert codes[..k] + [codes[k]] == codes;
    }
  }

  ghost predicate DecoderOk(f: Format, d: Decoder) {
    && f.First() + |d.strs| <= f.Limit() && (d.prev == [] ==> d.strs == [])
    && forall i :: 0 <= i < |d.strs| ==> d.strs[i] != []
  }

  lemma DecoderStays(f: Format, d: Decoder, c: nat)
    requires f.Valid() && DecoderOk(f, d) && Decode1(f, d, c).Some?
    ensures DecoderOk(f, Decode1(f, d, c).value)
  {
    LimitBounds(f);
    if !f.IsClear(c) {
      LearnCases(f, d, c, Decode1(f, d, c).value);
    }
  }

  /** Whole codes carry themselves above the last pass. */
  lemma {:induction false} TopCarries(f: Format, d: Decoder, codes: seq<nat>) returns (groups: seq<seq<Item>>)
    requires f.Valid() && DecoderOk(f, d) && DecodeFrom(f, d, codes).Some?
    ensures Carries(f, Base(5), d, codes, groups) && Concat(groups) == Whole(codes)
    decreases |codes|
  {
    hide Decode1;
    if codes == [] {
      groups := [];
    } else {
      var c := codes[0];
      var d' := Decode1(f, d, c).value;
      DecoderStays(f, d, c);
      var more := TopCarries(f, d', codes[1..]);
      groups := [[Item(c, false)]] + more;
      assert groups[1..] == more;
      assert Whole(codes) == [Item(c, false)] + Whole(codes[1..]);
      LimitBounds(f);
      ItemsTextSingle(f, d'.strs, Item(c, false));
      if !f.IsClear(c) {
        LearnCases(f, d, c, d');
        KnownNonempty(f, d'.strs, c);
        assert FirstItems(f, Base(5), d'.strs, [Item(c, false)][1..]);
      }
    }
  }

  /** Below pass 0 every item is one character of the text. */
  lemma {:induction false} CharsText(f: Format, strs: seq<seq<byte>>, its: seq<Item>)
    requires forall k :: 0 <= k < |its| ==> its[k].index < 256
    ensures ItemsText(f, strs, its) == BytesOf(its)
  {
    if its != [] {
      var k := |its| - 1;
      CharsText(f, strs, its[..k]);
      assert BytesOf(its) == BytesOf(its[..k]) + [its[k].index];
    }
  }

  lemma BytesOfAppend(a: seq<Item>, b: seq<Item>)
    ensures BytesOf(a + b) == BytesOf(a) + BytesOf(b)
  {
  }

  lemma {:induction false} BottomText(f: Format, d: Decoder, codes: seq<nat>, groups: seq<seq<Item>>)
    requires f.Valid() && DecoderOk(f, d) && Carries(f, 256, d, codes, groups)
    ensures DecodeFrom(f, d, codes).Some? && DecodeFrom(f, d, codes).value.text == d.text + BytesOf(Concat(groups))
    decreases |codes|
  {
    hide BytesOf, ItemsText, Stands;
    if codes == [] {
      assert BytesOf([]) == [];
    } else {
      var c, g := codes[0], groups[0];
      var d' := Decode1(f, d, c).value;
      DecoderStays(f, d, c);
      BottomText(f, d', codes[1..], groups[1..]);
      BytesOfAppend(g, Concat(groups[1..]));
      if f.IsClear(c) {
        assert BytesOf(g) == [];
      } else {
        LearnCases(f, d, c, d');
        GroupChars(f, d', c, g);
      }
    }
  }

  lemma GroupChars(f: Format, d': Decoder, c: nat, g: seq<Item>)
    requires g != [] && Stands(f, 256, c, d', g[0].index) && FirstItems(f, 256, d'.strs, g[1..])
    ensures ItemsText(f, d'.strs, g) == BytesOf(g)
  {
    forall k | 0 <= k < |g|
      ensures g[k].index < 256
    {
      if k > 0 {
        assert FirstItem(f, 256, d'.strs, g[1..][k - 1]);
      }
    }
    CharsText(f, d'.strs, g);
  }

  lemma {:induction false} PipelineCarries(q: nat, f: Format, codes: seq<nat>, groups: seq<seq<Item>>)
    returns (outs: seq<seq<Item>>)
    requires q < 5 && f.Valid() && Carries(f, Base(q + 1), START, codes, groups)
    ensures Pipeline(q, f, Concat(groups)) == Some(Concat(outs)) && Carries(f, 256, START, codes, outs)
  {
    hide Base, Carries, FeedAll, PassOk;
    StartOk(q, f, Zeros(), Zeros());
    var s;
    s, outs := PassCarries(Start(q, f, Zeros(), Zeros()), START, codes, groups);
    BaseStep(0);
    if q > 0 {
      outs := PipelineCarries(q - 1, f, codes, outs);
    }
  }

  /** The five passes write what one dictionary would. */
  lemma PipelineDecodes(f: Format, codes: seq<nat>)
    requires f.Valid() && DecodeCodes(f, codes).Some?
    ensures Pipeline(4, f, Whole(codes)).Some?
    ensures BytesOf(Pipeline(4, f, Whole(codes)).value) == DecodeCodes(f, codes).value.text
  {
    hide Base, Carries, FeedAll, BytesOf;
    LimitBounds(f);
    DecodeBothWays(f, codes);
    var groups := TopCarries(f, START, codes);
    var outs := PipelineCarries(4, f, codes, groups);
    BottomText(f, START, codes, outs);
    assert START.text + BytesOf(Concat(outs)) == BytesOf(Concat(outs));
  }
}
