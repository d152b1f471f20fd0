/** The pipes between the passes of decomp16: putpipe packs the first-only flags
    of fifteen indices into a word of their own, getpipe unpacks them. */
module Decomp16Pipe {
  import opened Common
  import opened LzwBits
  import opened LzwSpec
  import opened Decomp16

  const BUFSZ_2: nat := 512
  const EOF_INDEX: nat := 0xFFFF

  /** The flags of a block, the first one highest. */
  function FlagWord(its: seq<Item>): nat {
    if its == [] then 0 else 2 * FlagWord(its[..|its| - 1]) + if its[|its| - 1].firstOnly then 1 else 0
  }

  function Indices(its: seq<Item>): (ws: seq<nat>)
    ensures |ws| == |its|
  {
    seq(|its|, i requires 0 <= i < |its| => its[i].index)
  }

  /** Whole blocks: the flags and then the fifteen indices. */
  function Blocks(its: seq<Item>): (ws: seq<nat>)
    requires |its| % 15 == 0
    ensures |ws| * 15 == |its| * 16
  {
    if its == [] then [] else [FlagWord(its[..15])] + Indices(its[..15]) + Blocks(its[15..])
  }

  lemma {:induction false} FlagFront(it: Item, rest: seq<Item>)
    ensures FlagWord([it] + rest) == (if it.firstOnly then Pow2(|rest|) else 0) + FlagWord(rest)
    decreases |rest|
  {
    if rest != [] {
      var all := [it] + rest;
      assert all[..|all| - 1] == [it] + rest[..|rest| - 1];
      FlagFront(it, rest[..|rest| - 1]);
    } else {
      assert [it] + rest == [it] && [it][..0] == [];
    }
  }

  lemma {:induction false} FlagBound(its: seq<Item>)
    ensures FlagWord(its) < Pow2(|its|)
    decreases |its|
  {
    if its != [] { FlagBound(its[..|its| - 1]); }
  }

  lemma {:induction false} BlocksAppend(a: seq<Item>, b: seq<Item>)
    requires |a| % 15 == 0 && |b| == 15
    ensures Blocks(a + b) == Blocks(a) + [FlagWord(b)] + Indices(b)
    decreases |a|
  {
    if a == [] {
      assert a + b == b && b[..15] == b && b[15..] == [];
      assert Blocks([]) == [];
    } else {
      assert (a + b)[..15] == a[..15] && (a + b)[15..] == a[15..] + b;
      BlocksAppend(a[15..], b);
    }
  }

  // ------------------------------------------------------------------ writing

  class PipeWriter {
    var written: seq<nat>
    const opbuf: array<nat>
    var opbufind: nat
    var flags: nat
    var flagp: nat
    var n: nat
    /** The items in whole blocks, those of the block under way, and the number
        of blocks before it in the buffer. */
    ghost var whole: seq<Item>
    ghost var part: seq<Item>
    ghost var block: nat

    /** Between two blocks. */
    ghost predicate Closed()
      reads this, opbuf
    {
      && opbuf.Length == BUFSZ_2 && n == 0 && part == [] && |whole| % 15 == 0 && block < 32 && opbufind == 16 * block
      && |written| % BUFSZ_2 == 0 && written + opbuf[..opbufind] == Blocks(whole)
    }

    /** In a block. */
    ghost predicate Open()
      reads this, opbuf
    {
      && opbuf.Length == BUFSZ_2 && n == |part| <= 15 && |whole| % 15 == 0 && block < 32
      && flagp == 16 * block && opbufind == flagp + 1 + n
      && |written| % BUFSZ_2 == 0 && written + opbuf[..flagp] == Blocks(whole) && flags == FlagWord(part)
      && opbuf[flagp + 1..opbufind] == Indices(part)
    }

    ghost predicate Valid()
      reads this, opbuf
    {
      if n == 0 then Closed() else Open() && n < 15
    }

    ghost function Items(): seq<Item>
      reads this
    {
      whole + part
    }

    constructor ()
      ensures Valid() && Items() == [] && fresh(opbuf)
    {
      written, opbufind, flags, flagp, n := [], 0, 0, 0, 0;
      opbuf := new nat[BUFSZ_2](_ => 0);
      whole, part, block := [], [], 0;
    }

    /** Keep a place for the flags. */
    method Reserve()
      requires Closed()
      modifies this`flags, this`flagp, this`opbufind
      ensures Open() && opbufind == old(opbufind) + 1
    {
      hide Blocks;
      flags := 0;
      flagp := opbufind;
      opbufind := opbufind + 1;
    }

    method Add(u: nat, flag: bool)
      requires Open() && n < 15
      modifies this`flags, this`opbufind, this`n, this`part, opbuf
      ensures Open() && part == old(part) + [Item(u, flag)] && opbufind == old(opbufind) + 1
    {
      hide Blocks;
      ghost var was, before := part, opbuf[..flagp];
      opbuf[opbufind] := u;
      opbufind := opbufind + 1;
      flags := 2 * flags + if flag then 1 else 0;
      part := part + [Item(u, flag)];
      n := n + 1;
      assert part[..|part| - 1] == was;
      assert opbuf[..flagp] == before;
      assert opbuf[flagp + 1..opbufind] == Indices(part);
    }

    /** Put in the flags, and write the buffer if it is full. */
    method Close()
      requires Open() && n == 15
      modifies this`written, this`opbufind, this`n, this`whole, this`part, this`block, opbuf
      ensures Closed() && whole == old(whole + part)
      ensures opbufind == 0 || opbufind == old(opbufind)
    {
      hide Blocks, FlagWord, Indices;
      ghost var before, inside := opbuf[..flagp], opbuf[flagp + 1..opbufind];
      n := 0;
      opbuf[flagp] := flags;
      BlocksAppend(whole, part);
      assert opbuf[..opbufind] == before + [flags] + inside;
      whole, part, block := whole + part, [], block + 1;
      if opbufind >= BUFSZ_2 {
        assert opbuf[..] == opbuf[..opbufind];
        written := written + opbuf[..];
        opbufind, block := 0, 0;
      }
    }

    method PutPipe(u: nat, flag: bool)
      requires Valid()
      modifies this, opbuf
      ensures Valid() && Items() == old(Items()) + [Item(u, flag)]
      ensures if opbufind == 0 then n == 0 else old(opbufind) < opbufind <= BUFSZ_2
    {
      hide Blocks, FlagWord, Indices;
      if n == 0 {
        Reserve();
      }
      Add(u, flag);
      if n >= 15 {
        Close();
      }
    }

    /** die: fill the buffer with end marks until it is written. */
    method Finish() returns (ghost marks: seq<Item>)
      requires Valid()
      modifies this, opbuf
      ensures marks != [] && (forall i :: 0 <= i < |marks| ==> marks[i] == Item(EOF_INDEX, false))
      ensures |written| % BUFSZ_2 == 0 && |old(Items()) + marks| % 15 == 0 && written == Blocks(old(Items()) + marks)
    {
      hide Blocks, FlagWord, Indices, Open;
      ghost var its := Items();
      PutPipe(EOF_INDEX, false);
      marks := [Item(EOF_INDEX, false)];
      while opbufind != 0
        invariant Valid() && Items() == its + marks && marks != [] && opbufind <= BUFSZ_2 && (opbufind == 0 ==> n == 0)
        invariant forall i :: 0 <= i < |marks| ==> marks[i] == Item(EOF_INDEX, false)
        decreases if opbufind == 0 then 0 else 1 + BUFSZ_2 - opbufind
      {
        PutPipe(EOF_INDEX, false);
        marks := marks + [Item(EOF_INDEX, false)];
      }
      assert whole == its + marks && written + opbuf[..0] == written;
    }
  }

  // ------------------------------------------------------------------ reading

  /** The flags of the items, the first one worth `v`, the next half of it. */
  function Top(its: seq<Item>, v: nat): nat {
    if its == [] then 0 else (if its[0].firstOnly then v else 0) + Top(its[1..], v / 2)
  }

  lemma {:induction false} TopDoubles(its: seq<Item>, m: nat)
    requires |its| <= m + 1
    ensures 2 * Top(its, Pow2(m)) == Top(its, Pow2(m + 1)) && Top(its, Pow2(m)) < Pow2(m + 1)
    decreases |its|
  {
    if its != [] && m > 0 { TopDoubles(its[1..], m - 1); }
  }

  lemma {:induction false} TopWord(its: seq<Item>, m: nat)
    requires |its| == m + 1
    ensures FlagWord(its) == Top(its, Pow2(m))
    decreases m
  {
    var rest := its[1..];
    assert its == [its[0]] + rest;
    FlagFront(its[0], rest);
    if m > 0 { TopWord(rest, m - 1); }
  }

  /** The flags of the items left in a block; above them is the flag of the last
      one taken. */
  ghost predicate FlagsLeft(flags: nat, left: seq<Item>) {
    |left| <= 15 && flags < 0x10000 && flags % 0x8000 == Top(left, 0x4000)
  }

  lemma Powers()
    ensures Pow2(13) == 0x2000 && Pow2(14) == 0x4000 && Pow2(15) == 0x8000
  {
    Pow2Values();
    assert Pow2(13) == 2 * Pow2(12) == 4 * Pow2(11) == 8 * Pow2(10);
  }

  lemma FlagsStart(its: seq<Item>)
    requires |its| == 15
    ensures FlagsLeft(FlagWord(its), its)
  {
    hide FlagWord, Top, Pow2;
    Powers();
    TopWord(its, 14);
    TopDoubles(its, 14);
  }

  lemma FlagsShift(flags: nat, left: seq<Item>)
    requires FlagsLeft(flags, left) && left != []
    ensures FlagsLeft(2 * flags % 0x10000, left[1..]) && (2 * flags % 0x10000 >= 0x8000 <==> left[0].firstOnly)
  {
    hide Pow2;
    Powers();
    TopDoubles(left[1..], 13);
    assert 2 * flags % 0x10000 == 2 * (flags % 0x8000);
  }

  /** The words still to be read, with `n` items of a block left in front. */
  ghost predicate Coming(words: seq<nat>, flags: nat, n: nat, ahead: seq<Item>) {
    && n <= |ahead| && |ahead[n..]| % 15 == 0 && FlagsLeft(flags, ahead[..n])
    && words == Indices(ahead[..n]) + Blocks(ahead[n..])
  }

  lemma ComingAll(its: seq<Item>)
    requires |its| % 15 == 0
    ensures Coming(Blocks(its), 0, 0, its)
  {
    hide Blocks;
    assert its[..0] == [] && its[0..] == its && Indices([]) + Blocks(its) == Blocks(its);
  }

  lemma ComingWords(words: seq<nat>, flags: nat, ahead: seq<Item>)
    requires Coming(words, flags, 0, ahead)
    ensures |ahead| % 15 == 0 && words == Blocks(ahead)
  {
    hide Blocks;
    assert ahead[..0] == [] && ahead[0..] == ahead && Indices([]) + Blocks(ahead) == Blocks(ahead);
  }

  lemma FirstBlock(its: seq<Item>)
    requires |its| % 15 == 0 && its != []
    ensures |its| >= 15 && |its[15..]| % 15 == 0
    ensures Blocks(its) == [FlagWord(its[..15])] + Indices(its[..15]) + Blocks(its[15..])
  {
  }

  lemma ComingBlock(words: seq<nat>, flags: nat, ahead: seq<Item>)
    requires Coming(words, flags, 0, ahead) && ahead != []
    ensures words != [] && Coming(words[1..], words[0], 15, ahead)
  {
    hide Blocks, Indices, FlagWord;
    ComingWords(words, flags, ahead);
    FirstBlock(ahead);
    var first, more := ahead[..15], Blocks(ahead[15..]);
    FlagsStart(first);
    assert words[1..] == Indices(first) + more;
  }

  lemma ComingItem(words: seq<nat>, flags: nat, n: nat, ahead: seq<Item>)
    requires Coming(words, flags, n, ahead) && n > 0
    ensures words != [] && ahead[0] == Item(words[0], 2 * flags % 0x10000 >= 0x8000)
    ensures Coming(words[1..], 2 * flags % 0x10000, n - 1, ahead[1..])
  {
    hide Blocks, FlagsLeft;
    var left, more := ahead[..n], Blocks(ahead[n..]);
    FlagsShift(flags, left);
    NextWord(words, left, more);
    assert ahead[1..][..n - 1] == left[1..] && ahead[1..][n - 1..] == ahead[n..];
  }

  lemma NextWord(words: seq<nat>, left: seq<Item>, more: seq<nat>)
    requires left != [] && words == Indices(left) + more
    ensures words != [] && words[0] == left[0].index && words[1..] == Indices(left[1..]) + more
  {
    assert Indices(left)[1..] == Indices(left[1..]);
  }

  class PipeReader {
    var input: seq<nat>
    var ipbuf: seq<nat>
    var ipbufind: nat
    var flags: nat
    var n: nat
    /** The items still to come, and the number of blocks begun in the buffer. */
    ghost var ahead: seq<Item>
    ghost var block: nat

    ghost predicate Valid()
      reads this
    {
      && |ipbuf| == BUFSZ_2 && |input| % BUFSZ_2 == 0 && block <= 32 && n <= 15 && ipbufind + n == 16 * block
      && Coming(ipbuf[ipbufind..] + input, flags, n, ahead)
    }

    constructor (words: seq<nat>, ghost its: seq<Item>)
      requires |its| % 15 == 0 && words == Blocks(its) && |words| % BUFSZ_2 == 0
      ensures Valid() && ahead == its
    {
      input, ipbuf, ipbufind, flags, n := words, seq(BUFSZ_2, _ => 0), BUFSZ_2, 0, 0;
      ahead, block := its, 32;
      new;
      hide Coming, Blocks;
      ComingAll(its);
      assert ipbuf[ipbufind..] + input == words;
    }

    /** Read the next buffer from the pipe. */
    method Refill()
      requires Valid() && n == 0 && ipbufind == BUFSZ_2 && ahead != []
      modifies this`input, this`ipbuf, this`ipbufind, this`block
      ensures Valid() && ipbufind == 0
    {
      hide Coming;
      assert ipbuf[ipbufind..] + input == input;
      ComingBlock(input, flags, ahead);
      ipbuf, input, ipbufind := input[..BUFSZ_2], input[BUFSZ_2..], 0;
      block := 0;
      assert ipbuf[0..] + input == old(input);
    }

    /** Take the flags of a block. */
    method Begin()
      requires Valid() && n == 0 && ipbufind < BUFSZ_2 && ahead != []
      modifies this`flags, this`ipbufind, this`n, this`block
      ensures Valid() && n == 15
    {
      hide Coming;
      ghost var words := ipbuf[ipbufind..] + input;
      ComingBlock(words, flags, ahead);
      assert words[0] == ipbuf[ipbufind] && words[1..] == ipbuf[ipbufind + 1..] + input;
      flags := ipbuf[ipbufind];
      ipbufind := ipbufind + 1;
      n := 15;
      block := block + 1;
    }

    /** getpipe: the next index and its flag. */
    method GetPipe() returns (it: Item)
      requires Valid() && ahead != []
      modifies this
      ensures Valid() && it == old(ahead[0]) && ahead == old(ahead[1..])
    {
      hide Coming;
      if n == 0 {
        if ipbufind >= BUFSZ_2 {
          Refill();
        }
        Begin();
      }
      ghost var words := ipbuf[ipbufind..] + input;
      ComingItem(words, flags, n, ahead);
      assert words[0] == ipbuf[ipbufind] && words[1..] == ipbuf[ipbufind + 1..] + input;
      var index := ipbuf[ipbufind];
      ipbufind := ipbufind + 1;
      flags := 2 * flags % 0x10000;
      n := n - 1;
      it := Item(index, flags >= 0x8000);
      ahead := ahead[1..];
    }
  }

  /** Through a pipe comes what was put in, item for item, up to the end mark. */
  method Through(its: seq<Item>) returns (back: seq<Item>)
    requires forall i :: 0 <= i < |its| ==> its[i].index != EOF_INDEX
    ensures back == its
  {
    hide Blocks, Coming, FlagWord, Indices;
    var w := new PipeWriter();
    var i := 0;
    while i < |its|
      invariant i <= |its| && w.Valid() && w.Items() == its[..i] && fresh(w) && fresh(w.opbuf)
    {
      w.PutPipe(its[i].index, its[i].firstOnly);
      assert its[..i + 1] == its[..i] + [Item(its[i].index, its[i].firstOnly)];
      i := i + 1;
    }
    assert its[..i] == its;
    ghost var marks := w.Finish();
    ghost var all := its + marks;
    var r := new PipeReader(w.written, all);
    back := [];
    while true
      invariant r.Valid() && |back| <= |its| && back == its[..|back|] && r.ahead == all[|back|..] && fresh(r)
      decreases |its| - |back|
    {
      assert all[|back|..][0] == all[|back|];
      var it := r.GetPipe();
      if it.index == EOF_INDEX {
        return;
      }
      assert all[|back|..][1..] == all[|back| + 1..];
      back := back + [it];
    }
  }

  // ----------------------------------------------------------------- the passes

  /** A pass below the top takes no index as high as the end mark. */
  lemma {:induction false} Accepted(s: Pass, its: seq<Item>)
    requires s.Wf() && s.q < 4 && s.curend < EOF_INDEX && FeedAll(s, its).Some?
    ensures forall i :: 0 <= i < |its| ==> its[i].index != EOF_INDEX
    decreases |its|
  {
    hide RootOf, Spawned, ChainOf;
    if its != [] {
      var s1 := Feed(s, its[0]).value.0;
      assert s1.curend < EOF_INDEX by { EndBelow(s, its[0]); }
      Accepted(s1, its[1..]);
    }
  }

  lemma EndBelow(s: Pass, it: Item)
    requires s.Wf() && s.q < 4 && s.curend < EOF_INDEX && Feed(s, it).Some?
    ensures Feed(s, it).value.0.curend < EOF_INDEX
  {
    hide RootOf, Spawned, ChainOf, Pow2;
    assert MaxEnd(s.q, s.f) < EOF_INDEX;
  }

  ghost function PassesLeft(q: nat, f: Format, its: seq<Item>): Option<seq<Item>>
    requires q < 5 && f.Valid()
  {
    if q == 0 then Some(its) else Pipeline(q - 1, f, its)
  }

  /** The copies below `top`, each reading from a pipe what the one above wrote. */
  method RunBelow(f: Format, top: nat, its: seq<Item>) returns (out: seq<Item>)
    requires top < 5 && f.Valid() && PassesLeft(top, f, its).Some?
    ensures Some(out) == PassesLeft(top, f, its)
  {
    hide FeedAll;
    out := its;
    var q := top;
    while q > 0
      invariant 0 <= q <= top && PassesLeft(q, f, out) == PassesLeft(top, f, its)
    {
      q := q - 1;
      Accepted(Start(q, f, Decomp16.Zeros(), Decomp16.Zeros()), out);
      out := Through(out);
      var p := new Process(q, f);
      var ok := p.Run(out);
      out := p.out;
    }
  }

  /** All five copies, as with the flags -4 to -0, on whole indices. */
  method RunPasses(f: Format, codes: seq<nat>) returns (text: seq<byte>)
    requires f.Valid() && DecodeCodes(f, codes).Some?
    ensures text == DecodeCodes(f, codes).value.text
  {
    hide DecodeCodes, FeedAll, BytesOf;
    PipelineDecodes(f, codes);
    var p := new Process(4, f);
    var ok := p.Run(Whole(codes));
    var its := RunBelow(f, 4, p.out);
    text := BytesOf(its);
  }
}
