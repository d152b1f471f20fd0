/** compress: the code writer, the look-up and the main loop. */
module LzwCompress {
  import opened Common
  import opened LzwBits
  import opened LzwSpec
  import opened LzwFrame
  import opened LzwPrime
  import opened LzwTable
  import opened LzwEncode

  // ------------------------------------------------------------- arithmetic

  lemma WidthProduct(k: nat, n: nat)
    requires 9 <= n <= 16
    ensures k < 8 ==> k * n + n <= 8 * n
    ensures k * n + n == (k + 1) * n
    ensures k * n == 8 * n ==> k == 8
    ensures k * n == 0 ==> k == 0
  {
    assert k < 8 ==> (8 - k) * n >= n;
    assert k > 8 ==> (k - 8) * n >= n;
  }

  /** The widths compress uses.  With a limit of nine bits it still goes to ten. */
  predicate WidthOk(f: Format, w: Width) {
    || w == NARROW
    || (10 <= w.bits <= (if f.maxbits < 10 then 10 else f.maxbits)
        && w.top == if w.bits == f.maxbits then f.Limit() else Pow2(w.bits) - 1)
  }

  lemma WidenOk(f: Format, w: Width, free: nat)
    requires f.Valid() && WidthOk(f, w) && w.top < free <= f.Limit()
    requires free <= w.top + 1
    ensures WidthOk(f, Wider(f, w)) && free <= Wider(f, w).top
  {
    Pow2Values();
    assert Pow2(w.bits + 1) == 2 * Pow2(w.bits);
    if w.bits > f.maxbits {
      Pow2Increases(f.maxbits, w.bits);
    }
  }

  lemma WidthBounds(f: Format, w: Width)
    requires f.Valid() && WidthOk(f, w)
    ensures 9 <= w.bits <= 16 && 511 <= w.top && Pow2(w.bits) >= 512 && f.Limit() >= 512
  {
    Pow2Values();
    Pow2Increases(9, w.bits);
    Pow2Increases(9, f.maxbits);
  }

  /** Every code that can be emitted fits the width. */
  lemma CodeFits(f: Format, w: Width, code: nat, free: nat)
    requires f.Valid() && WidthOk(f, w) && code < free <= w.top + 1 && free <= f.Limit()
    ensures code < Pow2(w.bits)
  {
    Pow2Values();
    assert w.bits == f.maxbits ==> Pow2(w.bits) == f.Limit();
  }

  // -------------------------------------------------------------- the writer

  /** The globals of compress.c that `output` works on.  The ghost fields say
      what the bytes and the buffer hold: `done` are the codes already in
      `out`, `pend` those still in `buf`, and `st` is where a reader of `out`
      stands. */
  class Compressor {
    const f: Format
    var out: seq<byte>
    const buf: array<byte>
    var offset: nat
    var nBits: nat
    var maxcode: nat
    var freeEnt: nat
    var clearFlg: bool
    const htab: array<int>
    const codetab: array<nat>
    ghost var done: seq<nat>
    ghost var pend: seq<nat>
    ghost var st: Reader

    constructor (f: Format)
      requires f.Valid()
      ensures this.f == f && fresh(buf) && fresh(htab) && fresh(codetab)
      ensures BufferOk() && TablesOk() && Codes() == [] && ReaderFree() == f.First() - 1
      ensures !clearFlg && offset == 0 && Now() == Empty(f)
    {
      this.f := f;
      out, offset := [], 0;
      buf := new byte[16](_ => 0);
      nBits, maxcode := INIT_BITS, 511;
      freeEnt := f.First();
      clearFlg := false;
      htab := new int[HSIZE](_ => -1);
      codetab := new nat[HSIZE](_ => 0);
      done, pend, st := [], [], Reopen(f, []);
      new;
      WrittenNothing(f);
      WidthBounds(f, NARROW);
    }

    ghost function Codes(): seq<nat>
      reads this
    {
      done + pend
    }

    ghost function ReaderFree(): nat
      reads this
    {
      AdvanceAll(f, st.free, pend)
    }

    function W(): Width
      reads this
    {
      Width(nBits, maxcode)
    }

    ghost predicate TablesOk() {
      htab.Length == HSIZE && codetab.Length == HSIZE
    }

    ghost predicate BufferOk()
      reads this, buf
    {
      buf.Length == 16 && Holds(f, out, buf[..], offset, W(), done, pend, st)
    }

    /** output, for a code.  A reader of the bytes gets this code next. */
    method Output(code: nat)
      requires BufferOk() && code < Pow2(nBits)
      requires clearFlg <==> f.IsClear(code)
      requires !clearFlg ==> freeEnt == Advance(f, ReaderFree(), code)
      requires clearFlg ==> freeEnt <= maxcode
      modifies this`out, this`offset, this`nBits, this`maxcode, this`clearFlg, this`done, this`pend, this`st, buf
      ensures BufferOk() && !clearFlg
      ensures Codes() == old(Codes()) + [code]
      ensures ReaderFree() == Advance(f, old(ReaderFree()), code)
    {
      hide Holds, AfterFlush, Flatten, Packed, AdvanceAll, Open, Written, BitsOf, Pow2, WidthOk, Fit;
      HoldsBounds(f, out, buf[..], offset, W(), done, pend, st);
      ghost var was, all := buf[..], pend + [code];
      PutBits(buf, offset, nBits, code);
      ghost var st' := AfterFlush(f, st, W(), buf[..], pend, code);
      HoldsMore(f, out, was, buf[..], offset, W(), done, pend, st, code);
      offset := offset + nBits;
      if offset == nBits * 8 || freeEnt > maxcode || clearFlg {
        done, pend, st := done + all, [], st';
      } else {
        pend := all;
      }
      if offset == nBits * 8 {
        out := out + buf[..nBits];
        offset := 0;
      }
      if freeEnt > maxcode || clearFlg {
        if offset > 0 {
          out := out + buf[..nBits];
        }
        offset := 0;
        if clearFlg {
          nBits, maxcode := INIT_BITS, 511;
          clearFlg := false;
        } else {
          nBits := nBits + 1;
          maxcode := if nBits == f.maxbits then f.Limit() else Pow2(nBits) - 1;
        }
      }
    }

    /** output, for the end of the file. */
    method OutputEof()
      requires BufferOk()
      modifies this`out, this`offset
      ensures Unpack(f, Reopen(f, out)) == Some(Codes())
      ensures old(offset) == 0 ==> out == old(out) && BufferOk()
    {
      hide Holds, Unpack;
      EofOk(f, out, buf[..], offset, W(), done, pend, st);
      if offset > 0 {
        out := out + buf[..(offset + 7) / 8];
      }
      offset := 0;
    }

    /** The tables and what has been sent, as values. */
    ghost function Now(): Tables
      reads this, htab, codetab
    {
      Tables(htab[..], codetab[..], freeEnt, Codes())
    }

    /** The slots in use. */
    ghost function Used(): set<nat>
      reads htab
    {
      UsedIn(htab[..])
    }

    /** Look for `key`, first where it hashes to, then along the probe
        sequence.  A key that is in the table is found; a miss gives a slot for
        it.  Slots that hold key 0 count as free once the first probe has
        failed. */
    method Find(key: nat, c: byte, ent: nat) returns (hit: bool, i: nat)
      requires f.Valid() && TablesOk() && |Used()| < HSIZE && Findable(f, htab[..]) && ent < f.Limit()
      requires key == Key(f, c, ent)
      ensures i < HSIZE
      ensures hit <==> key in htab[..]
      ensures hit <==> htab[i] == key
      ensures !hit ==> htab[i] <= 0 && Comes(htab[..], Home(f, key), i)
      ensures i == Look(htab[..], key, Home(f, key), 0)
    {
      hide SlotAt, Hash, Home, Findable, Key, Look;
      HomeOf(f, c, ent);
      i := Hash(c, ent);
      ghost var i0, k, seen := i, 0, {i};
      SlotStart(i0, Disp(i0));
      if htab[i] == key {
        LookStops(htab[..], key, i0, 0);
        return true, i;
      } else if htab[i] < 0 {
        LookStops(htab[..], key, i0, 0);
        NotThere(f, htab[..], key, 0);
        return false, i;
      }
      var disp := if i == 0 then 1 else HSIZE - i;
      SeenBound(seen, Used());
      LookOn(htab[..], key, i0, 0);
      while true
        invariant i < HSIZE && i == SlotAt(i0, disp, k)
        invariant forall j: nat :: j <= k ==> Passes(htab[..], i0, j) && htab[SlotAt(i0, disp, j)] != key
        invariant seen <= Used() && |seen| == k + 1 && k + 1 < HSIZE
        invariant Look(htab[..], key, i0, 0) == Look(htab[..], key, i0, k + 1)
        invariant forall s :: s in seen ==> exists j :: 0 <= j <= k && s == SlotAt(i0, disp, j)
        decreases |Used()| - |seen|
      {
        SeenBound(seen, Used());
        SlotStep(i0, disp, k);
        i := if i < disp then i - disp + HSIZE else i - disp;
        NewSlot(i0, disp, k, seen);
        if htab[i] == key {
          LookStops(htab[..], key, i0, k + 1);
          return true, i;
        }
        if htab[i] <= 0 {
          LookStops(htab[..], key, i0, k + 1);
          NotThere(f, htab[..], key, k + 1);
          return false, i;
        }
        k, seen := k + 1, seen + {i};
        SeenBound(seen, Used());
        LookOn(htab[..], key, i0, k);
      }
    }

    /** cl_hash */
    method ClearHash()
      requires TablesOk()
      modifies htab
      ensures htab[..] == NoKeys()
    {
      var i := HSIZE;
      while i > 0
        invariant 0 <= i <= HSIZE
        invariant forall j :: i <= j < HSIZE ==> htab[j] == -1
      {
        i := i - 1;
        htab[i] := -1;
      }
    }

    /** Between characters: the codes sent decode to `d`, and `ent` is the
        current string. */
    ghost predicate Encoding(ent: nat, text: seq<byte>, d: Decoder, strs: seq<seq<byte>>)
      reads this, buf, htab, codetab
    {
      && BufferOk() && TablesOk() && !clearFlg
      && DecodeCodes(f, Codes()) == Some(d)
      && Agrees(f, d, strs, ent, ReaderFree(), text)
      && freeEnt == f.First() + |strs|
      && TableOk(f, strs, htab[..], codetab[..]) && |Used()| <= |strs|
    }

    /** Send the current string's code. */
    method Send(ent: nat, ghost text: seq<byte>, ghost d: Decoder, ghost strs: seq<seq<byte>>, ghost input: seq<byte>)
      requires Encoding(ent, text, d, strs) && Greedy(f, Codes(), input)
      requires GreedyStep(Decoder(strs, StringOf(f, strs, ent), text), input)
      modifies this`out, this`offset, this`nBits, this`maxcode, this`clearFlg, this`done, this`pend, this`st, buf
      ensures BufferOk() && !clearFlg
      ensures DecodeCodes(f, Codes()) == Some(Decoder(strs, StringOf(f, strs, ent), text))
      ensures ReaderFree() == Advance(f, old(ReaderFree()), ent)
      ensures Greedy(f, Codes(), input) && Codes() == old(Codes()) + [ent]
    {
      hide Holds, Agrees, AdvanceAll, Decode1, TableOk, DecodeCodes, Pow2, Greedy, GreedyStep;
      HoldsWidth(f, out, buf[..], offset, W(), done, pend, st);
      AgreesFree(f, d, strs, ent, ReaderFree(), text);
      CodeFits(f, W(), ent, freeEnt);
      ExpandAgrees(f, d, strs, ent, ReaderFree(), text);
      DecodeAppend(f, Codes(), ent, d);
      GreedyMore(f, Codes(), ent, Decoder(strs, StringOf(f, strs, ent), text), input);
      Output(ent);
    }

    /** cl_block, once the ratio test has said to start over. */
    method ClearBlock(ghost c: byte, ghost text: seq<byte>, ghost d: Decoder, ghost strs: seq<seq<byte>>,
        ghost input: seq<byte>)
      requires Encoding(c, text, d, strs) && f.block && d.prev != [] && Greedy(f, Codes(), input)
      modifies this, buf, htab
      ensures Encoding(c, text, Decoder([], [], d.text), []) && Greedy(f, Codes(), input)
      ensures Now() == Tables(NoKeys(), old(codetab[..]), 257, old(Codes()) + [CLEAR])
    {
      hide Holds, Agrees, AdvanceAll, Decode1, DecodeCodes, Pow2, TableOk, Greedy, GreedyStep;
      HoldsWidth(f, out, buf[..], offset, W(), done, pend, st);
      WidthBounds(f, W());
      AgreesClear(f, d, strs, c, ReaderFree(), text);
      DecodeAppend(f, Codes(), CLEAR, d);
      GreedyMore(f, Codes(), CLEAR, Decoder([], [], d.text), input);
      ClearHash();
      freeEnt := 257;
      clearFlg := true;
      Output(CLEAR);
      NoneUsed(htab[..]);
      assert htab[..] == NoKeys();
      TableStart(f, htab[..], codetab[..]);
    }

    /** A string that is not in the table: send its longest known prefix, start
        again with `c`, and add the string or, when the table is full, perhaps
        clear it. */
    method Miss(i: nat, key: nat, c: byte, ent: nat, clear: bool,
                ghost text: seq<byte>, ghost d: Decoder, ghost strs: seq<seq<byte>>, ghost input: seq<byte>)
      returns (ghost d': Decoder, ghost strs': seq<seq<byte>>)
      requires Encoding(ent, text, d, strs) && Greedy(f, Codes(), input) && text + [c] <= input
      requires i < HSIZE && key == Key(f, c, ent) && key !in htab[..] && htab[i] <= 0
      requires Comes(htab[..], Home(f, key), i)
      modifies this, buf, htab, codetab
      ensures Encoding(c, text + [c], d', strs') && Greedy(f, Codes(), input)
      ensures Now() == Enter(f, old(Now()), i, key, ent, clear)
    {
      hide Holds, Agrees, AdvanceAll, Decode1, DecodeCodes, Pow2, TableOk, Greedy, GreedyStep, Key, Comes, Home;
      HoldsWidth(f, out, buf[..], offset, W(), done, pend, st);
      AgreesKnown(f, d, strs, ent, ReaderFree(), text);
      AgreesFree(f, d, strs, ent, ReaderFree(), text);
      ghost var s := StringOf(f, strs, ent);
      AgreesMiss(f, d, strs, ent, ReaderFree(), text, c);
      MissGreedy(f, d, strs, htab[..], codetab[..], ent, ReaderFree(), c, text, input);
      Send(ent, text, d, strs, input);
      d', strs' := Decoder(strs, s, text), if Full(f, strs) then strs else strs + [s + [c]];
      if freeEnt < f.Limit() {
        TableAdd(f, strs, htab[..], codetab[..], i, c, ent);
        ghost var was := htab[..];
        codetab[i] := freeEnt;
        htab[i] := key;
        freeEnt := freeEnt + 1;
        assert htab[..] == was[i := htab[..][i]];
        UsedAdd(was, htab[..], i);
      } else if clear && f.block {
        ClearBlock(c, text + [c], d', strs', input);
        d', strs' := Decoder([], [], text), [];
      }
    }
  }

  /** The buffer `bs` holds the codes `pend` in its first `offset` bits, after
      `done` went to `out`; `w` is the width of the next code. */
  ghost predicate Holds(f: Format, out: seq<byte>, bs: seq<byte>, offset: nat, w: Width,
                        done: seq<nat>, pend: seq<nat>, st: Reader)
  {
    && |bs| == 16 && f.Valid() && WidthOk(f, w)
    && Written(f, out, done, st) && NextWidth(f, st) == w
    && |pend| < 8 && offset == |pend| * w.bits && offset + w.bits <= 8 * w.bits
    && Fit(pend, w.bits) && Open(f, st.free, w.top, pend)
    && AdvanceAll(f, st.free, pend) <= w.top && AdvanceAll(f, st.free, pend) <= f.Limit()
    && Flatten(bs)[..offset] == Packed(pend, w.bits)
  }

  lemma HoldsBounds(f: Format, out: seq<byte>, bs: seq<byte>, offset: nat, w: Width,
                    done: seq<nat>, pend: seq<nat>, st: Reader)
    requires Holds(f, out, bs, offset, w, done, pend, st)
    ensures 9 <= w.bits <= 16 && |bs| == 16 && offset + w.bits <= 8 * w.bits && AdvanceAll(f, st.free, pend) <= w.top
  {
    WidthBounds(f, w);
  }

  /** Where a reader stands once the buffer with `code` in it is written out. */
  ghost function AfterFlush(f: Format, st: Reader, w: Width, bs: seq<byte>, pend: seq<nat>, code: nat): Reader {
    var k := |pend + [code]| * w.bits;
    Reader([], if k <= 8 * w.bits <= 8 * |bs| then Flatten(bs)[k..8 * w.bits] else [], w,
           AdvanceAll(f, st.free, pend + [code]), f.IsClear(code))
  }

  /** Facts about a buffer with one more code in it. */
  lemma CodeAdded(f: Format, free: nat, pend: seq<nat>, code: nat, n: nat, bits: seq<bool>)
    requires 1 <= n && |pend| * n + n <= |bits| && Fit(pend, n) && code < Pow2(n)
    requires bits[..|pend| * n] == Packed(pend, n) && bits[|pend| * n..|pend| * n + n] == BitsOf(code, n)
    ensures bits[..|pend| * n + n] == Packed(pend + [code], n) && Fit(pend + [code], n)
    ensures AdvanceAll(f, free, pend + [code]) == Advance(f, AdvanceAll(f, free, pend), code)
  {
    hide Packed, AdvanceAll, BitsOf, Pow2;
    SliceJoin(bits, 0, |pend| * n, |pend| * n + n);
    PackedAppend(pend, n, code);
    AdvanceAllAppend(f, free, pend, code);
  }

  /** One code into the buffer: either it stays open, or the reader will drop
      the buffer (or has used it up) after this code and it is written out. */
  lemma HoldsMore(f: Format, out: seq<byte>, was: seq<byte>, bs: seq<byte>, offset: nat, w: Width,
                  done: seq<nat>, pend: seq<nat>, st: Reader, code: nat)
    requires Holds(f, out, was, offset, w, done, pend, st) && |bs| == 16 && code < Pow2(w.bits)
    requires 1 <= w.bits && offset + w.bits <= 8 * w.bits <= 128
    requires Flatten(bs)[..offset] == Flatten(was)[..offset]
    requires Flatten(bs)[offset..offset + w.bits] == BitsOf(code, w.bits)
    ensures
      var all, st' := pend + [code], AfterFlush(f, st, w, bs, pend, code);
      var free := Advance(f, AdvanceAll(f, st.free, pend), code);
      && AdvanceAll(f, st.free, all) == free && AdvanceAll(f, st'.free, []) == free
      && done + pend + [code] == done + all == done + all + []
      && (if offset + w.bits == 8 * w.bits || free > w.top || f.IsClear(code)
          then Holds(f, out + bs[..w.bits], bs, 0,
                     if f.IsClear(code) then NARROW else if free > w.top then Wider(f, w) else w, done + all, [], st')
          else Holds(f, out, bs, offset + w.bits, w, done, all, st))
  {
    hide Flatten, Packed, AdvanceAll, Open, Written, BitsOf, Pow2, WidthOk, Fit, Wider;
    var all, st' := pend + [code], AfterFlush(f, st, w, bs, pend, code);
    var free := Advance(f, AdvanceAll(f, st.free, pend), code);
    WidthBounds(f, w);
    WidthProduct(|pend|, w.bits);
    WidthProduct(|pend| + 1, w.bits);
    CodeAdded(f, st.free, pend, code, w.bits, Flatten(bs));
    EmptyBuffer(f, free, w, bs);
    if offset + w.bits == 8 * w.bits || free > w.top || f.IsClear(code) {
      FlushOk(f, out, done, st, w, bs, pend, code, st');
      WidthAfter(f, w, free, code);
      EmptyBuffer(f, free, NextWidth(f, st'), bs);
    } else {
      OpenAppend(f, st.free, w.top, pend, code);
    }
  }

  lemma WidthAfter(f: Format, w: Width, free: nat, code: nat)
    requires f.Valid() && WidthOk(f, w) && free <= w.top + 1 && free <= f.Limit()
    ensures
      var w' := if f.IsClear(code) then NARROW else if free > w.top then Wider(f, w) else w;
      WidthOk(f, w') && (f.IsClear(code) ==> f.First() - 1 <= w'.top) && (!f.IsClear(code) ==> free <= w'.top)
  {
    if free > w.top {
      WidenOk(f, w, free);
    }
  }

  lemma EmptyBuffer(f: Format, free: nat, w: Width, bs: seq<byte>)
    ensures Packed([], w.bits) == [] && Open(f, free, w.top, []) && AdvanceAll(f, free, []) == free && Fit([], w.bits)
    ensures Flatten(bs)[..0] == []
  {
  }

  /** Writing out the whole buffer. */
  lemma FlushOk(f: Format, out: seq<byte>, done: seq<nat>, st: Reader, w: Width, bs: seq<byte>,
                pend: seq<nat>, code: nat, st': Reader)
    requires Written(f, out, done, st) && NextWidth(f, st) == w && 1 <= w.bits <= |bs| == 16
    requires Fit(pend + [code], w.bits) && Open(f, st.free, w.top, pend)
    requires |pend + [code]| * w.bits <= 8 * w.bits
    requires Flatten(bs)[..|pend + [code]| * w.bits] == Packed(pend + [code], w.bits)
    requires st' == AfterFlush(f, st, w, bs, pend, code) && MustRefill(st')
    ensures Written(f, out + bs[..w.bits], done + (pend + [code]), st')
  {
    hide Flatten, Packed, AdvanceAll, Open, Written, Fit;
    var bytes, k := bs[..w.bits], |pend + [code]| * w.bits;
    assert bytes[..w.bits] == bs[..w.bits];
    FlattenPrefix(bytes, bs, w.bits);
    assert Flatten(bytes)[..8 * w.bits] == Flatten(bytes);
    SliceJoin(Flatten(bs), 0, k, 8 * w.bits);
    WrittenFrame(f, out, done, st, w, bytes, pend, code, st'.frame, st');
  }

  lemma {:induction false} OpenPrefix(f: Format, free: nat, top: nat, codes: seq<nat>, last: nat)
    requires Open(f, free, top, codes + [last])
    ensures Open(f, free, top, codes)
    decreases |codes|
  {
    if codes != [] {
      assert (codes + [last])[1..] == codes[1..] + [last];
      OpenPrefix(f, Advance(f, free, codes[0]), top, codes[1..], last);
    }
  }

  /** The last buffer, cut to the bytes its codes need. */
  lemma EofOk(f: Format, out: seq<byte>, bs: seq<byte>, offset: nat, w: Width,
              done: seq<nat>, pend: seq<nat>, st: Reader)
    requires Holds(f, out, bs, offset, w, done, pend, st)
    ensures offset <= 128 && |bs| == 16
    ensures Unpack(f, Reopen(f, if offset > 0 then out + bs[..(offset + 7) / 8] else out)) == Some(done + pend)
  {
    hide Flatten, Packed, AdvanceAll, Open, Written, WidthOk, Fit, Unpack;
    WidthBounds(f, w);
    WidthProduct(|pend|, w.bits);
    if offset == 0 {
      assert done + pend == done;
      WrittenAll(f, out, done, st);
    } else {
      var k := (offset + 7) / 8;
      var bytes, codes, last := bs[..k], pend[..|pend| - 1], pend[|pend| - 1];
      assert pend == codes + [last];
      assert bytes[..k] == bs[..k];
      FlattenPrefix(bytes, bs, k);
      assert Flatten(bytes)[..8 * k] == Flatten(bytes);
      SliceJoin(Flatten(bs), 0, offset, 8 * k);
      OpenPrefix(f, st.free, w.top, codes, last);
      WrittenShort(f, out, done, st, w, bytes, codes, last, Flatten(bs)[offset..8 * k]);
    }
  }

  // ------------------------------------------------- encoder against decoder

  /** The encoder has `strs` and is about to send `ent`; the decoder, at `d`,
      is one entry behind.  Together they cover `text`. */
  ghost predicate Agrees(f: Format, d: Decoder, strs: seq<seq<byte>>, ent: nat, free: nat, text: seq<byte>) {
    && Known(f, strs, ent) && (forall i :: 0 <= i < |strs| ==> strs[i] != [])
    && strs == Learn(f, d, StringOf(f, strs, ent)[0])
    && d.text + StringOf(f, strs, ent) == text
    && f.First() + |d.strs| <= f.Limit()
    && free == (if d.prev == [] then f.First() - 1 else f.First() + |d.strs|)
    && (d.prev == [] ==> d.strs == [])
  }

  lemma AgreesFree(f: Format, d: Decoder, strs: seq<seq<byte>>, ent: nat, free: nat, text: seq<byte>)
    requires f.Valid() && Agrees(f, d, strs, ent, free, text)
    ensures ent < f.First() + |strs| == Advance(f, free, ent) <= f.Limit() && !f.IsClear(ent)
  {
    WidthBounds(f, NARROW);
  }

  /** Before any code: the first character. */
  lemma AgreesStart(f: Format, c: byte)
    requires f.Valid()
    ensures Agrees(f, START, [], c, f.First() - 1, [c])
  {
    WidthBounds(f, NARROW);
  }

  /** A hit makes the current string one character longer. */
  lemma AgreesHit(f: Format, d: Decoder, strs: seq<seq<byte>>, ent: nat, free: nat, text: seq<byte>, c: byte, code: nat)
    requires Agrees(f, d, strs, ent, free, text) && ent < f.Limit()
    requires EntryOk(f, strs, Key(f, c, ent), code)
    ensures Agrees(f, d, strs, code, free, text + [c])
  {
    KeyParts(c, ent, f.maxbits);
    var s := StringOf(f, strs, ent);
    assert d.text + (s + [c]) == d.text + s + [c];
    assert (s + [c])[0] == s[0];
  }

  /** The decoder finds for `ent` the string the encoder meant, also when it is
      the entry it has not made yet. */
  lemma ExpandAgrees(f: Format, d: Decoder, strs: seq<seq<byte>>, ent: nat, free: nat, text: seq<byte>)
    requires f.Valid() && Agrees(f, d, strs, ent, free, text)
    ensures Expand(f, d, ent) == Some(StringOf(f, strs, ent))
    ensures Decode1(f, d, ent) == Some(Decoder(strs, StringOf(f, strs, ent), text))
  {
    AgreesFree(f, d, strs, ent, free, text);
    var s := StringOf(f, strs, ent);
    if ent >= 256 && ent - f.First() == |d.strs| {
      assert s == d.prev + [s[0]];
      assert s[0] == d.prev[0];
    }
  }

  /** A miss: `ent` is sent and a string is added while there is room. */
  lemma AgreesMiss(f: Format, d: Decoder, strs: seq<seq<byte>>, ent: nat, free: nat, text: seq<byte>, c: byte)
    requires f.Valid() && Agrees(f, d, strs, ent, free, text)
    ensures
      var s := StringOf(f, strs, ent);
      var d' := Decoder(strs, s, text);
      && Decode1(f, d, ent) == Some(d') && s != []
      && Agrees(f, d', if Full(f, strs) then strs else strs + [s + [c]], c, Advance(f, free, ent), text + [c])
  {
    AgreesFree(f, d, strs, ent, free, text);
    ExpandAgrees(f, d, strs, ent, free, text);
  }

  /** A CLEAR after a miss. */
  lemma AgreesClear(f: Format, d: Decoder, strs: seq<seq<byte>>, c: byte, free: nat, text: seq<byte>)
    requires f.Valid() && f.block && Agrees(f, d, strs, c, free, text) && d.prev != []
    ensures Decode1(f, d, CLEAR) == Some(Decoder([], [], d.text))
    ensures Agrees(f, Decoder([], [], d.text), [], c, f.First() - 1, text)
  {
    WidthBounds(f, NARROW);
  }

  ghost function UsedIn(keys: seq<int>): set<nat> {
    set i: nat | i < |keys| && keys[i] >= 0
  }

  lemma UsedAdd(was: seq<int>, now: seq<int>, i: nat)
    requires i < |was| == |now| && now == was[i := now[i]]
    ensures |UsedIn(now)| <= |UsedIn(was)| + 1
  {
    SeenBound(UsedIn(now), UsedIn(was) + {i});
  }

  lemma HoldsWidth(f: Format, out: seq<byte>, bs: seq<byte>, offset: nat, w: Width,
                   done: seq<nat>, pend: seq<nat>, st: Reader)
    requires Holds(f, out, bs, offset, w, done, pend, st)
    ensures f.Valid() && WidthOk(f, w) && AdvanceAll(f, st.free, pend) <= w.top
    ensures AdvanceAll(f, st.free, pend) <= f.Limit()
  {
  }

  lemma AgreesKnown(f: Format, d: Decoder, strs: seq<seq<byte>>, ent: nat, free: nat, text: seq<byte>)
    requires Agrees(f, d, strs, ent, free, text)
    ensures Known(f, strs, ent)
  {
  }

  lemma NoneUsed(keys: seq<int>)
    requires UsedIn(keys) == {}
    ensures forall i :: 0 <= i < |keys| ==> keys[i] < 0
  {
    forall i: nat | i < |keys|
      ensures keys[i] < 0
    {
      assert i !in UsedIn(keys);
    }
  }

  lemma DecodeAppend(f: Format, codes: seq<nat>, code: nat, d: Decoder)
    requires DecodeCodes(f, codes) == Some(d)
    ensures DecodeCodes(f, codes + [code]) == Decode1(f, d, code)
  {
    assert (codes + [code])[..|codes|] == codes;
  }

  // -------------------------------------------------------------- compress()

  /** The style byte: maxbits | block_compress. */
  function Style(f: Format): (b: byte)
    requires f.Valid()
    ensures b % 32 == f.maxbits && (b >= 128 <==> f.block)
  {
    f.maxbits + if f.block then 128 else 0
  }

  /** The main loop, from the first character to the end of the file. */
  method EncodeText(z: Compressor, input: seq<byte>, worse: nat -> bool)
    requires input != [] && z.BufferOk() && z.TablesOk() && !z.clearFlg
    requires z.Now() == Empty(z.f) && z.ReaderFree() == z.f.First() - 1
    modifies z, z.buf, z.htab, z.codetab
    ensures z.f.Valid() && Decode(z.f, z.out) == Some(input)
    ensures Unpack(z.f, Reopen(z.f, z.out)) == Some(Encode(z.f, input, worse))
    ensures Greedy(z.f, Encode(z.f, input, worse), input)
  {
    hide Agrees, Holds, TableOk, Unpack, DecodeCodes, AdvanceAll, UsedIn, Pow2, Key, EntryOk, Hash, Greedy, GreedyStep,
         Comes, Home, Look, After, Enter, NoKeys;
    var ent: nat := input[0];
    ghost var d, strs := START, [];
    ghost var f := z.f;
    EncodingStart(z, input[0]);
    GreedyNone(f, input);
    AfterOne(f, input, worse);
    var p: nat, inCount: nat, checkpoint: nat := 1, 1, CHECK_GAP;
    assert z.Codes() == [];
    assert input[..1] == [input[0]];
    while p < |input|
      invariant 1 <= p <= |input| && z.f == f
      invariant z.Encoding(ent, input[..p], d, strs) && Greedy(f, z.Codes(), input)
      invariant f.Valid() && After(f, input, p, worse) == Enc(z.Now(), ent, inCount, checkpoint)
    {
      var c := input[p];
      assert input[..p + 1] == input[..p] + [c];
      inCount := inCount + 1;
      EncodingBounds(z, ent, input[..p], d, strs);
      var key := Key(z.f, c, ent);
      var hit, i := z.Find(key, c, ent);
      if hit {
        AfterHit(f, input, p, worse, i);
        TableHit(f, strs, z.htab[..], z.codetab[..], i);
        AgreesHit(f, d, strs, ent, z.ReaderFree(), input[..p], c, z.codetab[i]);
        ent := z.codetab[i];
      } else {
        AfterMiss(f, input, p, worse, i, z.freeEnt >= z.f.Limit() && inCount >= checkpoint && z.f.block);
        var clear := false;
        if z.freeEnt >= z.f.Limit() && inCount >= checkpoint && z.f.block {
          checkpoint := inCount + CHECK_GAP;
          clear := worse(inCount);
        }
        d, strs := z.Miss(i, key, c, ent, clear, input[..p], d, strs, input);
        ent := c;
      }
      p := p + 1;
    }
    assert input[..p] == input;
    LastGreedy(f, d, strs, ent, z.ReaderFree(), input);
    z.Send(ent, input, d, strs, input);
    z.OutputEof();
  }

  lemma MissGreedy(f: Format, d: Decoder, strs: seq<seq<byte>>, keys: seq<int>, codes: seq<nat>, ent: nat, free: nat,
                   c: byte, text: seq<byte>, input: seq<byte>)
    requires TableOk(f, strs, keys, codes) && Agrees(f, d, strs, ent, free, text) && Key(f, c, ent) !in keys
    requires text + [c] <= input
    ensures GreedyStep(Decoder(strs, StringOf(f, strs, ent), text), input)
  {
    hide TableOk, Key, Learn, Longest;
    var s := StringOf(f, strs, ent);
    var at := |text| - |s|;
    assert text[at..] == s;
    assert s + [c] <= input[at..] by { assert (text + [c])[at..] == s + [c]; }
    MissLongest(f, strs, keys, codes, ent, c, input[at..]);
  }

  lemma LastGreedy(f: Format, d: Decoder, strs: seq<seq<byte>>, ent: nat, free: nat, text: seq<byte>)
    requires Agrees(f, d, strs, ent, free, text)
    ensures GreedyStep(Decoder(strs, StringOf(f, strs, ent), text), text)
  {
    hide Learn;
    var s := StringOf(f, strs, ent);
    assert text[|text| - |s|..] == s;
  }

  lemma EncodingStart(z: Compressor, c: byte)
    requires z.BufferOk() && z.TablesOk() && !z.clearFlg && z.Now() == Empty(z.f) && z.ReaderFree() == z.f.First() - 1
    ensures z.f.Valid() && z.Encoding(c, [c], START, [])
  {
    assert z.Used() == {};
    WidthBounds(z.f, NARROW);
    NoneUsed(z.htab[..]);
    AgreesStart(z.f, c);
  }

  lemma EncodingBounds(z: Compressor, ent: nat, text: seq<byte>, d: Decoder, strs: seq<seq<byte>>)
    requires z.Encoding(ent, text, d, strs)
    ensures z.f.Valid() && ent < z.f.Limit() && |z.Used()| < HSIZE && Findable(z.f, z.htab[..])
  {
    AgreesFree(z.f, d, strs, ent, z.ReaderFree(), text);
    Pow2Values();
    Pow2Increases(z.f.maxbits, 16);
  }

  /** compress: whatever the ratio test `worse` answers, the file holds the
      codes of `Encode` and decodes to the input; and each code stands for the
      longest string that could be sent, without exemption if the input has no
      two zero bytes side by side. */
  method Compress(f: Format, input: seq<byte>, worse: nat -> bool) returns (file: seq<byte>)
    requires f.Valid()
    ensures DecodeFile(file) == Some(input)
    ensures |file| >= 3 && Format(file[2] % 32, file[2] >= 128) == f
    ensures Unpack(f, Reopen(f, file[3..])) == Some(Encode(f, input, worse))
    ensures Greedy(f, Encode(f, input, worse), input)
    ensures !TwoZeros(input) ==> TrulyGreedy(f, Encode(f, input, worse), input)
  {
    hide Holds, Unpack, AdvanceAll, UsedIn, After, Greedy, TrulyGreedy, TwoZeros;
    var z := new Compressor(f);
    if input == [] {
      z.OutputEof();
      z.OutputEof();
      assert Decode(f, z.out) == Some([]);
      GreedyNone(f, input);
    } else {
      EncodeText(z, input, worse);
    }
    file := [0x1F, 0x9D, Style(f)] + z.out;
    assert file[3..] == z.out;
    if !TwoZeros(input) { GreedyTruly(f, Encode(f, input, worse), input); }
  }
}
