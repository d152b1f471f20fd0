/** decompress: the prefix/suffix tables, the output stack and getcode. */
module LzwDecompress {
  import opened Common
  import opened LzwBits
  import opened LzwSpec
  import opened LzwPrime
  import opened LzwCompress

  /** The part of the hash table's memory left over after the suffix table:
      69001 four-byte cells less 65536 bytes. */
  const STACK_SIZE: nat := 4 * HSIZE - 65536

  /** Entry `i` of the tables spells `strs[i]`: a known earlier code and one
      more character. */
  ghost predicate EntrySpells(f: Format, strs: seq<seq<byte>>, prefix: seq<nat>, suffix: seq<byte>, i: nat)
    requires i < |strs| && |prefix| == |suffix| == 65536 && f.First() + |strs| <= 65536
  {
    var code := f.First() + i;
    && prefix[code] < code && Known(f, strs, prefix[code]) && |strs[i]| <= i + 2
    && strs[i] == StringOf(f, strs, prefix[code]) + [suffix[code]]
  }

  ghost predicate Spells(f: Format, strs: seq<seq<byte>>, prefix: seq<nat>, suffix: seq<byte>) {
    && |prefix| == |suffix| == 65536 && f.First() + |strs| <= 65536
    && (forall c :: 0 <= c < 256 ==> suffix[c] == c)
    && forall i: nat :: i < |strs| ==> EntrySpells(f, strs, prefix, suffix, i)
  }

  function Reverse(s: seq<byte>): (r: seq<byte>)
    ensures |r| == |s|
  {
    if s == [] then [] else Reverse(s[1..]) + [s[0]]
  }

  lemma {:induction false} ReverseAppend(a: seq<byte>, b: seq<byte>)
    ensures Reverse(a + b) == Reverse(b) + Reverse(a)
  {
    if a == [] {
      assert a + b == b;
    } else {
      ReverseAppend(a[1..], b);
      assert (a + b)[1..] == a[1..] + b;
    }
  }

  class Decompressor {
    const f: Format
    var input: seq<byte>
    var out: seq<byte>
    const buf: array<byte>
    var offset: nat
    var size: int
    ghost var got: nat
    var nBits: nat
    var maxcode: nat
    var freeEnt: nat
    var clearFlg: bool
    const tabPrefix: array<nat>
    const tabSuffix: array<byte>
    const stack: array<byte>

    constructor (f: Format, input: seq<byte>)
      requires f.Valid()
      ensures this.f == f && fresh(buf) && fresh(tabPrefix) && fresh(tabSuffix) && fresh(stack)
      ensures ReaderOk() && AsReader() == Reopen(f, input).(free := f.First())
      ensures tabPrefix.Length == tabSuffix.Length == 65536 && stack.Length == STACK_SIZE
      ensures stack != tabSuffix && buf != tabSuffix && buf != stack
      ensures Spells(f, [], tabPrefix[..], tabSuffix[..]) && out == []
    {
      this.f := f;
      this.input, out := input, [];
      buf := new byte[16](_ => 0);
      offset, size, got := 0, 0, 0;
      nBits, maxcode := INIT_BITS, 511;
      freeEnt := f.First();
      clearFlg := false;
      tabPrefix := new nat[65536](_ => 0);
      tabSuffix := new byte[65536](_ => 0);
      stack := new byte[STACK_SIZE](_ => 0);
      new;
      var code := 256;
      while code > 0
        invariant 0 <= code <= 256
        modifies tabPrefix, tabSuffix
        invariant forall c :: code <= c < 256 ==> tabSuffix[c] == c
      {
        code := code - 1;
        tabPrefix[code], tabSuffix[code] := 0, code;
      }
    }

    function W(): Width
      reads this
    {
      Width(nBits, maxcode)
    }

    ghost predicate ReaderOk()
      reads this, buf
    {
      && buf.Length == 16 && f.Valid() && WidthOk(f, W())
      && got <= nBits <= 16 && offset <= 8 * got
      && (size == 8 * got - (nBits - 1) || got == offset == size == 0)
    }

    ghost function AsReader(): Reader
      requires ReaderOk()
      reads this, buf
    {
      Reader(input, Flatten(buf[..])[offset..8 * got], W(), freeEnt, clearFlg)
    }

    /** fread of one buffer. */
    method Fill(k: nat)
      requires k <= |input| && k <= buf.Length
      modifies buf
      ensures buf[..k] == input[..k]
    {
      var i := 0;
      while i < k
        invariant i <= k && buf[..i] == input[..i]
      {
        buf[i] := input[i];
        i := i + 1;
      }
    }

    /** getcode.  The first part fetches a new buffer when the old one is used
        up or the width changes. */
    method Fetch() returns (k: nat)
      requires ReaderOk() && freeEnt <= maxcode + 1 && freeEnt <= f.Limit() && (clearFlg ==> freeEnt < 512)
      requires MustRefill(AsReader())
      modifies this`input, this`offset, this`size, this`got, this`nBits, this`maxcode, this`clearFlg, buf
      ensures ReaderOk() && freeEnt <= maxcode && !clearFlg
      ensures AsReader() == Refill(f, old(AsReader())) && k == got && offset == 0
    {
      hide Flatten, Pow2, WidthOk, MustRefill;
      NextWidthOk(f, AsReader());
      var w := W();
      if freeEnt > maxcode {
        w := Wider(f, w);
      }
      if clearFlg {
        w := NARROW;
      }
      WidthBounds(f, w);
      k := if |input| < w.bits then |input| else w.bits;
      Fill(k);
      FillBits(buf[..], input, k);
      nBits, maxcode, clearFlg := w.bits, w.top, false;
      input, got, offset, size := input[k..], k, 0, 8 * k - (nBits - 1);
    }

    method GetCode() returns (code: int)
      requires ReaderOk() && freeEnt <= maxcode + 1 && freeEnt <= f.Limit() && (clearFlg ==> freeEnt < 512)
      requires !LzwSpec.GetCode(f, AsReader()).Truncated?
      modifies this`input, this`offset, this`size, this`got, this`nBits, this`maxcode, this`clearFlg, buf
      ensures ReaderOk() && freeEnt <= maxcode && !clearFlg && (code == -1 || code >= 0)
      ensures LzwSpec.GetCode(f, old(AsReader())) == (if code < 0 then Eof else Code(code, AsReader()))
    {
      hide Flatten, Pow2, ValueOf, WidthOk, Refill, LzwSpec.GetCode, Take, NextWidth, BitsOf;
      WidthBounds(f, W());
      ghost var r := AsReader();
      Refills(f, r);
      if clearFlg || offset >= size || freeEnt > maxcode {
        var k := Fetch();
        if k == 0 {
          return -1;
        }
      }
      WidthBounds(f, W());
      code := GetBits(buf, offset, nBits);
      TakeAt(AsReader(), Flatten(buf[..]), offset, 8 * got);
      offset := offset + nBits;
    }

    /** Push the characters of a string, last one first. */
    method Unwind(code: nat, sp: nat, ghost strs: seq<seq<byte>>) returns (finchar: byte, top: nat)
      requires tabPrefix.Length == tabSuffix.Length == 65536 && stack.Length == STACK_SIZE && stack != tabSuffix
      requires Spells(f, strs, tabPrefix[..], tabSuffix[..]) && Known(f, strs, code)
      requires StringOf(f, strs, code) != [] && sp + |StringOf(f, strs, code)| <= STACK_SIZE
      modifies stack
      ensures top == sp + |StringOf(f, strs, code)| && finchar == StringOf(f, strs, code)[0]
      ensures stack[..top] == old(stack[..sp]) + Reverse(StringOf(f, strs, code))
    {
      hide Spells, Reverse, StringOf, Known;
      var c := code;
      top := sp;
      ghost var pushed: seq<byte> := [];
      ghost var s := StringOf(f, strs, code);
      SpellsStep(f, strs, tabPrefix[..], tabSuffix[..], c);
      assert Reverse([]) == [];
      while c >= 256
        invariant Known(f, strs, c) && StringOf(f, strs, c) != []
        invariant s == StringOf(f, strs, c) + pushed
        invariant top == sp + |pushed| && stack[..top] == old(stack[..sp]) + Reverse(pushed)
        decreases c
      {
        SpellsStep(f, strs, tabPrefix[..], tabSuffix[..], c);
        pushed := Pushed(tabSuffix[c], pushed);
        stack[top] := tabSuffix[c];
        c := tabPrefix[c];
        top := top + 1;
      }
      SpellsStep(f, strs, tabPrefix[..], tabSuffix[..], c);
      pushed := Pushed(tabSuffix[c], pushed);
      finchar := tabSuffix[c];
      stack[top] := finchar;
      top := top + 1;
      assert pushed == s;
    }

    /** Write the stack out, top first. */
    method PutStack(top: nat)
      requires 0 < top <= stack.Length
      modifies this`out
      ensures out == old(out) + Reverse(stack[..top])
    {
      var sp := top;
      while sp > 0
        invariant 0 <= sp <= top && out + Reverse(stack[..sp]) == old(out) + Reverse(stack[..top])
      {
        sp := sp - 1;
        ReverseAppend(stack[..sp], [stack[sp]]);
        assert stack[..sp + 1] == stack[..sp] + [stack[sp]];
        out := out + [stack[sp]];
      }
    }

    /** Between codes: the tables spell the dictionary of `d`, `oldcode` is the
        previous code and `finchar` the first character of its string. */
    ghost predicate Decoding(d: Decoder, oldcode: nat, finchar: byte)
      reads this, tabPrefix, tabSuffix
    {
      && tabPrefix.Length == tabSuffix.Length == 65536 && stack.Length == STACK_SIZE
      && stack != tabSuffix && buf != tabSuffix && buf != stack
      && Spells(f, d.strs, tabPrefix[..], tabSuffix[..]) && out == d.text
      && f.First() + |d.strs| <= f.Limit() <= 65536
      && if d.prev == [] then f.block && d.strs == [] && freeEnt == 256 && f.Limit() > 256
         else freeEnt == f.First() + |d.strs| && Known(f, d.strs, oldcode)
              && StringOf(f, d.strs, oldcode) == d.prev && finchar == d.prev[0]
    }

    /** The body of the main loop for a code other than CLEAR. */
    method Step(code: nat, oldcode: nat, finchar: byte, ghost d: Decoder) returns (fin: byte)
      requires Decoding(d, oldcode, finchar) && Decode1(f, d, code).Some? && !f.IsClear(code)
      modifies this`out, this`freeEnt, tabPrefix, tabSuffix, stack
      ensures Decoding(Decode1(f, d, code).value, code, fin)
      ensures freeEnt == Advance(f, old(freeEnt), code)
    {
      hide Spells, Reverse;
      ghost var s := Expand(f, d, code).value;
      var c, sp := code, 0;
      ExpandCases(f, d, code, oldcode, tabPrefix[..], tabSuffix[..]);
      if code >= freeEnt {
        stack[0] := finchar;
        c, sp := oldcode, 1;
      }
      ghost var below := stack[..sp];
      var top: nat;
      fin, top := Unwind(c, sp, d.strs);
      PutStack(top);
      ReverseTwice(below, StringOf(f, d.strs, c));
      SpellsLearn(f, d, oldcode, fin, code, s, tabPrefix[..], tabSuffix[..]);
      if freeEnt < f.Limit() {
        tabPrefix[freeEnt] := oldcode;
        tabSuffix[freeEnt] := fin;
        freeEnt := freeEnt + 1;
      }
    }
  }

  lemma Refills(f: Format, r: Reader)
    requires !LzwSpec.GetCode(f, r).Truncated?
    ensures
      var r' := if MustRefill(r) then Refill(f, r) else r;
      && LzwSpec.GetCode(f, r) == Take(r')
      && (r'.frame != [] ==> |r'.frame| >= r'.w.bits)
      && (r'.frame == [] ==> LzwSpec.GetCode(f, r) == Eof)
  {
    hide Flatten, ValueOf, Wider;
  }

  lemma TakeAt(r: Reader, bits: seq<bool>, offset: nat, end: nat)
    requires offset <= end <= |bits| && r.frame == bits[offset..end] && |r.frame| >= r.w.bits >= 1
    ensures Take(r) == Code(ValueOf(bits[offset..offset + r.w.bits]), r.(frame := bits[offset + r.w.bits..end]))
  {
    hide ValueOf;
    assert r.frame[..r.w.bits] == bits[offset..offset + r.w.bits];
    assert r.frame[r.w.bits..] == bits[offset + r.w.bits..end];
  }

  lemma NextWidthOk(f: Format, r: Reader)
    requires f.Valid() && WidthOk(f, r.w) && r.free <= r.w.top + 1 && r.free <= f.Limit()
    requires r.cleared ==> r.free < 512
    ensures WidthOk(f, NextWidth(f, r)) && r.free <= NextWidth(f, r).top
  {
    if r.free > r.w.top {
      WidenOk(f, r.w, r.free);
    }
  }

  lemma FillBits(bs: seq<byte>, input: seq<byte>, k: nat)
    requires k <= |bs| && k <= |input| && bs[..k] == input[..k]
    ensures Flatten(bs)[0..8 * k] == Flatten(input[..k])
  {
    hide Flatten;
    assert input[..k][..k] == input[..k];
    FlattenPrefix(bs, input[..k], k);
    assert Flatten(input[..k])[..8 * k] == Flatten(input[..k]);
  }

  lemma SpellsStep(f: Format, strs: seq<seq<byte>>, prefix: seq<nat>, suffix: seq<byte>, c: nat)
    requires Spells(f, strs, prefix, suffix) && Known(f, strs, c)
    ensures c < 65536 == |prefix| == |suffix|
    ensures c >= 256 ==> prefix[c] < c && Known(f, strs, prefix[c])
    ensures c >= 256 ==> StringOf(f, strs, c) == StringOf(f, strs, prefix[c]) + [suffix[c]]
    ensures c >= 256 ==> StringOf(f, strs, prefix[c]) != []
    ensures c < 256 ==> StringOf(f, strs, c) == [c] && suffix[c] == c
  {
    if c >= 256 {
      assert EntrySpells(f, strs, prefix, suffix, c - f.First());
      SpellsNonempty(f, strs, prefix, suffix, prefix[c]);
    }
  }

  lemma SpellsNonempty(f: Format, strs: seq<seq<byte>>, prefix: seq<nat>, suffix: seq<byte>, c: nat)
    requires Spells(f, strs, prefix, suffix) && Known(f, strs, c)
    ensures StringOf(f, strs, c) != [] && |StringOf(f, strs, c)| <= |strs| + 1
  {
    if c >= 256 {
      assert EntrySpells(f, strs, prefix, suffix, c - f.First());
    }
  }

  /** One more character on the stack. */
  lemma Pushed(ch: byte, pushed: seq<byte>) returns (more: seq<byte>)
    ensures more == [ch] + pushed && Reverse(more) == Reverse(pushed) + [ch]
  {
    ReverseAppend([ch], pushed);
    more := [ch] + pushed;
    assert Reverse([ch]) == [ch];
  }

  /** The table entry a code unwinds from, and the character pushed before it. */
  lemma ExpandCases(f: Format, d: Decoder, code: nat, oldcode: nat, prefix: seq<nat>, suffix: seq<byte>)
    requires Expand(f, d, code).Some? && Spells(f, d.strs, prefix, suffix)
    requires d.prev != [] ==> Known(f, d.strs, oldcode) && StringOf(f, d.strs, oldcode) == d.prev
    ensures
      var s := Expand(f, d, code).value;
      if d.prev == [] || code < f.First() + |d.strs|
      then Known(f, d.strs, code) && s == StringOf(f, d.strs, code) && s != [] && |s| <= |d.strs| + 1 <= 65536
      else code >= 256 && s == d.prev + [d.prev[0]] && |d.prev| <= |d.strs| + 1 <= 65536
    ensures d.prev == [] ==> code < 256
  {
    if d.prev != [] {
      SpellsNonempty(f, d.strs, prefix, suffix, oldcode);
    }
    if d.prev == [] || code < f.First() + |d.strs| {
      SpellsNonempty(f, d.strs, prefix, suffix, code);
    }
  }

  lemma ReverseTwice(below: seq<byte>, s: seq<byte>)
    requires |below| <= 1
    ensures Reverse(below + Reverse(s)) == s + below
  {
    ReverseAppend(below, Reverse(s));
    ReverseInvolution(s);
    assert |below| == 1 ==> below == [below[0]] && below[1..] == [];
  }

  lemma {:induction false} ReverseInvolution(s: seq<byte>)
    ensures Reverse(Reverse(s)) == s
  {
    if s != [] {
      ReverseAppend(Reverse(s[1..]), [s[0]]);
      ReverseInvolution(s[1..]);
      assert Reverse([s[0]]) == [s[0]];
    }
  }

  /** The new entry, whatever else is in the tables. */
  lemma SpellsLearn(f: Format, d: Decoder, oldcode: nat, fin: byte, code: nat, s: seq<byte>, prefix: seq<nat>,
      suffix: seq<byte>)
    requires Spells(f, d.strs, prefix, suffix) && Expand(f, d, code) == Some(s) && s != [] && fin == s[0]
    requires f.First() + |d.strs| <= f.Limit() <= 65536
    requires d.prev != [] ==> Known(f, d.strs, oldcode) && StringOf(f, d.strs, oldcode) == d.prev
    requires d.prev == [] ==> d.strs == [] && f.block
    ensures
      var strs := Learn(f, d, fin);
      var at := if d.prev == [] then 256 else f.First() + |d.strs|;
      && Known(f, strs, code) && StringOf(f, strs, code) == s
      && (if at < f.Limit() then Spells(f, strs, prefix[at := oldcode], suffix[at := fin])
          else Spells(f, strs, prefix, suffix))
  {
    var strs := Learn(f, d, fin);
    var at := if d.prev == [] then 256 else f.First() + |d.strs|;
    if at < f.Limit() {
      var p, q := prefix[at := oldcode], suffix[at := fin];
      if d.prev != [] {
        SpellsNonempty(f, d.strs, prefix, suffix, oldcode);
      }
      forall i: nat | i < |strs|
        ensures EntrySpells(f, strs, p, q, i)
      {
        if i < |d.strs| {
          assert EntrySpells(f, d.strs, prefix, suffix, i);
        }
      }
    }
  }

  // ------------------------------------------------------------ decompress()

  /** One code of an unpacked stream. */
  lemma UnpackStep(f: Format, r: Reader, rem: seq<nat>)
    requires r.w.bits >= 1 && Unpack(f, r) == Some(rem)
    ensures !LzwSpec.GetCode(f, r).Truncated?
    ensures rem == [] <==> LzwSpec.GetCode(f, r).Eof?
    ensures rem != [] ==>
              var g := LzwSpec.GetCode(f, r);
              var r' := g.next.(free := Advance(f, g.next.free, g.code), cleared := f.IsClear(g.code));
              g.code == rem[0] && r'.w.bits >= 1 && Unpack(f, r') == Some(rem[1..])
  {
    hide LzwSpec.GetCode;
    NextConsumes(f, r);
    if rem != [] {
      var r' := Next(f, r).next;
      assert rem == [Next(f, r).code] + Unpack(f, r').value;
    }
  }

  /** Decoding a stream decodes every part of it from the front. */
  lemma {:induction false} DecodePrefix(f: Format, codes: seq<nat>, k: nat)
    requires DecodeCodes(f, codes).Some? && k <= |codes|
    ensures DecodeCodes(f, codes[..k]).Some?
    decreases |codes|
  {
    if k < |codes| {
      assert codes[..|codes| - 1][..k] == codes[..k];
      DecodePrefix(f, codes[..|codes| - 1], k);
    } else {
      assert codes[..k] == codes;
    }
  }

  /** The decoder after one more code of a good stream. */
  lemma DecodeNext(f: Format, codes: seq<nat>, k: nat, d: Decoder)
    requires DecodeCodes(f, codes).Some? && k < |codes| && DecodeCodes(f, codes[..k]) == Some(d)
    ensures Decode1(f, d, codes[k]).Some? && DecodeCodes(f, codes[..k + 1]) == Decode1(f, d, codes[k])
  {
    DecodePrefix(f, codes, k + 1);
    assert codes[..k + 1][..k] == codes[..k];
  }

  /** The state between codes, seen from the whole stream: `k` codes are done,
      the reader will deliver the rest. */
  ghost predicate Reading(z: Decompressor, all: seq<nat>, k: nat, d: Decoder)
    reads z, z.buf
  {
    && z.ReaderOk() && k <= |all| && z.freeEnt <= z.maxcode + 1 && z.freeEnt <= z.f.Limit()
    && (z.clearFlg ==> z.freeEnt < 512)
    && DecodeCodes(z.f, all).Some? && DecodeCodes(z.f, all[..k]) == Some(d)
    && z.AsReader().w.bits >= 1 && Unpack(z.f, z.AsReader()) == Some(all[k..])
  }

  /** getcode, then the bookkeeping for CLEAR. */
  method NextCode(z: Decompressor, ghost all: seq<nat>, ghost k: nat, ghost d: Decoder) returns (code: int)
    requires Reading(z, all, k, d)
    modifies z`input, z`offset, z`size, z`got, z`nBits, z`maxcode, z`clearFlg, z.buf
    ensures code < 0 <==> k == |all|
    ensures code >= 0 ==>
              && code == all[k] && Decode1(z.f, d, code).Some?
              && z.ReaderOk() && z.freeEnt <= z.maxcode && !z.clearFlg && z.AsReader().w.bits >= 1
              && DecodeCodes(z.f, all[..k + 1]) == Decode1(z.f, d, code)
              && Unpack(z.f, z.AsReader().(free := Advance(z.f, z.freeEnt, code), cleared := z.f.IsClear(code)))
                == Some(all[k + 1..])
  {
    hide Unpack, DecodeCodes, Decode1, LzwSpec.GetCode, Flatten, WidthOk;
    UnpackStep(z.f, z.AsReader(), all[k..]);
    code := z.GetCode();
    if code >= 0 {
      DecodeNext(z.f, all, k, d);
      assert all[k..][1..] == all[k + 1..];
    }
  }

  lemma FirstFetch(f: Format, bytes: seq<byte>)
    requires f.Valid()
    ensures
      var r := Reopen(f, bytes);
      LzwSpec.GetCode(f, r.(free := f.First())) ==
      match LzwSpec.GetCode(f, r)
      case Code(c, n) => Code(c, n.(free := f.First()))
      case other => other
    ensures
      var g := LzwSpec.GetCode(f, Reopen(f, bytes));
      g.Code? ==> g.next.free == f.First() - 1 && !g.next.cleared
  {
    hide Flatten, ValueOf;
  }

  lemma FirstDecoded(f: Format, code: nat)
    requires Decode1(f, START, code).Some?
    ensures code < 256 && !f.IsClear(code) && Decode1(f, START, code) == Some(Decoder([], [code], [code]))
  {
    assert Expand(f, START, code) == Some([code]);
    assert START.text + [code] == [code];
  }

  /** The first code is one character. */
  method FirstCode(z: Decompressor, ghost bytes: seq<byte>, ghost all: seq<nat>) returns (code: int)
    requires z.ReaderOk() && z.AsReader() == Reopen(z.f, bytes).(free := z.f.First())
    requires Unpack(z.f, Reopen(z.f, bytes)) == Some(all) && DecodeCodes(z.f, all).Some?
    modifies z`input, z`offset, z`size, z`got, z`nBits, z`maxcode, z`clearFlg, z.buf
    ensures code < 0 <==> all == []
    ensures code >= 0 ==> code < 256 && code == all[0] && Reading(z, all, 1, Decoder([], [code], [code])) && !z.clearFlg
  {
    hide Unpack, LzwSpec.GetCode, Flatten, WidthOk, DecodeCodes, Pow2;
    WidthBounds(z.f, NARROW) by { assert WidthOk(z.f, z.W()); }
    FirstFetch(z.f, bytes);
    UnpackStep(z.f, Reopen(z.f, bytes), all);
    code := z.GetCode();
    if code >= 0 {
      assert all[..0] == [] && DecodeCodes(z.f, []) == Some(START) by { DecodeNone(z.f); }
      DecodeNext(z.f, all, 0, START);
      FirstDecoded(z.f, code);
    }
  }

  lemma DecodeNone(f: Format)
    ensures DecodeCodes(f, []) == Some(START)
  {
  }

  /** The main loop. */
  method DecodeText(z: Decompressor, ghost bytes: seq<byte>, ghost all: seq<nat>)
    requires z.ReaderOk() && z.AsReader() == Reopen(z.f, bytes).(free := z.f.First()) && z.out == []
    requires z.tabPrefix.Length == z.tabSuffix.Length == 65536 && z.stack.Length == STACK_SIZE
    requires z.stack != z.tabSuffix && z.buf != z.tabSuffix && z.buf != z.stack
    requires Spells(z.f, [], z.tabPrefix[..], z.tabSuffix[..])
    requires Unpack(z.f, Reopen(z.f, bytes)) == Some(all) && DecodeCodes(z.f, all).Some?
    modifies z, z.buf, z.tabPrefix, z.tabSuffix, z.stack
    ensures z.out == DecodeCodes(z.f, all).value.text
  {
    hide Unpack, DecodeCodes, Spells, Flatten, WidthOk, Pow2;
    ghost var f := z.f;
    DecodeNone(f);
    LimitBounds(f);
    var first := FirstCode(z, bytes, all);
    if first < 0 {
      return;
    }
    var oldcode: nat, finchar: byte := first, first;
    z.out := [finchar];
    ghost var k, d := 1, Decoder([], [finchar], [finchar]);
    var more := true;
    while more
      invariant more ==> z.f == f && Reading(z, all, k, d) && z.Decoding(d, oldcode, finchar)
      invariant !more ==> z.out == DecodeCodes(f, all).value.text
      decreases if more then |all| - k + 1 else 0
    {
      more, oldcode, finchar, k, d := DecodeOne(z, all, k, d, oldcode, finchar);
    }
  }

  /** What decompress does when it has read CLEAR. */
  method StartOver(z: Decompressor, ghost all: seq<nat>, ghost k: nat, ghost d: Decoder, ghost oldcode: nat,
      ghost finchar: byte)
    requires z.ReaderOk() && z.f.block && !z.clearFlg && z.freeEnt <= z.maxcode && k < |all|
    requires DecodeCodes(z.f, all).Some?
    requires z.Decoding(d, oldcode, finchar) && Decode1(z.f, d, CLEAR).Some?
    requires DecodeCodes(z.f, all[..k + 1]) == Decode1(z.f, d, CLEAR) && z.AsReader().w.bits >= 1
    requires Unpack(z.f, z.AsReader().(free := 256, cleared := true)) == Some(all[k + 1..])
    modifies z`clearFlg, z`freeEnt, z.tabPrefix
    ensures Reading(z, all, k + 1, Decoder([], [], d.text)) && z.Decoding(Decoder([], [], d.text), oldcode, finchar)
  {
    hide Unpack, DecodeCodes, Spells, Flatten, WidthOk, Pow2;
    LimitBounds(z.f);
    WidthBounds(z.f, z.W());
    ClearPrefixes(z, d.strs);
    z.clearFlg := true;
    z.freeEnt := 256;
  }

  /** One turn of the main loop: a code, or CLEAR and the code after it. */
  method DecodeOne(z: Decompressor, ghost all: seq<nat>, ghost k: nat, ghost d: Decoder, oldcode: nat, finchar: byte)
    returns (more: bool, old': nat, fin: byte, ghost k': nat, ghost d': Decoder)
    requires Reading(z, all, k, d) && z.Decoding(d, oldcode, finchar)
    modifies z, z.buf, z.tabPrefix, z.tabSuffix, z.stack
    ensures more ==> Reading(z, all, k', d') && z.Decoding(d', old', fin) && k < k' <= |all|
    ensures !more ==> z.out == DecodeCodes(z.f, all).value.text
  {
    hide Unpack, DecodeCodes, Spells, Flatten, WidthOk, Pow2, Known, StringOf;
    old', fin, k', d' := oldcode, finchar, k, d;
    assert all[..|all|] == all;
    var code := NextCode(z, all, k, d);
    if code >= 0 && code == CLEAR && z.f.block {
      StartOver(z, all, k, d, oldcode, finchar);
      k', d' := k + 1, Decoder([], [], d.text);
      code := NextCode(z, all, k', d');
    }
    if code < 0 {
      return false, old', fin, k', d';
    }
    fin := z.Step(code, oldcode, finchar, d');
    more, old', k', d' := true, code, k' + 1, Decode1(z.f, d', code).value;
  }

  method ClearPrefixes(z: Decompressor, ghost strs: seq<seq<byte>>)
    requires z.tabPrefix.Length == z.tabSuffix.Length == 65536
    requires Spells(z.f, strs, z.tabPrefix[..], z.tabSuffix[..])
    modifies z.tabPrefix
    ensures Spells(z.f, [], z.tabPrefix[..], z.tabSuffix[..])
  {
    var code := 256;
    while code > 0
      invariant 0 <= code <= 256
    {
      code := code - 1;
      z.tabPrefix[code] := 0;
    }
  }

  predicate HeaderOk(file: seq<byte>) {
    |file| >= 3 && file[0] == 0x1F && file[1] == 0x9D && 9 <= file[2] % 32 <= 16
  }

  /** decompress: a file with a good header and a sound body gives its text.
      What the program does with a corrupt body is not defined. */
  method Decompress(file: seq<byte>) returns (r: Option<seq<byte>>)
    requires HeaderOk(file) ==> DecodeFile(file).Some?
    ensures r == DecodeFile(file)
  {
    hide Unpack, DecodeCodes, Spells, Flatten, Pow2;
    if !HeaderOk(file) {
      return None;
    }
    var f := Format(file[2] % 32, file[2] >= 128);
    var z := new Decompressor(f, file[3..]);
    ghost var all := Unpack(f, Reopen(f, file[3..])).value;
    DecodeText(z, file[3..], all);
    r := Some(z.out);
  }

  /** compress and then decompress: every text, every format, every answer of
      the ratio test. */
  method RoundTrip(f: Format, input: seq<byte>, worse: nat -> bool) returns (back: Option<seq<byte>>)
    requires f.Valid()
    ensures back == Some(input)
  {
    var file := Compress(f, input, worse);
    back := Decompress(file);
  }
}
