/** A file with codes of nine bits of which decomp16 makes more text than
    compress's decoder. */
module Decomp16Example {
  import opened Common
  import opened LzwBits
  import opened LzwSpec
  import opened Decomp16Bits

  const NINE: Format := Format(9, false)

  /** 33 groups of eight zero codes. */
  function Body(): seq<byte> {
    seq(297, _ => 0)
  }

  function File(): seq<byte> {
    [0x1F, 0x9D, 9] + Body()
  }

  predicate Clear(bits: seq<bool>) {
    forall i :: 0 <= i < |bits| ==> !bits[i]
  }

  predicate AllZero(s: seq<nat>) {
    forall i :: 0 <= i < |s| ==> s[i] == 0
  }

  lemma {:induction false} ZeroBits(n: nat)
    ensures Clear(BitsOf(0, n))
  {
    if n > 0 { ZeroBits(n - 1); }
  }

  lemma {:induction false} ZeroValue(bits: seq<bool>)
    requires Clear(bits)
    ensures ValueOf(bits) == 0
  {
    if bits != [] { ZeroValue(bits[1..]); }
  }

  lemma ZeroBytes(bs: seq<byte>)
    requires forall i :: 0 <= i < |bs| ==> bs[i] == 0
    ensures Clear(Flatten(bs))
  {
    hide BitsOf;
    ZeroBits(8);
  }

  // ------------------------------------------------------ compress's decoder

  /** Between two codes: `a` buffers are unread, and `b` codes of this one. */
  ghost predicate At(r: Reader, a: nat, b: nat) {
    && |r.rest| == 9 * a && |r.frame| == 9 * b && r.w == NARROW && !r.cleared
    && (forall i :: 0 <= i < |r.rest| ==> r.rest[i] == 0) && Clear(r.frame)
  }

  /** A code inside a buffer, or the first of the next. */
  lemma OneCode(r: Reader, a: nat, b: nat)
    requires At(r, a, b) && r.free <= 511 && a + b > 0
    ensures Next(NINE, r).Code? && Next(NINE, r).code == 0 && Next(NINE, r).next.free == r.free + 1
    ensures if b > 0 then At(Next(NINE, r).next, a, b - 1) else At(Next(NINE, r).next, a - 1, 7)
  {
    hide Flatten, ValueOf;
    Pow2Values();
    var r0 := if MustRefill(r) then Refill(NINE, r) else r;
    if b == 0 {
      ZeroBytes(r.rest[..9]);
    }
    ZeroValue(r0.frame[..9]);
  }

  /** Once the dictionary is full the rest of the buffer is thrown away, and
      with nothing behind it that is the end. */
  lemma {:induction false} Unpacked(r: Reader, a: nat, b: nat) returns (codes: seq<nat>)
    requires At(r, a, b) && 8 * a + b == 519 - r.free && 255 <= r.free <= 512
    ensures Unpack(NINE, r) == Some(codes) && AllZero(codes) && |codes| == 512 - r.free
    decreases 512 - r.free
  {
    hide Next, Flatten;
    if r.free == 512 {
      FullEnds(r, a, b);
      codes := [];
    } else {
      OneCode(r, a, b);
      codes := Unpacked(Next(NINE, r).next, if b > 0 then a else a - 1, if b > 0 then b - 1 else 7);
      codes := [0] + codes;
    }
  }

  lemma FullEnds(r: Reader, a: nat, b: nat)
    requires At(r, a, b) && r.free == 512 && a == 0
    ensures Next(NINE, r) == Eof
  {
    FlattenNone();
  }

  // ----------------------------------------------------------------- decomp16

  lemma {:induction false} Read16(ahead: seq<bool>, inmod: nat, m: nat, curend: nat) returns (codes: seq<nat>)
    requires Clear(ahead) && |ahead| == 9 * m && inmod < 8
    ensures Codes16(NINE, ahead, inmod, 9, curend) == codes && AllZero(codes) && |codes| == m
    decreases m
  {
    hide ValueOf;
    if m == 0 {
      codes := [];
    } else {
      ZeroValue(ahead[..9]);
      codes := Read16(ahead[9..], (inmod + 1) % 8, m - 1, Grow(NINE, curend));
      codes := [0] + codes;
    }
  }

  /** Zero codes are zero bytes. */
  lemma {:induction false} ZeroText(codes: seq<nat>)
    requires AllZero(codes)
    ensures DecodeCodes(NINE, codes).Some? && |DecodeCodes(NINE, codes).value.text| == |codes|
  {
    if codes != [] { ZeroText(codes[..|codes| - 1]); }
  }

  /** Of this file, which is valid, compress's decoder makes 257 bytes and
      decomp16 makes 264. */
  lemma NineBitsDiffer()
    ensures DecodeFile(File()).Some? && |DecodeFile(File()).value| == 257
    ensures Decode16(File()).Some? && |Decode16(File()).value| == 264
  {
    hide Unpack, DecodeCodes, Codes16, Flatten;
    assert File()[3..] == Body();
    ZeroBytes(Body());
    var codes := Unpacked(Reopen(NINE, Body()), 33, 0);
    ZeroText(codes);
    var codes16 := Read16(Flatten(Body()), 0, 264, 255);
    ZeroText(codes16);
  }
}
