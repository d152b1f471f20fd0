/** Bit sequences, least significant bit first: the meaning of the code buffer
    that `output` fills and `getcode` empties.  Shifts and masks are given by
    recursion on the distance, one bit at a time. */
module LzwBits {
  import opened Common

  function Pow2(n: nat): (p: nat)
    ensures p >= 1
  {
    if n == 0 then 1 else 2 * Pow2(n - 1)
  }

  /** x << n */
  function Shl(x: nat, n: nat): nat {
    if n == 0 then x else 2 * Shl(x, n - 1)
  }

  /** x >> n */
  function Shr(x: nat, n: nat): nat {
    if n == 0 then x else Shr(x / 2, n - 1)
  }

  /** x & ((1 << n) - 1) */
  function Low(x: nat, n: nat): (r: nat)
    ensures r < Pow2(n)
  {
    if n == 0 then 0 else x % 2 + 2 * Low(x / 2, n - 1)
  }

  /** The low `n` bits of `x`. */
  function BitsOf(x: nat, n: nat): (b: seq<bool>)
    ensures |b| == n
  {
    if n == 0 then [] else [x % 2 == 1] + BitsOf(x / 2, n - 1)
  }

  /** The number a bit sequence stands for. */
  function ValueOf(b: seq<bool>): nat {
    if b == [] then 0 else (if b[0] then 1 else 0) + 2 * ValueOf(b[1..])
  }

  /** The bits of a byte buffer, byte after byte. */
  function Flatten(bs: seq<byte>): (b: seq<bool>)
    ensures |b| == 8 * |bs|
  {
    seq(8 * |bs|, j requires 0 <= j < 8 * |bs| => BitsOf(bs[j / 8], 8)[j % 8])
  }

  lemma {:induction false} Pow2Increases(m: nat, n: nat)
    requires m <= n
    ensures Pow2(m) <= Pow2(n)
  {
    if m < n {
      Pow2Increases(m, n - 1);
    }
  }

  lemma Pow2Values()
    ensures Pow2(8) == 256 && Pow2(9) == 512 && Pow2(10) == 1024 && Pow2(16) == 65536
  {
    assert Pow2(4) == 16;
    assert Pow2(8) == 256;
    assert Pow2(12) == 4096;
  }

  /** Reading back what was written gives the number again. */
  lemma {:induction false} ValueInverts(x: nat, n: nat)
    requires x < Pow2(n)
    ensures ValueOf(BitsOf(x, n)) == x
  {
    if n != 0 {
      ValueInverts(x / 2, n - 1);
      assert BitsOf(x, n)[1..] == BitsOf(x / 2, n - 1);
    }
  }

  /** Low bits placed under high bits. */
  lemma {:induction false} BitsJoin(lo: nat, hi: nat, m: nat, n: nat)
    requires lo < Pow2(m)
    ensures BitsOf(lo + Shl(hi, m), m + n) == BitsOf(lo, m) + BitsOf(hi, n)
  {
    if m != 0 {
      BitsJoin(lo / 2, hi, m - 1, n);
      assert (lo + Shl(hi, m)) / 2 == lo / 2 + Shl(hi, m - 1);
    }
  }

  /** A number's bits are the bits under a position and then those above it. */
  lemma {:induction false} BitsSplit(x: nat, m: nat, n: nat)
    ensures BitsOf(x, m + n) == BitsOf(x, m) + BitsOf(Shr(x, m), n)
  {
    if m != 0 {
      BitsSplit(x / 2, m - 1, n);
    }
  }

  lemma {:induction false} BitsLow(x: nat, n: nat)
    ensures BitsOf(Low(x, n), n) == BitsOf(x, n)
  {
    if n != 0 {
      BitsLow(x / 2, n - 1);
      assert Low(x, n) / 2 == Low(x / 2, n - 1);
    }
  }

  lemma {:induction false} JoinBound(lo: nat, hi: nat, m: nat, n: nat)
    requires lo < Pow2(m) && hi < Pow2(n)
    ensures lo + Shl(hi, m) < Pow2(m + n)
  {
    if m != 0 {
      JoinBound(lo / 2, hi, m - 1, n);
    }
  }

  lemma {:induction false} ShrBound(x: nat, m: nat, n: nat)
    requires x < Pow2(m + n)
    ensures Shr(x, m) < Pow2(n)
  {
    if m != 0 {
      ShrBound(x / 2, m - 1, n);
    }
  }

  /** The bytes of a buffer, taken eight bits at a time. */
  lemma FlattenByte(bs: seq<byte>, i: nat)
    requires i < |bs|
    ensures Flatten(bs)[8 * i..8 * i + 8] == BitsOf(bs[i], 8)
  {
    forall j | 0 <= j < 8
      ensures Flatten(bs)[8 * i + j] == BitsOf(bs[i], 8)[j]
    {
      assert (8 * i + j) / 8 == i && (8 * i + j) % 8 == j;
    }
  }

  /** Bytes that agree up to `i` have flattened forms that agree up to `8 * i`. */
  lemma FlattenPrefix(a: seq<byte>, b: seq<byte>, i: nat)
    requires i <= |a| && i <= |b| && a[..i] == b[..i]
    ensures Flatten(a)[..8 * i] == Flatten(b)[..8 * i]
  {
    forall j | 0 <= j < 8 * i
      ensures Flatten(a)[j] == Flatten(b)[j]
    {
      assert a[j / 8] == a[..i][j / 8] == b[j / 8];
    }
  }

  /** The write of `output`: the code goes to bits `off` to `off + n` of the
      buffer, across two or three bytes; the bits before `off` keep their
      value. */
  method PutBits(buf: array<byte>, off: nat, n: nat, code: nat)
    requires 9 <= n <= 16 && off + n <= 8 * buf.Length && code < Pow2(n)
    modifies buf
    ensures Flatten(buf[..])[..off] == old(Flatten(buf[..])[..off])
    ensures Flatten(buf[..])[off..off + n] == BitsOf(code, n)
  {
    hide Flatten, BitsOf, Shl, Shr, Low, Pow2, FirstHunk;
    ghost var was := buf[..];
    var bp, r := off / 8, off % 8;
    var k := 8 - r;
    var rest, bits := Shr(code, k), n - k;
    ShrBound(code, k, bits);
    buf[bp] := FirstHunk(buf[bp], code, r);
    bp := bp + 1;
    if bits >= 8 {
      buf[bp] := Low8(rest);
      bp, rest, bits := bp + 1, Shr(rest, 8), bits - 8;
      ShrBound(Shr(code, k), 8, bits);
    }
    if bits > 0 {
      Pow2Values();
      Pow2Increases(bits, 8);
      buf[bp] := rest;
    }
    PutBitsCorrect(was, buf[..], off, n, code);
  }

  function Low8(x: nat): (b: byte) {
    Pow2Values();
    Low(x, 8)
  }

  /** The masked first byte: `(*bp & rmask[r]) | ((code << r) & lmask[r])`. */
  function FirstHunk(b: byte, code: nat, r: nat): (v: byte)
    requires r < 8
    ensures BitsOf(v, 8) == BitsOf(b, r) + BitsOf(code, 8 - r)
  {
    Pow2Values();
    JoinBound(Low(b, r), Low(code, 8 - r), r, 8 - r);
    BitsJoin(Low(b, r), Low(code, 8 - r), r, 8 - r);
    BitsLow(b, r);
    BitsLow(code, 8 - r);
    Low(b, r) + Shl(Low(code, 8 - r), r)
  }

  ghost predicate CodeWritten(was: seq<byte>, now: seq<byte>, off: nat, n: nat, code: nat)
    requires 9 <= n <= 16 && off + n <= 8 * |was| && |now| == |was|
  {
    var b, r := off / 8, off % 8;
    var rest, bits := Shr(code, 8 - r), n - (8 - r);
    && now[..b] == was[..b]
    && now[b] == FirstHunk(was[b], code, r)
    && (bits >= 8 ==> now[b + 1] == Low8(rest) && (bits > 8 ==> now[b + 2] == Shr(rest, 8)))
    && (bits < 8 ==> now[b + 1] == rest)
  }

  /** The first `k` bits of byte `b`. */
  lemma BytePrefix(now: seq<byte>, b: nat, k: nat)
    requires b < |now| && k <= 8
    ensures Flatten(now)[8 * b..8 * b + k] == BitsOf(now[b], k)
  {
    hide *;
    FlattenByte(now, b);
    BitsSplit(now[b], k, 8 - k);
    assert Flatten(now)[8 * b..8 * b + k] == Flatten(now)[8 * b..8 * b + 8][..k];
  }

  lemma SliceJoin<T>(s: seq<T>, i: nat, j: nat, k: nat)
    requires i <= j <= k <= |s|
    ensures s[i..k] == s[i..j] + s[j..k]
  {
  }

  lemma TailWritten(now: seq<byte>, b: nat, bits: nat, rest: nat)
    requires 0 < bits < 16 && 8 * b + bits <= 8 * |now|
    requires bits >= 8 ==> now[b] == Low8(rest) && (bits > 8 ==> now[b + 1] == Shr(rest, 8))
    requires bits < 8 ==> now[b] == rest
    ensures Flatten(now)[8 * b..8 * b + bits] == BitsOf(rest, bits)
  {
    hide Flatten, BitsOf, Shl, Shr, Low, Pow2, FirstHunk;
    if bits < 8 {
      BytePrefix(now, b, bits);
    } else {
      BytePrefix(now, b, 8);
      BitsLow(rest, 8);
      BitsSplit(rest, 8, bits - 8);
      if bits > 8 {
        BytePrefix(now, b + 1, bits - 8);
        SliceJoin(Flatten(now), 8 * b, 8 * (b + 1), 8 * b + bits);
      }
    }
  }

  lemma HeadWritten(was: seq<byte>, now: seq<byte>, b: nat, r: nat, code: nat)
    requires b < |was| == |now| && r < 8
    requires now[..b] == was[..b] && now[b] == FirstHunk(was[b], code, r)
    ensures Flatten(now)[..8 * b + r] == Flatten(was)[..8 * b + r]
    ensures Flatten(now)[8 * b + r..8 * b + 8] == BitsOf(code, 8 - r)
  {
    hide *;
    FlattenPrefix(now, was, b);
    BytePrefix(was, b, r);
    FlattenByte(now, b);
    SliceJoin(Flatten(was), 0, 8 * b, 8 * b + r);
    SliceJoin(Flatten(now), 0, 8 * b, 8 * b + r);
    SliceJoin(Flatten(now), 8 * b, 8 * b + r, 8 * b + 8);
  }

  lemma PutBitsCorrect(was: seq<byte>, now: seq<byte>, off: nat, n: nat, code: nat)
    requires 9 <= n <= 16 && off + n <= 8 * |was| && |now| == |was|
    requires CodeWritten(was, now, off, n, code)
    ensures Flatten(now)[..off] == Flatten(was)[..off]
    ensures Flatten(now)[off..off + n] == BitsOf(code, n)
  {
    hide Flatten, BitsOf, Shl, Shr, Low, Pow2, FirstHunk, Low8;
    var b, r := off / 8, off % 8;
    var bits := n - (8 - r);
    HeadWritten(was, now, b, r, code);
    TailWritten(now, b + 1, bits, Shr(code, 8 - r));
    BitsSplit(code, 8 - r, bits);
    SliceJoin(Flatten(now), off, 8 * b + 8, off + n);
  }

  /** The read of `getcode`: the bits `off` to `off + n` of the buffer, as a
      number. */
  method GetBits(buf: array<byte>, off: nat, n: nat) returns (code: nat)
    requires 9 <= n <= 16 && off + n <= 8 * buf.Length
    ensures code == ValueOf(Flatten(buf[..])[off..off + n])
  {
    hide Flatten, BitsOf, Shl, Shr, Low, Pow2, FirstHunk, Low8;
    var bp, r := off / 8, off % 8;
    code := Shr(buf[bp], r);
    bp := bp + 1;
    var bits, shift := n - (8 - r), 8 - r;
    ghost var rest: nat := RestOf(buf[..], bp, bits);
    RestRead(buf[..], bp, bits);
    HeadRead(buf[..], bp - 1, r, bits, rest);
    if bits >= 8 {
      ShlAdd(buf[bp], if bits > 8 then Low(buf[bp + 1], bits - 8) else 0, 8, shift);
      code := code + Shl(buf[bp], shift);
      bp, shift, bits := bp + 1, shift + 8, bits - 8;
    }
    code := code + Shl(if bits > 0 then Low(buf[bp], bits) else 0, shift);
    ValueInverts(code, n);
  }

  lemma {:induction false} ShlAdd(a: nat, b: nat, m: nat, n: nat)
    ensures Shl(a + Shl(b, m), n) == Shl(a, n) + Shl(b, n + m)
  {
    if n != 0 {
      ShlAdd(a, b, m, n - 1);
    }
  }

  /** The number in the bits after the first byte. */
  function RestOf(bs: seq<byte>, b: nat, bits: nat): nat
    requires 0 < bits < 16 && 8 * b + bits <= 8 * |bs|
  {
    if bits < 8 then Low(bs[b], bits)
    else bs[b] + Shl(if bits > 8 then Low(bs[b + 1], bits - 8) else 0, 8)
  }

  lemma RestRead(bs: seq<byte>, b: nat, bits: nat)
    requires 0 < bits < 16 && 8 * b + bits <= 8 * |bs|
    ensures RestOf(bs, b, bits) < Pow2(bits)
    ensures Flatten(bs)[8 * b..8 * b + bits] == BitsOf(RestOf(bs, b, bits), bits)
  {
    hide Flatten, BitsOf, Shl, Shr, Low, Pow2, FirstHunk, Low8;
    Pow2Values();
    if bits < 8 {
      BytePrefix(bs, b, bits);
      BitsLow(bs[b], bits);
    } else {
      var hi := if bits > 8 then Low(bs[b + 1], bits - 8) else 0;
      BytePrefix(bs, b, 8);
      JoinBound(bs[b], hi, 8, bits - 8);
      BitsJoin(bs[b], hi, 8, bits - 8);
      if bits > 8 {
        BytePrefix(bs, b + 1, bits - 8);
        BitsLow(bs[b + 1], bits - 8);
        SliceJoin(Flatten(bs), 8 * b, 8 * (b + 1), 8 * b + bits);
      }
    }
  }

  lemma HeadRead(bs: seq<byte>, b: nat, r: nat, bits: nat, rest: nat)
    requires r < 8 && 0 < bits && 8 * (b + 1) + bits <= 8 * |bs| && rest < Pow2(bits)
    requires Flatten(bs)[8 * (b + 1)..8 * (b + 1) + bits] == BitsOf(rest, bits)
    ensures Shr(bs[b], r) + Shl(rest, 8 - r) < Pow2(8 - r + bits)
    ensures Flatten(bs)[8 * b + r..8 * (b + 1) + bits] == BitsOf(Shr(bs[b], r) + Shl(rest, 8 - r), 8 - r + bits)
  {
    hide Flatten, BitsOf, Shl, Shr, Low, Pow2, FirstHunk, Low8;
    Pow2Values();
    ShrBound(bs[b], r, 8 - r);
    JoinBound(Shr(bs[b], r), rest, 8 - r, bits);
    BitsJoin(Shr(bs[b], r), rest, 8 - r, bits);
    BitsSplit(bs[b], r, 8 - r);
    FlattenByte(bs, b);
    assert Flatten(bs)[8 * b + r..8 * b + 8] == Flatten(bs)[8 * b..8 * b + 8][r..];
    SliceJoin(Flatten(bs), 8 * b + r, 8 * (b + 1), 8 * (b + 1) + bits);
  }
}
