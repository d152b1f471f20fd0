/** decomp16's own bit reader: no buffers, only the byte in hand, and the rest
    of a group of eight codes read and thrown away when the width changes. */
module Decomp16Bits {
  import opened Common
  import opened LzwBits
  import opened LzwSpec
  import opened LzwCompress
  import opened Decomp16
  import opened Decomp16Pipe
  import D = LzwDecompress

  lemma FlattenCons(b: byte, rest: seq<byte>)
    ensures Flatten([b] + rest) == BitsOf(b, 8) + Flatten(rest)
  {
    hide BitsOf;
    forall j | 0 <= j < 8 * |rest|
      ensures Flatten([b] + rest)[8 + j] == Flatten(rest)[j]
    {
      assert ([b] + rest)[(8 + j) / 8] == rest[j / 8];
    }
  }

  lemma FlattenAppend(a: seq<byte>, b: seq<byte>)
    ensures Flatten(a + b) == Flatten(a) + Flatten(b)
  {
    hide BitsOf;
    forall j | 0 <= j < 8 * |b|
      ensures Flatten(a + b)[8 * |a| + j] == Flatten(b)[j]
    {
      assert (a + b)[(8 * |a| + j) / 8] == b[j / 8];
    }
  }

  class BitSource {
    var input: seq<byte>
    var curbyte: nat
    var left: nat
    var inmod: nat

    constructor (input: seq<byte>)
      ensures Valid() && Ahead() == Flatten(input) && inmod == 0
    {
      this.input := input;
      curbyte, left, inmod := 0, 0, 0;
      new;
      assert [] + Flatten(input) == Flatten(input);
    }

    ghost predicate Valid()
      reads this
    {
      left < 8 && curbyte < Pow2(left) && inmod < 8
    }

    /** Every bit still to come. */
    ghost function Ahead(): seq<bool>
      reads this
    {
      BitsOf(curbyte, left) + Flatten(input)
    }

    /** getbits; false is the end of the file. */
    method GetBits(n: nat) returns (ok: bool, index: nat)
      requires Valid() && 9 <= n <= 16
      modifies this
      ensures ok <==> |old(Ahead())| >= n
      ensures ok ==> Valid() && index == ValueOf(old(Ahead())[..n]) && Ahead() == old(Ahead())[n..]
      ensures ok ==> inmod == (old(inmod) + 1) % 8
    {
      hide BitsOf, Flatten, ValueOf, Pow2, Shl, Shr, Low;
      ghost var ahead := Ahead();
      inmod := (inmod + 1) % 8;
      index := curbyte;
      var have := left;
      assert index < Pow2(have) && ahead == BitsOf(index, have) + Flatten(input);
      if n - have > 8 {
        if input == [] {
          return false, 0;
        }
        MoreBits(index, have, input[0], 8, ahead, input);
        index := index + Shl(input[0], have);
        have, input := have + 8, input[1..];
      }
      if input == [] {
        return false, 0;
      }
      var m := n - have;
      curbyte := input[0];
      SplitByte(curbyte, m);
      MoreBits(index, have, curbyte, m, ahead, input);
      index := index + Shl(Low(curbyte, m), have);
      curbyte, left, input := Shr(curbyte, m), 8 - m, input[1..];
      ValueInverts(index, n);
      ok := true;
    }

    /** Throw away the rest of a group of eight codes. */
    method Skip(n: nat) returns (ok: bool)
      requires Valid() && 9 <= n <= 16
      modifies this
      ensures ok ==> Valid() && inmod == 0 && SkipBits(old(Ahead()), old(inmod), n) == Some(Ahead())
      ensures !ok ==> SkipBits(old(Ahead()), old(inmod), n) == None
    {
      hide Flatten, BitsOf, Pow2, ValueOf, SkipBits;
      while inmod != 0
        invariant Valid() && SkipBits(Ahead(), inmod, n) == SkipBits(old(Ahead()), old(inmod), n)
        decreases (8 - inmod) % 8
      {
        SkipOne(Ahead(), inmod, n);
        var wasted;
        ok, wasted := GetBits(n);
        if !ok {
          return;
        }
      }
      SkipOne(Ahead(), inmod, n);
      ok := true;
    }
  }

  lemma SkipOne(ahead: seq<bool>, inmod: nat, n: nat)
    requires inmod < 8
    ensures SkipBits(ahead, inmod, n) ==
            if inmod == 0 then Some(ahead) else if |ahead| < n then None else SkipBits(ahead[n..], (inmod + 1) % 8, n)
  {
  }

  /** What is left after the rest of a group of eight codes. */
  function SkipBits(ahead: seq<bool>, inmod: nat, n: nat): (r: Option<seq<bool>>)
    requires inmod < 8
    ensures r.Some? ==> |r.value| <= |ahead|
    decreases (8 - inmod) % 8
  {
    if inmod == 0 then Some(ahead)
    else if |ahead| < n then None
    else SkipBits(ahead[n..], (inmod + 1) % 8, n)
  }

  lemma MulStep(k: nat, n: nat)
    requires k > 0
    ensures k * n == n + (k - 1) * n
  {
  }

  lemma {:induction false} SkipLength(frame: seq<bool>, inmod: nat, n: nat, len: nat)
    requires 1 <= inmod < 8 && 1 <= n && len == (8 - inmod) * n
    ensures |frame| == len ==> SkipBits(frame, inmod, n) == Some([])
    ensures |frame| < len ==> SkipBits(frame, inmod, n) == None
    decreases 8 - inmod
  {
    MulStep(8 - inmod, n);
    if |frame| < n {
    } else if inmod == 7 {
      assert len == n;
      assert SkipBits(frame, 7, n) == SkipBits(frame[n..], 0, n) == Some(frame[n..]);
    } else {
      SkipLength(frame[n..], inmod + 1, n, len - n);
    }
  }

  lemma {:induction false} SkipAhead(frame: seq<bool>, more: seq<bool>, inmod: nat, n: nat)
    requires inmod < 8
    ensures SkipBits(frame, inmod, n) == Some([]) ==> SkipBits(frame + more, inmod, n) == Some(more)
    decreases (8 - inmod) % 8
  {
    if inmod == 0 {
      assert frame == [] ==> frame + more == more;
    } else if |frame| >= n {
      assert (frame + more)[n..] == frame[n..] + more;
      SkipAhead(frame[n..], more, (inmod + 1) % 8, n);
    }
  }

  /** The two readers stand at the same place. */
  ghost predicate Sync(r: Reader, ahead: seq<bool>, inmod: nat, n: nat) {
    inmod < 8 &&
    if r.cleared then ahead == Flatten(r.rest) && inmod == 0 && n == INIT_BITS
    else
      && n == r.w.bits && ahead == r.frame + Flatten(r.rest)
      && (SkipBits(r.frame, inmod, n) == Some([]) || (r.rest == [] && SkipBits(r.frame, inmod, n) == None))
  }

  /** decomp16's test for a wider code. */
  predicate Widens(f: Format, n: nat, curend: nat) {
    n < f.maxbits && Pow2(n) <= curend
  }

  function EndOf(f: Format, free: nat): nat
    requires f.Valid()
  {
    if free < f.Limit() then free else f.Limit() - 1
  }

  /** The two programs widen together, at every width compress reaches and
      every size of the dictionary, if and only if codes may have ten bits or
      more.  With nine, compress goes on to ten bits and decomp16 does not. */
  lemma WidensTogether(f: Format)
    requires f.Valid()
    ensures f.maxbits >= 10 <==>
            forall w: Width, free: nat :: WidthOk(f, w) && free <= w.top + 1 && free <= f.Limit() ==>
              (Widens(f, w.bits, EndOf(f, free)) <==> free > w.top)
  {
    LimitBounds(f);
    Pow2Values();
    if f.maxbits >= 10 {
      forall w: Width, free: nat | WidthOk(f, w) && free <= w.top + 1 && free <= f.Limit()
        ensures Widens(f, w.bits, EndOf(f, free)) <==> free > w.top
      {
        WidenTest(f, w, free);
      }
    } else {
      assert WidthOk(f, NARROW) && !(Widens(f, NARROW.bits, EndOf(f, 512)) <==> 512 > NARROW.top);
    }
  }

  lemma WidenTest(f: Format, w: Width, free: nat)
    requires f.Valid() && WidthOk(f, w) && free <= f.Limit() && (f.maxbits >= 10 || free <= 511)
    ensures Widens(f, w.bits, EndOf(f, free)) <==> free > w.top
  {
    Pow2Values();
    if w.bits < f.maxbits {
      Pow2Increases(w.bits + 1, f.maxbits);
    }
  }

  lemma SplitByte(b: byte, m: nat)
    requires 1 <= m <= 8
    ensures Shr(b, m) < Pow2(8 - m) && BitsOf(b, 8) == BitsOf(Low(b, m), m) + BitsOf(Shr(b, m), 8 - m)
    ensures Low(b, 8) == b
  {
    hide BitsOf, Shr, Low, Pow2;
    Pow2Values();
    ShrBound(b, m, 8 - m);
    BitsSplit(b, m, 8 - m);
    BitsLow(b, m);
    BitsLow(b, 8);
    ValueInverts(b, 8);
    ValueInverts(Low(b, 8), 8);
  }

  /** `m` bits of the next byte joined to the bits in hand. */
  lemma MoreBits(index: nat, have: nat, b: byte, m: nat, ahead: seq<bool>, input: seq<byte>)
    requires index < Pow2(have) && input != [] && b == input[0] && 1 <= m <= 8
    requires ahead == BitsOf(index, have) + Flatten(input)
    ensures
      var index' := index + Shl(Low(b, m), have);
      && index' < Pow2(have + m)
      && ahead == BitsOf(index', have + m) + (BitsOf(Shr(b, m), 8 - m) + Flatten(input[1..]))
      && (m == 8 ==> Low(b, m) == b && ahead == BitsOf(index', have + m) + Flatten(input[1..]))
      && ahead[..have + m] == BitsOf(index', have + m)
      && ahead[have + m..] == BitsOf(Shr(b, m), 8 - m) + Flatten(input[1..])
  {
    hide BitsOf, Flatten, Shr, Low, Pow2, Shl;
    var lo := Low(b, m);
    SplitByte(b, m);
    JoinBound(index, lo, have, m);
    BitsJoin(index, lo, have, m);
    assert input == [b] + input[1..];
    FlattenCons(b, input[1..]);
    var more := BitsOf(Shr(b, m), 8 - m);
    assert BitsOf(index, have) + (BitsOf(lo, m) + more + Flatten(input[1..]))
        == BitsOf(index, have) + BitsOf(lo, m) + (more + Flatten(input[1..]));
    assert m == 8 ==> more == [];
    assert m == 8 ==> [] + Flatten(input[1..]) == Flatten(input[1..]);
  }

  /** One code, as decomp16 reads it: value, bits left, place in the group, width. */
  function Fetch16(ahead: seq<bool>, inmod: nat, n: nat, widen: bool): (r: Option<(nat, seq<bool>, nat, nat)>)
    requires inmod < 8 && n >= 1
    ensures r.Some? ==> |r.value.1| < |ahead| && r.value.2 < 8 && r.value.3 >= n
  {
    if !widen then Take16(ahead, inmod, n)
    else match SkipBits(ahead, inmod, n)
      case None => None
      case Some(rest) => Take16(rest, 0, n + 1)
  }

  function Take16(ahead: seq<bool>, inmod: nat, n: nat): Option<(nat, seq<bool>, nat, nat)> {
    if |ahead| < n then None else Some((ValueOf(ahead[..n]), ahead[n..], (inmod + 1) % 8, n))
  }

  /** The last entry after one more code. */
  function Grow(f: Format, curend: nat): nat {
    if curend + 1 < f.Limit() then curend + 1 else curend
  }

  /** All codes that decomp16 reads, down to the end of the file. */
  function Codes16(f: Format, ahead: seq<bool>, inmod: nat, n: nat, curend: nat): seq<nat>
    requires inmod < 8 && n >= 1
    decreases |ahead|
  {
    match Fetch16(ahead, inmod, n, Widens(f, n, curend))
    case None => []
    case Some((c, ahead', inmod', n')) =>
      if f.IsClear(c) then
        match SkipBits(ahead', inmod', n')
        case None => [c]
        case Some(rest) => [c] + Codes16(f, rest, 0, INIT_BITS, f.First() - 1)
      else [c] + Codes16(f, ahead', inmod', n', Grow(f, curend))
  }

  function CodesOf(f: Format, bytes: seq<byte>): seq<nat> {
    Codes16(f, Flatten(bytes), 0, INIT_BITS, f.First() - 1)
  }

  /** The text that decomp16 makes of a file; None if it refuses the file, or a
      code is beyond the dictionary. */
  function Decode16(file: seq<byte>): Option<seq<byte>> {
    if !D.HeaderOk(file) then None
    else
      var f := Format(file[2] % 32, file[2] >= 128);
      match DecodeCodes(f, CodesOf(f, file[3..]))
      case None => None
      case Some(d) => Some(d.text)
  }

  /** The same code, and the readers in step after it (before a CLEAR is acted on). */
  ghost predicate SameFetch(got: Fetch, got16: Option<(nat, seq<bool>, nat, nat)>) {
    if got.Code? then
      got16.Some? && got16.value.0 == got.code
      && Sync(got.next.(cleared := false), got16.value.1, got16.value.2, got16.value.3)
    else got16.None?
  }

  /** The first code of a new buffer. */
  lemma FreshFetch(r: Reader, rest: seq<byte>)
    requires 9 <= r.w.bits <= 16 && !r.cleared
    requires
      var k := if |rest| < r.w.bits then |rest| else r.w.bits;
      r.rest == rest[k..] && r.frame == Flatten(rest[..k])
    ensures SameFetch(Take(r), Take16(Flatten(rest), 0, r.w.bits))
  {
    hide Flatten, ValueOf, SkipBits;
    var n := r.w.bits;
    var k := if |rest| < n then |rest| else n;
    assert rest == rest[..k] + r.rest;
    FlattenAppend(rest[..k], r.rest);
    FlattenNone();
    var ahead := Flatten(rest);
    if |r.frame| >= n {
      assert ahead[..n] == r.frame[..n];
      assert ahead[n..] == r.frame[n..] + Flatten(r.rest);
      SkipLength(r.frame[n..], 1, n, 7 * n);
    }
  }

  lemma FlattenNone()
    ensures Flatten([]) == []
  {
  }

  /** A code inside a buffer. */
  lemma InnerFetch(r: Reader, ahead: seq<bool>, inmod: nat)
    requires !r.cleared && 9 <= r.w.bits <= |r.frame| && Sync(r, ahead, inmod, r.w.bits)
    ensures SameFetch(Take(r), Take16(ahead, inmod, r.w.bits))
  {
    hide Flatten, ValueOf;
    var n := r.w.bits;
    assert ahead[..n] == r.frame[..n];
    assert ahead[n..] == r.frame[n..] + Flatten(r.rest);
  }

  /** No buffer left, or a cut-off one that is used up. */
  lemma NoFetch(f: Format, r: Reader)
    requires MustRefill(r) && r.rest == []
    ensures GetCode(f, r) == Eof
  {
    FlattenNone();
  }

  lemma FetchSync(f: Format, r: Reader, ahead: seq<bool>, inmod: nat, n: nat)
    requires Readable(f, r) && Sync(r, ahead, inmod, n) && n >= 1
    ensures SameFetch(GetCode(f, r), Fetch16(ahead, inmod, n, Widens(f, n, EndOf(f, r.free))))
  {
    hide Flatten, ValueOf, Pow2, WidthOk, Take;
    LimitBounds(f);
    NarrowOk(f);
    WidthBounds(f, r.w);
    WidenTest(f, if r.cleared then NARROW else r.w, r.free);
    if !MustRefill(r) {
      InnerFetch(r, ahead, inmod);
    } else if !r.cleared && r.rest == [] && SkipBits(r.frame, inmod, n) != Some([]) {
      NoFetch(f, r);
      assert ahead == r.frame by { FlattenNone(); }
    } else {
      var r0 := Refill(f, r);
      NextBits(f, r);
      FreshFetch(r0, r.rest);
      SkipAhead(r.frame, Flatten(r.rest), inmod, n);
      if !r.cleared && r.free <= r.w.top {
        assert inmod == 0 && r.frame == [];
        assert r.frame + Flatten(r.rest) == Flatten(r.rest);
      }
    }
  }

  lemma NarrowOk(f: Format)
    ensures WidthOk(f, NARROW)
  {
  }

  lemma NextBits(f: Format, r: Reader)
    requires f.Valid() && WidthOk(f, r.w) && r.free <= r.w.top + 1 && r.free <= f.Limit()
    ensures 9 <= NextWidth(f, r).bits <= 16
    ensures !r.cleared && r.free > r.w.top ==> NextWidth(f, r).bits == r.w.bits + 1
  {
    WidthBounds(f, r.w);
    if r.free > r.w.top {
      WidenOk(f, r.w, r.free);
      WidthBounds(f, Wider(f, r.w));
    }
  }

  // -------------------------------------------------------- the two readers

  /** Where the readers and the dictionary stand between codes. */
  ghost predicate InStep(f: Format, r: Reader, ahead: seq<bool>, inmod: nat, n: nat, curend: nat) {
    && Readable(f, r) && Sync(r, ahead, inmod, n) && 9 <= n <= 16
    && curend == EndOf(f, r.free)
  }

  ghost predicate Readable(f: Format, r: Reader) {
    && f.Valid() && WidthOk(f, r.w) && r.free <= r.w.top + 1 && r.free <= f.Limit() && (r.cleared ==> r.free < 512)
    && (f.maxbits >= 10 || r.free <= 511)
  }

  lemma ReaderStays(f: Format, r: Reader)
    requires Readable(f, r) && GetCode(f, r).Code?
    ensures
      var g := GetCode(f, r).next;
      WidthOk(f, g.w) && g.free == r.free <= g.w.top && !g.cleared && 9 <= g.w.bits <= 16 && g.w.top >= 511
  {
    hide Flatten, ValueOf, Pow2, WidthOk, Wider;
    D.NextWidthOk(f, r);
    WidthBounds(f, NextWidth(f, r));
    WidthBounds(f, r.w);
  }

  /** After a code other than CLEAR both advance alike. */
  lemma StepOn(f: Format, r: Reader, ahead: seq<bool>, inmod: nat, n: nat)
    requires Readable(f, r) && GetCode(f, r).Code? && !f.IsClear(GetCode(f, r).code)
    requires f.maxbits >= 10 || r.free < 511
    requires Sync(GetCode(f, r).next.(cleared := false), ahead, inmod, n)
    ensures InStep(f, Next(f, r).next, ahead, inmod, n, Grow(f, EndOf(f, r.free)))
  {
    hide Flatten, Pow2, WidthOk, GetCode;
    ReaderStays(f, r);
    LimitBounds(f);
  }

  /** After CLEAR and the waste behind it. */
  lemma StepClear(f: Format, r: Reader, ahead: seq<bool>, inmod: nat, n: nat)
    requires Readable(f, r) && GetCode(f, r).Code? && GetCode(f, r).code == CLEAR && f.block
    requires Sync(GetCode(f, r).next.(cleared := false), ahead, inmod, n)
    ensures Readable(f, Next(f, r).next) && 9 <= n <= 16
    ensures match SkipBits(ahead, inmod, n)
            case Some(rest) => InStep(f, Next(f, r).next, rest, 0, INIT_BITS, f.First() - 1)
            case None => GetCode(f, Next(f, r).next) == Eof
  {
    hide Flatten, Pow2, WidthOk, GetCode;
    ReaderStays(f, r);
    LimitBounds(f);
    var g := GetCode(f, r).next;
    SkipAhead(g.frame, Flatten(g.rest), inmod, n);
    FlattenNone();
    assert g.rest == [] ==> ahead == g.frame;
    if SkipBits(ahead, inmod, n) == None {
      NoFetch(f, Next(f, r).next);
    }
  }

  /** compress never has more than nine bits' worth of entries, at any code of a
      stream and at its end. */
  predicate NeverFull(f: Format, free: nat, codes: seq<nat>)
    decreases |codes|
  {
    free <= 511 && (codes == [] || NeverFull(f, Advance(f, free, codes[0]), codes[1..]))
  }

  /** The codes that compress's decoder reads next are those decomp16 reads. */
  lemma {:induction false} SameCodes(f: Format, r: Reader, ahead: seq<bool>, inmod: nat, n: nat, codes: seq<nat>)
    requires f.Valid() && InStep(f, r, ahead, inmod, n, EndOf(f, r.free)) && r.w.bits >= 1
    requires Unpack(f, r) == Some(codes)
    requires f.maxbits >= 10 || NeverFull(f, r.free, codes)
    ensures Codes16(f, ahead, inmod, n, EndOf(f, r.free)) == codes
    decreases |codes|
  {
    assert inmod < 8;
    hide Flatten, ValueOf, Pow2, Unpack, Sync, Fetch16, GetCode, WidthOk, SkipBits;
    D.UnpackStep(f, r, codes);
    FetchSync(f, r, ahead, inmod, n);
    if codes != [] {
      var (c, ahead', inmod', n') := Fetch16(ahead, inmod, n, Widens(f, n, EndOf(f, r.free))).value;
      var r' := Next(f, r).next;
      ReaderStays(f, r);
      if f.IsClear(c) {
        StepClear(f, r, ahead', inmod', n');
        if SkipBits(ahead', inmod', n').Some? {
          ClearedEnd(f);
          SameCodes(f, r', SkipBits(ahead', inmod', n').value, 0, INIT_BITS, codes[1..]);
        } else {
          D.UnpackStep(f, r', codes[1..]);
        }
      } else {
        StepOn(f, r, ahead', inmod', n');
        SameCodes(f, r', ahead', inmod', n', codes[1..]);
      }
      assert codes == [c] + codes[1..];
    }
  }

  lemma ClearedEnd(f: Format)
    requires f.Valid()
    ensures EndOf(f, f.First() - 1) == f.First() - 1
  {
    LimitBounds(f);
  }

  /** decomp16 gets the text that compress's decoder gets, of every valid file
      with codes of ten bits or more, and of those with nine that never fill
      the dictionary. */
  lemma Decodes(file: seq<byte>)
    requires DecodeFile(file).Some?
    ensures
      var f := Format(file[2] % 32, file[2] >= 128);
      f.maxbits >= 10 || NeverFull(f, f.First() - 1, Unpack(f, Reopen(f, file[3..])).value) ==>
        Decode16(file) == DecodeFile(file)
  {
    hide Unpack, DecodeCodes, Codes16, InStep, Flatten, NeverFull;
    var f := Format(file[2] % 32, file[2] >= 128);
    var codes := Unpack(f, Reopen(f, file[3..])).value;
    StartInStep(f, file[3..]);
    ClearedEnd(f);
    if f.maxbits >= 10 || NeverFull(f, f.First() - 1, codes) {
      SameCodes(f, Reopen(f, file[3..]), Flatten(file[3..]), 0, INIT_BITS, codes);
    }
  }

  lemma StartInStep(f: Format, bytes: seq<byte>)
    requires f.Valid()
    ensures InStep(f, Reopen(f, bytes), Flatten(bytes), 0, INIT_BITS, f.First() - 1)
  {
    hide Flatten;
    LimitBounds(f);
    assert [] + Flatten(bytes) == Flatten(bytes);
  }

  // -------------------------------------------------------------- copy 4

  /** The width test, the waste, and one code. */
  method NextIndex(src: BitSource, f: Format, n: nat, curend: nat) returns (ok: bool, index: nat, n': nat)
    requires src.Valid() && 9 <= n <= 16 && f.Valid()
    modifies src
    ensures ok ==> n <= n' <= 16
    ensures ok ==> src.Valid() && Fetch16(old(src.Ahead()), old(src.inmod), n, Widens(f, n, curend))
                                  == Some((index, src.Ahead(), src.inmod, n'))
    ensures !ok ==> Fetch16(old(src.Ahead()), old(src.inmod), n, Widens(f, n, curend)) == None
  {
    hide Flatten, ValueOf, BitsOf, SkipBits, Pow2;
    n', index := n, 0;
    if n < f.maxbits && Pow2(n) <= curend {
      ok := src.Skip(n);
      if !ok {
        return;
      }
      n' := n + 1;
    }
    ok, index := src.GetBits(n');
  }

  /** Between two codes of copy 4: `k` codes are through, the rest is ahead. */
  ghost predicate TopOk(p: Process, src: BitSource, codes: seq<nat>, s0: Pass, k: nat, n: nat)
    reads p, p.dindex, p.dchar, src
  {
    && p.q == 4 && p.Safe() && src.Valid() && s0.Wf() && FeedAll(s0, Whole(codes)).Some?
    && k <= |codes| && 9 <= n <= 16 && codes[k..] == Codes16(p.f, src.Ahead(), src.inmod, n, p.curend)
    && FeedAll(s0, Whole(codes[..k])) == Some((p.AsPass(), p.out))
  }

  /** One turn of copy 4's loop. */
  method TopStep(p: Process, src: BitSource, n: nat, ghost codes: seq<nat>, ghost s0: Pass, ghost k: nat)
    returns (more: bool, n': nat)
    requires TopOk(p, src, codes, s0, k, n)
    modifies src, p`curend, p`dcharp, p`out, p.dindex, p.dchar
    ensures more ==> k < |codes| && TopOk(p, src, codes, s0, k + 1, n')
    ensures !more ==> p.out == FeedAll(s0, Whole(codes)).value.1
  {
    hide Flatten, ValueOf, BitsOf, Pow2, FeedAll, Feed, Fetch16, Base, Descends, Whole, SkipBits;
    var index;
    more, index, n' := NextIndex(src, p.f, n, p.curend);
    if !more {
      assert codes[..k] == codes;
      return;
    }
    assert codes[k..][0] == index && codes[k..][1..] == codes[k + 1..];
    FeedNext(s0, codes, k, p.AsPass(), p.out);
    CurEnd(p.AsPass(), index);
    more := p.Handle(Item(index, false));
    if index == 256 && p.f.block {
      more := src.Skip(n');
      n' := INIT_BITS;
      if !more {
        assert codes[..k + 1] == codes;
      }
    }
  }

  /** The top pass counts all of the dictionary. */
  lemma CurEnd(s: Pass, c: nat)
    requires s.Wf() && s.q == 4 && Feed(s, Item(c, false)).Some?
    ensures Feed(s, Item(c, false)).value.0.curend == if s.f.IsClear(c) then s.f.First() - 1 else Grow(s.f, s.curend)
  {
    hide RootOf, ChainOf, Spawned;
    LimitBounds(s.f);
  }

  /** Copy 4: bits to indices, through the top part of the dictionary. */
  method RunTop(f: Format, bytes: seq<byte>) returns (out: seq<Item>)
    requires f.Valid() && PassOut(4, f, Whole(CodesOf(f, bytes))).Some?
    ensures Some(out) == PassOut(4, f, Whole(CodesOf(f, bytes)))
  {
    hide Flatten, ValueOf, BitsOf, Pow2, FeedAll, Feed, Codes16, Base, Descends;
    var p := new Process(4, f);
    var src := new BitSource(bytes);
    var n, more := INIT_BITS, true;
    ghost var codes, s0, k := CodesOf(f, bytes), p.AsPass(), 0;
    FeedNothing(s0);
    assert codes[0..] == codes && Whole(codes[..0]) == [];
    while more
      invariant fresh(p) && fresh(p.dindex) && fresh(p.dchar) && fresh(src)
      invariant more ==> p.f == f && TopOk(p, src, codes, s0, k, n)
      invariant !more ==> p.out == FeedAll(s0, Whole(codes)).value.1
      decreases if more then |codes| - k + 1 else 0
    {
      more, n := TopStep(p, src, n, codes, s0, k);
      if more {
        k := k + 1;
      }
    }
    out := p.out;
  }

  lemma FeedNothing(s: Pass)
    requires s.Wf()
    ensures FeedAll(s, []) == Some((s, []))
  {
  }

  /** One more code of a stream that passes. */
  lemma FeedNext(s0: Pass, codes: seq<nat>, k: nat, s: Pass, out: seq<Item>)
    requires s0.Wf() && k < |codes| && FeedAll(s0, Whole(codes)).Some?
    requires FeedAll(s0, Whole(codes[..k])) == Some((s, out))
    ensures s.Wf() && Feed(s, Item(codes[k], false)).Some?
    ensures
      var (s', more) := Feed(s, Item(codes[k], false)).value;
      FeedAll(s0, Whole(codes[..k + 1])) == Some((s', out + more))
  {
    hide Feed, FeedAll;
    var it := Item(codes[k], false);
    assert Whole(codes[..k + 1]) == Whole(codes[..k]) + [it];
    FeedAllAppend(s0, Whole(codes[..k]), [it]);
    FeedOne(s, it);
    assert Whole(codes)[..k + 1] == Whole(codes[..k + 1]);
    if FeedAll(s0, Whole(codes[..k + 1])).None? {
      FeedFails(s0, Whole(codes), k + 1);
    }
  }

  /** decomp16 on a whole file.  A code beyond the dictionary is not tested for
      in copy 4. */
  method DecompFile(file: seq<byte>) returns (r: Option<seq<byte>>)
    requires D.HeaderOk(file) ==> Decode16(file).Some?
    ensures r == Decode16(file)
  {
    hide DecodeCodes, Codes16, PassOut, BytesOf, Pow2;
    if !D.HeaderOk(file) {
      return None;
    }
    var f := Format(file[2] % 32, file[2] >= 128);
    PipelineDecodes(f, CodesOf(f, file[3..]));
    var its := RunTop(f, file[3..]);
    its := RunBelow(f, 4, its);
    r := Some(BytesOf(its));
  }

  /** What compress makes of a text, with codes of ten bits or more, decomp16
      turns back into it. */
  method RoundTrip(f: Format, input: seq<byte>, worse: nat -> bool) returns (back: Option<seq<byte>>)
    requires f.Valid() && f.maxbits >= 10
    ensures back == Some(input)
  {
    hide Unpack, Decode16;
    var file := Compress(f, input, worse);
    Decodes(file);
    back := DecompFile(file);
  }
}
