/** What a compressed stream means, stated without the tables of compress.c:
    a reader that cuts the bytes into codes of growing width, and Welch's
    decoder, which keeps whole strings. */
module LzwSpec {
  import opened Common
  import opened LzwBits

  const INIT_BITS: nat := 9
  const CLEAR: nat := 256

  /** Third header byte: the width limit, and whether CLEAR codes are used. */
  datatype Format = Format(maxbits: nat, block: bool) {
    predicate Valid() {
      INIT_BITS <= maxbits <= 16
    }

    /** First free dictionary entry. */
    function First(): nat {
      if block then 257 else 256
    }

    /** maxmaxcode */
    function Limit(): nat {
      Pow2(maxbits)
    }

    predicate IsClear(code: nat) {
      block && code == CLEAR
    }
  }

  lemma LimitBounds(f: Format)
    requires f.Valid()
    ensures 512 <= f.Limit() <= 65536
  {
    Pow2Values();
    Pow2Increases(f.maxbits, 16);
    Pow2Increases(9, f.maxbits);
  }

  // ---------------------------------------------------------------- decoding

  /** The strings learned since the last CLEAR, the string of the previous code
      (empty at the start of a block) and the text so far. */
  datatype Decoder = Decoder(strs: seq<seq<byte>>, prev: seq<byte>, text: seq<byte>)

  predicate Full(f: Format, strs: seq<seq<byte>>) {
    f.First() + |strs| >= f.Limit()
  }

  predicate Known(f: Format, strs: seq<seq<byte>>, code: nat) {
    code < 256 || f.First() <= code < f.First() + |strs|
  }

  function StringOf(f: Format, strs: seq<seq<byte>>, code: nat): seq<byte>
    requires Known(f, strs, code)
  {
    if code < 256 then [code] else strs[code - f.First()]
  }

  /** The dictionary once the next string is known to begin with `c`. */
  function Learn(f: Format, d: Decoder, c: byte): seq<seq<byte>> {
    if d.prev == [] || Full(f, d.strs) then d.strs else d.strs + [d.prev + [c]]
  }

  /** The string of a code, if the stream may hold that code here.  A code one
      past the dictionary names the entry about to be made. */
  function Expand(f: Format, d: Decoder, code: nat): Option<seq<byte>> {
    if code < 256 then Some([code])
    else if d.prev == [] || f.IsClear(code) then None
    else if code - f.First() < |d.strs| then Some(d.strs[code - f.First()])
    else if code - f.First() == |d.strs| && !Full(f, d.strs) then Some(d.prev + [d.prev[0]])
    else None
  }

  function Decode1(f: Format, d: Decoder, code: nat): Option<Decoder> {
    if f.IsClear(code) && d.prev != [] then Some(Decoder([], [], d.text))
    else match Expand(f, d, code)
      case None => None
      case Some(s) => if s == [] then None else Some(Decoder(Learn(f, d, s[0]), s, d.text + s))
  }

  const START := Decoder([], [], [])

  function DecodeCodes(f: Format, codes: seq<nat>): Option<Decoder> {
    if codes == [] then Some(START)
    else match DecodeCodes(f, codes[..|codes| - 1])
      case None => None
      case Some(d) => Decode1(f, d, codes[|codes| - 1])
  }

  // ----------------------------------------------------------------- reading

  /** n_bits and maxcode. */
  datatype Width = Width(bits: nat, top: nat)

  const NARROW := Width(INIT_BITS, 511)

  function Wider(f: Format, w: Width): Width {
    Width(w.bits + 1, if w.bits + 1 == f.maxbits then f.Limit() else Pow2(w.bits + 1) - 1)
  }

  /** Unread bytes, unread bits of the current buffer, the code width, the
      first free entry, and whether the last code was CLEAR. */
  datatype Reader = Reader(rest: seq<byte>, frame: seq<bool>, w: Width, free: nat, cleared: bool)

  function Reopen(f: Format, bytes: seq<byte>): Reader {
    Reader(bytes, [], NARROW, f.First() - 1, false)
  }

  predicate MustRefill(r: Reader) {
    r.cleared || |r.frame| < r.w.bits || r.free > r.w.top
  }

  function NextWidth(f: Format, r: Reader): Width {
    if r.cleared then NARROW else if r.free > r.w.top then Wider(f, r.w) else r.w
  }

  function Refill(f: Format, r: Reader): (r': Reader)
  {
    var w := NextWidth(f, r);
    var k := if |r.rest| < w.bits then |r.rest| else w.bits;
    Reader(r.rest[k..], Flatten(r.rest[..k]), w, r.free, false)
  }

  /** First free entry after a code. */
  function Advance(f: Format, free: nat, code: nat): nat {
    if f.IsClear(code) then f.First() - 1 else if free < f.Limit() then free + 1 else free
  }

  datatype Fetch = Eof | Truncated | Code(code: nat, next: Reader)

  function Take(r: Reader): Fetch
  {
    if r.frame == [] then Eof
    else if |r.frame| < r.w.bits then Truncated
    else Code(ValueOf(r.frame[..r.w.bits]), r.(frame := r.frame[r.w.bits..]))
  }

  /** getcode */
  function GetCode(f: Format, r: Reader): Fetch {
    Take(if MustRefill(r) then Refill(f, r) else r)
  }

  /** getcode, and what decompress does to free_ent and clear_flg after it. */
  function Next(f: Format, r: Reader): Fetch {
    match GetCode(f, r)
    case Code(c, r') => Code(c, r'.(free := Advance(f, r'.free, c), cleared := f.IsClear(c)))
    case other => other
  }

  function Unread(r: Reader): nat {
    8 * |r.rest| + |r.frame|
  }

  lemma NextConsumes(f: Format, r: Reader)
    requires r.w.bits >= 1
    ensures Next(f, r).Code? ==> Unread(Next(f, r).next) < Unread(r) && Next(f, r).next.w.bits >= 1
  {
  }

  /** All codes up to the end of the file. */
  function Unpack(f: Format, r: Reader): Option<seq<nat>>
    requires r.w.bits >= 1
    decreases Unread(r)
  {
    NextConsumes(f, r);
    match Next(f, r)
    case Eof => Some([])
    case Truncated => None
    case Code(c, r') =>
      match Unpack(f, r')
      case None => None
      case Some(cs) => Some([c] + cs)
  }

  /** The text of a compressed stream after its header. */
  function Decode(f: Format, bytes: seq<byte>): Option<seq<byte>> {
    match Unpack(f, Reopen(f, bytes))
    case None => None
    case Some(cs) =>
      match DecodeCodes(f, cs)
      case None => None
      case Some(d) => Some(d.text)
  }

  /** The whole file: magic number, style byte, codes. */
  function DecodeFile(file: seq<byte>): Option<seq<byte>> {
    if |file| < 3 || file[0] != 0x1F || file[1] != 0x9D then None
    else
      var f := Format(file[2] % 32, file[2] >= 128);
      if f.Valid() then Decode(f, file[3..]) else None
  }

  /** Reading `codes` takes `r` to `r'`. */
  ghost predicate Reads(f: Format, r: Reader, codes: seq<nat>, r': Reader)
    decreases |codes|
  {
    if codes == [] then r == r'
    else Next(f, r).Code? && Next(f, r).code == codes[0] && Reads(f, Next(f, r).next, codes[1..], r')
  }

  lemma {:induction false} ReadsCompose(f: Format, r: Reader, a: seq<nat>, r1: Reader, b: seq<nat>, r2: Reader)
    requires Reads(f, r, a, r1) && Reads(f, r1, b, r2)
    ensures Reads(f, r, a + b, r2)
    decreases |a|
  {
    hide Next;
    if a == [] {
      assert a + b == b;
    } else {
      ReadsCompose(f, Next(f, r).next, a[1..], r1, b, r2);
      assert (a + b)[1..] == a[1..] + b;
    }
  }

  /** Codes that can be read, with the end of the file after them, are what
      the stream unpacks to. */
  lemma {:induction false} ReadsUnpack(f: Format, r: Reader, codes: seq<nat>, r': Reader)
    requires Reads(f, r, codes, r') && r.w.bits >= 1 && Next(f, r').Eof?
    ensures Unpack(f, r) == Some(codes)
    decreases |codes|
  {
    if codes != [] {
      NextConsumes(f, r);
      ReadsUnpack(f, Next(f, r).next, codes[1..], r');
      assert [codes[0]] + codes[1..] == codes;
    }
  }
}
