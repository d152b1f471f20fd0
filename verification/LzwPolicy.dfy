/** When compress clears its table, and how wide its codes are: from the codes
    sent and the characters read alone. */
module LzwPolicy {
  import opened Common
  import opened LzwBits
  import opened LzwSpec
  import opened LzwTable
  import opened LzwEncode

  /** The codes sent since the last CLEAR. */
  function SinceClear(f: Format, codes: seq<nat>): nat {
    if codes == [] || f.IsClear(codes[|codes| - 1]) then 0 else 1 + SinceClear(f, codes[..|codes| - 1])
  }

  lemma SentOne(f: Format, codes: seq<nat>, c: nat)
    ensures SinceClear(f, codes + [c]) == if f.IsClear(c) then 0 else SinceClear(f, codes) + 1
  {
    var more := codes + [c];
    assert more[..|more| - 1] == codes && more[|more| - 1] == c;
  }

  /** The table is full once that many codes were sent as it has entries. */
  predicate IsFull(f: Format, codes: seq<nat>) {
    f.First() + SinceClear(f, codes) >= f.Limit()
  }

  /** What the loop's variables have to do with what was read and sent: no code
      is CLEAR by chance, and the next free entry counts the codes. */
  ghost predicate Counts(f: Format, e: Enc, p: nat) {
    && e.count == p && !f.IsClear(e.ent) && (forall i :: 0 <= i < |e.t.codes| ==> !f.IsClear(e.t.codes[i]))
    && e.t.free == (if IsFull(f, e.t.sent) then f.Limit() else f.First() + SinceClear(f, e.t.sent))
  }

  /** How a step may go. */
  datatype Outcome = Hit | Sent | SentAndCleared

  function OutcomeOf(e: Enc, e': Enc): Outcome {
    if e'.t.sent == e.t.sent then Hit else if e'.t.sent == e.t.sent + [e.ent] then Sent else SentAndCleared
  }

  lemma StepCounts(f: Format, e: Enc, c: byte, worse: nat -> bool, p: nat)
    requires f.Valid() && e.t.Valid() && Counts(f, e, p)
    ensures
      var e' := LzwEncode.Next(f, e, c, worse); var due := IsFull(f, e.t.sent) && p + 1 >= e.checkpoint && f.block;
      && Counts(f, e', p + 1)
      && e'.t.sent == (match OutcomeOf(e, e')
                       case Hit => e.t.sent
                       case Sent => e.t.sent + [e.ent]
                       case SentAndCleared => e.t.sent + [e.ent, CLEAR])
      && (OutcomeOf(e, e').SentAndCleared? ==> due && worse(p + 1))
      && (OutcomeOf(e, e').Sent? ==> !(due && worse(p + 1)))
      && e'.checkpoint == (if due && !OutcomeOf(e, e').Hit? then p + 1 + CHECK_GAP else e.checkpoint)
  {
    hide Look, Key, Home, NoKeys, SinceClear;
    LimitBounds(f);
    var t, e' := e.t, LzwEncode.Next(f, e, c, worse);
    SentOne(f, t.sent, e.ent);
    SentOne(f, t.sent + [e.ent], CLEAR);
    assert t.sent + [e.ent] + [CLEAR] == t.sent + [e.ent, CLEAR];
    var key := Key(f, c, e.ent);
    var i := Look(t.keys, key, Home(f, key), 0);
    if t.keys[i] == key {
      assert e'.t == t;
    } else {
      assert |t.sent + [e.ent]| == |t.sent| + 1;
      assert |t.sent + [e.ent, CLEAR]| == |t.sent| + 2;
    }
  }

  lemma StartCounts(f: Format, c: byte)
    requires f.Valid()
    ensures Counts(f, Enc(Empty(f), c, 1, CHECK_GAP), 1)
  {
    LimitBounds(f);
  }

  lemma {:induction false} AlwaysCounts(f: Format, input: seq<byte>, p: nat, worse: nat -> bool)
    requires f.Valid() && 1 <= p <= |input|
    ensures Counts(f, After(f, input, p, worse), p)
  {
    hide LzwEncode.Next, Counts, Empty;
    if p == 1 {
      StartCounts(f, input[0]);
      AfterOne(f, input, worse);
    } else {
      AlwaysCounts(f, input, p - 1, worse);
      StepCounts(f, After(f, input, p - 1, worse), input[p - 1], worse, p - 1);
    }
  }

  /** After each character: a code may be sent for the string before it, and
      behind that a CLEAR, if and only if the file is made in blocks, the table is
      full, the ratio is due to be tested, and it has become worse. */
  lemma ClearsExactly(f: Format, input: seq<byte>, p: nat, worse: nat -> bool)
    requires f.Valid() && 1 <= p < |input|
    ensures
      var e, e' := After(f, input, p, worse), After(f, input, p + 1, worse);
      var due := f.block && IsFull(f, e.t.sent) && p + 1 >= e.checkpoint;
      && e'.t.sent == (match OutcomeOf(e, e')
                       case Hit => e.t.sent
                       case Sent => e.t.sent + [e.ent]
                       case SentAndCleared => e.t.sent + [e.ent, CLEAR])
      && (!OutcomeOf(e, e').Hit? ==> (OutcomeOf(e, e').SentAndCleared? <==> due && worse(p + 1)))
      && e'.checkpoint == (if due && !OutcomeOf(e, e').Hit? then p + 1 + CHECK_GAP else e.checkpoint)
  {
    hide LzwEncode.Next, Counts, OutcomeOf, IsFull;
    AlwaysCounts(f, input, p, worse);
    StepCounts(f, After(f, input, p, worse), input[p], worse, p);
  }

  /** Without blocks, or if the ratio never gets worse, nothing is cleared: the
      codes since the last CLEAR are all of them. */
  lemma {:induction false} NeverClears(f: Format, input: seq<byte>, p: nat, worse: nat -> bool)
    requires f.Valid() && 1 <= p <= |input| && (!f.block || forall n :: !worse(n))
    ensures SinceClear(f, After(f, input, p, worse).t.sent) == |After(f, input, p, worse).t.sent|
  {
    if p > 1 {
      hide SinceClear, Counts, IsFull;
      NeverClears(f, input, p - 1, worse);
      ClearsExactly(f, input, p - 1, worse);
      AlwaysCounts(f, input, p - 1, worse);
      var e := After(f, input, p - 1, worse);
      SentOne(f, e.t.sent, e.ent);
      NotClear(f, e, p - 1);
    }
  }

  lemma NotClear(f: Format, e: Enc, p: nat)
    requires Counts(f, e, p)
    ensures !f.IsClear(e.ent)
  {
  }

  // ------------------------------------------------------------------- widths

  /** The entry that the code after `codes` makes, which is the largest it can
      be, up to the limit. */
  function Coming(f: Format, codes: seq<nat>): nat {
    var n := (if f.block then 256 else 255) + SinceClear(f, codes);
    if n < f.Limit() then n else f.Limit()
  }

  /** Of the widths from nine bits to the limit the least that `n` fits; only
      with a limit of nine it goes one beyond. */
  ghost predicate Narrowest(f: Format, bits: nat, n: nat) {
    && 9 <= bits && (bits == 9 || Pow2(bits - 1) <= n)
    && (n < Pow2(bits) || (bits == f.maxbits && bits > 9))
  }

  ghost predicate WidthOk(f: Format, w: Width) {
    && 9 <= w.bits && w.top == if w.bits == f.maxbits && w.bits > 9 then f.Limit() else Pow2(w.bits) - 1
  }

  /** Between codes, the entries may be one ahead of the width. */
  ghost predicate InStep(f: Format, r: Reader) {
    && WidthOk(f, r.w) && r.free <= f.Limit() && (r.w.bits == 9 || Pow2(r.w.bits - 1) <= r.free || r.cleared)
    && (r.cleared ==> r.free <= 256) && (r.free <= r.w.top + 1 || r.cleared)
  }

  lemma StartsInStep(f: Format, bytes: seq<byte>)
    requires f.Valid()
    ensures InStep(f, Reopen(f, bytes))
  {
    Pow2Values();
    LimitBounds(f);
  }

  lemma WidthNext(f: Format, r: Reader)
    requires f.Valid() && InStep(f, r)
    ensures
      var w := NextWidth(f, r);
      WidthOk(f, w) && Narrowest(f, w.bits, r.free) && r.free <= w.top
  {
    Pow2Values();
    LimitBounds(f);
  }

  lemma FetchInStep(f: Format, r: Reader)
    requires f.Valid() && InStep(f, r) && LzwSpec.Next(f, r).Code?
    ensures
      var r' := LzwSpec.Next(f, r).next;
      InStep(f, r') && Narrowest(f, r'.w.bits, r.free) && r'.free == Advance(f, r.free, LzwSpec.Next(f, r).code)
  {
    hide Flatten, ValueOf;
    WidthNext(f, r);
    LimitBounds(f);
  }

  lemma {:induction false} FreeIs(f: Format, r: Reader, a: seq<nat>, b: seq<nat>, r': Reader)
    requires f.Valid() && InStep(f, r) && r.free == Coming(f, a) && Reads(f, r, b, r')
    ensures InStep(f, r') && r'.free == Coming(f, a + b)
    decreases |b|
  {
    hide LzwSpec.Next, SinceClear, InStep;
    if b == [] {
      assert a + b == a;
    } else {
      FetchInStep(f, r);
      SentOne(f, a, b[0]);
      LimitBounds(f);
      assert a + b == a + [b[0]] + b[1..];
      FreeIs(f, LzwSpec.Next(f, r).next, a + [b[0]], b[1..], r');
    }
  }

  /** In every compressed stream each code has the narrowest width for the entry
      that the codes before it, since the last CLEAR, leave to be made. */
  lemma WidthsExactly(f: Format, bytes: seq<byte>, codes: seq<nat>, r: Reader)
    requires f.Valid() && Reads(f, Reopen(f, bytes), codes, r) && LzwSpec.Next(f, r).Code?
    ensures Narrowest(f, LzwSpec.Next(f, r).next.w.bits, Coming(f, codes))
  {
    hide LzwSpec.Next, Narrowest, Reads;
    StartsInStep(f, bytes);
    LimitBounds(f);
    FreeIs(f, Reopen(f, bytes), [], codes, r);
    assert [] + codes == codes;
    FetchInStep(f, r);
  }
}
