/** The codes that compress sends, as a function of the input: the main loop on
    values, hash table included. */
module LzwEncode {
  import opened Common
  import opened LzwSpec
  import opened LzwPrime
  import opened LzwTable

  const CHECK_GAP: nat := 10000

  /** htab, codetab, free_ent, and the codes sent so far. */
  datatype Tables = Tables(keys: seq<int>, codes: seq<nat>, free: nat, sent: seq<nat>) {
    predicate Valid() {
      |keys| == |codes| == HSIZE
    }
  }

  function NoKeys(): (keys: seq<int>)
    ensures |keys| == HSIZE && forall i :: 0 <= i < HSIZE ==> keys[i] == -1
  {
    seq(HSIZE, _ => -1)
  }

  function Empty(f: Format): (t: Tables)
    ensures t.Valid()
  {
    Tables(NoKeys(), seq(HSIZE, _ => 0), f.First(), [])
  }

  /** The slot where the look-up for `key` stops, from its step `k` on. */
  function Look(keys: seq<int>, key: int, i0: nat, k: nat): (i: nat)
    requires |keys| == HSIZE && i0 < HSIZE && k < HSIZE
    ensures i < HSIZE
    decreases HSIZE - k
  {
    var i := SlotAt(i0, Disp(i0), k);
    if keys[i] == key || keys[i] < (if k == 0 then 0 else 1) || k + 1 == HSIZE then i else Look(keys, key, i0, k + 1)
  }

  lemma LookOn(keys: seq<int>, key: int, i0: nat, k: nat)
    requires |keys| == HSIZE && i0 < HSIZE && k + 1 < HSIZE && Passes(keys, i0, k)
    requires keys[SlotAt(i0, Disp(i0), k)] != key
    ensures Look(keys, key, i0, k) == Look(keys, key, i0, k + 1)
  {
    hide SlotAt;
  }

  lemma LookStops(keys: seq<int>, key: int, i0: nat, k: nat)
    requires |keys| == HSIZE && i0 < HSIZE && k < HSIZE
    requires keys[SlotAt(i0, Disp(i0), k)] == key || !Passes(keys, i0, k)
    ensures Look(keys, key, i0, k) == SlotAt(i0, Disp(i0), k)
  {
    hide SlotAt;
  }

  /** A miss at slot `i`: the code is sent, and the string entered, or the table
      perhaps cleared. */
  function Enter(f: Format, t: Tables, i: nat, key: nat, ent: nat, clear: bool): (t': Tables)
    requires t.Valid() && i < HSIZE
    ensures t'.Valid()
  {
    var t1 := t.(sent := t.sent + [ent]);
    if t.free < f.Limit() then t1.(keys := t.keys[i := key], codes := t.codes[i := t.free], free := t.free + 1)
    else if clear && f.block then Tables(NoKeys(), t.codes, 257, t1.sent + [CLEAR])
    else t1
  }

  /** The loop's variables: the code of the current string, the characters
      read, and when to test the ratio next. */
  datatype Enc = Enc(t: Tables, ent: nat, count: nat, checkpoint: nat)

  function Next(f: Format, e: Enc, c: byte, worse: nat -> bool): (e': Enc)
    requires f.Valid() && e.t.Valid()
    ensures e'.t.Valid()
  {
    var key, count := Key(f, c, e.ent), e.count + 1;
    var i := Look(e.t.keys, key, Home(f, key), 0);
    if e.t.keys[i] == key then Enc(e.t, e.t.codes[i], count, e.checkpoint)
    else
      var due := e.t.free >= f.Limit() && count >= e.checkpoint && f.block;
      Enc(Enter(f, e.t, i, key, e.ent, due && worse(count)), c, count, if due then count + CHECK_GAP else e.checkpoint)
  }

  /** After the first `p` characters. */
  function After(f: Format, input: seq<byte>, p: nat, worse: nat -> bool): (e: Enc)
    requires f.Valid() && 1 <= p <= |input|
    ensures e.t.Valid()
  {
    if p == 1
    then Enc(Empty(f), input[0], 1, CHECK_GAP)
    else Next(f, After(f, input, p - 1, worse), input[p - 1], worse)
  }

  lemma AfterOne(f: Format, input: seq<byte>, worse: nat -> bool)
    requires f.Valid() && input != []
    ensures After(f, input, 1, worse) == Enc(Empty(f), input[0], 1, CHECK_GAP)
  {
  }

  lemma AfterHit(f: Format, input: seq<byte>, p: nat, worse: nat -> bool, i: nat)
    requires f.Valid() && 1 <= p < |input|
    requires var e := After(f, input, p, worse); var key := Key(f, input[p], e.ent);
      i == Look(e.t.keys, key, Home(f, key), 0) && e.t.keys[i] == key
    ensures var e := After(f, input, p, worse);
      After(f, input, p + 1, worse) == Enc(e.t, e.t.codes[i], e.count + 1, e.checkpoint)
  {
    hide Look, Home, Key;
  }

  lemma AfterMiss(f: Format, input: seq<byte>, p: nat, worse: nat -> bool, i: nat, due: bool)
    requires f.Valid() && 1 <= p < |input|
    requires var e := After(f, input, p, worse); var key := Key(f, input[p], e.ent);
      i == Look(e.t.keys, key, Home(f, key), 0) && e.t.keys[i] != key
    requires
      var e := After(f, input, p, worse);
      due == (e.t.free >= f.Limit() && e.count + 1 >= e.checkpoint && f.block)
    ensures var e := After(f, input, p, worse); var count, key := e.count + 1, Key(f, input[p], e.ent);
      After(f, input, p + 1, worse) ==
      Enc(Enter(f, e.t, i, key, e.ent, due && worse(count)), input[p], count,
          if due then count + CHECK_GAP else e.checkpoint)
  {
    hide Look, Home, Key, Enter;
  }

  /** All codes of the file. */
  function Encode(f: Format, input: seq<byte>, worse: nat -> bool): seq<nat>
    requires f.Valid()
  {
    if input == [] then [] else var e := After(f, input, |input|, worse); e.t.sent + [e.ent]
  }

  // --------------------------------------------------------------- no zeros

  /** Somewhere two zero bytes stand side by side. */
  predicate TwoZeros(input: seq<byte>) {
    exists i :: 0 <= i < |input| - 1 && input[i] == 0 && input[i + 1] == 0
  }

  /** No string of the dictionary that `text` begins with is longer than `sent`. */
  ghost predicate TrulyLongest(strs: seq<seq<byte>>, sent: seq<byte>, text: seq<byte>) {
    forall n :: 0 <= n < |strs| && strs[n] <= text ==> |strs[n]| <= |sent|
  }

  /** `Greedy` without exemptions. */
  ghost predicate TrulyGreedy(f: Format, codes: seq<nat>, input: seq<byte>) {
    forall k :: 0 <= k < |codes| ==> TrulyGreedyAt(f, codes, input, k)
  }

  ghost predicate TrulyGreedyAt(f: Format, codes: seq<nat>, input: seq<byte>, k: nat)
    requires k < |codes|
  {
    var d := DecodeCodes(f, codes[..k + 1]);
    d.Some? && (d.value.prev == [] || TrulyGreedyStep(d.value, input))
  }

  ghost predicate TrulyGreedyStep(d: Decoder, input: seq<byte>) {
    |d.prev| <= |d.text| <= |input| && TrulyLongest(d.strs, d.prev, input[|d.text| - |d.prev|..])
  }

  /** Without two zero bytes side by side in the input the exemption is empty. */
  lemma GreedyTruly(f: Format, codes: seq<nat>, input: seq<byte>)
    requires Greedy(f, codes, input) && !TwoZeros(input)
    ensures TrulyGreedy(f, codes, input)
  {
    hide DecodeCodes;
    forall k | 0 <= k < |codes|
      ensures TrulyGreedyAt(f, codes, input, k)
    {
      assert GreedyAt(f, codes, input, k);
      var d := DecodeCodes(f, codes[..k + 1]).value;
      if d.prev != [] { StepTruly(d, input); }
    }
  }

  lemma StepTruly(d: Decoder, input: seq<byte>)
    requires GreedyStep(d, input) && !TwoZeros(input)
    ensures TrulyGreedyStep(d, input)
  {
    var at := |d.text| - |d.prev|;
    forall s: seq<byte> | s <= input[at..]
      ensures !Zeros(s)
    {
      NoZeros(input, at, s);
    }
  }

  lemma NoZeros(input: seq<byte>, at: nat, s: seq<byte>)
    requires at <= |input| && s <= input[at..] && !TwoZeros(input)
    ensures !Zeros(s)
  {
    assert |s| >= 2 ==> s[0] == input[at] && s[1] == input[at + 1];
  }
}
