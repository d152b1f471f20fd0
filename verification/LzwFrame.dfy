/** Buffers of codes: what the reader makes of the bytes `output` writes when
    its buffer is full, when the code width changes, and at the end. */
module LzwFrame {
  import opened Common
  import opened LzwBits
  import opened LzwSpec

  function Packed(codes: seq<nat>, n: nat): (b: seq<bool>)
    ensures |b| == |codes| * n
  {
    if codes == [] then []
    else
      assert n + (|codes| - 1) * n == |codes| * n;
      BitsOf(codes[0], n) + Packed(codes[1..], n)
  }

  function AdvanceAll(f: Format, free: nat, codes: seq<nat>): nat
    decreases |codes|
  {
    if codes == [] then free else AdvanceAll(f, Advance(f, free, codes[0]), codes[1..])
  }

  predicate Fit(codes: seq<nat>, n: nat) {
    forall i :: 0 <= i < |codes| ==> codes[i] < Pow2(n)
  }

  /** No code of a buffer makes the reader drop the rest of the buffer. */
  predicate Open(f: Format, free: nat, top: nat, codes: seq<nat>)
    decreases |codes|
  {
    codes == [] ||
    (!f.IsClear(codes[0]) && Advance(f, free, codes[0]) <= top && Open(f, Advance(f, free, codes[0]), top, codes[1..]))
  }

  lemma {:induction false} PackedAppend(codes: seq<nat>, n: nat, code: nat)
    ensures Packed(codes + [code], n) == Packed(codes, n) + BitsOf(code, n)
  {
    if codes == [] {
      assert (codes + [code])[1..] == [];
    } else {
      PackedAppend(codes[1..], n, code);
      assert (codes + [code])[1..] == codes[1..] + [code];
    }
  }

  lemma {:induction false} AdvanceAllAppend(f: Format, free: nat, codes: seq<nat>, code: nat)
    ensures AdvanceAll(f, free, codes + [code]) == Advance(f, AdvanceAll(f, free, codes), code)
    decreases |codes|
  {
    if codes == [] {
      assert (codes + [code])[1..] == [];
    } else {
      AdvanceAllAppend(f, Advance(f, free, codes[0]), codes[1..], code);
      assert (codes + [code])[1..] == codes[1..] + [code];
    }
  }

  lemma {:induction false} OpenAppend(f: Format, free: nat, top: nat, codes: seq<nat>, code: nat)
    requires Open(f, free, top, codes) && !f.IsClear(code)
    requires Advance(f, AdvanceAll(f, free, codes), code) <= top
    ensures Open(f, free, top, codes + [code])
    decreases |codes|
  {
    if codes == [] {
      assert (codes + [code])[1..] == [];
    } else {
      OpenAppend(f, Advance(f, free, codes[0]), top, codes[1..], code);
      assert (codes + [code])[1..] == codes[1..] + [code];
    }
  }

  /** One code at the front of a buffer. */
  lemma TakeOne(r: Reader, code: nat, more: seq<bool>)
    requires r.w.bits >= 1 && code < Pow2(r.w.bits) && r.frame == BitsOf(code, r.w.bits) + more
    ensures Take(r) == Code(code, r.(frame := more))
  {
    assert r.frame[..r.w.bits] == BitsOf(code, r.w.bits);
    assert r.frame[r.w.bits..] == more;
    ValueInverts(code, r.w.bits);
  }

  /** The reader in the middle of a buffer: open codes, then a last code. */
  lemma {:induction false} InFrame(f: Format, r: Reader, codes: seq<nat>, last: nat, left: seq<bool>)
    requires r.w.bits >= 1 && Fit(codes + [last], r.w.bits)
    requires !r.cleared && r.free <= r.w.top && Open(f, r.free, r.w.top, codes)
    requires r.frame == Packed(codes + [last], r.w.bits) + left
    ensures Reads(f, r, codes + [last],
                  Reader(r.rest, left, r.w, AdvanceAll(f, r.free, codes + [last]), f.IsClear(last)))
    decreases |codes|
  {
    hide ValueOf, BitsOf;
    var all := codes + [last];
    var more := Packed(all[1..], r.w.bits) + left;
    assert r.frame == BitsOf(all[0], r.w.bits) + more;
    TakeOne(r, all[0], more);
    var r' := Next(f, r).next;
    if codes == [] {
      assert all[1..] == [];
    } else {
      assert all[1..] == codes[1..] + [last];
      InFrame(f, r', codes[1..], last, left);
    }
  }

  /** The first code of a buffer makes the reader fetch it. */
  lemma FrameRead(f: Format, st: Reader, w: Width, bytes: seq<byte>, tail: seq<byte>,
                  codes: seq<nat>, last: nat, left: seq<bool>)
    requires MustRefill(st) && NextWidth(f, st) == w && w.bits >= 1
    requires |bytes| == w.bits || (tail == [] && |bytes| <= w.bits)
    requires Fit(codes + [last], w.bits) && Open(f, st.free, w.top, codes)
    requires Flatten(bytes) == Packed(codes + [last], w.bits) + left
    ensures Reads(f, st.(rest := bytes + tail), codes + [last],
                  Reader(tail, left, w, AdvanceAll(f, st.free, codes + [last]), f.IsClear(last)))
  {
    hide Flatten, ValueOf, BitsOf;
    var r := st.(rest := bytes + tail);
    var r0 := Refill(f, r);
    assert (bytes + tail)[..|bytes|] == bytes && (bytes + tail)[|bytes|..] == tail;
    assert r0 == Reader(tail, Flatten(bytes), w, st.free, false);
    var all := codes + [last];
    var more := Packed(all[1..], w.bits) + left;
    assert r0.frame == BitsOf(all[0], w.bits) + more;
    TakeOne(r0, all[0], more);
    var r' := Next(f, r).next;
    if codes == [] {
      assert all[1..] == [];
    } else {
      assert all[1..] == codes[1..] + [last];
      InFrame(f, r', codes[1..], last, left);
    }
  }

  /** Whatever follows, a reader of `out` gets `codes` and is left at `st`. */
  ghost predicate Written(f: Format, out: seq<byte>, codes: seq<nat>, st: Reader) {
    && st.rest == [] && MustRefill(st)
    && forall tail :: Reads(f, Reopen(f, out + tail), codes, st.(rest := tail))
  }

  lemma WrittenNothing(f: Format)
    ensures Written(f, [], [], Reopen(f, []))
  {
    forall tail: seq<byte>
      ensures Reads(f, Reopen(f, [] + tail), [], Reopen(f, []).(rest := tail))
    {
      assert [] + tail == tail;
    }
  }

  /** One more whole buffer. */
  lemma WrittenFrame(f: Format, out: seq<byte>, done: seq<nat>, st: Reader, w: Width, bytes: seq<byte>,
                     codes: seq<nat>, last: nat, left: seq<bool>, st': Reader)
    requires Written(f, out, done, st) && NextWidth(f, st) == w && 1 <= w.bits == |bytes|
    requires Fit(codes + [last], w.bits) && Open(f, st.free, w.top, codes)
    requires Flatten(bytes) == Packed(codes + [last], w.bits) + left
    requires st' == Reader([], left, w, AdvanceAll(f, st.free, codes + [last]), f.IsClear(last)) && MustRefill(st')
    ensures Written(f, out + bytes, done + (codes + [last]), st')
  {
    hide Reads, Packed, Flatten, AdvanceAll, Open, Fit, Next;
    forall tail: seq<byte>
      ensures Reads(f, Reopen(f, out + bytes + tail), done + (codes + [last]), st'.(rest := tail))
    {
      assert out + bytes + tail == out + (bytes + tail);
      FrameRead(f, st, w, bytes, tail, codes, last, left);
      ReadsCompose(f, Reopen(f, out + (bytes + tail)), done, st.(rest := bytes + tail), codes + [last],
          st'.(rest := tail));
    }
  }

  /** The end of the file, with nothing in the buffer. */
  lemma WrittenAll(f: Format, out: seq<byte>, done: seq<nat>, st: Reader)
    requires Written(f, out, done, st)
    ensures Unpack(f, Reopen(f, out)) == Some(done)
  {
    hide Reads;
    assert out + [] == out;
    assert Reads(f, Reopen(f, out + []), done, st.(rest := []));
    ReadsUnpack(f, Reopen(f, out), done, st);
  }

  /** The end of the file, with the last codes in a short buffer. */
  lemma WrittenShort(f: Format, out: seq<byte>, done: seq<nat>, st: Reader, w: Width, bytes: seq<byte>,
                     codes: seq<nat>, last: nat, left: seq<bool>)
    requires Written(f, out, done, st) && NextWidth(f, st) == w && |left| < w.bits && |bytes| <= w.bits
    requires Fit(codes + [last], w.bits) && Open(f, st.free, w.top, codes + [last])
    requires Open(f, st.free, w.top, codes)
    requires Flatten(bytes) == Packed(codes + [last], w.bits) + left
    ensures Unpack(f, Reopen(f, out + bytes)) == Some(done + (codes + [last]))
  {
    hide Reads, Packed, AdvanceAll, Open, Fit;
    assert bytes + [] == bytes;
    FrameRead(f, st, w, bytes, [], codes, last, left);
    var r' := Reader([], left, w, AdvanceAll(f, st.free, codes + [last]), f.IsClear(last));
    assert Reads(f, Reopen(f, out + bytes), done, st.(rest := bytes));
    ReadsCompose(f, Reopen(f, out + bytes), done, st.(rest := bytes + []), codes + [last], r');
    ReadsUnpack(f, Reopen(f, out + bytes), done + (codes + [last]), r');
  }
}
