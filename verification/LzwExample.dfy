/** An input on which compress does not send the longest string it could: the
    string of two zero bytes is forgotten. */
module LzwExample {
  import opened Common
  import opened LzwBits
  import opened LzwSpec
  import opened LzwPrime
  import opened LzwTable
  import opened LzwEncode

  /** Codes up to sixteen bits, no CLEAR. */
  const F: Format := Format(16, false)

  const INPUT: seq<byte> :=
    [129, 38, 129, 38, 1, 0, 0, 5, 154, 134, 192, 2, 77, 7, 231, 131, 115, 0, 5, 155, 0, 0]

  const CODES: seq<nat> :=
    [129, 38, 256, 1, 0, 0, 5, 154, 134, 192, 2, 77, 7, 231, 131, 115, 261, 155, 0, 0]

  lemma {:induction false} ShlPow(x: nat, n: nat)
    ensures Shl(x, n) == Pow2(n) * x
  {
    if n != 0 { ShlPow(x, n - 1); }
  }

  lemma KeyIs(c: byte, ent: nat)
    ensures Key(F, c, ent) == 65536 * c + ent
  {
    Pow2Values();
    ShlPow(c, 16);
  }

  // ------------------------------------------------------------- the table

  datatype Row = Row(key: nat, code: nat)

  /** The table holds these rows and no others. */
  ghost predicate Has(t: Tables, m: map<nat, Row>) {
    && t.Valid()
    && (forall i :: i in m ==> i < HSIZE && t.keys[i] == m[i].key && t.codes[i] == m[i].code)
    && (forall i :: 0 <= i < HSIZE && i !in m ==> t.keys[i] == -1)
  }

  /** After `p` characters: `k` codes are sent, the current string has code
      `ent`, and the table holds the rows of `m`. */
  ghost predicate Reached(p: nat, m: map<nat, Row>, ent: nat, k: nat, worse: nat -> bool) {
    && 1 <= p <= |INPUT| && k < |CODES| && ent < 65536
    && var e := After(F, INPUT, p, worse);
       Has(e.t, m) && e.t.free == 256 + k && e.ent == ent && e.t.sent == CODES[..k]
  }

  function NewRow(p: nat, ent: nat, k: nat): Row
    requires p < |INPUT|
  {
    Row(65536 * INPUT[p] + ent, 256 + k)
  }

  lemma Start(worse: nat -> bool)
    ensures Reached(1, map[], 129, 0, worse)
  {
    AfterOne(F, INPUT, worse);
  }

  lemma Hits(p: nat, m: map<nat, Row>, ent: nat, k: nat, worse: nat -> bool, i: nat)
    requires Reached(p, m, ent, k, worse) && p < |INPUT|
    requires i in m && i == Hash(INPUT[p], ent) && m[i].key == 65536 * INPUT[p] + ent && m[i].code < 65536
    ensures Reached(p + 1, m, m[i].code, k, worse)
  {
    hide Look, Hash, Home, Key, After;
    Pow2Values();
    KeyIs(INPUT[p], ent);
    HomeOf(F, INPUT[p], ent);
    SlotStart(i, Disp(i));
    LookStops(After(F, INPUT, p, worse).t.keys, 65536 * INPUT[p] + ent, i, 0);
    AfterHit(F, INPUT, p, worse, i);
  }

  /** A look-up that stops at `i`, which is empty or holds another key's 0. */
  lemma Misses(p: nat, m: map<nat, Row>, ent: nat, k: nat, worse: nat -> bool, i: nat)
    requires Reached(p, m, ent, k, worse) && p < |INPUT| && k + 1 < |CODES| && CODES[k] == ent && i < HSIZE
    requires i == Look(After(F, INPUT, p, worse).t.keys, 65536 * INPUT[p] + ent, Hash(INPUT[p], ent), 0)
    requires i !in m || m[i].key != 65536 * INPUT[p] + ent
    ensures Reached(p + 1, m[i := NewRow(p, ent, k)], INPUT[p], k + 1, worse)
  {
    hide Look, Hash, Home, Key, After;
    Pow2Values();
    KeyIs(INPUT[p], ent);
    HomeOf(F, INPUT[p], ent);
    AfterMiss(F, INPUT, p, worse, i, false);
    assert CODES[..k] + [ent] == CODES[..k + 1];
  }

  lemma MissesHome(p: nat, m: map<nat, Row>, ent: nat, k: nat, worse: nat -> bool, i: nat)
    requires Reached(p, m, ent, k, worse) && p < |INPUT| && k + 1 < |CODES| && CODES[k] == ent
    requires i !in m && i == Hash(INPUT[p], ent)
    ensures Reached(p + 1, m[i := NewRow(p, ent, k)], INPUT[p], k + 1, worse)
  {
    hide Look, Hash, After;
    SlotStart(i, Disp(i));
    LookStops(After(F, INPUT, p, worse).t.keys, 65536 * INPUT[p] + ent, i, 0);
    Misses(p, m, ent, k, worse, i);
  }

  /** A step of a look-up at a slot with another key. */
  lemma GoesOn(p: nat, m: map<nat, Row>, ent: nat, k: nat, worse: nat -> bool, key: nat, i0: nat, j: nat)
    requires Reached(p, m, ent, k, worse) && i0 < HSIZE && j + 1 < HSIZE
    requires var i := SlotAt(i0, Disp(i0), j); i in m && m[i].key != key && (j > 0 ==> m[i].key > 0)
    ensures var keys := After(F, INPUT, p, worse).t.keys; Look(keys, key, i0, j) == Look(keys, key, i0, j + 1)
  {
    hide Look, After, SlotAt;
    LookOn(After(F, INPUT, p, worse).t.keys, key, i0, j);
  }

  /** A step of a look-up at a slot that is empty, or after the first one holds
      key 0. */
  lemma Stops(p: nat, m: map<nat, Row>, ent: nat, k: nat, worse: nat -> bool, key: nat, i0: nat, j: nat)
    requires Reached(p, m, ent, k, worse) && i0 < HSIZE && j < HSIZE
    requires var i := SlotAt(i0, Disp(i0), j); i !in m || (j > 0 && m[i].key == 0)
    ensures Look(After(F, INPUT, p, worse).t.keys, key, i0, j) == SlotAt(i0, Disp(i0), j)
  {
    hide Look, After, SlotAt;
    LookStops(After(F, INPUT, p, worse).t.keys, key, i0, j);
  }

  // --------------------------------------------------------------- the run

  const M5: map<nat, Row> := map[9857 := Row(2490497, 256), 33062 := Row(8454182, 257), 0 := Row(65792, 258)]
  const M6: map<nat, Row> := M5[1 := Row(1, 259)]
  const M7: map<nat, Row> := M6[69000 := Row(0, 260)]
  const M10: map<nat, Row> := M7[1280 := Row(327680, 261)][39429 := Row(10092549, 262)][34458 := Row(8781978, 263)]
  const M13: map<nat, Row> := M10[49286 := Row(12583046, 264)][704 := Row(131264, 265)][19714 := Row(5046274, 266)]
  const M16: map<nat, Row> := M13[1869 := Row(458829, 267)][59143 := Row(15138823, 268)][33767 := Row(8585447, 269)]
  const M18: map<nat, Row> := M16[29571 := Row(7536771, 270)][115 := Row(115, 271)]
  const M20: map<nat, Row> := M18[69000 := Row(10158341, 272)]
  const M21: map<nat, Row> := M20[155 := Row(155, 273)]
  const M22: map<nat, Row> := M21[68999 := Row(0, 274)]

  /** Slot 0 is taken by character 1 after code 256. */
  lemma RunTo5(worse: nat -> bool)
    ensures Reached(5, M5, 1, 3, worse)
  {
    hide Reached, Hash;
    Start(worse);
    Hashes();
    var m: map<nat, Row> := map[];
    MissesHome(1, m, 129, 0, worse, 9857);
    m := m[9857 := NewRow(1, 129, 0)];
    MissesHome(2, m, 38, 1, worse, 33062);
    m := m[33062 := NewRow(2, 38, 1)];
    Hits(3, m, 129, 2, worse, 9857);
    MissesHome(4, m, 256, 2, worse, 0);
    m := m[0 := NewRow(4, 256, 2)];
    assert m == M5;
  }

  lemma RunTo6(worse: nat -> bool)
    ensures Reached(6, M6, 0, 4, worse)
  {
    hide Reached, Hash;
    RunTo5(worse);
    Hashes();
    MissesHome(5, M5, 1, 3, worse, 1);
  }

  /** So key 0 goes to the last slot. */
  lemma RunTo7(worse: nat -> bool)
    ensures Reached(7, M7, 0, 5, worse)
  {
    hide Reached, Hash, Look, SlotAt, Disp, After;
    RunTo6(worse);
    Hashes();
    FromZero();
    GoesOn(6, M6, 0, 4, worse, 0, 0, 0);
    Stops(6, M6, 0, 4, worse, 0, 0, 1);
    Misses(6, M6, 0, 4, worse, 69000);
  }

  lemma FromZero()
    ensures SlotAt(0, Disp(0), 0) == 0 && SlotAt(0, Disp(0), 1) == 69000 && SlotAt(0, Disp(0), 2) == 68999
  {
  }

  /** The home slots of the keys in the run. */
  lemma Hashes()
    ensures Hash(38, 129) == 9857 && Hash(129, 38) == 33062 && Hash(1, 256) == 0 && Hash(0, 1) == 1 && Hash(0, 0) == 0
  {
  }

  lemma RunTo10(worse: nat -> bool)
    ensures Reached(10, M10, 134, 8, worse)
  {
    hide Reached, Hash;
    RunTo7(worse);
    MoreHashes();
    var m := M7;
    MissesHome(7, m, 0, 5, worse, 1280);
    m := m[1280 := NewRow(7, 0, 5)];
    MissesHome(8, m, 5, 6, worse, 39429);
    m := m[39429 := NewRow(8, 5, 6)];
    MissesHome(9, m, 154, 7, worse, 34458);
    m := m[34458 := NewRow(9, 154, 7)];
  }

  lemma RunTo13(worse: nat -> bool)
    ensures Reached(13, M13, 77, 11, worse)
  {
    hide Reached, Hash;
    RunTo10(worse);
    MoreHashes();
    var m := M10;
    MissesHome(10, m, 134, 8, worse, 49286);
    m := m[49286 := NewRow(10, 134, 8)];
    MissesHome(11, m, 192, 9, worse, 704);
    m := m[704 := NewRow(11, 192, 9)];
    MissesHome(12, m, 2, 10, worse, 19714);
    m := m[19714 := NewRow(12, 2, 10)];
  }

  lemma RunTo16(worse: nat -> bool)
    ensures Reached(16, M16, 131, 14, worse)
  {
    hide Reached, Hash;
    RunTo13(worse);
    MoreHashes();
    var m := M13;
    MissesHome(13, m, 77, 11, worse, 1869);
    m := m[1869 := NewRow(13, 77, 11)];
    MissesHome(14, m, 7, 12, worse, 59143);
    m := m[59143 := NewRow(14, 7, 12)];
    MissesHome(15, m, 231, 13, worse, 33767);
    m := m[33767 := NewRow(15, 231, 13)];
  }

  lemma RunTo18(worse: nat -> bool)
    ensures Reached(18, M18, 0, 16, worse)
  {
    hide Reached, Hash;
    RunTo16(worse);
    MoreHashes();
    var m := M16;
    MissesHome(16, m, 131, 14, worse, 29571);
    m := m[29571 := NewRow(16, 131, 14)];
    MissesHome(17, m, 115, 15, worse, 115);
    m := m[115 := NewRow(17, 115, 15)];
  }

  lemma MoreHashes()
    ensures Hash(5, 0) == 1280 && Hash(154, 5) == 39429 && Hash(134, 154) == 34458 && Hash(192, 134) == 49286
    ensures Hash(2, 192) == 704
    ensures Hash(77, 2) == 19714 && Hash(7, 77) == 1869 && Hash(231, 7) == 59143 && Hash(131, 231) == 33767
    ensures Hash(115, 131) == 29571 && Hash(0, 115) == 115
  {
  }

  /** The zero and the five are one string by now, with code 261. */
  lemma RunTo19(worse: nat -> bool)
    ensures Reached(19, M18, 261, 16, worse)
  {
    hide Reached, Hash;
    RunTo18(worse);
    MoreHashes();
    Hits(18, M18, 0, 16, worse, 1280);
  }

  /** The look-up for 155 after it goes from one taken slot to the next, up to
      the slot with key 0, which is overwritten. */
  lemma RunTo20(worse: nat -> bool)
    ensures Reached(20, M20, 155, 17, worse)
  {
    hide Reached, Hash, Look, SlotAt, Disp, After;
    RunTo19(worse);
    Chain();
    GoesOn(19, M18, 261, 16, worse, 10158341, 39429, 0);
    GoesOn(19, M18, 261, 16, worse, 10158341, 39429, 1);
    GoesOn(19, M18, 261, 16, worse, 10158341, 39429, 2);
    GoesOn(19, M18, 261, 16, worse, 10158341, 39429, 3);
    GoesOn(19, M18, 261, 16, worse, 10158341, 39429, 4);
    GoesOn(19, M18, 261, 16, worse, 10158341, 39429, 5);
    Stops(19, M18, 261, 16, worse, 10158341, 39429, 6);
    Misses(19, M18, 261, 16, worse, 69000);
  }

  lemma Chain()
    ensures Hash(155, 261) == 39429
    ensures SlotAt(39429, Disp(39429), 0) == 39429 && SlotAt(39429, Disp(39429), 1) == 9857
    ensures SlotAt(39429, Disp(39429), 2) == 49286 && SlotAt(39429, Disp(39429), 3) == 19714
    ensures SlotAt(39429, Disp(39429), 4) == 59143 && SlotAt(39429, Disp(39429), 5) == 29571
    ensures SlotAt(39429, Disp(39429), 6) == 69000
  {
  }

  lemma RunTo21(worse: nat -> bool)
    ensures Reached(21, M21, 0, 18, worse)
  {
    hide Reached, Hash;
    RunTo20(worse);
    assert Hash(0, 155) == 155 by { LastHash(); }
    MissesHome(20, M20, 155, 17, worse, 155);
  }

  lemma LastHash()
    ensures Hash(0, 155) == 155
  {
  }

  /** The second pair of zeros is not found. */
  lemma RunTo22(worse: nat -> bool)
    ensures Reached(22, M22, 0, 19, worse)
  {
    hide Reached, Hash, Look, SlotAt, Disp, After;
    RunTo21(worse);
    Hashes();
    FromZero();
    GoesOn(21, M21, 0, 18, worse, 0, 0, 0);
    GoesOn(21, M21, 0, 18, worse, 0, 0, 1);
    Stops(21, M21, 0, 18, worse, 0, 0, 2);
    Misses(21, M21, 0, 18, worse, 68999);
  }

  lemma CodesSent(worse: nat -> bool)
    ensures Encode(F, INPUT, worse) == CODES
  {
    hide After, Has;
    RunTo22(worse);
    assert CODES[..19] + [0] == CODES;
  }

  // ------------------------------------------------------------- the reader

  /** Three entries of the reader's dictionary. */
  ghost predicate Learnt(strs: seq<seq<byte>>) {
    && (|strs| > 0 ==> strs[0] == [129, 38]) && (|strs| > 4 ==> strs[4] == [0, 0]) && (|strs| > 5 ==> strs[5] == [0, 5])
  }

  /** After `k` codes: the text so far, the last string, the dictionary. */
  ghost predicate Got(k: nat, n: nat, prev: seq<byte>) {
    && 1 <= k <= |CODES| && n <= |INPUT| && prev != []
    && var r := DecodeCodes(F, CODES[..k]);
       r.Some? && r.value.text == INPUT[..n] && r.value.prev == prev && |r.value.strs| == k - 1 && Learnt(r.value.strs)
  }

  lemma GotFirst()
    ensures Got(1, 1, [129])
  {
    assert CODES[..1] == [129] && CODES[..1][..0] == [];
    assert DecodeCodes(F, []) == Some(START);
    assert Expand(F, START, 129) == Some([129]);
    assert START.text + [129] == INPUT[..1];
  }

  /** A code and the string it stands for. */
  lemma GotNext(k: nat, n: nat, prev: seq<byte>, s: seq<byte>)
    requires Got(k, n, prev) && k < |CODES| && n < |INPUT|
    requires s == [INPUT[n]] || (n + 2 <= |INPUT| && s == [INPUT[n], INPUT[n + 1]])
    requires CODES[k] < 256 ==> s == [CODES[k]]
    requires CODES[k] >= 256 ==>
      (CODES[k] == 256 && s == [129, 38] && k > 1) || (CODES[k] == 261 && s == [0, 5] && k > 6)
    requires k == 1 ==> prev + [s[0]] == [129, 38]
    requires k == 5 ==> prev + [s[0]] == [0, 0]
    requires k == 6 ==> prev + [s[0]] == [0, 5]
    ensures Got(k + 1, n + |s|, s)
  {
    hide DecodeCodes, Decode1, Expand;
    var d := DecodeCodes(F, CODES[..k]).value;
    Unfold(k);
    Expands(d, CODES[k], s);
    OneMore(d, CODES[k], s);
    TextOn(INPUT, n, s);
  }

  lemma Expands(d: Decoder, code: nat, s: seq<byte>)
    requires
      || (code < 256 && s == [code])
      || (code == 256 && s == [129, 38] && |d.strs| > 0 && d.strs[0] == s && d.prev != [])
      || (code == 261 && s == [0, 5] && |d.strs| > 5 && d.strs[5] == s && d.prev != [])
    ensures Expand(F, d, code) == Some(s)
  {
  }

  lemma OneMore(d: Decoder, code: nat, s: seq<byte>)
    requires d.prev != [] && |d.strs| < 22 && Expand(F, d, code) == Some(s) && s != []
    ensures Decode1(F, d, code) == Some(Decoder(d.strs + [d.prev + [s[0]]], s, d.text + s))
  {
    hide Expand;
    Pow2Values();
  }

  lemma TextOn(text: seq<byte>, n: nat, s: seq<byte>)
    requires n < |text| && (s == [text[n]] || (n + 2 <= |text| && s == [text[n], text[n + 1]]))
    ensures text[..n] + s == text[..n + |s|]
  {
  }

  lemma Unfold(k: nat)
    requires k < |CODES| && DecodeCodes(F, CODES[..k]).Some?
    ensures DecodeCodes(F, CODES[..k + 1]) == Decode1(F, DecodeCodes(F, CODES[..k]).value, CODES[k])
  {
    hide Decode1;
    var codes := CODES[..k + 1];
    assert codes[..|codes| - 1] == CODES[..k];
  }

  lemma GotTo7()
    ensures Got(7, 8, [5])
  {
    hide Got;
    GotFirst();
    GotNext(1, 1, [129], [38]);
    GotNext(2, 2, [38], [129, 38]);
    GotNext(3, 4, [129, 38], [1]);
    GotNext(4, 5, [1], [0]);
    GotNext(5, 6, [0], [0]);
    GotNext(6, 7, [0], [5]);
  }

  lemma GotTo13()
    ensures Got(13, 14, [7])
  {
    hide Got;
    GotTo7();
    GotNext(7, 8, [5], [154]);
    GotNext(8, 9, [154], [134]);
    GotNext(9, 10, [134], [192]);
    GotNext(10, 11, [192], [2]);
    GotNext(11, 12, [2], [77]);
    GotNext(12, 13, [77], [7]);
  }

  lemma GotTo19()
    ensures Got(19, 21, [0])
  {
    hide Got;
    GotTo13();
    GotNext(13, 14, [7], [231]);
    GotNext(14, 15, [231], [131]);
    GotNext(15, 16, [131], [115]);
    GotNext(16, 17, [115], [0, 5]);
    GotNext(17, 19, [0, 5], [155]);
    GotNext(18, 20, [155], [0]);
  }

  /** Code 0 is sent for the first of the last two zeros, although the reader has
      the string of both. */
  lemma NotLongest()
    ensures !TrulyGreedyAt(F, CODES, INPUT, 18)
  {
    hide DecodeCodes;
    GotTo19();
    var d := DecodeCodes(F, CODES[..19]).value;
    assert INPUT[20..] == [0, 0];
    assert d.strs[4] <= INPUT[20..];
  }

  /** An input on which a shorter string is sent than could be. */
  lemma ZeroForgotten(worse: nat -> bool)
    ensures !TrulyGreedy(F, Encode(F, INPUT, worse), INPUT)
  {
    hide TrulyGreedyAt;
    CodesSent(worse);
    NotLongest();
  }
}
