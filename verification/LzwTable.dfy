/** The hash table of compress: what its entries say, how slots are probed and
    what a lookup finds. */
module LzwTable {
  import opened Common
  import opened LzwBits
  import opened LzwSpec
  import opened LzwPrime

  // ------------------------------------------------------------------ entries

  /** A hash table entry: `key` holds a prefix code and a character, and the
      string of `code` is the prefix's string with the character added. */
  predicate EntryOk(f: Format, strs: seq<seq<byte>>, key: nat, code: nat) {
    var pre, c := Low(key, f.maxbits), Shr(key, f.maxbits);
    && f.First() <= code < f.First() + |strs|
    && c < 256 && Known(f, strs, pre)
    && strs[code - f.First()] == StringOf(f, strs, pre) + [c]
  }

  function Key(f: Format, c: byte, ent: nat): nat {
    Shl(c, f.maxbits) + ent
  }

  lemma {:induction false} KeyParts(c: nat, ent: nat, n: nat)
    requires ent < Pow2(n)
    ensures Low(Shl(c, n) + ent, n) == ent && Shr(Shl(c, n) + ent, n) == c
  {
    if n != 0 {
      KeyParts(c, ent / 2, n - 1);
      assert (Shl(c, n) + ent) / 2 == Shl(c, n - 1) + ent / 2;
    }
  }

  lemma {:induction false} KeyWhole(key: nat, n: nat)
    ensures Shl(Shr(key, n), n) + Low(key, n) == key
  {
    if n != 0 {
      KeyWhole(key / 2, n - 1);
    }
  }

  /** (c << hshift) ^ ent, with hshift 8 for the full table size. */
  function Hash(c: byte, ent: nat): (i: nat)
    requires ent < 65536
    ensures i < HSIZE
  {
    (((c as bv16) << 8) ^ (ent as bv16)) as nat
  }

  // ---------------------------------------------------------------- probing

  /** The secondary hash. */
  function Disp(i0: nat): (d: nat)
    requires i0 < HSIZE
    ensures 0 < d < HSIZE
  {
    if i0 == 0 then 1 else HSIZE - i0
  }

  function SlotAt(i0: nat, disp: nat, k: nat): (i: nat)
    ensures i < HSIZE
  {
    (i0 - k * disp) % HSIZE
  }

  lemma SlotStep(i0: nat, disp: nat, k: nat)
    requires disp < HSIZE
    ensures SlotAt(i0, disp, k + 1) == if SlotAt(i0, disp, k) < disp then SlotAt(i0, disp, k) - disp + HSIZE
                                       else SlotAt(i0, disp, k) - disp
  {
    assert (k + 1) * disp == k * disp + disp;
  }

  /** The probe sequence does not repeat before it has seen the whole table. */
  lemma SlotsDistinct(i0: nat, disp: nat, j: nat, k: nat)
    requires 0 < disp < HSIZE && j < k < HSIZE
    ensures SlotAt(i0, disp, j) != SlotAt(i0, disp, k)
  {
    NoZeroProduct(k - j, disp);
    var a, b := j * disp, k * disp;
    assert (k - j) * disp == b - a;
  }

  lemma SlotStart(i0: nat, disp: nat)
    requires i0 < HSIZE
    ensures SlotAt(i0, disp, 0) == i0
  {
  }

  lemma SeenBound(seen: set<nat>, used: set<nat>)
    requires seen <= used
    ensures |seen| <= |used|
  {
    if seen != used {
      assert used == seen + (used - seen);
    }
  }

  lemma NewSlot(i0: nat, disp: nat, k: nat, seen: set<nat>)
    requires 0 < disp < HSIZE && k + 1 < HSIZE
    requires forall s :: s in seen ==> exists j :: 0 <= j <= k && s == SlotAt(i0, disp, j)
    ensures SlotAt(i0, disp, k + 1) !in seen
  {
    forall j | 0 <= j <= k
      ensures SlotAt(i0, disp, j) != SlotAt(i0, disp, k + 1)
    {
      SlotsDistinct(i0, disp, j, k + 1);
    }
  }

  // ---------------------------------------------------------------- look-up

  /** A probe goes on at its step `j` from home slot `i0`, unless it has found
      what it looks for.  Only the first step is stopped by an empty slot
      alone; the later ones also stop at a slot that holds key 0. */
  ghost predicate Passes(keys: seq<int>, i0: nat, j: nat)
    requires |keys| == HSIZE && i0 < HSIZE
  {
    keys[SlotAt(i0, Disp(i0), j)] >= if j == 0 then 0 else 1
  }

  /** A probe from `i0` comes to slot `i`. */
  ghost predicate Comes(keys: seq<int>, i0: nat, i: nat)
    requires |keys| == HSIZE && i0 < HSIZE
  {
    exists k: nat :: i == SlotAt(i0, Disp(i0), k) && forall j: nat :: j < k ==> Passes(keys, i0, j)
  }

  function Home(f: Format, key: nat): (i0: nat)
    requires f.Valid()
    ensures i0 < HSIZE
  {
    Pow2Values();
    Pow2Increases(f.maxbits, 16);
    if Shr(key, f.maxbits) < 256 then Hash(Shr(key, f.maxbits), Low(key, f.maxbits)) else 0
  }

  /** Every key in the table is where a look-up for it comes. */
  ghost predicate Findable(f: Format, keys: seq<int>) {
    && |keys| == HSIZE && f.Valid()
    && forall i :: 0 <= i < HSIZE && keys[i] >= 0 ==> Comes(keys, Home(f, keys[i]), i)
  }

  lemma HomeOf(f: Format, c: byte, ent: nat)
    requires f.Valid() && ent < f.Limit()
    ensures ent < 65536 && Home(f, Key(f, c, ent)) == Hash(c, ent)
  {
    Pow2Values();
    Pow2Increases(f.maxbits, 16);
    KeyParts(c, ent, f.maxbits);
  }

  /** A key put where its own look-up stopped leaves every other key findable:
      what it replaces is an empty slot or key 0. */
  lemma FindableAdd(f: Format, keys: seq<int>, i: nat, key: nat)
    requires Findable(f, keys) && i < HSIZE && keys[i] <= 0 && Comes(keys, Home(f, key), i)
    ensures Findable(f, keys[i := key])
  {
    var now := keys[i := key];
    forall s | 0 <= s < HSIZE && now[s] >= 0
      ensures Comes(now, Home(f, now[s]), s)
    {
      var i0 := Home(f, now[s]);
      assert Comes(keys, i0, s);
      var k: nat :| s == SlotAt(i0, Disp(i0), k) && forall j: nat :: j < k ==> Passes(keys, i0, j);
      forall j: nat | j < k
        ensures Passes(now, i0, j)
      {
        assert Passes(keys, i0, j);
      }
    }
  }

  /** A look-up that has stopped without finding the key: it is not there. */
  lemma NotThere(f: Format, keys: seq<int>, key: nat, k: nat)
    requires Findable(f, keys)
    requires var i0 := Home(f, key); !Passes(keys, i0, k) && forall j: nat :: j <= k ==>
      keys[SlotAt(i0, Disp(i0), j)] != key
    ensures key !in keys
  {
    forall s | 0 <= s < HSIZE
      ensures keys[s] != key
    {
      if keys[s] == key {
        ComesEarly(keys, Home(f, key), s, k);
      }
    }
  }

  lemma ComesEarly(keys: seq<int>, i0: nat, i: nat, k: nat)
    requires |keys| == HSIZE && i0 < HSIZE && Comes(keys, i0, i) && !Passes(keys, i0, k)
    ensures exists j: nat :: j <= k && i == SlotAt(i0, Disp(i0), j)
  {
    hide Passes;
    var j: nat :| i == SlotAt(i0, Disp(i0), j) && forall h: nat :: h < j ==> Passes(keys, i0, h);
    assert j <= k;
  }

  // ---------------------------------------------------------- the whole table

  /** Strings that begin with two zero bytes.  The entry of the string 0 0 has
      key 0, so it can be lost, and then made anew. */
  predicate Zeros(s: seq<byte>) {
    |s| >= 2 && s[0] == 0 && s[1] == 0
  }

  /** Every used slot is right about the dictionary. */
  ghost predicate HashOk(f: Format, strs: seq<seq<byte>>, keys: seq<int>, codes: seq<nat>) {
    |keys| == |codes| && forall i :: 0 <= i < |keys| && keys[i] >= 0 ==> EntryOk(f, strs, keys[i], codes[i])
  }

  ghost predicate Listed(keys: seq<int>, codes: seq<nat>, code: nat)
    requires |keys| == |codes|
  {
    exists i :: 0 <= i < |keys| && keys[i] >= 0 && codes[i] == code
  }

  /** Every string of the dictionary has its slot, but for 0 0. */
  ghost predicate Complete(f: Format, strs: seq<seq<byte>>, keys: seq<int>, codes: seq<nat>) {
    |keys| == |codes| && forall n :: 0 <= n < |strs| ==> strs[n] == [0, 0] || Listed(keys, codes, f.First() + n)
  }

  /** The strings are pairwise different, but for those that begin 0 0, and
      each is a shorter one with a character added. */
  ghost predicate Grown(strs: seq<seq<byte>>) {
    Distinct(strs) && forall n :: 0 <= n < |strs| ==> Rooted(strs, n)
  }

  ghost predicate Distinct(strs: seq<seq<byte>>) {
    forall n, m :: 0 <= n < m < |strs| && strs[n] == strs[m] ==> Zeros(strs[n])
  }

  ghost predicate Rooted(strs: seq<seq<byte>>, n: nat)
    requires n < |strs|
  {
    |strs[n]| == 2 || (|strs[n]| > 2 && exists m :: 0 <= m < n && strs[n] == strs[m] + [strs[n][|strs[n]| - 1]])
  }

  ghost predicate TableOk(f: Format, strs: seq<seq<byte>>, keys: seq<int>, codes: seq<nat>) {
    HashOk(f, strs, keys, codes) && Findable(f, keys) && Complete(f, strs, keys, codes) && Grown(strs)
  }

  lemma TableStart(f: Format, keys: seq<int>, codes: seq<nat>)
    requires f.Valid() && |keys| == |codes| == HSIZE && forall i :: 0 <= i < HSIZE ==> keys[i] < 0
    ensures TableOk(f, [], keys, codes)
  {
  }

  lemma TableHit(f: Format, strs: seq<seq<byte>>, keys: seq<int>, codes: seq<nat>, i: nat)
    requires TableOk(f, strs, keys, codes) && i < |keys| && keys[i] >= 0
    ensures EntryOk(f, strs, keys[i], codes[i])
  {
  }

  /** Two codes with the same string are the same code. */
  lemma SameCode(f: Format, strs: seq<seq<byte>>, a: nat, b: nat)
    requires Grown(strs) && Known(f, strs, a) && Known(f, strs, b) && StringOf(f, strs, a) == StringOf(f, strs, b)
    ensures a == b || Zeros(StringOf(f, strs, a))
  {
    hide Zeros;
    assert forall n :: 0 <= n < |strs| && Rooted(strs, n) ==> |strs[n]| >= 2;
  }

  lemma EntryOf(f: Format, strs: seq<seq<byte>>, keys: seq<int>, codes: seq<nat>, n: nat) returns (i: nat)
    requires TableOk(f, strs, keys, codes) && n < |strs| && strs[n] != [0, 0]
    ensures i < |keys| && keys[i] >= 0 && EntryOk(f, strs, keys[i], f.First() + n)
  {
    hide Findable, Grown, EntryOk;
    assert Listed(keys, codes, f.First() + n);
    i :| 0 <= i < |keys| && keys[i] >= 0 && codes[i] == f.First() + n;
  }

  lemma SplitLast(s: seq<byte>, c: byte, s': seq<byte>, c': byte)
    requires s + [c] == s' + [c']
    ensures s == s' && c == c'
  {
    var w := s + [c];
    assert w[..|w| - 1] == s && w[..|w| - 1] == s' && w[|w| - 1] == c && w[|w| - 1] == c';
  }

  /** A string's entry has the key of its prefix and its last character, but
      for strings that begin 0 0. */
  lemma KeyOf(f: Format, strs: seq<seq<byte>>, key: nat, n: nat, ent: nat, c: byte)
    requires Grown(strs) && n < |strs| && EntryOk(f, strs, key, f.First() + n)
    requires Known(f, strs, ent) && strs[n] == StringOf(f, strs, ent) + [c]
    ensures Zeros(strs[n]) || key == Key(f, c, ent)
  {
    hide Grown, Low, Shr, Shl;
    var pre, c' := Low(key, f.maxbits), Shr(key, f.maxbits);
    SplitLast(StringOf(f, strs, ent), c, StringOf(f, strs, pre), c');
    SameCode(f, strs, ent, pre);
    KeyWhole(key, f.maxbits);
  }

  /** If the key of `ent` and `c` is not in the table, then the string is not in
      the dictionary, but for those that begin 0 0. */
  lemma Missing(f: Format, strs: seq<seq<byte>>, keys: seq<int>, codes: seq<nat>, ent: nat, c: byte, n: nat)
    requires TableOk(f, strs, keys, codes) && Known(f, strs, ent) && Key(f, c, ent) !in keys
    requires n < |strs| && strs[n] == StringOf(f, strs, ent) + [c]
    ensures Zeros(strs[n])
  {
    hide EntryOk, Key, HashOk, Findable, Complete, Grown;
    if strs[n] != [0, 0] {
      var i := EntryOf(f, strs, keys, codes, n);
      KeyOf(f, strs, keys[i], n, ent, c);
    }
  }

  lemma HashAdd(f: Format, strs: seq<seq<byte>>, keys: seq<int>, codes: seq<nat>, i: nat, c: byte, ent: nat)
    requires f.Valid() && HashOk(f, strs, keys, codes) && i < |keys| && Known(f, strs, ent) && ent < f.Limit()
    ensures HashOk(f, strs + [StringOf(f, strs, ent) + [c]], keys[i := Key(f, c, ent)], codes[i := f.First() + |strs|])
  {
    KeyParts(c, ent, f.maxbits);
  }

  /** Key 0 is the string 0 0. */
  lemma ZeroKey(f: Format, strs: seq<seq<byte>>, code: nat)
    requires EntryOk(f, strs, 0, code)
    ensures strs[code - f.First()] == [0, 0]
  {
    ZeroParts(f.maxbits);
  }

  lemma {:induction false} ZeroParts(n: nat)
    ensures Low(0, n) == 0 && Shr(0, n) == 0
  {
    if n != 0 { ZeroParts(n - 1); }
  }

  lemma CompleteAdd(f: Format, strs: seq<seq<byte>>, keys: seq<int>, codes: seq<nat>, i: nat, key: nat, s: seq<byte>)
    requires HashOk(f, strs, keys, codes) && Complete(f, strs, keys, codes) && i < |keys| && keys[i] <= 0
    ensures Complete(f, strs + [s], keys[i := key], codes[i := f.First() + |strs|])
  {
    hide EntryOk, Listed;
    var keys', codes' := keys[i := key], codes[i := f.First() + |strs|];
    ListedNew(keys, codes, i, key, f.First() + |strs|);
    forall n | 0 <= n < |strs| && strs[n] != [0, 0]
      ensures Listed(keys', codes', f.First() + n)
    {
      if keys[i] == 0 && codes[i] == f.First() + n {
        ZeroKey(f, strs, codes[i]);
      } else {
        ListedMore(keys, codes, i, key, f.First() + |strs|, f.First() + n);
      }
    }
  }

  lemma ListedNew(keys: seq<int>, codes: seq<nat>, i: nat, key: nat, code: nat)
    requires i < |keys| == |codes|
    ensures Listed(keys[i := key], codes[i := code], code)
  {
    assert keys[i := key][i] >= 0 && codes[i := code][i] == code;
  }

  lemma ListedMore(keys: seq<int>, codes: seq<nat>, i: nat, key: nat, code: nat, other: nat)
    requires i < |keys| == |codes| && Listed(keys, codes, other) && (keys[i] < 0 || codes[i] != other)
    ensures Listed(keys[i := key], codes[i := code], other)
  {
    var p :| 0 <= p < |keys| && keys[p] >= 0 && codes[p] == other;
    assert keys[i := key][p] >= 0 && codes[i := code][p] == other;
  }

  lemma GrownAdd(f: Format, strs: seq<seq<byte>>, ent: nat, c: byte)
    requires Grown(strs) && Known(f, strs, ent)
    requires forall n :: 0 <= n < |strs| && strs[n] == StringOf(f, strs, ent) + [c] ==> Zeros(strs[n])
    ensures Grown(strs + [StringOf(f, strs, ent) + [c]])
  {
    hide Zeros;
    var s := StringOf(f, strs, ent);
    var strs' := strs + [s + [c]];
    assert Distinct(strs');
    forall n | 0 <= n < |strs'|
      ensures Rooted(strs', n)
    {
      if n < |strs| {
        RootedMore(strs, s + [c], n);
      } else if ent >= 256 {
        assert Rooted(strs, ent - f.First());
        assert strs'[n] == strs'[ent - f.First()] + [c];
      }
    }
  }

  lemma RootedMore(strs: seq<seq<byte>>, s: seq<byte>, n: nat)
    requires n < |strs| && Rooted(strs, n)
    ensures Rooted(strs + [s], n)
  {
    if |strs[n]| > 2 {
      var m :| 0 <= m < n && strs[n] == strs[m] + [strs[n][|strs[n]| - 1]];
      assert (strs + [s])[n] == (strs + [s])[m] + [strs[n][|strs[n]| - 1]];
    }
  }

  /** The new string goes where the look-up for it stopped. */
  lemma TableAdd(f: Format, strs: seq<seq<byte>>, keys: seq<int>, codes: seq<nat>, i: nat, c: byte, ent: nat)
    requires TableOk(f, strs, keys, codes) && Known(f, strs, ent) && ent < f.Limit()
    requires i < HSIZE && keys[i] <= 0 && Comes(keys, Home(f, Key(f, c, ent)), i) && Key(f, c, ent) !in keys
    ensures TableOk(f, strs + [StringOf(f, strs, ent) + [c]], keys[i := Key(f, c, ent)], codes[i := f.First() + |strs|])
  {
    hide EntryOk, Comes, Zeros;
    HashAdd(f, strs, keys, codes, i, c, ent);
    FindableAdd(f, keys, i, Key(f, c, ent));
    CompleteAdd(f, strs, keys, codes, i, Key(f, c, ent), StringOf(f, strs, ent) + [c]);
    forall n | 0 <= n < |strs| && strs[n] == StringOf(f, strs, ent) + [c]
      ensures Zeros(strs[n])
    {
      Missing(f, strs, keys, codes, ent, c, n);
    }
    GrownAdd(f, strs, ent, c);
  }

  // ------------------------------------------------------------------ greedy

  /** With a string its beginnings are in the dictionary. */
  lemma {:induction false} Beginnings(strs: seq<seq<byte>>, n: nat, l: nat) returns (m: nat)
    requires (forall k :: 0 <= k < |strs| ==> Rooted(strs, k)) && n < |strs| && 2 <= l <= |strs[n]|
    ensures m < |strs| && strs[m] == strs[n][..l]
    decreases n
  {
    hide Rooted;
    if l == |strs[n]| {
      m := n;
    } else {
      var p := Root(strs, n);
      m := Beginnings(strs, p, l);
      assert strs[n][..l] == strs[p][..l];
    }
  }

  lemma Root(strs: seq<seq<byte>>, n: nat) returns (m: nat)
    requires n < |strs| && Rooted(strs, n) && |strs[n]| > 2
    ensures m < n && strs[n] == strs[m] + [strs[n][|strs[n]| - 1]]
  {
    m :| 0 <= m < n && strs[n] == strs[m] + [strs[n][|strs[n]| - 1]];
  }

  /** No string of the dictionary that `text` begins with is longer than
      `sent`, but for strings that begin with two zero bytes. */
  ghost predicate Longest(strs: seq<seq<byte>>, sent: seq<byte>, text: seq<byte>) {
    forall n :: 0 <= n < |strs| && strs[n] <= text ==> |strs[n]| <= |sent| || Zeros(strs[n])
  }

  lemma MissLongest(f: Format, strs: seq<seq<byte>>, keys: seq<int>, codes: seq<nat>, ent: nat, c: byte,
      text: seq<byte>)
    requires TableOk(f, strs, keys, codes) && Known(f, strs, ent) && Key(f, c, ent) !in keys
    requires StringOf(f, strs, ent) + [c] <= text
    ensures Longest(strs, StringOf(f, strs, ent), text)
  {
    var s := StringOf(f, strs, ent);
    forall n | 0 <= n < |strs| && strs[n] <= text && |strs[n]| > |s|
      ensures Zeros(strs[n])
    {
      assert |s| >= 1;
      var m := Beginnings(strs, n, |s| + 1);
      assert strs[n][..|s| + 1] == text[..|s| + 1] == s + [c];
      Missing(f, strs, keys, codes, ent, c, m);
      assert strs[m][0] == strs[n][0] && strs[m][1] == strs[n][1];
    }
  }

  /** Each code of the stream stands for the longest string the reader has that
      the rest of the input begins with. */
  ghost predicate Greedy(f: Format, codes: seq<nat>, input: seq<byte>) {
    forall k :: 0 <= k < |codes| ==> GreedyAt(f, codes, input, k)
  }

  ghost predicate GreedyAt(f: Format, codes: seq<nat>, input: seq<byte>, k: nat)
    requires k < |codes|
  {
    var d := DecodeCodes(f, codes[..k + 1]);
    d.Some? && (d.value.prev == [] || GreedyStep(d.value, input))
  }

  /** The last string the reader got was the longest it could have been. */
  ghost predicate GreedyStep(d: Decoder, input: seq<byte>) {
    |d.prev| <= |d.text| <= |input| && Longest(d.strs, d.prev, input[|d.text| - |d.prev|..])
  }

  lemma GreedyNone(f: Format, input: seq<byte>)
    ensures Greedy(f, [], input)
  {
  }

  lemma GreedyMore(f: Format, codes: seq<nat>, code: nat, d: Decoder, input: seq<byte>)
    requires Greedy(f, codes, input) && DecodeCodes(f, codes + [code]) == Some(d)
    requires d.prev == [] || GreedyStep(d, input)
    ensures Greedy(f, codes + [code], input)
  {
    hide DecodeCodes, GreedyStep;
    var more := codes + [code];
    forall k | 0 <= k < |more|
      ensures GreedyAt(f, more, input, k)
    {
      if k < |codes| {
        assert more[..k + 1] == codes[..k + 1];
        assert GreedyAt(f, codes, input, k);
      } else {
        assert more[..k + 1] == more;
      }
    }
  }
}
