/** The time fields of a crontab line: range_parse, and how tab_parse shifts
    months and folds weekdays. */
module CronFields {
  import opened CronGrammar

  // ------------------------------------------------------------------ bitmaps

  function Bit(i: nat): bv8
    requires i < 8
  {
    match i
    case 0 => 0x01
    case 1 => 0x02
    case 2 => 0x04
    case 3 => 0x08
    case 4 => 0x10
    case 5 => 0x20
    case 6 => 0x40
    case 7 => 0x80
  }

  predicate IsSet(bits: seq<bv8>, n: nat)
    requires n < 64 && |bits| == 8
  {
    bits[n / 8] & Bit(n % 8) != 0
  }

  function SetBit(bits: seq<bv8>, n: nat): (r: seq<bv8>)
    requires n < 64 && |bits| == 8
    ensures |r| == 8
  {
    bits[n / 8 := bits[n / 8] | Bit(n % 8)]
  }

  lemma BitOr(b: bv8, i: nat, j: nat)
    requires i < 8 && j < 8
    ensures (b | Bit(i)) & Bit(j) != 0 <==> i == j || b & Bit(j) != 0
  {
  }

  lemma SetBitSets(bits: seq<bv8>, n: nat, k: nat)
    requires n < 64 && k < 64 && |bits| == 8
    ensures IsSet(SetBit(bits, n), k) <==> k == n || IsSet(bits, k)
  {
    hide Bit;
    if n / 8 == k / 8 { BitOr(bits[n / 8], n % 8, k % 8); }
  }

  /** The months are shifted down by one, over two bytes. */
  function MonthsDown(bits: seq<bv8>): (r: seq<bv8>)
    requires |bits| == 8
    ensures |r| == 8
  {
    [Lowered(bits[0], IsSet(bits, 8)), bits[1] >> 1] + bits[2..]
  }

  lemma ShiftBit(b: bv8, i: nat)
    requires i < 7
    ensures (b >> 1) & Bit(i) != 0 <==> b & Bit(i + 1) != 0
    ensures (b >> 1) & Bit(7) == 0
  {
  }

  lemma MonthsShift(bits: seq<bv8>, n: nat)
    requires |bits| == 8 && n < 12
    ensures IsSet(MonthsDown(bits), n) <==> IsSet(bits, n + 1)
  {
    if n < 8 { LowMonths(bits, n); } else { HighMonths(bits, n); }
  }

  function Lowered(b: bv8, carry: bool): bv8 {
    if carry then (b >> 1) | Bit(7) else b >> 1
  }

  lemma LoweredBits(b: bv8, carry: bool, n: nat)
    requires n < 8
    ensures Lowered(b, carry) & Bit(n) != 0 <==> if n < 7 then b & Bit(n + 1) != 0 else carry
  {
    if n < 7 { ShiftBit(b, n); } else { ShiftBit(b, 0); }
    BitOr(b >> 1, 7, n);
  }

  lemma IsSetAt(bits: seq<bv8>, i: nat, j: nat)
    requires |bits| == 8 && i < 8 && j < 8
    ensures IsSet(bits, 8 * i + j) <==> bits[i] & Bit(j) != 0
  {
    hide Bit;
    assert (8 * i + j) / 8 == i && (8 * i + j) % 8 == j;
  }

  lemma LowMonths(bits: seq<bv8>, n: nat)
    requires |bits| == 8 && n < 8
    ensures IsSet(MonthsDown(bits), n) <==> IsSet(bits, n + 1)
  {
    hide Bit, Lowered, IsSet;
    LoweredBits(bits[0], IsSet(bits, 8), n);
    IsSetAt(MonthsDown(bits), 0, n);
    if n < 7 { IsSetAt(bits, 0, n + 1); }
  }

  lemma HighMonths(bits: seq<bv8>, n: nat)
    requires |bits| == 8 && 8 <= n < 12
    ensures IsSet(MonthsDown(bits), n) <==> IsSet(bits, n + 1)
  {
    hide Bit, Lowered, IsSet;
    IsSetAt(MonthsDown(bits), 1, n - 8);
    IsSetAt(bits, 1, n - 7);
    ShiftBit(bits[1], n - 8);
  }

  function ClearBit(bits: seq<bv8>, n: nat): (r: seq<bv8>)
    requires n < 64 && |bits| == 8
    ensures |r| == 8
  {
    bits[n / 8 := bits[n / 8] & !Bit(n % 8)]
  }

  lemma BitNot(b: bv8, i: nat, j: nat)
    requires i < 8 && j < 8
    ensures (b & !Bit(i)) & Bit(j) != 0 <==> i != j && b & Bit(j) != 0
  {
  }

  lemma ClearBitClears(bits: seq<bv8>, n: nat, k: nat)
    requires n < 64 && k < 64 && |bits| == 8
    ensures IsSet(ClearBit(bits, n), k) <==> k != n && IsSet(bits, k)
  {
    hide Bit;
    if n / 8 == k / 8 { BitNot(bits[n / 8], n % 8, k % 8); }
  }

  /** Sunday as day 7 becomes day 0. */
  function SundayFirst(bits: seq<bv8>): (r: seq<bv8>)
    requires |bits| == 8
    ensures |r| == 8
  {
    if IsSet(bits, 7) then SetBit(ClearBit(bits, 7), 0) else bits
  }

  lemma WeekdayFold(bits: seq<bv8>, n: nat)
    requires |bits| == 8 && n < 64
    ensures IsSet(SundayFirst(bits), n) <==> n != 7 && (IsSet(bits, n) || (n == 0 && IsSet(bits, 7)))
  {
    hide IsSet, SetBit, ClearBit;
    SetBitSets(ClearBit(bits, 7), 0, n);
    ClearBitClears(bits, 7, n);
  }

  // ---------------------------------------------------------------- range_parse

  /** The map has the bits it had, and those of an item. */
  ghost predicate Added(was: seq<bv8>, bits: seq<bv8>, x: Item, min: nat, max: nat) {
    |was| == |bits| == 8 && forall k :: 0 <= k < 64 ==> (IsSet(bits, k) <==> IsSet(was, k) || Lists(x, min, max, k))
  }

  method SetRange(was: seq<bv8>, n: nat, m: nat) returns (bits: seq<bv8>)
    requires |was| == 8 && n <= m < 64
    ensures |bits| == 8 && forall k :: 0 <= k < 64 ==> (IsSet(bits, k) <==> IsSet(was, k) || n <= k <= m)
  {
    bits := was;
    var i := n;
    while i <= m
      invariant n <= i <= m + 1 && |bits| == 8
      invariant forall k :: 0 <= k < 64 ==> (IsSet(bits, k) <==> IsSet(was, k) || n <= k < i)
    {
      forall k | 0 <= k < 64 ensures IsSet(SetBit(bits, i), k) <==> k == i || IsSet(bits, k) { SetBitSets(bits, i, k); }
      bits := SetBit(bits, i);
      i := i + 1;
    }
  }

  /** Back below the field by steps. */
  method Below(n: nat, step: nat, min: nat) returns (i: int)
    requires step > 0 && min <= n
    ensures i < min <= i + step && Aligned(i, n, step)
  {
    hide Aligned;
    i := n;
    AlignedSelf(n, step);
    while i >= min
      invariant Aligned(i, n, step) && min <= i + step
      decreases i
    {
      AlignedStep(i - step, n, step);
      i := i - step;
    }
  }

  /** And then up through it. */
  method SetEvery(was: seq<bv8>, n: nat, step: nat, min: nat, max: nat) returns (bits: seq<bv8>)
    requires |was| == 8 && min <= n <= max < 64 && step > 0
    ensures Added(was, bits, Every(n, step), min, max)
  {
    hide Aligned, IsSet, SetBit;
    bits := was;
    var i := Below(n, step, min);
    AlignedStep(i, n, step);
    i := i + step;
    NoneBefore(i, n, step, min);
    while i <= max
      invariant |bits| == 8 && min <= i && Aligned(i, n, step)
      invariant forall k :: 0 <= k < 64 ==>
        (IsSet(bits, k) <==> IsSet(was, k) || (k < i && Lists(Every(n, step), min, max, k)))
      decreases max + step - i
    {
      forall k | 0 <= k < 64 ensures IsSet(SetBit(bits, i), k) <==> k == i || IsSet(bits, k) { SetBitSets(bits, i, k); }
      bits := SetBit(bits, i);
      AlignedStep(i, n, step);
      NoneBetween(i, n, step);
      i := i + step;
    }
  }

  lemma AlignedSelf(n: nat, step: nat)
    requires step > 0
    ensures Aligned(n, n, step)
  {
  }

  lemma AlignedStep(k: int, n: nat, step: nat)
    requires step > 0
    ensures Aligned(k, n, step) <==> Aligned(k + step, n, step)
  {
    var a := k - n;
    var q, r := a / step, a % step;
    assert a == step * q + r;
    assert step * (q + 1) == step * q + step;
    Unique(a + step, step, q + 1, r);
  }

  lemma NoneBetween(i: int, n: nat, step: nat)
    requires step > 0 && Aligned(i, n, step)
    ensures forall k :: i < k < i + step ==> !Aligned(k, n, step)
  {
    forall k | i < k < i + step ensures !Aligned(k, n, step) {
      var a := i - n;
      assert a == step * (a / step);
      Unique(k - n, step, a / step, k - i);
    }
  }

  lemma NoneBefore(i: int, n: nat, step: nat, min: nat)
    requires step > 0 && Aligned(i, n, step) && i - step < min <= i
    ensures forall k :: min <= k < i ==> !Aligned(k, n, step)
  {
    AlignedStep(i - step, n, step);
    NoneBetween(i - step, n, step);
  }

  /** Quotient and remainder are unique. */
  lemma Unique(a: int, step: nat, q: int, r: int)
    requires step > 0 && a == step * q + r && 0 <= r < step
    ensures a % step == r
  {
    var q', r' := a / step, a % step;
    assert a == step * q' + r';
    if q > q' {
      Times(step, q, q');
    } else if q < q' {
      Times(step, q', q);
    }
  }

  lemma {:induction false} Times(step: nat, a: int, b: int)
    requires b < a
    ensures step * b + step <= step * a
    decreases a - b
  {
    if b + 1 < a {
      Times(step, a - 1, b);
      assert step * a == step * (a - 1) + step;
    } else {
      assert step * a == step * b + step;
    }
  }

  // ---------------------------------------------------------------- range_parse

  method SetItem(was: seq<bv8>, x: Item, min: nat, max: nat) returns (bits: seq<bv8>)
    requires |was| == 8 && min <= max < 64 && GoodItem(x, min, max)
    ensures Added(was, bits, x, min, max)
  {
    hide IsSet, SetBit;
    match x {
      case Single(n) =>
        forall k | 0 <= k < 64 ensures IsSet(SetBit(was, n), k) <==> k == n || IsSet(was, k) { SetBitSets(was, n, k); }
        bits := SetBit(was, n);
      case Range(n, m) =>
        bits := SetRange(was, n, m);
      case Every(n, step) =>
        bits := SetEvery(was, n, step, min, max);
    }
  }

  /** The map has exactly the values that the items list. */
  ghost predicate Holds(bits: seq<bv8>, items: seq<Item>, min: nat, max: nat) {
    |bits| == 8 && forall k :: 0 <= k < 64 ==> (IsSet(bits, k) <==> AnyLists(items, min, max, k))
  }

  /** The digits of a number, up to `max`. */
  method ReadNumber(s: string, p: nat, max: nat) returns (r: Parsed<nat>)
    requires p <= |s|
    ensures r == Number(s, p, max)
  {
    if p == |s| || !IsDigit(s[p]) {
      return Bad;
    }
    var n: nat, q := 0, p;
    while true
      invariant p <= q < |s| && IsDigit(s[q]) && Digits(s, q, n, max) == Digits(s, p, 0, max)
      decreases |s| - q
    {
      n := 10 * n + (s[q] as int - '0' as int);
      q := q + 1;
      if n > max {
        return Bad;
      }
      if q == |s| || !IsDigit(s[q]) {
        return Ok(n, q);
      }
    }
  }

  /** One number, range or repeat. */
  method ReadItem(s: string, p: nat, min: nat, max: nat, now: nat) returns (r: Parsed<Item>)
    requires p <= |s| && now <= 59 && min <= max
    ensures r == ParseItem(s, p, min, max, now)
    ensures r.Ok? ==> ItemText(s[p..r.pos], r.value, max, now) && Fits(r.value, min, max)
  {
    hide Digits, ItemText, Fits;
    ItemIs(s, p, min, max, now);
    var n, q, num;
    if At(s, p) == '?' && max == 59 && At(s, p + 1) != '-' {
      n, q := now, p + 1;
    } else {
      num := ReadNumber(s, p, max);
      if num.Bad? {
        return Bad;
      }
      n, q := num.value, num.pos;
    }
    if n < min {
      return Bad;
    }
    if At(s, q) == '-' {
      num := ReadNumber(s, q + 1, max);
      if num.Bad? || num.value < n {
        return Bad;
      }
      return Ok(Range(n, num.value), num.pos);
    }
    if At(s, q) == ':' {
      num := ReadNumber(s, q + 1, max - min + 1);
      if num.Bad? || num.value == 0 {
        return Bad;
      }
      return Ok(Every(n, num.value), num.pos);
    }
    return Ok(Single(n), q);
  }

  /** A field of a crontab line: `*` or items with commas between them.  The map
      gets exactly the values they list. */
  method RangeParse(s: string, min: nat, max: nat, now: nat) returns (ok: bool, bits: seq<bv8>, wildcard: bool)
    requires min <= max < 64 && now <= 59
    ensures ok <==> s == "*" || IsField(s, min, max, now)
    ensures ok ==> wildcard == (s == "*") && |bits| == 8
    ensures ok && wildcard ==> forall k :: 0 <= k < 64 ==> (IsSet(bits, k) <==> min <= k <= max)
    ensures ok && !wildcard ==> forall xs :: FieldText(s, xs, min, max, now) ==> Holds(bits, xs, min, max)
  {
    hide IsSet, SetBit, Lists, ParseItem, Holds, AnyLists, FieldText, IsField;
    Reading(s, min, max, now);
    bits := [0, 0, 0, 0, 0, 0, 0, 0];
    NoBits(bits, min, max);
    ok, wildcard := true, s == "*";
    if wildcard {
      bits := SetRange(bits, min, max);
      return;
    }
    ghost var r, done := ParseItems(s, 0, min, max, now), [];
    var p := 0;
    RestNone(r);
    while true
      invariant p <= |s| && Rest(done, ParseItems(s, p, min, max, now)) == r && |bits| == 8
      invariant Holds(bits, done, min, max)
      decreases |s| - p
    {
      var x := ReadItem(s, p, min, max, now);
      if x.Bad? {
        return false, bits, false;
      }
      ghost var was := bits;
      bits := SetItem(bits, x.value, min, max);
      OneMore(was, bits, done, x.value, min, max);
      if x.pos == |s| {
        return;
      }
      if s[x.pos] != ',' {
        return false, bits, false;
      }
      RestOne(done, x.value, ParseItems(s, x.pos + 1, min, max, now));
      done := done + [x.value];
      p := x.pos + 1;
    }
  }

  /** Items read before, and the rest. */
  function Rest(done: seq<Item>, r: Parsed<seq<Item>>): Parsed<seq<Item>> {
    if r.Bad? then Bad else Ok(done + r.value, r.pos)
  }

  lemma RestNone(r: Parsed<seq<Item>>)
    ensures Rest([], r) == r
  {
    if r.Ok? { assert [] + r.value == r.value; }
  }

  lemma RestOne(done: seq<Item>, x: Item, r: Parsed<seq<Item>>)
    ensures r.Ok? ==> done + ([x] + r.value) == done + [x] + r.value
  {
  }

  lemma NoBits(bits: seq<bv8>, min: nat, max: nat)
    requires bits == [0, 0, 0, 0, 0, 0, 0, 0]
    ensures Holds(bits, [], min, max) && forall k :: 0 <= k < 64 ==> !IsSet(bits, k)
  {
  }

  lemma OneMore(was: seq<bv8>, bits: seq<bv8>, done: seq<Item>, x: Item, min: nat, max: nat)
    requires Holds(was, done, min, max) && Added(was, bits, x, min, max)
    ensures Holds(bits, done + [x], min, max)
  {
    hide IsSet, Lists;
    var more := done + [x];
    forall k | 0 <= k < 64
      ensures AnyLists(more, min, max, k) <==> AnyLists(done, min, max, k) || Lists(x, min, max, k)
    {
      assert more[|done|] == x;
      assert forall i :: 0 <= i < |done| ==> more[i] == done[i];
    }
  }
}
