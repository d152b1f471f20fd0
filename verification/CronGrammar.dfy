/** The time fields of a crontab line as text: how range_parse reads them, and
    what it accepts, said without it. */
module CronGrammar {

  // -------------------------------------------------------------------- reading

  /** A number, a range, or every so many. */
  datatype Item = Single(n: nat) | Range(n: nat, m: nat) | Every(n: nat, step: nat)

  /** A multiple of `step` away from `n`. */
  predicate Aligned(k: int, n: nat, step: nat)
    requires step > 0
  {
    (k - n) % step == 0
  }

  /** The values an item stands for, in a field from `min` to `max`. */
  ghost predicate Lists(x: Item, min: nat, max: nat, k: nat) {
    match x
    case Single(n) => k == n
    case Range(n, m) => n <= k <= m
    case Every(n, step) => min <= k <= max && step > 0 && Aligned(k, n, step)
  }

  predicate IsDigit(c: char) {
    '0' <= c <= '9'
  }

  function At(s: string, i: nat): char {
    if i < |s| then s[i] else '\0'
  }

  datatype Parsed<T> = Bad | Ok(value: T, pos: nat)

  /** Digits from `p` on, with `n` before them; not above `max`. */
  function Digits(s: string, p: nat, n: nat, max: nat): (r: Parsed<nat>)
    requires p < |s| && IsDigit(s[p])
    ensures r.Ok? ==> p < r.pos <= |s| && r.value <= max
    decreases |s| - p
  {
    var m := 10 * n + (s[p] as int - '0' as int);
    if m > max then Bad
    else if p + 1 < |s| && IsDigit(s[p + 1]) then Digits(s, p + 1, m, max)
    else Ok(m, p + 1)
  }

  function Number(s: string, p: nat, max: nat): (r: Parsed<nat>)
    requires p <= |s|
    ensures r.Ok? ==> p < r.pos <= |s| && r.value <= max
  {
    if IsDigit(At(s, p)) then Digits(s, p, 0, max) else Bad
  }

  /** The start of an item; `?` in the minutes is the minute it is now. */
  function Start(s: string, p: nat, min: nat, max: nat, now: nat): (r: Parsed<nat>)
    requires p <= |s| && now <= 59
    ensures r.Ok? ==> p < r.pos <= |s| && min <= r.value <= max
  {
    var r := if At(s, p) == '?' && max == 59 && At(s, p + 1) != '-' then Ok(now, p + 1) else Number(s, p, max);
    if r.Ok? && r.value < min then Bad else r
  }

  function ParseItem(s: string, p: nat, min: nat, max: nat, now: nat): (r: Parsed<Item>)
    requires p <= |s| && now <= 59 && min <= max
    ensures r.Ok? ==> p < r.pos <= |s| && GoodItem(r.value, min, max)
  {
    match Start(s, p, min, max, now)
    case Bad => Bad
    case Ok(n, q) =>
      if At(s, q) == '-' then
        match Number(s, q + 1, max)
        case Bad => Bad
        case Ok(m, e) => if m < n then Bad else Ok(Range(n, m), e)
      else if At(s, q) == ':' then
        match Number(s, q + 1, max - min + 1)
        case Bad => Bad
        case Ok(m, e) => if m == 0 then Bad else Ok(Every(n, m), e)
      else Ok(Single(n), q)
  }

  predicate GoodItem(x: Item, min: nat, max: nat) {
    && min <= x.n <= max && (x.Range? ==> x.n <= x.m <= max) && (x.Every? ==> x.step > 0)
  }

  function ParseItems(s: string, p: nat, min: nat, max: nat, now: nat): (r: Parsed<seq<Item>>)
    requires p <= |s| && now <= 59 && min <= max
    decreases |s| - p
  {
    match ParseItem(s, p, min, max, now)
    case Bad => Bad
    case Ok(x, q) =>
      if q == |s| then Ok([x], q)
      else if s[q] != ',' then Bad
      else
        match ParseItems(s, q + 1, min, max, now)
        case Bad => Bad
        case Ok(rest, e) => Ok([x] + rest, e)
  }

  ghost predicate AnyLists(items: seq<Item>, min: nat, max: nat, k: nat) {
    exists i :: 0 <= i < |items| && Lists(items[i], min, max, k)
  }

  // ----------------------------------------------------------------- as written

  predicate AllDigits(t: string) {
    forall i :: 0 <= i < |t| ==> IsDigit(t[i])
  }

  /** The number that decimal digits stand for. */
  function Value(t: string): nat
    requires AllDigits(t)
  {
    if t == [] then 0 else 10 * Value(t[..|t| - 1]) + (t[|t| - 1] as int - '0' as int)
  }

  /** Digits, with any number of zeros in front. */
  predicate Numeral(t: string, n: nat) {
    t != [] && AllDigits(t) && Value(t) == n
  }

  /** A number, or in the minutes a question mark for the minute it is now. */
  predicate StartText(t: string, n: nat, max: nat, now: nat) {
    Numeral(t, n) || (t == "?" && max == 59 && n == now)
  }

  /** The text of an item: n, n-m or n:m. */
  ghost predicate ItemText(t: string, x: Item, max: nat, now: nat) {
    match x
    case Single(n) => StartText(t, n, max, now)
    case Range(n, m) => exists k :: 0 <= k < |t| && t[k] == '-' && Numeral(t[..k], n) && Numeral(t[k + 1..], m)
    case Every(n, step) =>
      exists k :: 0 <= k < |t| && t[k] == ':' && StartText(t[..k], n, max, now) && Numeral(t[k + 1..], step)
  }

  predicate Fits(x: Item, min: nat, max: nat) {
    && min <= x.n <= max && (x.Range? ==> x.n <= x.m <= max) && (x.Every? ==> 1 <= x.step <= max - min + 1)
  }

  /** The text of a field: items that fit, with commas between them. */
  ghost predicate FieldText(t: string, xs: seq<Item>, min: nat, max: nat, now: nat)
    decreases |xs|
  {
    && xs != [] && Fits(xs[0], min, max)
    && if |xs| == 1 then ItemText(t, xs[0], max, now)
       else exists k :: && 0 <= k < |t| && t[k] == ',' && ItemText(t[..k], xs[0], max, now)
                        && FieldText(t[k + 1..], xs[1..], min, max, now)
  }

  /** Some items have this text. */
  ghost predicate IsField(t: string, min: nat, max: nat, now: nat) {
    exists xs :: FieldText(t, xs, min, max, now)
  }

  // ------------------------------------------------------------ what is read

  lemma ValueStep(s: string, p: nat, q: nat)
    requires p <= q < |s| && AllDigits(s[p..q + 1])
    ensures AllDigits(s[p..q]) && Value(s[p..q + 1]) == 10 * Value(s[p..q]) + (s[q] as int - '0' as int)
  {
    var t := s[p..q + 1];
    assert t[..|t| - 1] == s[p..q];
    forall i | 0 <= i < q - p ensures IsDigit(s[p..q][i]) { assert s[p..q][i] == t[i]; }
  }

  lemma OneMoreDigit(s: string, p: nat, q: nat)
    requires p <= q < |s| && AllDigits(s[p..q]) && IsDigit(s[q])
    ensures AllDigits(s[p..q + 1])
  {
    var t := s[p..q + 1];
    forall i | 0 <= i < |t| ensures IsDigit(t[i]) {
      if i < q - p { assert t[i] == s[p..q][i]; }
    }
  }

  /** The digits read are a numeral, and no digit is left behind it. */
  lemma {:induction false} DigitsValue(s: string, p: nat, q: nat, n: nat, max: nat)
    requires p <= q < |s| && AllDigits(s[p..q]) && n == Value(s[p..q]) && IsDigit(s[q])
    ensures
      var r := Digits(s, q, n, max);
      r.Ok? ==> Numeral(s[p..r.pos], r.value) && (r.pos == |s| || !IsDigit(s[r.pos]))
    decreases |s| - q
  {
    OneMoreDigit(s, p, q);
    ValueStep(s, p, q);
    var m := 10 * n + (s[q] as int - '0' as int);
    if m <= max && q + 1 < |s| && IsDigit(s[q + 1]) { DigitsValue(s, p, q + 1, m, max); }
  }

  lemma NumberValue(s: string, p: nat, max: nat)
    requires p <= |s|
    ensures
      var r := Number(s, p, max);
      r.Ok? ==> Numeral(s[p..r.pos], r.value) && (r.pos == |s| || !IsDigit(s[r.pos]))
  {
    if IsDigit(At(s, p)) {
      assert s[p..p] == [];
      DigitsValue(s, p, p, 0, max);
    }
  }

  lemma StartIs(s: string, p: nat, min: nat, max: nat, now: nat)
    requires p <= |s| && now <= 59
    ensures
      var r := Start(s, p, min, max, now);
      r.Ok? ==> StartText(s[p..r.pos], r.value, max, now) && (At(s, r.pos) == '-' ==> Numeral(s[p..r.pos], r.value))
  {
    hide Number, Numeral;
    NumberValue(s, p, max);
    if At(s, p) == '?' && p < |s| { assert s[p..p + 1] == "?"; }
  }

  lemma ItemIs(s: string, p: nat, min: nat, max: nat, now: nat)
    requires p <= |s| && now <= 59 && min <= max
    ensures
      var r := ParseItem(s, p, min, max, now);
      r.Ok? ==> ItemText(s[p..r.pos], r.value, max, now) && Fits(r.value, min, max)
  {
    hide Start, Number, Numeral, StartText;
    StartIs(s, p, min, max, now);
    var r, st := ParseItem(s, p, min, max, now), Start(s, p, min, max, now);
    if r.Ok? && !r.value.Single? {
      var k, t := st.pos - p, s[p..r.pos];
      NumberValue(s, st.pos + 1, if r.value.Range? then max else max - min + 1);
      Slices(s, p, r.pos, k);
      assert p + k == st.pos;
    }
  }

  /** What is accepted is the text of the items it is read as. */
  lemma {:induction false} ItemsAre(s: string, p: nat, min: nat, max: nat, now: nat)
    requires p <= |s| && now <= 59 && min <= max && ParseItems(s, p, min, max, now).Ok?
    ensures
      var r := ParseItems(s, p, min, max, now);
      r.pos == |s| && FieldText(s[p..], r.value, min, max, now)
    decreases |s| - p
  {
    hide ParseItem, ItemText;
    ItemIs(s, p, min, max, now);
    var x := ParseItem(s, p, min, max, now);
    if x.pos == |s| {
      assert s[p..x.pos] == s[p..];
    } else {
      ItemsAre(s, x.pos + 1, min, max, now);
      var rest := ParseItems(s, x.pos + 1, min, max, now).value;
      Slices(s, p, |s|, x.pos - p);
      assert s[p..|s|] == s[p..] && s[x.pos + 1..|s|] == s[x.pos + 1..];
      Joined(s[p..], x.value, rest, x.pos - p, min, max, now);
    }
  }

  lemma Joined(t: string, x: Item, rest: seq<Item>, k: nat, min: nat, max: nat, now: nat)
    requires k < |t| && t[k] == ',' && ItemText(t[..k], x, max, now) && Fits(x, min, max)
    requires FieldText(t[k + 1..], rest, min, max, now)
    ensures FieldText(t, [x] + rest, min, max, now)
  {
    hide ItemText, Fits;
    var xs := [x] + rest;
    assert xs[1..] == rest && xs[0] == x;
  }

  // ---------------------------------------------------------- and what must be

  lemma {:induction false} ValueGrows(s: string, p: nat, q: nat, e: nat)
    requires p <= q <= e <= |s| && AllDigits(s[p..e])
    ensures AllDigits(s[p..q]) && Value(s[p..q]) <= Value(s[p..e])
    decreases e - q
  {
    if q < e {
      ValueStep(s, p, e - 1);
      ValueGrows(s, p, q, e - 1);
    }
  }

  lemma {:induction false} DigitsRead(s: string, p: nat, q: nat, n: nat, max: nat, e: nat)
    requires p <= q < e <= |s| && AllDigits(s[p..e]) && Value(s[p..e]) <= max && (e == |s| || !IsDigit(s[e]))
    requires AllDigits(s[p..q]) && n == Value(s[p..q])
    ensures IsDigit(s[q]) && Digits(s, q, n, max) == Ok(Value(s[p..e]), e)
    decreases e - q
  {
    DigitAt(s, p, e, q);
    ValueGrows(s, p, q + 1, e);
    ValueStep(s, p, q);
    if q + 1 < e {
      DigitAt(s, p, e, q + 1);
      DigitsRead(s, p, q + 1, Value(s[p..q + 1]), max, e);
    }
  }

  lemma DigitAt(s: string, p: nat, e: nat, q: nat)
    requires p <= q < e <= |s| && AllDigits(s[p..e])
    ensures IsDigit(s[q])
  {
    assert s[p..e][q - p] == s[q];
  }

  lemma NumberRead(s: string, p: nat, max: nat, e: nat, n: nat)
    requires p <= e <= |s| && Numeral(s[p..e], n) && n <= max && (e == |s| || !IsDigit(s[e]))
    ensures Number(s, p, max) == Ok(n, e) && p < e && IsDigit(s[p])
  {
    DigitAt(s, p, e, p);
    assert s[p..p] == [];
    DigitsRead(s, p, p, 0, max, e);
  }

  lemma StartRead(s: string, p: nat, min: nat, max: nat, now: nat, e: nat, n: nat)
    requires p <= e <= |s| && now <= 59 && StartText(s[p..e], n, max, now) && min <= n <= max
    requires (e == |s| || !IsDigit(s[e])) && (At(s, e) == '-' ==> Numeral(s[p..e], n))
    ensures Start(s, p, min, max, now) == Ok(n, e)
  {
    hide Number, Numeral;
    if Numeral(s[p..e], n) {
      NumberRead(s, p, max, e, n);
    } else {
      assert s[p..e] == "?";
      assert s[p..e][0] == s[p] && e == p + 1;
    }
  }

  lemma RangeRead(s: string, p: nat, min: nat, max: nat, now: nat, e: nat, k: nat, n: nat, m: nat)
    requires p + k < e <= |s| && now <= 59 && min <= n <= m <= max && (e == |s| || s[e] == ',')
    requires s[p + k] == '-' && Numeral(s[p..p + k], n) && Numeral(s[p + k + 1..e], m)
    ensures ParseItem(s, p, min, max, now) == Ok(Range(n, m), e)
  {
    hide Start, Number, Numeral, StartText;
    NumeralStarts(s[p..p + k], n, max, now);
    StartRead(s, p, min, max, now, p + k, n);
    NumberRead(s, p + k + 1, max, e, m);
  }

  lemma EveryRead(s: string, p: nat, min: nat, max: nat, now: nat, e: nat, k: nat, n: nat, m: nat)
    requires p + k < e <= |s| && now <= 59 && min <= n <= max && 1 <= m <= max - min + 1 && (e == |s| || s[e] == ',')
    requires s[p + k] == ':' && StartText(s[p..p + k], n, max, now) && Numeral(s[p + k + 1..e], m)
    ensures ParseItem(s, p, min, max, now) == Ok(Every(n, m), e)
  {
    hide Start, Number, Numeral, StartText;
    StartRead(s, p, min, max, now, p + k, n);
    NumberRead(s, p + k + 1, max - min + 1, e, m);
  }

  lemma Slices(s: string, p: nat, e: nat, k: nat)
    requires p + k < e <= |s|
    ensures var t := s[p..e]; t[k] == s[p + k] && t[..k] == s[p..p + k] && t[k + 1..] == s[p + k + 1..e]
  {
  }

  lemma ItemRead(s: string, p: nat, min: nat, max: nat, now: nat, e: nat, x: Item)
    requires p <= e <= |s| && now <= 59 && min <= max && ItemText(s[p..e], x, max, now) && Fits(x, min, max)
    requires e == |s| || s[e] == ','
    ensures ParseItem(s, p, min, max, now) == Ok(x, e)
  {
    hide ParseItem, Numeral, StartText;
    var t := s[p..e];
    match x
    case Single(n) => SingleRead(s, p, min, max, now, e, n);
    case Range(n, m) =>
      var k :| 0 <= k < |t| && t[k] == '-' && Numeral(t[..k], n) && Numeral(t[k + 1..], m);
      Slices(s, p, e, k);
      RangeRead(s, p, min, max, now, e, k, n, m);
    case Every(n, step) =>
      var k :| 0 <= k < |t| && t[k] == ':' && StartText(t[..k], n, max, now) && Numeral(t[k + 1..], step);
      Slices(s, p, e, k);
      EveryRead(s, p, min, max, now, e, k, n, step);
  }

  lemma SingleRead(s: string, p: nat, min: nat, max: nat, now: nat, e: nat, n: nat)
    requires p <= e <= |s| && now <= 59 && StartText(s[p..e], n, max, now) && min <= n <= max
    requires e == |s| || s[e] == ','
    ensures ParseItem(s, p, min, max, now) == Ok(Single(n), e)
  {
    hide Start, Number, Numeral, StartText;
    StartRead(s, p, min, max, now, e, n);
  }

  lemma NumeralStarts(t: string, n: nat, max: nat, now: nat)
    requires Numeral(t, n)
    ensures StartText(t, n, max, now)
  {
  }

  lemma {:induction false} ItemsRead(s: string, p: nat, min: nat, max: nat, now: nat, xs: seq<Item>)
    requires p <= |s| && now <= 59 && min <= max && FieldText(s[p..], xs, min, max, now)
    ensures ParseItems(s, p, min, max, now) == Ok(xs, |s|)
    decreases |xs|
  {
    hide ParseItem, ItemText, FieldText, Fits;
    var t := s[p..];
    if |xs| == 1 {
      OnlyItem(t, xs, min, max, now);
      assert s[p..|s|] == t && [xs[0]] == xs;
      ItemRead(s, p, min, max, now, |s|, xs[0]);
    } else {
      var k := FirstItem(t, xs, min, max, now);
      Slices(s, p, |s|, k);
      assert s[p..|s|] == t && s[p + k + 1..|s|] == s[p + k + 1..];
      ItemRead(s, p, min, max, now, p + k, xs[0]);
      ItemsRead(s, p + k + 1, min, max, now, xs[1..]);
      assert [xs[0]] + xs[1..] == xs;
    }
  }

  lemma OnlyItem(t: string, xs: seq<Item>, min: nat, max: nat, now: nat)
    requires FieldText(t, xs, min, max, now) && |xs| == 1
    ensures ItemText(t, xs[0], max, now) && Fits(xs[0], min, max)
  {
    hide ItemText;
  }

  lemma FirstItem(t: string, xs: seq<Item>, min: nat, max: nat, now: nat) returns (k: nat)
    requires FieldText(t, xs, min, max, now) && |xs| != 1
    ensures |xs| > 1 && Fits(xs[0], min, max) && k < |t| && t[k] == ',' && ItemText(t[..k], xs[0], max, now)
    ensures FieldText(t[k + 1..], xs[1..], min, max, now)
  {
    hide ItemText;
    k :|
      && 0 <= k < |t| && t[k] == ',' && ItemText(t[..k], xs[0], max, now)
      && FieldText(t[k + 1..], xs[1..], min, max, now);
  }

  /** A field is read as `xs` if and only if it is their text. */
  lemma ReadsExactly(s: string, min: nat, max: nat, now: nat, xs: seq<Item>)
    requires now <= 59 && min <= max
    ensures ParseItems(s, 0, min, max, now) == Ok(xs, |s|) <==> FieldText(s, xs, min, max, now)
    ensures ParseItems(s, 0, min, max, now).Ok? ==> ParseItems(s, 0, min, max, now).pos == |s|
  {
    hide ParseItems, FieldText;
    assert s[0..] == s;
    if ParseItems(s, 0, min, max, now).Ok? { ItemsAre(s, 0, min, max, now); }
    if FieldText(s, xs, min, max, now) { ItemsRead(s, 0, min, max, now, xs); }
  }

  /** The items of a field that is accepted. */
  lemma Reading(s: string, min: nat, max: nat, now: nat)
    requires now <= 59 && min <= max
    ensures
      var r := ParseItems(s, 0, min, max, now);
      && (r.Ok? <==> IsField(s, min, max, now))
      && (r.Ok? ==> forall xs :: FieldText(s, xs, min, max, now) <==> xs == r.value)
  {
    hide ParseItems, FieldText;
    forall xs ensures ParseItems(s, 0, min, max, now) == Ok(xs, |s|) <==> FieldText(s, xs, min, max, now) {
      ReadsExactly(s, min, max, now, xs);
    }
    var r := ParseItems(s, 0, min, max, now);
    if r.Ok? {
      ReadsExactly(s, min, max, now, r.value);
      assert FieldText(s, r.value, min, max, now);
    }
  }
}
