/** TIDs as digit strings and as numbers, and a clock that only mints upwards. */
module Tid {
  import opened Data
  import opened Keys

  const LEN := 13

  /** The bounds of the two parts, 53 and 10 bits wide. */
  const MICROS := 0x20_0000_0000_0000
  const CLOCK_IDS := 1024
  const U64 := 0x1_0000_0000_0000_0000

  function Min(a: nat, b: nat): (m: nat)
    ensures m <= a && m <= b && (m == a || m == b)
  {
    if a < b then a else b
  }

  // ---- Digits ----

  predicate IsDigit(b: byte) {
    50 <= b <= 55 || 97 <= b <= 122
  }

  function Digit(b: byte): (d: nat)
    requires IsDigit(b)
    ensures d < 32
  {
    if b <= 55 then (b - 50) as nat else (b - 97) as nat + 6
  }

  function DigitChar(d: nat): (b: byte)
    requires d < 32
    ensures IsDigit(b) && Digit(b) == d
  {
    if d < 6 then d as byte + 50 else (d - 6) as byte + 97
  }

  predicate Digits(t: Key) {
    forall i :: 0 <= i < |t| ==> IsDigit(t[i])
  }

  /** Thirteen digits that fit 64 bits: the first is below 16. */
  predicate IsTid(t: Key) {
    |t| == LEN && Digits(t) && (50 <= t[0] <= 55 || 97 <= t[0] <= 106)
  }

  // ---- Values ----

  function Pow32(n: nat): (p: nat)
    ensures p > 0
  {
    if n == 0 then 1 else 32 * Pow32(n - 1)
  }

  /** The left fold that reads the digits. */
  function Value(t: Key): nat
    requires Digits(t)
  {
    if t == [] then 0 else Value(t[..|t| - 1]) * 32 + Digit(t[|t| - 1])
  }

  lemma Shifted(d: nat, p: nat, u: nat, e: nat)
    ensures (d * p + u) * 32 + e == d * (32 * p) + (u * 32 + e)
  {
  }

  lemma {:induction false} ValueFromHead(t: Key)
    requires Digits(t) && t != []
    ensures Value(t) == Digit(t[0]) * Pow32(|t| - 1) + Value(t[1..])
  {
    var n := |t| - 1;
    if n == 0 {
      assert t[..0] == [] && t[1..] == [];
      assert Value(t[..0]) == 0;
    } else {
      ValueFromHead(t[..n]);
      assert t[..n][1..] == t[1..][..n - 1];
      assert t[1..][n - 1] == t[n];
      assert Pow32(n) == 32 * Pow32(n - 1);
      assert Value(t) == Value(t[..n]) * 32 + Digit(t[n]);
      assert Value(t[1..]) == Value(t[1..][..n - 1]) * 32 + Digit(t[n]);
      hide Pow32, Digit, Value;
      Shifted(Digit(t[0]), Pow32(n - 1), Value(t[1..][..n - 1]), Digit(t[n]));
    }
  }

  lemma {:induction false} ValueBound(t: Key)
    requires Digits(t)
    ensures Value(t) < Pow32(|t|)
  {
    if t != [] { ValueBound(t[..|t| - 1]); }
  }

  lemma HeadOrder(x: nat, y: nat, p: nat, u: nat, v: nat)
    requires u < p && v < p
    ensures x * p + u < y * p + v <==> x < y || (x == y && u < v)
    ensures x * p + u == y * p + v <==> x == y && u == v
  {
    if x < y { assert (x + 1) * p <= y * p; }
    if y < x { assert (y + 1) * p <= x * p; }
  }

  /** String order on digits of one length is numeric order. */
  lemma {:induction false} OrderIsNumeric(a: Key, b: Key)
    requires Digits(a) && Digits(b) && |a| == |b|
    ensures Lt(a, b) <==> Value(a) < Value(b)
    ensures Value(a) == Value(b) ==> a == b
  {
    if a != [] {
      ValueFromHead(a);
      ValueFromHead(b);
      ValueBound(a[1..]);
      ValueBound(b[1..]);
      OrderIsNumeric(a[1..], b[1..]);
      var x, y := Digit(a[0]), Digit(b[0]);
      assert (a[0] < b[0] <==> x < y) && (a[0] == b[0] <==> x == y);
      assert a == [a[0]] + a[1..] && b == [b[0]] + b[1..];
      hide Digit, Value, Pow32;
      HeadOrder(x, y, Pow32(|a| - 1), Value(a[1..]), Value(b[1..]));
    }
  }

  lemma PowLen()
    ensures Pow32(12) == 0x1000_0000_0000_0000
    ensures Pow32(13) == 0x2_0000_0000_0000_0000
  {
    assert Pow32(4) == 0x10_0000;
    assert Pow32(8) == 0x100_0000_0000;
    assert Pow32(12) == 0x1000_0000_0000_0000;
  }

  lemma {:induction false} PrefixValue(t: Key, i: nat)
    requires Digits(t) && i <= |t|
    ensures Digits(t[..i]) && Value(t[..i]) <= Value(t)
    decreases |t| - i
  {
    if i < |t| {
      PrefixValue(t, i + 1);
      assert t[..i + 1][..i] == t[..i];
    } else {
      assert t[..i] == t;
    }
  }

  /** The fold never passes 64 bits on the way, on anything parsing accepts. */
  lemma FoldFits(t: Key, i: nat)
    requires IsTid(t) && i <= LEN
    ensures Digits(t[..i]) && Value(t[..i]) <= Value(t) < U64
  {
    hide Value, Digit;
    PrefixValue(t, i);
    TidFits(t);
  }

  // ---- Encoding ----

  /** Thirteen digits, most significant first, each five bits of the value. */
  function Encode(value: nat): (t: Key)
    ensures |t| == LEN && Digits(t)
  {
    seq(LEN, i requires 0 <= i < LEN => DigitChar(DigitAt(value, LEN - 1 - i)))
  }

  /** Five bits of a value, shifted down five at a time. */
  function DigitAt(value: nat, i: nat): (d: nat)
    ensures d < 32
  {
    if i == 0 then value % 32 else DigitAt(value / 32, i - 1)
  }

  function EncodeTo(value: nat, n: nat): (t: Key)
    ensures |t| == n && Digits(t)
  {
    if n == 0 then [] else EncodeTo(value / 32, n - 1) + [DigitChar(value % 32)]
  }

  lemma Multiple(x: int, d: int)
    requires d > 0
    ensures x >= 1 ==> x * d >= d
    ensures x <= -1 ==> x * d <= -d
  {
    if x >= 1 { assert (x - 1) * d >= 0; }
    if x <= -1 { assert (-1 - x) * d >= 0; }
  }

  lemma DivIs(v: nat, d: nat, q: nat, r: nat)
    requires d > 0 && v == q * d + r && r < d
    ensures v / d == q
  {
    var k := v / d;
    assert v == k * d + v % d;
    assert (k - q) * d == r - v % d;
    Multiple(k - q, d);
  }

  lemma {:induction false} EncodeToAt(v: nat, n: nat, i: nat)
    requires i < n
    ensures EncodeTo(v, n)[i] == DigitChar(DigitAt(v, n - 1 - i))
  {
    if i < n - 1 {
      EncodeToAt(v / 32, n - 1, i);
    }
  }

  lemma {:induction false} ValueOfEncodeTo(v: nat, n: nat)
    requires v < Pow32(n)
    ensures Value(EncodeTo(v, n)) == v
  {
    hide Value, DigitChar, Digit, EncodeTo, Pow32;
    EncodeToNext(v, n);
    if n > 0 {
      ValueOfEncodeTo(v / 32, n - 1);
      ValueNext(EncodeTo(v / 32, n - 1), v % 32);
    }
  }

  lemma EncodeToNext(v: nat, n: nat)
    requires v < Pow32(n)
    ensures if n == 0 then v == 0 && EncodeTo(v, n) == [] && Value([]) == 0
            else v / 32 < Pow32(n - 1) && EncodeTo(v, n) == EncodeTo(v / 32, n - 1) + [DigitChar(v % 32)]
  {
    hide DigitChar;
  }

  lemma ValueNext(t: Key, d: nat)
    requires Digits(t) && d < 32
    ensures Value(t + [DigitChar(d)]) == Value(t) * 32 + d
  {
    hide DigitChar, Digit;
    assert (t + [DigitChar(d)])[..|t|] == t;
  }

  lemma EncodeValue(v: nat)
    requires v < Pow32(LEN)
    ensures Value(Encode(v)) == v
  {
    hide Pow32, EncodeTo, DigitChar, Value;
    forall i | 0 <= i < LEN ensures Encode(v)[i] == EncodeTo(v, LEN)[i] {
      EncodeToAt(v, LEN, i);
    }
    assert Encode(v) == EncodeTo(v, LEN);
    ValueOfEncodeTo(v, LEN);
  }

  // ---- Parts ----

  function FromParts(micros: nat, clockId: nat): Key {
    Encode((micros % MICROS) * CLOCK_IDS + clockId % CLOCK_IDS)
  }

  function ToParts(t: Key): (nat, nat)
    requires Digits(t)
  {
    (Value(t) / CLOCK_IDS, Value(t) % CLOCK_IDS)
  }

  /** Parts come back modulo their bounds, and make a TID whose top bit is
      clear. */
  lemma PartsRoundTrip(micros: nat, clockId: nat)
    ensures IsTid(FromParts(micros, clockId))
    ensures ToParts(FromParts(micros, clockId)) == (micros % MICROS, clockId % CLOCK_IDS)
    ensures (micros % MICROS) * CLOCK_IDS + clockId % CLOCK_IDS < U64
  {
    hide Encode, Value, IsTid;
    PackedParts(micros % MICROS, clockId % CLOCK_IDS);
  }

  lemma PackedParts(q: nat, r: nat)
    requires q < MICROS && r < CLOCK_IDS
    ensures var v := q * CLOCK_IDS + r;
            v < U64 && IsTid(Encode(v)) && Value(Encode(v)) / CLOCK_IDS == q && Value(Encode(v)) % CLOCK_IDS == r
  {
    var v := q * CLOCK_IDS + r;
    PowLen();
    hide Pow32, Encode, Value, IsTid;
    EncodeValue(v);
    SmallTid(Encode(v));
    DivIs(v, CLOCK_IDS, q, r);
  }

  lemma SmallMod(x: nat, m: nat)
    requires x < m
    ensures x % m == x
  {
  }

  lemma MintedParts(micros: nat, clockId: nat)
    requires micros < MICROS
    ensures IsTid(FromParts(micros, clockId))
    ensures ToParts(FromParts(micros, clockId)) == (micros, clockId % CLOCK_IDS)
  {
    hide FromParts, ToParts, IsTid;
    PartsRoundTrip(micros, clockId);
    SmallMod(micros, MICROS);
  }

  /** Nothing that fits 64 bits is shut out, and nothing that does not is let
      in. */
  lemma TidFits(t: Key)
    ensures IsTid(t) <==> |t| == LEN && Digits(t) && Value(t) < U64
  {
    if |t| == LEN && Digits(t) {
      PowLen();
      ValueFromHead(t);
      ValueBound(t[1..]);
      hide Pow32, Value;
      HeadFits(Digit(t[0]), Pow32(12), Value(t[1..]));
    }
  }

  lemma HeadFits(d: nat, p: nat, u: nat)
    requires u < p && p == 0x1000_0000_0000_0000
    ensures d * p + u < U64 <==> d < 16
  {
  }

  /** The digits, in order. */
  lemma Alphabet(d: nat)
    requires d < 32
    ensures DigitChar(d) as int == "234567abcdefghijklmnopqrstuvwxyz"[d] as int
  {
    assert '2' as int == 50 && 'a' as int == 97;
  }

  /** A TID is its two parts packed into one number, the clock id lowest. */
  lemma PartsPacked(micros: nat, clockId: nat)
    ensures Digits(FromParts(micros, clockId))
    ensures Value(FromParts(micros, clockId)) == micros % 0x20_0000_0000_0000 * 1024 + clockId % 1024
  {
    hide Encode, Value, Pow32;
    PartsRoundTrip(micros, clockId);
    PowLen();
    EncodeValue((micros % MICROS) * CLOCK_IDS + clockId % CLOCK_IDS);
  }

  lemma SmallTid(t: Key)
    requires |t| == LEN && Digits(t) && Value(t) < 8 * 0x1000_0000_0000_0000
    ensures IsTid(t)
  {
    PowLen();
    ValueFromHead(t);
    hide Pow32, Value;
    assert Digit(t[0]) < 8;
  }

  // ---- The clock ----

  /** Whether a clock or a revision is at the last microsecond there is, or a
      parsed revision past it. */
  predicate AtEnd(last: nat, previous: Key) {
    last >= MICROS - 1 || (Digits(previous) && ToParts(previous).0 >= MICROS - 1)
  }

  predicate Past(x: nat, last: nat, previous: nat) {
    last < x && previous < x
  }

  ghost predicate NoneLeft(last: nat, previous: nat) {
    forall x: nat :: Past(x, last, previous) ==> 0x20_0000_0000_0000 <= x
  }

  /** No microsecond past both is one the field has room for. */
  ghost predicate Spent(last: nat, previous: Key) {
    NoneLeft(last, if Digits(previous) then Value(previous) / 1024 else 0)
  }

  lemma AtEndIsSpent(last: nat, previous: Key)
    ensures AtEnd(last, previous) <==> Spent(last, previous)
  {
    hide Value;
    var p := if Digits(previous) then Value(previous) / 1024 else 0;
    assert Past(MICROS - 1, last, p) <==> !AtEnd(last, previous);
  }

  /** The first microsecond past both that is not before now, or the last there
      is. */
  ghost predicate Earliest(micros: nat, last: nat, previous: nat, now: nat) {
    && Past(micros, last, previous) && micros < MICROS
    && (now <= micros || micros == MICROS - 1)
    && forall x: nat :: Past(x, last, previous) && now <= x ==> micros <= x
  }

  /** A clock id, and the last microsecond minted. */
  class Clock {
    const clockId: nat
    var last: nat

    constructor (clockId: nat)
      ensures last == 0 && this.clockId == clockId
    {
      this.clockId := clockId;
      last := 0;
    }

    /** A TID for now, or for just after the last one where that is later, or
        for the end of the field where that is sooner. */
    method Mint(now: nat) returns (t: Key)
      modifies this
      ensures last == Min(if now > old(last) + 1 then now else old(last) + 1, MICROS - 1)
      ensures IsTid(t) && ToParts(t) == (last, clockId % CLOCK_IDS)
    {
      hide FromParts, ToParts, IsTid;
      last := Min(if now > last + 1 then now else last + 1, MICROS - 1);
      MintedParts(last, clockId);
      t := FromParts(last, clockId);
    }

    /** A TID above `previous`. There is none exactly where the clock or
        `previous` has reached the last microsecond, or `previous` is past it,
        as a parsed one can be; otherwise what comes back is above everything
        minted before too. */
    method MintAfter(previous: Key, now: nat) returns (r: Option<Key>)
      requires IsTid(previous)
      modifies this
      ensures r.None? <==> AtEnd(old(last), previous)
      ensures r.None? <==> Spent(old(last), previous)
      ensures r.Some? ==> IsTid(r.value) && Lt(previous, r.value) && last < MICROS
      ensures r.Some? ==> ToParts(r.value).0 == last > old(last)
      ensures r.Some? ==>
                && ToParts(r.value) == (last, clockId % CLOCK_IDS)
                && Earliest(last, old(last), ToParts(previous).0, now)
    {
      AtEndIsSpent(last, previous);
      last := if last > ToParts(previous).0 then last else ToParts(previous).0;
      if last >= MICROS - 1 {
        return None;
      }
      var t := Mint(now);
      OrderIsNumeric(previous, t);
      r := Some(t);
    }
  }

  /** A TID minted later by one clock sorts above. */
  lemma LaterSortsAbove(a: Key, b: Key)
    requires IsTid(a) && IsTid(b) && ToParts(a).0 < ToParts(b).0
    ensures Lt(a, b)
  {
    OrderIsNumeric(a, b);
  }
}
