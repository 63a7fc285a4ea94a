/** Packed event times (`delta`): five bits of day, eleven bits of minute. */
module Deltas {
  import opened Basics

  datatype Delta = Delta(days: nat, mam: nat)

  /** Assigning to the bit fields truncates both parts. */
  function Pack(days: nat, mam: nat): (d: Delta)
    ensures d.days < 32 && (days - d.days) % 32 == 0 && d.mam < 2048 && (mam - d.mam) % 2048 == 0
  {
    Delta(days % 32, mam % 2048)
  }

  function FromMinutes(m: nat): Delta
    requires m < 0x1_0000
  {
    Pack(m / 1440, m % 1440)
  }

  function Minutes(d: Delta): nat { d.days * 1440 + d.mam }

  /** A signed 16-bit minute count, as the source hands it out. */
  function Count(d: Delta): int { Wrap16(Minutes(d)) }

  /** A time the loader stores: the day fits its field, the minute is one of a day. */
  predicate Normal(d: Delta) { d.days < 32 && d.mam < 1440 }

  /** Subtraction in unsigned arithmetic, narrowed to 16 bits, then split again. */
  function Minus(a: Delta, b: Delta): Delta {
    FromMinutes(((a.days - b.days) * 1440 + (a.mam - b.mam)) % 0x1_0000)
  }

  function Plus(a: Delta, b: Delta): Delta {
    var mam, days := a.mam + b.mam, a.days + b.days;
    if mam >= 1440 then Pack(days + 1, mam - 1440) else Pack(days, mam)
  }

  lemma FromMinutesExact(m: nat)
    requires m < 32 * 1440
    ensures Normal(FromMinutes(m)) && Minutes(FromMinutes(m)) == m
    ensures FromMinutes(m).days == m / 1440 && FromMinutes(m).mam == m % 1440
  {
    var q, r := m / 1440, m % 1440;
    assert 0 <= q < 32 && 0 <= r < 1440 && m == q * 1440 + r;
    assert q % 32 == q && r % 2048 == r;
  }

  lemma NormalIsUnique(a: Delta, b: Delta)
    requires Normal(a) && Normal(b) && Minutes(a) == Minutes(b)
    ensures a == b
  {
  }

  /** A difference is exact as long as it does not go below zero. */
  lemma MinusExact(a: Delta, b: Delta)
    requires Normal(a) && Normal(b) && Minutes(b) <= Minutes(a)
    ensures Normal(Minus(a, b)) && Minutes(Minus(a, b)) == Minutes(a) - Minutes(b)
  {
    var m := (a.days - b.days) * 1440 + (a.mam - b.mam);
    assert m == Minutes(a) - Minutes(b);
    assert m < 32 * 1440;
    assert m % 0x1_0000 == m;
    FromMinutesExact(m);
  }

  lemma PlusExact(a: Delta, b: Delta)
    requires Normal(a) && Normal(b) && Minutes(a) + Minutes(b) < 32 * 1440
    ensures Normal(Plus(a, b)) && Minutes(Plus(a, b)) == Minutes(a) + Minutes(b)
  {
    var mam, days := a.mam + b.mam, a.days + b.days;
    if mam >= 1440 {
      PackedExact(days + 1, mam - 1440);
    } else {
      PackedExact(days, mam);
    }
  }

  lemma PackedExact(days: nat, mam: nat)
    requires days < 32 && mam < 1440
    ensures Pack(days, mam) == Delta(days, mam)
  {
  }

  /** A base plus an offset from it gives the time back exactly when the time
      does not lie before the base: 2^16 is no multiple of a day, so an offset
      that wrapped comes back at another minute of the day. */
  lemma OffsetRoundTrip(a: Delta, b: Delta)
    requires Normal(a) && Normal(b)
    ensures Plus(b, Minus(a, b)) == a <==> Minutes(b) <= Minutes(a)
  {
    if Minutes(b) <= Minutes(a) {
      MinusExact(a, b);
      PlusExact(b, Minus(a, b));
      NormalIsUnique(Plus(b, Minus(a, b)), a);
    } else {
      WrappedOffset(a, b);
    }
  }

  lemma WrappedOffset(a: Delta, b: Delta)
    requires Normal(a) && Normal(b) && Minutes(a) < Minutes(b)
    ensures Plus(b, Minus(a, b)).mam == (a.mam + 736) % 1440
  {
    var x := (a.days - b.days) * 1440 + (a.mam - b.mam);
    var m := x % 0x1_0000;
    assert m == x + 0x1_0000;
    var y := a.mam - b.mam + 736;
    assert m == (a.days - b.days + 45) * 1440 + y;
    MinuteOfDay(m, a.days - b.days + 45, y);
    MinuteOfSum(b.mam, y, a.mam + 736);
    hide *;
    var d := Minus(a, b);
    PackedMinute(m / 1440, m % 1440);
    assert d.mam == y % 1440 by { MinusMinute(a, b, m); }
    PlusMinute(b, d);
  }

  lemma PackedMinute(days: nat, mam: nat)
    requires mam < 1440
    ensures Pack(days, mam).mam == mam
  {
  }

  lemma MinusMinute(a: Delta, b: Delta, m: nat)
    requires m == ((a.days - b.days) * 1440 + (a.mam - b.mam)) % 0x1_0000
    ensures Minus(a, b).mam == m % 1440
  {
    PackedMinute(m / 1440, m % 1440);
  }

  lemma PlusMinute(a: Delta, b: Delta)
    requires a.mam < 1440 && b.mam < 1440
    ensures Plus(a, b).mam == if a.mam + b.mam >= 1440 then a.mam + b.mam - 1440 else a.mam + b.mam
  {
  }

  lemma MinuteOfDay(m: int, days: int, y: int)
    requires m == days * 1440 + y
    ensures m % 1440 == y % 1440
  {
    var q, r := y / 1440, y % 1440;
    assert m == (days + q) * 1440 + r;
  }

  lemma MinuteOfSum(b: nat, y: int, s: int)
    requires b < 1440 && b + y == s
    ensures s % 1440 == if b + y % 1440 >= 1440 then b + y % 1440 - 1440 else b + y % 1440
  {
    var q, r := y / 1440, y % 1440;
    assert s == q * 1440 + (b + r);
    MinuteOfDay(s, q, b + r);
  }
}
