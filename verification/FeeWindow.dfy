/** The per-lane pool-fee window (merged.rs, `is_pool_fee_minute`).

    A u64 is a natural number below 2^64; additions and multiplications wrap. */
module FeeWindow {
  import opened Powers

  const POOL_FEE_MINUTES_PER_HOUR: nat := 1

  // ---- Words ------------------------------------------------------------------

  /** Bitwise exclusive or. */
  function Xor(a: nat, b: nat): nat {
    if a == 0 && b == 0 then 0
    else (if a % 2 != b % 2 then 1 else 0) + 2 * Xor(a / 2, b / 2)
  }

  function Shr(x: nat, n: nat): nat {
    if n == 0 then x else Shr(x / 2, n - 1)
  }

  function XorShift(x: nat, n: nat): nat {
    Xor(x, Shr(x, n))
  }

  function WrappingAdd(a: nat, b: nat): nat {
    (a + b) % U64
  }

  function WrappingMul(a: nat, b: nat): nat {
    (a * b) % U64
  }

  function Round(z: nat, shift: nat, factor: nat): nat {
    WrappingMul(XorShift(z, shift), factor)
  }

  /** The constants of a three-round xor-shift-multiply finalizer. */
  datatype Finalizer = Finalizer(add: nat, shift0: nat, factor0: nat, shift1: nat, factor1: nat, shift2: nat)

  const SPLITMIX64 := Finalizer(0x9E37_79B9_7F4A_7C15, 30, 0xBF58_476D_1CE4_E5B9, 27, 0x94D0_49BB_1331_11EB, 31)

  function Finalize(f: Finalizer, word: nat): nat {
    var z0 := WrappingAdd(word, f.add);
    var z1 := Round(z0, f.shift0, f.factor0);
    var z2 := Round(z1, f.shift1, f.factor1);
    XorShift(z2, f.shift2)
  }

  /** `z` of `is_pool_fee_minute`. */
  function Mix(lane: nat): nat {
    Finalize(SPLITMIX64, lane)
  }

  function StartMinute(lane: nat): nat {
    Mix(lane) % 60
  }

  predicate InWindow(start: nat, minute: nat, minutesPerHour: nat) {
    exists k :: 0 <= k < minutesPerHour && MinuteAt(start, k) == minute
  }

  predicate IsPoolFeeMinute(lane: nat, minute: nat, minutesPerHour: nat) {
    InWindow(StartMinute(lane), minute, minutesPerHour)
  }

  function MinuteAt(start: nat, k: nat): nat {
    (start + k) % 60
  }

  // ---- Exclusive or -------------------------------------------------------------

  lemma {:induction false} XorZero(a: nat)
    ensures Xor(a, 0) == a && Xor(0, a) == a && Xor(a, a) == 0
  {
    if a > 0 { XorZero(a / 2); }
  }

  lemma XorBits(a: nat, b: nat)
    ensures Xor(a, b) % 2 == (if a % 2 != b % 2 then 1 else 0) && Xor(a, b) / 2 == Xor(a / 2, b / 2)
  {
  }

  lemma {:induction false} XorAssociates(a: nat, b: nat, c: nat)
    ensures Xor(Xor(a, b), c) == Xor(a, Xor(b, c))
    decreases a + b + c
  {
    if a + b + c > 0 {
      XorAssociates(a / 2, b / 2, c / 2);
      XorBits(a, b);
      XorBits(b, c);
      XorBits(Xor(a, b), c);
      XorBits(a, Xor(b, c));
    }
  }

  lemma {:induction false} ShrOfXor(a: nat, b: nat, n: nat)
    ensures Shr(Xor(a, b), n) == Xor(Shr(a, n), Shr(b, n))
    decreases n
  {
    if n > 0 {
      XorBits(a, b);
      ShrOfXor(a / 2, b / 2, n - 1);
    }
  }

  lemma {:induction false} ShrAdds(x: nat, m: nat, n: nat)
    ensures Shr(Shr(x, m), n) == Shr(x, m + n)
    decreases m
  {
    if m > 0 { ShrAdds(x / 2, m - 1, n); }
  }

  lemma {:induction false} ShrOut(x: nat, n: nat)
    requires x < Pow2(n)
    ensures Shr(x, n) == 0
    decreases n
  {
    if n > 0 { ShrOut(x / 2, n - 1); }
  }

  lemma {:induction false} ShrZero(n: nat)
    ensures Shr(0, n) == 0
  {
    if n > 0 { ShrZero(n - 1); }
  }

  lemma {:induction false} ShrShrinks(x: nat, n: nat)
    ensures Shr(x, n) <= x
    decreases n
  {
    if n > 0 { ShrShrinks(x / 2, n - 1); }
  }

  lemma {:induction false} XorBound(a: nat, b: nat, n: nat)
    requires a < Pow2(n) && b < Pow2(n)
    ensures Xor(a, b) < Pow2(n)
    decreases n
  {
    if n > 0 { XorBound(a / 2, b / 2, n - 1); }
  }

  lemma WordSize()
    ensures Pow2(64) == U64
  {
    assert Pow2(8) == 256 by { assert Pow2(4) == 16; Pow2Adds(4, 4); }
    Pow2Adds(8, 8);
    Pow2Adds(16, 16);
    Pow2Adds(32, 32);
  }

  // ---- The mix is a bijection -----------------------------------------------------

  function UnXorShift(y: nat, n: nat): nat {
    Xor(Xor(y, Shr(y, n)), Shr(y, 2 * n))
  }

  /** A xor-shift by at least a third of the word is undone by xoring in the first two shifts,
      on either side. */
  lemma XorShiftInverse(x: nat, n: nat)
    requires x < U64 && 3 * n >= 64
    ensures UnXorShift(XorShift(x, n), n) == x && XorShift(UnXorShift(x, n), n) == x
    ensures XorShift(x, n) < U64 && UnXorShift(x, n) < U64
  {
    var a, b := Shr(x, n), Shr(x, 2 * n);
    WordSize();
    ShrShrinks(x, n);
    ShrShrinks(x, 2 * n);
    XorBound(x, a, 64);
    XorBound(Xor(x, a), b, 64);
    ShrAdds(x, n, n);
    ShrAdds(x, n, 2 * n);
    ShrAdds(x, 2 * n, n);
    ShrAdds(x, 64, 3 * n - 64);
    ShrOut(x, 64);
    ShrZero(3 * n - 64);
    // XorShift first
    ShrOfXor(x, a, n);
    ShrOfXor(x, a, 2 * n);
    XorZero(b);
    XorZero(a);
    XorZero(x);
    XorZero(Xor(x, a));
    calc {
      UnXorShift(XorShift(x, n), n);
      Xor(Xor(Xor(x, a), Xor(a, b)), Xor(b, 0));
      { XorAssociates(Xor(x, a), a, b); XorAssociates(x, a, a); }
      Xor(Xor(x, b), b);
      { XorAssociates(x, b, b); }
      x;
    }
    // then the inverse first
    ShrOfXor(Xor(x, a), b, n);
    calc {
      XorShift(UnXorShift(x, n), n);
      Xor(Xor(Xor(x, a), b), Xor(Xor(a, b), 0));
      { XorZero(Xor(a, b)); XorAssociates(x, a, b); XorAssociates(x, Xor(a, b), Xor(a, b)); }
      x;
    }
  }

  /** Odd constants have inverses modulo 2^64. */
  lemma MulInverse(x: nat, c: nat, d: nat)
    requires x < U64 && (c * d) % U64 == 1
    ensures WrappingMul(WrappingMul(x, c), d) == x
  {
    var k, j := (x * c) / U64, (c * d) / U64;
    var r := (x * c) % U64;
    assert x * c == k * U64 + r;
    assert r * d == x * (c * d) - k * U64 * d;
    assert x * (c * d) == x * (j * U64 + 1) == (x * j) * U64 + x;
    assert r * d == (x * j - k * d) * U64 + x;
    ModOfMultiple(x * j - k * d, x);
  }

  lemma ModOfMultiple(q: int, x: nat)
    requires x < U64
    ensures (q * U64 + x) % U64 == x
  {
  }

  function Unround(z: nat, shift: nat, inverse: nat): nat {
    UnXorShift(WrappingMul(z, inverse), shift)
  }

  function Unfinalize(f: Finalizer, inverse0: nat, inverse1: nat, word: nat): nat
    requires f.add < U64
  {
    var z2 := UnXorShift(word, f.shift2);
    var z1 := Unround(z2, f.shift1, inverse1);
    var z0 := Unround(z1, f.shift0, inverse0);
    WrappingAdd(z0, U64 - f.add)
  }

  function Unmix(z: nat): nat {
    Unfinalize(SPLITMIX64, 0x96DE_1B17_3F11_9089, 0x3196_42B2_D24D_8EC3, z)
  }

  lemma AddInverse(x: nat, a: nat)
    requires x < U64 && a < U64
    ensures WrappingAdd(WrappingAdd(x, a), U64 - a) == x && WrappingAdd(WrappingAdd(x, U64 - a), a) == x
  {
  }

  lemma RoundInverse(x: nat, shift: nat, c: nat, d: nat)
    requires x < U64 && 3 * shift >= 64 && (c * d) % U64 == 1
    ensures Round(x, shift, c) < U64 && Unround(Round(x, shift, c), shift, d) == x
    ensures Unround(x, shift, d) < U64 && Round(Unround(x, shift, d), shift, c) == x
  {
    XorShiftInverse(x, shift);
    MulInverse(XorShift(x, shift), c, d);
    assert d * c == c * d;
    MulInverse(x, d, c);
    XorShiftInverse(WrappingMul(x, d), shift);
  }

  predicate Invertible(f: Finalizer, inverse0: nat, inverse1: nat) {
    && f.add < U64 && 3 * f.shift0 >= 64 && 3 * f.shift1 >= 64 && 3 * f.shift2 >= 64
    && (f.factor0 * inverse0) % U64 == 1 && (f.factor1 * inverse1) % U64 == 1
  }

  lemma UnfinalizeFinalize(f: Finalizer, inverse0: nat, inverse1: nat, x: nat)
    requires x < U64 && Invertible(f, inverse0, inverse1)
    ensures Finalize(f, x) < U64 && Unfinalize(f, inverse0, inverse1, Finalize(f, x)) == x
  {
    var z0 := WrappingAdd(x, f.add);
    AddInverse(x, f.add);
    RoundInverse(z0, f.shift0, f.factor0, inverse0);
    var z1 := Round(z0, f.shift0, f.factor0);
    RoundInverse(z1, f.shift1, f.factor1, inverse1);
    XorShiftInverse(Round(z1, f.shift1, f.factor1), f.shift2);
  }

  lemma FinalizeUnfinalize(f: Finalizer, inverse0: nat, inverse1: nat, x: nat)
    requires x < U64 && Invertible(f, inverse0, inverse1)
    ensures Unfinalize(f, inverse0, inverse1, x) < U64 && Finalize(f, Unfinalize(f, inverse0, inverse1, x)) == x
  {
    XorShiftInverse(x, f.shift2);
    var z2 := UnXorShift(x, f.shift2);
    RoundInverse(z2, f.shift1, f.factor1, inverse1);
    var z1 := Unround(z2, f.shift1, inverse1);
    RoundInverse(z1, f.shift0, f.factor0, inverse0);
    AddInverse(Unround(z1, f.shift0, inverse0), f.add);
  }

  /** The lane mix is a bijection on 64-bit words, with `Unmix` as its inverse. */
  lemma MixIsBijective(x: nat)
    requires x < U64
    ensures Mix(x) < U64 && Unmix(Mix(x)) == x
    ensures Unmix(x) < U64 && Mix(Unmix(x)) == x
  {
    UnfinalizeFinalize(SPLITMIX64, 0x96DE_1B17_3F11_9089, 0x3196_42B2_D24D_8EC3, x);
    FinalizeUnfinalize(SPLITMIX64, 0x96DE_1B17_3F11_9089, 0x3196_42B2_D24D_8EC3, x);
  }

  // ---- Counting ---------------------------------------------------------------------

  ghost predicate Bijects(a: set<nat>, b: set<nat>, f: nat -> nat, g: nat -> nat) {
    && (forall x :: x in a ==> f(x) in b && g(f(x)) == x)
    && (forall y :: y in b ==> g(y) in a && f(g(y)) == y)
  }

  lemma {:induction false} SameSize(a: set<nat>, b: set<nat>, f: nat -> nat, g: nat -> nat)
    requires Bijects(a, b, f, g)
    ensures |a| == |b|
  {
    if a == {} {
      assert b == {};
    } else {
      var x :| x in a;
      SameSize(a - {x}, b - {f(x)}, f, g);
    }
  }

  function Residues(n: nat, m: nat): set<nat> {
    set y | 0 <= y < n && y % 60 == m
  }

  lemma {:induction false} CountResidues(n: nat, m: nat)
    requires m < 60
    ensures |Residues(n, m)| == n / 60 + (if m < n % 60 then 1 else 0)
  {
    if n == 0 {
      assert Residues(n, m) == {};
    } else {
      CountResidues(n - 1, m);
      if (n - 1) % 60 == m {
        assert Residues(n, m) == Residues(n - 1, m) + {n - 1};
      } else {
        assert Residues(n, m) == Residues(n - 1, m);
      }
    }
  }

  /** The lanes whose window starts at minute `m`. */
  ghost function LanesStartingAt(m: nat): set<nat> {
    set lane | 0 <= lane < U64 && StartMinute(lane) == m
  }

  /** Exact equidistribution: over all 2^64 lanes, minutes 0..15 start one lane more than
      minutes 16..59 and nothing else differs. */
  lemma StartMinutesAreEquidistributed(m: nat)
    requires m < 60
    ensures |LanesStartingAt(m)| == 307_445_734_561_825_860 + (if m < 16 then 1 else 0)
  {
    forall x: nat | x < U64 ensures Mix(x) < U64 && Unmix(Mix(x)) == x && Unmix(x) < U64 && Mix(Unmix(x)) == x {
      MixIsBijective(x);
    }
    SameSize(LanesStartingAt(m), Residues(U64, m), Mix, Unmix);
    CountResidues(U64, m);
  }

  ghost function FeeMinutes(lane: nat, minutesPerHour: nat): set<nat> {
    set m | 0 <= m < 60 && IsPoolFeeMinute(lane, m, minutesPerHour)
  }

  function Below(n: nat): (s: set<nat>)
    ensures |s| == n && forall k :: k in s <==> 0 <= k < n
  {
    if n == 0 then {} else Below(n - 1) + {n - 1}
  }

  /** How far into the window starting at `start` a minute lies. */
  function Offset(start: nat, minute: nat): nat
    requires start < 60
  {
    (minute + 60 - start) % 60
  }

  lemma OffsetInverse(start: nat, k: nat)
    requires start < 60
    ensures Offset(start, MinuteAt(start, k)) == k % 60 && MinuteAt(start, k) == MinuteAt(start, k % 60)
  {
    var q := k / 60;
    assert start + k == (start + k % 60) + 60 * q;
  }

  lemma MinuteInverse(start: nat, m: nat)
    requires start < 60 && m < 60
    ensures MinuteAt(start, Offset(start, m)) == m
  {
  }

  lemma FeeMinuteOf(start: nat, k: nat, minutesPerHour: nat)
    requires start < 60 && k < 60 && k < minutesPerHour
    ensures MinuteAt(start, k) < 60 && InWindow(start, MinuteAt(start, k), minutesPerHour)
    ensures Offset(start, MinuteAt(start, k)) == k
  {
  }

  lemma OffsetOf(start: nat, m: nat, minutesPerHour: nat)
    requires start < 60 && m < 60 && InWindow(start, m, minutesPerHour)
    ensures Offset(start, m) < 60 && Offset(start, m) < minutesPerHour && MinuteAt(start, Offset(start, m)) == m
  {
    MinuteInverse(start, m);
    var k :| 0 <= k < minutesPerHour && MinuteAt(start, k) == m;
    OffsetInverse(start, k);
    assert k % 60 <= k;
  }

  lemma WindowSize(start: nat, minutesPerHour: nat, fees: set<nat>)
    requires start < 60 && fees == set m | 0 <= m < 60 && InWindow(start, m, minutesPerHour)
    ensures |fees| == if minutesPerHour <= 60 then minutesPerHour else 60
  {
    var n := if minutesPerHour <= 60 then minutesPerHour else 60;
    var f: nat -> nat := k => MinuteAt(start, k);
    var g: nat -> nat := m => Offset(start, m);
    assert Bijects(Below(n), fees, f, g) by {
      forall k | k in Below(n) ensures f(k) in fees && g(f(k)) == k {
        FeeMinuteOf(start, k, minutesPerHour);
      }
      forall m | m in fees ensures g(m) in Below(n) && f(g(m)) == m {
        OffsetOf(start, m, minutesPerHour);
      }
    }
    SameSize(Below(n), fees, f, g);
  }

  /** Every lane pays exactly the configured number of distinct minutes in every hour, whatever
      that constant is; above sixty it pays the whole hour. */
  lemma EveryLanePaysExactly(lane: nat, minutesPerHour: nat)
    ensures |FeeMinutes(lane, minutesPerHour)| == if minutesPerHour <= 60 then minutesPerHour else 60
  {
    WindowSize(StartMinute(lane), minutesPerHour, FeeMinutes(lane, minutesPerHour));
  }

  lemma FirstMinute(start: nat, minute: nat)
    requires start < 60
    ensures InWindow(start, minute, 1) <==> minute == start
  {
    assert MinuteAt(start, 0) == start;
  }

  /** With the shipped constant a lane is in its window in exactly one minute: the one it
      starts at. */
  lemma OneMinutePerHour(lane: nat, minute: nat)
    ensures IsPoolFeeMinute(lane, minute, POOL_FEE_MINUTES_PER_HOUR) <==> minute == StartMinute(lane)
  {
    FirstMinute(StartMinute(lane), minute);
  }
}
