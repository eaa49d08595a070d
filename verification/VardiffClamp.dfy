/** When the vardiff controller settles with its power-of-two clamp on (share_handler.rs,
    `vardiff_pow2_clamp_towards`). */
module VardiffClamp {
  import opened Options
  import opened Vardiff

  // ---- Powers -------------------------------------------------------------------------

  lemma {:induction false} TwoToGrows(a: nat, b: nat)
    requires a < b
    ensures 2.0 * TwoTo(a) <= TwoTo(b)
    decreases b
  {
    if a < b - 1 { TwoToGrows(a, b - 1); }
  }

  lemma Exponents(a: nat, b: nat)
    ensures TwoTo(a) < TwoTo(b) <==> a < b
  {
    if a < b { TwoToGrows(a, b); }
    if b < a { TwoToGrows(b, a); }
  }

  /** The clamp upwards rounds to the least power of two that is at least `x`. */
  lemma {:induction false} PowCeilIsLeast(x: real) returns (k: nat)
    ensures PowCeil(x) == TwoTo(k) && x <= TwoTo(k)
    ensures forall j: nat :: x <= TwoTo(j) ==> k <= j
    decreases if x <= 1.0 then 0 else x.Floor
  {
    if x <= 1.0 {
      k := 0;
    } else {
      var h := PowCeilIsLeast(x / 2.0);
      k := h + 1;
      forall j: nat | x <= TwoTo(j) ensures k <= j {
        if j > 0 { assert x / 2.0 <= TwoTo(j - 1); }
      }
    }
  }

  /** The clamp downwards rounds to the greatest power of two that is at most `x`. */
  lemma {:induction false} PowFloorIsGreatest(x: real) returns (k: nat)
    requires x >= 1.0
    ensures PowFloor(x) == TwoTo(k) && TwoTo(k) <= x
    ensures forall j: nat :: TwoTo(j) <= x ==> j <= k
    decreases x.Floor
  {
    if x < 2.0 {
      k := 0;
      forall j: nat ensures TwoTo(j) <= x ==> j <= 0 {
        if j > 0 { TwoToGrows(0, j); }
      }
    } else {
      var h := PowFloorIsGreatest(x / 2.0);
      k := h + 1;
      forall j: nat | TwoTo(j) <= x ensures j <= k {
        if j > 0 { assert TwoTo(j - 1) <= x / 2.0; }
      }
    }
  }

  // ---- One clamped window at a power of two ----------------------------------------------

  /** `r` is the verdict of a judged window at difficulty 2^m: a silent half below 0.75, rest in the
      dead band, a doubling up to a ratio of two, and from there a leap that stays at most `ideal`. */
  ghost predicate StepFrom(ideal: real, m: nat, r: Option<real>) {
    if ideal <= 0.75 * TwoTo(m) then r == (if m > 6 then Some(TwoTo(m - 1)) else None)
    else if ideal < 1.25 * TwoTo(m) then r == None
    else if ideal < 2.0 * TwoTo(m) then r == Some(TwoTo(m + 1))
    else exists j :: LeapsTo(ideal, m, j, r)
  }

  predicate LeapsTo(ideal: real, m: nat, j: nat, r: Option<real>) {
    j > m && TwoTo(j) <= ideal && r == Some(TwoTo(j))
  }

  lemma RatioBounds(d: real, q: real, ideal: real)
    requires d > 0.0 && ideal == q * d
    ensures (q <= 0.75 <==> ideal <= 0.75 * d) && (q < 1.25 <==> ideal < 1.25 * d)
    ensures (q < 2.0 <==> ideal < 2.0 * d) && (q < 4.0 <==> ideal < 4.0 * d)
  {
    assert q == ideal / d;
    Quotient(ideal, d, 0.75);
    Quotient(ideal, d, 1.25);
    Quotient(ideal, d, 2.0);
    Quotient(ideal, d, 4.0);
  }

  lemma HalfAtLeast(d: real, s: real)
    requires d > 0.0
    ensures Target(d, s) >= 0.5 * d
  {
    var f := Step(s);
    if f > 0.5 { MulMono(0.5, f, d); }
    assert d * f >= 0.5 * d;
  }

  lemma StepsDown(m: nat, ideal: real, s: real, q: real)
    requires m >= 6 && RootAndRatio(s, q, ideal, TwoTo(m)) && q <= LOWER_RATIO
    ensures Proposal(TwoTo(m), s, true) == if m > 6 then TwoTo(m - 1) else TwoTo(m)
  {
    FloorPower(m);
    Falls(ideal, TwoTo(m), s, q);
    HalfAtLeast(TwoTo(m), s);
    var t := Target(TwoTo(m), s);
    if m > 6 {
      FloorPower(m - 1);
      HalvesTo(m, t);
    } else {
      AtFloor(t);
    }
  }

  lemma HalvesTo(m: nat, t: real)
    requires m > 6 && t >= TwoTo(m - 1) >= MIN_DIFF && (t < 0.9 * TwoTo(m) || t == MIN_DIFF)
    ensures Clamped(TwoTo(m), t, true) == TwoTo(m - 1)
  {
    ClampBetweenPowers(m - 1, t);
  }

  lemma AtFloor(t: real)
    requires t >= MIN_DIFF && (t < 0.9 * TwoTo(6) || t == MIN_DIFF)
    ensures Clamped(TwoTo(6), t, true) == TwoTo(6)
  {
    SixtyFour();
    PowCeilFixed(6);
  }

  lemma SixtyFour()
    ensures TwoTo(6) == MIN_DIFF
  {
    SixtyFourTimes(0);
  }

  lemma DoublesTo(m: nat, t: real)
    requires TwoTo(m) < t <= TwoTo(m + 1)
    ensures Clamped(TwoTo(m), t, true) == TwoTo(m + 1)
  {
    ClampBetweenPowers(m, t);
  }

  lemma StepsUp(m: nat, ideal: real, s: real, q: real)
    requires m >= 6 && RootAndRatio(s, q, ideal, TwoTo(m)) && q >= UPPER_RATIO && ideal < 2.0 * TwoTo(m)
    ensures Proposal(TwoTo(m), s, true) == TwoTo(m + 1)
  {
    FloorPower(m);
    Rises(ideal, TwoTo(m), s, q);
    DoublesTo(m, Target(TwoTo(m), s));
  }

  /** The target of an upward step is at most the root of the ratio times the difficulty. */
  lemma TargetWithinRoot(d: real, s: real)
    requires d >= MIN_DIFF && s > 1.1
    ensures Target(d, s) <= d * s
  {
    MulMono(1.1, s, d);
    if s > MAX_STEP_UP { MulMono(MAX_STEP_UP, s, d); }
  }

  lemma TwiceRoot(d: real, s: real, q: real)
    requires d > 0.0 && s >= 2.0 && q == s * s
    ensures 2.0 * (d * s) <= q * d
  {
    assert 2.0 * s <= s * s;
    TwiceRootScaled(d, s, q);
  }

  lemma TwiceRootScaled(d: real, s: real, q: real)
    requires d > 0.0 && 2.0 * s <= q
    ensures 2.0 * (d * s) <= q * d
  {
    if 2.0 * s < q { MulMono(2.0 * s, q, d); }
  }

  lemma RootBelowTwo(d: real, s: real, q: real)
    requires d > 0.0 && s >= 0.0 && q == s * s && q < 4.0
    ensures d * s < 2.0 * d
  {
    if s >= 2.0 { SquareOrder(2.0, s); }
    MulMono(s, 2.0, d);
  }

  lemma TargetBelowFour(d: real, s: real, q: real)
    requires d >= MIN_DIFF && s > 1.1 && q == s * s && q < 4.0
    ensures Target(d, s) < 2.0 * d
  {
    TargetWithinRoot(d, s);
    RootBelowTwo(d, s, q);
  }

  lemma TargetFromFour(d: real, s: real, q: real, ideal: real)
    requires d >= MIN_DIFF && s > 1.1 && q == s * s && q >= 4.0 && ideal == q * d
    ensures 2.0 * Target(d, s) <= ideal
  {
    RootAtLeastTwo(s, q);
    TargetWithinRoot(d, s);
    TwiceRoot(d, s, q);
  }

  lemma Leaps(m: nat, ideal: real, s: real, q: real) returns (j: nat)
    requires m >= 6 && RootAndRatio(s, q, ideal, TwoTo(m)) && q >= 2.0 && ideal >= 2.0 * TwoTo(m)
    ensures Proposal(TwoTo(m), s, true) == TwoTo(j) && j > m && TwoTo(j) <= ideal
  {
    FloorPower(m);
    RootAbove(s, q);
    Rises(ideal, TwoTo(m), s, q);
    if q < 4.0 {
      TargetBelowFour(TwoTo(m), s, q);
    } else {
      TargetFromFour(TwoTo(m), s, q, ideal);
    }
    j := LeapsBy(m, Target(TwoTo(m), s), ideal);
  }

  /** Rounding a target above 2^m up to a power stays at most `ideal`. */
  lemma LeapsBy(m: nat, t: real, ideal: real) returns (j: nat)
    requires TwoTo(m) < t && ideal >= 2.0 * TwoTo(m) && (t < 2.0 * TwoTo(m) || 2.0 * t <= ideal)
    ensures Clamped(TwoTo(m), t, true) == TwoTo(j) && j > m && TwoTo(j) <= ideal
  {
    j := PowCeilIsLeast(t);
    Exponents(m, j);
    if t < 2.0 * TwoTo(m) { DoublesTo(m, t); }
  }

  lemma RootAtLeastTwo(s: real, q: real)
    requires s >= 0.0 && q == s * s && q >= 4.0
    ensures s >= 2.0
  {
    if s < 2.0 { SquareOrder(s, 2.0); if s * s == 4.0 { Between(s); } }
  }

  lemma Between(s: real)
    requires 0.0 <= s < 2.0
    ensures s * s < 4.0
  {
    if s > 0.0 { MulMono(s, 2.0, s); }
  }

  lemma Doubled(k: nat, q: real)
    requires !(LOWER_RATIO < q < UPPER_RATIO)
    ensures Moves(q, TwoTo(k), TwoTo(k + 1)) && Moves(q, TwoTo(k + 1), TwoTo(k))
  {
  }

  lemma LeapMoves(m: nat, j: nat, q: real)
    requires m < j && q >= UPPER_RATIO
    ensures Moves(q, TwoTo(m), TwoTo(j))
  {
    TwoToGrows(m, j);
  }

  lemma RatioStep(m: nat, ideal: real, s: real, q: real)
    requires m >= 6 && RootAndRatio(s, q, ideal, TwoTo(m))
    ensures StepFrom(ideal, m, Judgement(q, TwoTo(m), Proposal(TwoTo(m), s, true)))
  {
    RatioBounds(TwoTo(m), q, ideal);
    if q <= LOWER_RATIO {
      StepsDown(m, ideal, s, q);
      if m > 6 { Doubled(m - 1, q); }
    } else if q >= 2.0 {
      var j := Leaps(m, ideal, s, q);
      LeapMoves(m, j, q);
      assert LeapsTo(ideal, m, j, Judgement(q, TwoTo(m), TwoTo(j)));
    } else if q >= UPPER_RATIO {
      StepsUp(m, ideal, s, q);
      Doubled(m, q);
    }
  }

  lemma JudgedStep(m: nat, d: real, ideal: real, r: Option<real>)
    requires m >= 6 && d == TwoTo(m) && JudgedAs(r, ideal, d, true)
    ensures StepFrom(ideal, m, r)
  {
    forall s, q | RootAndRatio(s, q, ideal, d) && r == Judgement(q, d, Proposal(d, s, true))
      ensures StepFrom(ideal, m, r)
    {
      RatioStep(m, ideal, s, q);
    }
  }

  /** Every judged window at a power of two from 64 on. */
  lemma ClampedStep(m: nat, ideal: real, w: Window, sqrt: real -> real)
    requires IsSqrt(sqrt) && ideal > 0.0 && m >= 6 && Ready(ideal, TwoTo(m), w)
    ensures StepFrom(ideal, m, Adjust(ideal, TwoTo(m), w, true, sqrt))
  {
    FloorPower(m);
    WindowIsJudged(ideal, TwoTo(m), w, true, sqrt);
    JudgedStep(m, TwoTo(m), ideal, Adjust(ideal, TwoTo(m), w, true, sqrt));
  }

  // ---- Settling ----------------------------------------------------------------------------

  /** The ideal difficulty lies in the upper flipping band of 2^k. */
  predicate BandAt(ideal: real, k: nat) {
    k >= 6 && 1.25 * TwoTo(k) <= ideal <= 1.5 * TwoTo(k)
  }

  ghost predicate InBand(ideal: real) {
    exists k :: BandAt(ideal, k)
  }

  /** No chain of clamped adjustments from `d`, over whatever windows, is longer than `bound`. */
  ghost predicate ChainsWithin(ideal: real, d: real, bound: nat, sqrt: real -> real) {
    forall ds, ws :: IsChain(ideal, ds, ws, true, sqrt) && ds[0] == d ==> |ws| <= bound
  }

  ghost predicate AlwaysSettles(ideal: real, d: real, sqrt: real -> real) {
    exists bound :: ChainsWithin(ideal, d, bound, sqrt)
  }

  /** How many adjustments can still follow at 2^m, when `ideal` is below 2^e and in no band. */
  function Rank(ideal: real, m: nat, e: nat): nat {
    if ideal <= 0.75 * TwoTo(m) then (if m > 6 then m - 6 else 0)
    else if ideal < 1.25 * TwoTo(m) then 0
    else if e > m then e - m else 0
  }

  lemma RankFalls(ideal: real, m: nat, e: nat, r: Option<real>) returns (n: nat)
    requires m >= 6 && ideal < TwoTo(e) && !InBand(ideal) && StepFrom(ideal, m, r) && r.Some?
    ensures n >= 6 && r == Some(TwoTo(n)) && Rank(ideal, n, e) < Rank(ideal, m, e)
  {
    assert !BandAt(ideal, m) && !BandAt(ideal, if m > 6 then m - 1 else m);
    Exponents(m, e);
    if ideal <= 0.75 * TwoTo(m) {
      n := m - 1;
      assert TwoTo(m) == 2.0 * TwoTo(n);
    } else if ideal < 2.0 * TwoTo(m) {
      n := m + 1;
      assert TwoTo(n) == 2.0 * TwoTo(m);
    } else {
      n :| LeapsTo(ideal, m, n, r);
      Exponents(n, e);
    }
  }

  lemma TailIsChain(ideal: real, ds: seq<real>, ws: seq<Window>, sqrt: real -> real)
    requires IsChain(ideal, ds, ws, true, sqrt) && ws != [] && ds[1] >= MIN_DIFF
    ensures IsChain(ideal, ds[1..], ws[1..], true, sqrt)
  {
    forall i | 0 <= i < |ws[1..]| ensures Link(ideal, ds[1..], ws[1..], i, true, sqrt) {
      assert Link(ideal, ds, ws, i + 1, true, sqrt);
    }
  }

  lemma {:induction false} ChainIsBounded(ideal: real, m: nat, e: nat, ds: seq<real>, ws: seq<Window>,
                                          sqrt: real -> real)
    requires IsSqrt(sqrt) && ideal > 0.0 && m >= 6 && ideal < TwoTo(e) && !InBand(ideal)
    requires IsChain(ideal, ds, ws, true, sqrt) && ds[0] == TwoTo(m)
    ensures |ws| <= Rank(ideal, m, e)
    decreases |ws|
  {
    if ws != [] {
      assert Link(ideal, ds, ws, 0, true, sqrt);
      ClampedStep(m, ideal, ws[0], sqrt);
      var n := RankFalls(ideal, m, e, Some(ds[1]));
      FloorPower(n);
      TailIsChain(ideal, ds, ws, sqrt);
      ChainIsBounded(ideal, n, e, ds[1..], ws[1..], sqrt);
    }
  }

  lemma Beyond(ideal: real) returns (e: nat)
    ensures ideal < TwoTo(e)
  {
    e := PowCeilIsLeast(ideal + 1.0);
  }

  /** In a band no power of two is ever a resting place. */
  lemma NeverRests(ideal: real, m: nat, k: nat, r: Option<real>) returns (n: nat)
    requires m >= 6 && BandAt(ideal, k) && StepFrom(ideal, m, r)
    ensures n >= 6 && r == Some(TwoTo(n))
  {
    if m > k {
      TwoToGrows(k, m);
      n := m - 1;
    } else if m == k {
      n := m + 1;
    } else {
      TwoToGrows(m, k);
      n :| LeapsTo(ideal, m, n, r);
    }
  }

  const LongWindow := Window(90.0, 1.0)

  /** In a band there are chains of any length from every power of two. */
  lemma {:induction false} LongChain(ideal: real, m: nat, k: nat, length: nat, sqrt: real -> real)
    returns (ds: seq<real>, ws: seq<Window>)
    requires IsSqrt(sqrt) && ideal > 0.0 && m >= 6 && BandAt(ideal, k)
    ensures IsChain(ideal, ds, ws, true, sqrt) && ds[0] == TwoTo(m) && |ws| == length
    decreases length
  {
    FloorPower(m);
    if length == 0 {
      ds, ws := [TwoTo(m)], [];
    } else {
      ClampedStep(m, ideal, LongWindow, sqrt);
      var n := NeverRests(ideal, m, k, Adjust(ideal, TwoTo(m), LongWindow, true, sqrt));
      var rest, more := LongChain(ideal, n, k, length - 1, sqrt);
      ds, ws := ConsChain(ideal, TwoTo(m), rest, more, sqrt);
    }
  }

  lemma ConsChain(ideal: real, d: real, rest: seq<real>, more: seq<Window>, sqrt: real -> real)
    returns (ds: seq<real>, ws: seq<Window>)
    requires IsChain(ideal, rest, more, true, sqrt) && d >= MIN_DIFF
    requires Adjust(ideal, d, LongWindow, true, sqrt) == Some(rest[0])
    ensures IsChain(ideal, ds, ws, true, sqrt) && ds[0] == d && |ws| == |more| + 1
  {
    ds, ws := [d] + rest, [LongWindow] + more;
    forall i | 0 <= i < |ws| ensures Link(ideal, ds, ws, i, true, sqrt) {
      if i > 0 { assert Link(ideal, rest, more, i - 1, true, sqrt); }
    }
  }

  /** The clamped controller settles from a power of two, over whatever windows, exactly when the
      ideal difficulty is in no band [1.25, 1.5] * 2^k. */
  lemma ClampedSettlesIff(ideal: real, m: nat, sqrt: real -> real)
    requires IsSqrt(sqrt) && ideal > 0.0 && m >= 6
    ensures AlwaysSettles(ideal, TwoTo(m), sqrt) <==> !InBand(ideal)
  {
    if !InBand(ideal) {
      var e := Beyond(ideal);
      forall ds, ws | IsChain(ideal, ds, ws, true, sqrt) && ds[0] == TwoTo(m) ensures |ws| <= Rank(ideal, m, e) {
        ChainIsBounded(ideal, m, e, ds, ws, sqrt);
      }
      assert ChainsWithin(ideal, TwoTo(m), Rank(ideal, m, e), sqrt);
    } else {
      var k :| BandAt(ideal, k);
      forall bound: nat ensures !ChainsWithin(ideal, TwoTo(m), bound, sqrt) {
        var ds, ws := LongChain(ideal, m, k, bound + 1, sqrt);
      }
    }
  }

  // ---- Starting anywhere ---------------------------------------------------------------------

  /** The first judged window at `d`, the same for every window. */
  function FirstVerdict(ideal: real, d: real, sqrt: real -> real): Option<real>
    requires d > 0.0
  {
    Judgement(ideal / d, d, Proposal(d, sqrt(ideal / d), true))
  }

  lemma FirstVerdictOf(ideal: real, d: real, w: Window, sqrt: real -> real)
    requires IsSqrt(sqrt) && ideal > 0.0 && d >= MIN_DIFF && Ready(ideal, d, w)
    ensures Adjust(ideal, d, w, true, sqrt) == FirstVerdict(ideal, d, sqrt)
  {
    var s, q := JudgedWindow(ideal, d, w, true, sqrt);
  }

  /** A clamped adjustment from anywhere lands on a power of two from 64 on. */
  lemma LandsOnPower(d: real, s: real) returns (n: nat)
    requires d >= MIN_DIFF
    ensures n >= 6 && Proposal(d, s, true) == TwoTo(n)
  {
    var t := Target(d, s);
    SixtyFour();
    if t >= d {
      n := PowCeilIsLeast(t);
      Exponents(n, 6);
    } else {
      n := PowFloorIsGreatest(t);
    }
  }

  /** In a band the first judged window changes nothing exactly in the dead band: the floor is out of
      reach of an ideal difficulty of at least 80. */
  lemma FirstVerdictInBand(ideal: real, d: real, sqrt: real -> real)
    requires IsSqrt(sqrt) && InBand(ideal) && d >= MIN_DIFF
    ensures FirstVerdict(ideal, d, sqrt) == None <==> LOWER_RATIO < ideal / d < UPPER_RATIO
  {
    var k :| BandAt(ideal, k);
    FloorPower(k);
    var q := ideal / d;
    var s := sqrt(q);
    Quotient(ideal, d, 0.0);
    Quotient(ideal, d, LOWER_RATIO);
    if q >= UPPER_RATIO {
      MovesUp(ideal, d, s, q);
    } else if q <= LOWER_RATIO {
      MovesDown(ideal, d, s, q);
    }
  }

  lemma MovesUp(ideal: real, d: real, s: real, q: real)
    requires d >= MIN_DIFF && RootAndRatio(s, q, ideal, d) && q >= UPPER_RATIO
    ensures Moves(q, d, Proposal(d, s, true))
  {
    Rises(ideal, d, s, q);
    ClampedUp(d, Target(d, s));
  }

  lemma ClampedUp(d: real, t: real)
    requires d >= MIN_DIFF && t > 1.1 * d
    ensures Clamped(d, t, true) > 1.1 * d
  {
  }

  lemma MovesDown(ideal: real, d: real, s: real, q: real)
    requires d >= 80.0 && RootAndRatio(s, q, ideal, d) && q <= LOWER_RATIO
    ensures Moves(q, d, Proposal(d, s, true))
  {
    Falls(ideal, d, s, q);
    ClampedDown(d, Target(d, s));
  }

  lemma ClampedDown(d: real, t: real)
    requires d >= 80.0 && MIN_DIFF <= t && (t < 0.9 * d || t == MIN_DIFF)
    ensures Clamped(d, t, true) <= 0.9 * d
  {
    assert t < d;
  }

  /** From any difficulty from 64 on, over whatever windows: exactly when the ideal difficulty is in no
      band, or the start already lies in the dead band around it. */
  lemma ClampedSettlesFromAnywhereIff(ideal: real, d: real, sqrt: real -> real)
    requires IsSqrt(sqrt) && ideal > 0.0 && d >= MIN_DIFF
    ensures AlwaysSettles(ideal, d, sqrt) <==> !InBand(ideal) || LOWER_RATIO < ideal / d < UPPER_RATIO
  {
    SettlesByFirstVerdictIff(ideal, d, sqrt);
    if InBand(ideal) { FirstVerdictInBand(ideal, d, sqrt); }
  }

  lemma SettlesByFirstVerdictIff(ideal: real, d: real, sqrt: real -> real)
    requires IsSqrt(sqrt) && ideal > 0.0 && d >= MIN_DIFF
    ensures AlwaysSettles(ideal, d, sqrt) <==> !InBand(ideal) || FirstVerdict(ideal, d, sqrt) == None
  {
    var n := LandsOnPower(d, sqrt(ideal / d));
    if FirstVerdict(ideal, d, sqrt) == None {
      forall ds, ws | IsChain(ideal, ds, ws, true, sqrt) && ds[0] == d ensures |ws| <= 0 {
        if ws != [] {
          assert Link(ideal, ds, ws, 0, true, sqrt);
          FirstVerdictOf(ideal, d, ws[0], sqrt);
        }
      }
      assert ChainsWithin(ideal, d, 0, sqrt);
    } else if !InBand(ideal) {
      SettlesAfterLanding(ideal, d, n, sqrt);
    } else {
      WandersAfterLanding(ideal, d, n, sqrt);
    }
  }

  lemma SettlesAfterLanding(ideal: real, d: real, n: nat, sqrt: real -> real)
    requires IsSqrt(sqrt) && ideal > 0.0 && d >= MIN_DIFF && n >= 6 && !InBand(ideal)
    requires FirstVerdict(ideal, d, sqrt) == Some(TwoTo(n))
    ensures AlwaysSettles(ideal, d, sqrt)
  {
    var e := Beyond(ideal);
    forall ds, ws | IsChain(ideal, ds, ws, true, sqrt) && ds[0] == d ensures |ws| <= Rank(ideal, n, e) + 1 {
      if ws != [] {
        assert Link(ideal, ds, ws, 0, true, sqrt);
        FirstVerdictOf(ideal, d, ws[0], sqrt);
        FloorPower(n);
        TailIsChain(ideal, ds, ws, sqrt);
        ChainIsBounded(ideal, n, e, ds[1..], ws[1..], sqrt);
      }
    }
    assert ChainsWithin(ideal, d, Rank(ideal, n, e) + 1, sqrt);
  }

  lemma WandersAfterLanding(ideal: real, d: real, n: nat, sqrt: real -> real)
    requires IsSqrt(sqrt) && ideal > 0.0 && d >= MIN_DIFF && n >= 6 && InBand(ideal)
    requires FirstVerdict(ideal, d, sqrt) == Some(TwoTo(n))
    ensures !AlwaysSettles(ideal, d, sqrt)
  {
    var k :| BandAt(ideal, k);
    FirstVerdictOf(ideal, d, LongWindow, sqrt);
    forall bound: nat ensures !ChainsWithin(ideal, d, bound, sqrt) {
      var rest, more := LongChain(ideal, n, k, bound, sqrt);
      var ds, ws := ConsChain(ideal, d, rest, more, sqrt);
    }
  }

  // ---- The oscillation -----------------------------------------------------------------------

  /** Two neighbouring powers lead to each other exactly in the band of the lower one. */
  lemma ClampOscillates(k: nat, ideal: real, w: Window, w': Window, sqrt: real -> real)
    requires IsSqrt(sqrt) && ideal > 0.0 && k >= 6
    requires Ready(ideal, TwoTo(k), w) && Ready(ideal, TwoTo(k + 1), w')
    ensures (Adjust(ideal, TwoTo(k), w, true, sqrt) == Some(TwoTo(k + 1))
            && Adjust(ideal, TwoTo(k + 1), w', true, sqrt) == Some(TwoTo(k)))
       <==> BandAt(ideal, k)
  {
    ClampedStep(k, ideal, w, sqrt);
    ClampedStep(k + 1, ideal, w', sqrt);
    assert TwoTo(k + 1) == 2.0 * TwoTo(k);
    if ideal > 1.5 * TwoTo(k) { NeverDown(ideal, k + 1, k, Adjust(ideal, TwoTo(k + 1), w', true, sqrt)); }
  }

  lemma NeverDown(ideal: real, m: nat, k: nat, r: Option<real>)
    requires StepFrom(ideal, m, r) && ideal > 0.75 * TwoTo(m) && k < m
    ensures r != Some(TwoTo(k))
  {
    Exponents(k, m + 1);
    if ideal >= 2.0 * TwoTo(m) {
      var j :| LeapsTo(ideal, m, j, r);
      Exponents(k, j);
    }
  }

  /** In the band of 2^k every chain from 2^k alternates between 2^k and 2^(k+1) for as long as it
      is followed. */
  lemma {:induction false} AlternatesForEver(k: nat, ideal: real, ds: seq<real>, ws: seq<Window>, sqrt: real -> real,
                                             i: nat)
    requires IsSqrt(sqrt) && ideal > 0.0 && BandAt(ideal, k)
    requires IsChain(ideal, ds, ws, true, sqrt) && ds[0] == TwoTo(k) && i <= |ws|
    ensures ds[i] == if i % 2 == 0 then TwoTo(k) else TwoTo(k + 1)
  {
    if i > 0 {
      AlternatesForEver(k, ideal, ds, ws, sqrt, i - 1);
      assert Link(ideal, ds, ws, i - 1, true, sqrt);
      ClampedStep(if i % 2 == 1 then k else k + 1, ideal, ws[i - 1], sqrt);
      assert TwoTo(k + 1) == 2.0 * TwoTo(k);
    }
  }
}
