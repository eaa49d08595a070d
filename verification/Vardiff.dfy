/** The variable-difficulty controller (share_handler.rs, `vardiff_compute_next_diff`).

    Difficulties and rates are reals; `sqrt` is any function that is a square root. */
module Vardiff {
  import opened Options

  const MIN_ELAPSED: real := 30.0
  const MAX_ELAPSED_NO_SHARES: real := 15.0
  const MAX_ELAPSED_SPARSE: real := 90.0
  const MIN_DIFF: real := 64.0
  const MIN_SHARES: real := 3.0
  const LOWER_RATIO: real := 0.75
  const UPPER_RATIO: real := 1.25
  const MAX_STEP_UP: real := 128.0
  const MAX_STEP_DOWN: real := 0.5
  const EPSILON: real := 0.0000000000000002220446049250313

  ghost predicate IsSqrt(sqrt: real -> real) {
    forall x: real :: x >= 0.0 ==> sqrt(x) >= 0.0 && sqrt(x) * sqrt(x) == x
  }

  function Max(a: real, b: real): real {
    if a >= b then a else b
  }

  function Abs(a: real): real {
    if a < 0.0 then -a else a
  }

  function TwoTo(k: nat): (p: real)
    ensures p >= 1.0
  {
    if k == 0 then 1.0 else 2.0 * TwoTo(k - 1)
  }

  /** The smallest power of two at least `x`, and at least one. */
  function PowCeil(x: real): (p: real)
    ensures p >= 1.0 && p >= x && (p == 1.0 || p < 2.0 * x)
    decreases if x <= 1.0 then 0 else x.Floor
  {
    if x <= 1.0 then 1.0 else 2.0 * PowCeil(x / 2.0)
  }

  /** The largest power of two at most `x`, and at least one. */
  function PowFloor(x: real): (p: real)
    ensures p >= 1.0 && (x >= 1.0 ==> p <= x) && x < 2.0 * p
    decreases if x < 2.0 then 0 else x.Floor
  {
    if x < 2.0 then 1.0 else 2.0 * PowFloor(x / 2.0)
  }

  function Pow2ClampTowards(current: real, next: real): real {
    if next <= 0.0 then 1.0
    else if next >= current then PowCeil(next)
    else PowFloor(next)
  }

  function Clamped(current: real, next: real, clampPow2: bool): real {
    if clampPow2 then Pow2ClampTowards(current, next) else next
  }

  function Ratio(shares: real, elapsed: real, expectedSpm: real): real
    requires elapsed > 0.0
  {
    shares / elapsed * 60.0 / Max(expectedSpm, 1.0)
  }

  function Step(root: real): real {
    if root < MAX_STEP_DOWN then MAX_STEP_DOWN else if root > MAX_STEP_UP then MAX_STEP_UP else root
  }

  /** The difficulty a step by the root `s` of the observed ratio leads to, not below the floor. */
  function Target(current: real, s: real): real {
    Max(current * Step(s), MIN_DIFF)
  }

  /** The decision once the window is long enough to be judged. */
  function Judge(current: real, ratio: real, clampPow2: bool, sqrt: real -> real): Option<real> {
    if ratio <= 0.0 || LOWER_RATIO < ratio < UPPER_RATIO then None
    else
      var next := Clamped(current, Target(current, sqrt(ratio)), clampPow2);
      if Abs(next - current) / Max(current, 1.0) < 0.10 then None
      else if Abs(next - current) > EPSILON then Some(next) else None
  }

  function NextDiff(current: real, shares: real, elapsed: real, expectedSpm: real, clampPow2: bool,
                    sqrt: real -> real): Option<real> {
    if current <= 0.0 || elapsed <= 0.0 then None
    else if shares == 0.0 && elapsed >= MAX_ELAPSED_NO_SHARES then
      var next := Clamped(current, Max(current * MAX_STEP_DOWN, MIN_DIFF), clampPow2);
      if Abs(next - current) > EPSILON then Some(next) else None
    else if elapsed < MIN_ELAPSED || (shares < MIN_SHARES && elapsed < MAX_ELAPSED_SPARSE) then None
    else Judge(current, Ratio(shares, elapsed, expectedSpm), clampPow2, sqrt)
  }

  // ---- A miner whose share rate is inversely proportional to difficulty -------

  /** An observation window: its length and the configured target rate. */
  datatype Window = Window(elapsed: real, expectedSpm: real)

  /** Shares such a miner finds at difficulty `d`; `ideal` is the difficulty at which it
      produces exactly the target rate. */
  function SharesAt(ideal: real, d: real, w: Window): real
    requires d > 0.0
  {
    ideal / d * Max(w.expectedSpm, 1.0) * w.elapsed / 60.0
  }

  /** The window is long enough for the controller to judge it. */
  predicate Ready(ideal: real, d: real, w: Window)
    requires d > 0.0
  {
    w.elapsed >= MIN_ELAPSED && (SharesAt(ideal, d, w) >= MIN_SHARES || w.elapsed >= MAX_ELAPSED_SPARSE)
  }

  function Adjust(ideal: real, d: real, w: Window, clampPow2: bool, sqrt: real -> real): Option<real>
    requires d > 0.0
  {
    NextDiff(d, SharesAt(ideal, d, w), w.elapsed, w.expectedSpm, clampPow2, sqrt)
  }

  lemma CancelRate(r: real, e: real, t: real)
    requires e > 0.0 && t > 0.0
    ensures r * e * t / 60.0 / t * 60.0 / e == r
  {
  }

  lemma MinerRatio(ideal: real, d: real, w: Window)
    requires d > 0.0 && w.elapsed > 0.0 && ideal > 0.0
    ensures Ratio(SharesAt(ideal, d, w), w.elapsed, w.expectedSpm) == ideal / d
    ensures SharesAt(ideal, d, w) > 0.0
  {
    var r, e := ideal / d, Max(w.expectedSpm, 1.0);
    CancelRate(r, e, w.elapsed);
    assert r > 0.0;
    assert r * e > 0.0;
    assert r * e * w.elapsed > 0.0;
  }

  lemma MulMono(a: real, b: real, c: real)
    requires a < b && c > 0.0
    ensures a * c < b * c && c * a < c * b
  {
  }

  lemma SquareBelow(s: real, q: real)
    requires q == s * s && 0.0 < s < 1.0
    ensures q < s
  {
  }

  lemma SquareAbove(s: real, q: real)
    requires q == s * s && 1.0 < s
    ensures s < q
  {
  }

  lemma SquareOrder(a: real, b: real)
    requires 0.0 <= a <= b
    ensures a * a <= b * b
  {
  }

  lemma RootAbove(s: real, q: real)
    requires s >= 0.0 && q == s * s && q >= UPPER_RATIO
    ensures 1.1 < s < q
  {
    if s <= 1.1 { SquareOrder(s, 1.1); } else { SquareAbove(s, q); }
  }

  lemma RootBelow(s: real, q: real)
    requires s >= 0.0 && q == s * s && 0.0 < q <= LOWER_RATIO
    ensures q < s < 0.9
  {
    if s >= 0.9 {
      SquareOrder(0.9, s);
    } else if s > 0.0 {
      SquareBelow(s, q);
    }
  }

  /** The controller is content: the dead band, or too close above the floor to move 10%. */
  predicate Settled(ideal: real, d: real)
    requires d > 0.0
  {
    LOWER_RATIO < ideal / d < UPPER_RATIO || (ideal / d <= LOWER_RATIO && 0.9 * d < MIN_DIFF)
  }

  /** Comparing a quotient with a constant. */
  lemma Quotient(x: real, d: real, c: real)
    requires d > 0.0
    ensures (x / d < c <==> x < c * d) && (x / d > c <==> x > c * d) && (x / d == c <==> x == c * d)
  {
  }

  /** A larger divisor gives a smaller quotient. */
  lemma QuotientOrder(x: real, d: real, n: real)
    requires x > 0.0 && 0.0 < d < n
    ensures x / n < x / d
  {
  }

  /** The difficulty a judged window proposes, given the root `s` of the observed ratio. */
  function Proposal(d: real, s: real, clampPow2: bool): real {
    Clamped(d, Target(d, s), clampPow2)
  }

  /** Whether a judged window with observed ratio `q` moves the difficulty to `next`. */
  predicate Moves(q: real, d: real, next: real) {
    !(LOWER_RATIO < q < UPPER_RATIO) && Abs(next - d) >= 0.10 * d
  }

  lemma JudgedWindow(ideal: real, d: real, w: Window, clampPow2: bool, sqrt: real -> real) returns (s: real, q: real)
    requires IsSqrt(sqrt) && ideal > 0.0 && d >= MIN_DIFF && Ready(ideal, d, w)
    ensures s >= 0.0 && q == s * s && q == ideal / d && ideal == q * d && q > 0.0 && s == sqrt(q)
    ensures Adjust(ideal, d, w, clampPow2, sqrt) == Judgement(q, d, Proposal(d, s, clampPow2))
  {
    q := ideal / d;
    MinerRatio(ideal, d, w);
    Quotient(ideal, d, 0.0);
    s := sqrt(q);
    JudgedRatio(d, q, clampPow2, sqrt);
    assert Adjust(ideal, d, w, clampPow2, sqrt) == Judge(d, q, clampPow2, sqrt);
  }

  /** `q` is the observed ratio at difficulty `d` and `s` its root. */
  predicate RootAndRatio(s: real, q: real, ideal: real, d: real) {
    s >= 0.0 && q == s * s && ideal == q * d && q > 0.0
  }

  /** `r` is the verdict on a judged window. */
  ghost predicate JudgedAs(r: Option<real>, ideal: real, d: real, clampPow2: bool) {
    exists s, q :: RootAndRatio(s, q, ideal, d) && r == Judgement(q, d, Proposal(d, s, clampPow2))
  }

  lemma WindowIsJudged(ideal: real, d: real, w: Window, clampPow2: bool, sqrt: real -> real)
    requires IsSqrt(sqrt) && ideal > 0.0 && d >= MIN_DIFF && Ready(ideal, d, w)
    ensures JudgedAs(Adjust(ideal, d, w, clampPow2, sqrt), ideal, d, clampPow2)
  {
    var s, q := JudgedWindow(ideal, d, w, clampPow2, sqrt);
    assert RootAndRatio(s, q, ideal, d);
  }

  function Judgement(q: real, d: real, next: real): Option<real> {
    if Moves(q, d, next) then Some(next) else None
  }

  lemma JudgedRatio(d: real, q: real, clampPow2: bool, sqrt: real -> real)
    requires d >= MIN_DIFF && q > 0.0
    ensures Judge(d, q, clampPow2, sqrt) == Judgement(q, d, Proposal(d, sqrt(q), clampPow2))
  {
    RelativeChange(d, Proposal(d, sqrt(q), clampPow2));
    assert 0.10 * d > EPSILON;
  }

  lemma Rises(ideal: real, d: real, s: real, q: real)
    requires d >= MIN_DIFF && s >= 0.0 && q == s * s && ideal == q * d && q >= UPPER_RATIO
    ensures 1.1 * d < Target(d, s) < ideal
  {
    RootAbove(s, q);
    MulMono(1.1, Step(s), d);
    MulMono(Step(s), q, d);
  }

  lemma Floored(x: real, y: real)
    requires x < y
    ensures x <= Max(x, MIN_DIFF) && (Max(x, MIN_DIFF) < y || Max(x, MIN_DIFF) == MIN_DIFF)
  {
  }

  lemma Falls(ideal: real, d: real, s: real, q: real)
    requires d >= MIN_DIFF && s >= 0.0 && q == s * s && ideal == q * d && 0.0 < q <= LOWER_RATIO
    ensures ideal < Target(d, s) && MIN_DIFF <= Target(d, s) && (Target(d, s) < 0.9 * d || Target(d, s) == MIN_DIFF)
  {
    RootBelow(s, q);
    MulMono(q, Step(s), d);
    MulMono(Step(s), 0.9, d);
    Floored(d * Step(s), 0.9 * d);
  }

  /** One adjustment, clamp off: it happens exactly when the controller is not settled, and then
      moves observed/expected strictly towards 1 without reaching it, by at least a tenth of the
      current difficulty, and never below the floor. */
  lemma AdjustmentApproachesTarget(ideal: real, d: real, w: Window, sqrt: real -> real)
    requires IsSqrt(sqrt) && ideal > 0.0 && d >= MIN_DIFF && Ready(ideal, d, w)
    ensures Adjust(ideal, d, w, false, sqrt) == None <==> Settled(ideal, d)
    ensures Adjust(ideal, d, w, false, sqrt).Some? ==> Approaches(ideal, d, Adjust(ideal, d, w, false, sqrt).value)
  {
    var s, q := JudgedWindow(ideal, d, w, false, sqrt);
    if q >= UPPER_RATIO {
      ProposalUp(ideal, d, s, q);
    } else if q <= LOWER_RATIO {
      ProposalDown(ideal, d, s, q);
    }
  }

  lemma ProposalUp(ideal: real, d: real, s: real, q: real)
    requires d >= MIN_DIFF && s >= 0.0 && q == s * s && ideal == q * d && q >= UPPER_RATIO
    ensures Moves(q, d, Proposal(d, s, false)) && Approaches(ideal, d, Proposal(d, s, false))
  {
    Rises(ideal, d, s, q);
    ApproachesUp(ideal, d, Proposal(d, s, false));
  }

  lemma ProposalDown(ideal: real, d: real, s: real, q: real)
    requires d >= MIN_DIFF && s >= 0.0 && q == s * s && ideal == q * d && 0.0 < q <= LOWER_RATIO
    ensures Moves(q, d, Proposal(d, s, false)) <==> 0.9 * d >= MIN_DIFF
    ensures 0.9 * d >= MIN_DIFF ==> Approaches(ideal, d, Proposal(d, s, false))
  {
    Falls(ideal, d, s, q);
    var n := Proposal(d, s, false);
    assert ideal > 0.0 by { MulMono(0.0, q, d); }
    if 0.9 * d >= MIN_DIFF { ApproachesDown(ideal, d, n); }
  }

  lemma ApproachesUp(ideal: real, d: real, n: real)
    requires d >= MIN_DIFF && 1.1 * d < n < ideal
    ensures Approaches(ideal, d, n)
  {
    Quotient(ideal, n, 1.0);
    QuotientOrder(ideal, d, n);
  }

  lemma ApproachesDown(ideal: real, d: real, n: real)
    requires ideal > 0.0 && n >= MIN_DIFF && ideal < n <= 0.9 * d
    ensures Approaches(ideal, d, n)
  {
    Quotient(ideal, n, 1.0);
    QuotientOrder(ideal, n, d);
  }

  predicate Approaches(ideal: real, d: real, n: real)
    requires d > 0.0
  {
    && n >= MIN_DIFF
    && ((1.0 < ideal / n < ideal / d && n >= 1.1 * d) || (ideal / d < ideal / n < 1.0 && n <= 0.9 * d))
  }

  lemma RelativeChange(d: real, next: real)
    requires d >= MIN_DIFF
    ensures Abs(next - d) / Max(d, 1.0) < 0.10 <==> Abs(next - d) < 0.10 * d
  {
    var q := Abs(next - d) / d;
    assert q * d == Abs(next - d);
  }

  /** Successive difficulties, each a real adjustment of the one before over some window. */
  ghost predicate IsChain(ideal: real, ds: seq<real>, ws: seq<Window>, clampPow2: bool, sqrt: real -> real) {
    && |ds| == |ws| + 1 && ds[0] >= MIN_DIFF
    && forall i :: 0 <= i < |ws| ==> Link(ideal, ds, ws, i, clampPow2, sqrt)
  }

  ghost predicate Link(ideal: real, ds: seq<real>, ws: seq<Window>, i: nat, clampPow2: bool, sqrt: real -> real)
    requires i < |ws| < |ds|
  {
    ds[i] >= MIN_DIFF && Ready(ideal, ds[i], ws[i]) && Adjust(ideal, ds[i], ws[i], clampPow2, sqrt) == Some(ds[i + 1])
  }

  /** Convergence: over any windows the adjustments all go the same way, and their number is
      bounded by the starting distance; since the controller rests exactly when `Settled`,
      finitely many adjustments end in the dead band or within 10% of the floor. */
  lemma {:induction false} AdjustmentsAreFinite(ideal: real, ds: seq<real>, ws: seq<Window>, sqrt: real -> real, n: nat)
    requires IsSqrt(sqrt) && ideal > 0.0 && IsChain(ideal, ds, ws, false, sqrt) && n <= |ws|
    ensures ds[0] < ideal ==> ds[0] + 6.4 * (n as real) <= ds[n] && ds[n] < ideal
    ensures ds[0] > ideal ==> ds[n] + 6.4 * (n as real) <= ds[0] && ideal < ds[n]
    ensures ds[0] == ideal ==> n == 0
    ensures 6.4 * (n as real) <= Max(ideal, ds[0]) - MIN_DIFF
    ensures ds[n] >= MIN_DIFF
  {
    if n > 0 {
      AdjustmentsAreFinite(ideal, ds, ws, sqrt, n - 1);
      var d, d' := ds[n - 1], ds[n];
      assert Link(ideal, ds, ws, n - 1, false, sqrt);
      AdjustmentApproachesTarget(ideal, d, ws[n - 1], sqrt);
      Quotient(ideal, d, 1.0);
      Quotient(ideal, d', 1.0);
      assert 6.4 * (n as real) == 6.4 * ((n - 1) as real) + 6.4;
    }
  }

  /** The difficulty after the given windows. */
  function DiffAfter(ideal: real, d: real, ws: seq<Window>, sqrt: real -> real): real
    requires d > 0.0
    decreases |ws|
  {
    if ws == [] then d
    else
      var next := Adjust(ideal, d, ws[0], false, sqrt).GetOr(d);
      if next > 0.0 then DiffAfter(ideal, next, ws[1..], sqrt) else next
  }

  /** Each window is long enough at the difficulty it is met with. */
  predicate AllReady(ideal: real, d: real, ws: seq<Window>, sqrt: real -> real)
    requires d > 0.0
    decreases |ws|
  {
    ws == [] || (Ready(ideal, d, ws[0])
      && var next := Adjust(ideal, d, ws[0], false, sqrt).GetOr(d); next > 0.0 && AllReady(ideal, next, ws[1..], sqrt))
  }

  function Distance(ideal: real, d: real): real {
    if d <= ideal then ideal - d else d - MIN_DIFF
  }

  lemma AdjustmentShortensDistance(ideal: real, d: real, n: real)
    requires ideal > 0.0 && d >= MIN_DIFF && Approaches(ideal, d, n)
    ensures Distance(ideal, n) + 6.4 <= Distance(ideal, d)
  {
    Quotient(ideal, d, 1.0);
    Quotient(ideal, n, 1.0);
  }

  lemma {:induction false} RestsOnceSettled(ideal: real, d: real, ws: seq<Window>, sqrt: real -> real)
    requires IsSqrt(sqrt) && ideal > 0.0 && d >= MIN_DIFF && AllReady(ideal, d, ws, sqrt) && Settled(ideal, d)
    ensures DiffAfter(ideal, d, ws, sqrt) == d
    decreases |ws|
  {
    if ws != [] {
      AdjustmentApproachesTarget(ideal, d, ws[0], sqrt);
      RestsOnceSettled(ideal, d, ws[1..], sqrt);
    }
  }

  /** Convergence in time: after more judged windows than the starting distance divided by 6.4 the
      controller is in the dead band or within 10% of the floor, and stays there. */
  lemma {:induction false} SettlesInTime(ideal: real, d: real, ws: seq<Window>, sqrt: real -> real)
    requires IsSqrt(sqrt) && ideal > 0.0 && d >= MIN_DIFF && AllReady(ideal, d, ws, sqrt)
    requires 6.4 * (|ws| as real) > Distance(ideal, d)
    ensures DiffAfter(ideal, d, ws, sqrt) >= MIN_DIFF && Settled(ideal, DiffAfter(ideal, d, ws, sqrt))
    decreases |ws|
  {
    AdjustmentApproachesTarget(ideal, d, ws[0], sqrt);
    if Settled(ideal, d) {
      RestsOnceSettled(ideal, d, ws, sqrt);
    } else {
      var next := Adjust(ideal, d, ws[0], false, sqrt).value;
      AdjustmentShortensDistance(ideal, d, next);
      SettlesInTime(ideal, next, ws[1..], sqrt);
    }
  }

  // ---- Powers of two ----------------------------------------------------------------

  lemma {:induction false} ClampBetweenPowers(k: nat, x: real)
    ensures TwoTo(k) < x <= TwoTo(k + 1) ==> PowCeil(x) == TwoTo(k + 1)
    ensures TwoTo(k) <= x < TwoTo(k + 1) ==> PowFloor(x) == TwoTo(k)
  {
    if k > 0 {
      ClampBetweenPowers(k - 1, x / 2.0);
    } else {
      assert TwoTo(1) == 2.0;
    }
  }

  lemma {:induction false} FloorPower(k: nat)
    requires k >= 6
    ensures TwoTo(k) >= MIN_DIFF
  {
    if k == 6 {
      assert TwoTo(6) == 2.0 * TwoTo(5) && TwoTo(5) == 2.0 * TwoTo(4) && TwoTo(4) == 2.0 * TwoTo(3);
      assert TwoTo(3) == 8.0;
    } else {
      FloorPower(k - 1);
    }
  }

  lemma {:induction false} PowCeilFixed(k: nat)
    ensures PowCeil(TwoTo(k)) == TwoTo(k)
  {
    if k > 0 { PowCeilFixed(k - 1); }
  }

  // ---- Bootstrap without shares ----------------------------------------------------

  /** The difficulty after `n` share-less ticks. */
  function Bootstrap(d: real, n: nat, elapsed: real, expectedSpm: real, clampPow2: bool, sqrt: real -> real): real
    decreases n
  {
    if n == 0 then d
    else Bootstrap(NextDiff(d, 0.0, elapsed, expectedSpm, clampPow2, sqrt).GetOr(d), n - 1, elapsed, expectedSpm,
      clampPow2, sqrt)
  }

  lemma HalveOnce(k: nat, elapsed: real, expectedSpm: real, clampPow2: bool, sqrt: real -> real)
    requires elapsed >= MAX_ELAPSED_NO_SHARES
    ensures NextDiff(MIN_DIFF * TwoTo(k), 0.0, elapsed, expectedSpm, clampPow2, sqrt)
         == if k == 0 then None else Some(MIN_DIFF * TwoTo(k - 1))
  {
    SixtyFourTimes(k);
    PowCeilFixed(k + 6);
    if k > 0 {
      SixtyFourTimes(k - 1);
      assert TwoTo(k + 5) < TwoTo(k + 6);
      ClampBetweenPowers(k + 5, TwoTo(k + 5));
    }
  }

  lemma {:induction false} SixtyFourTimes(k: nat)
    ensures TwoTo(k + 6) == MIN_DIFF * TwoTo(k)
  {
    if k == 0 {
      assert TwoTo(6) == 2.0 * TwoTo(5) && TwoTo(5) == 2.0 * TwoTo(4) && TwoTo(4) == 2.0 * TwoTo(3);
      assert TwoTo(3) == 8.0;
    } else {
      SixtyFourTimes(k - 1);
    }
  }

  /** A silent miner seeded at 64 * 2^k descends to the 64 floor in exactly `k` ticks and rests
      there, with or without the clamp (8192 takes seven). */
  lemma {:induction false} SilentMinerReachesFloor(k: nat, n: nat, elapsed: real, expectedSpm: real, clampPow2: bool,
                                                   sqrt: real -> real)
    requires elapsed >= MAX_ELAPSED_NO_SHARES
    ensures Bootstrap(MIN_DIFF * TwoTo(k), n, elapsed, expectedSpm, clampPow2, sqrt)
         == MIN_DIFF * TwoTo(if n <= k then k - n else 0)
    decreases n
  {
    if n > 0 {
      HalveOnce(k, elapsed, expectedSpm, clampPow2, sqrt);
      SilentMinerReachesFloor(if k == 0 then 0 else k - 1, n - 1, elapsed, expectedSpm, clampPow2, sqrt);
    }
  }

  lemma SilentTick(d: real, elapsed: real, expectedSpm: real, sqrt: real -> real)
    requires elapsed >= MAX_ELAPSED_NO_SHARES && d >= MIN_DIFF
    ensures NextDiff(d, 0.0, elapsed, expectedSpm, false, sqrt).GetOr(d)
         == if d > 2.0 * MIN_DIFF then d / 2.0 else if d > MIN_DIFF + EPSILON then MIN_DIFF else d
  {
  }

  function Halved(d: real, n: nat): real
    decreases n
  {
    if n == 0 then d else Halved(d / 2.0, n - 1)
  }

  /** From any seed, clamp off: `d` halves with every silent tick until it is at most 128, the next tick
      lands on the floor, and there it rests; with k the least number such that d <= 64 * 2^k, k ticks
      suffice and no fewer (a seed within the float epsilon of the floor counts as the floor). */
  lemma {:induction false} SilentMinerReachesFloorFrom(d: real, k: nat, n: nat, elapsed: real, expectedSpm: real,
                                                       sqrt: real -> real)
    requires elapsed >= MAX_ELAPSED_NO_SHARES && MIN_DIFF <= d <= MIN_DIFF * TwoTo(k)
    requires k > 0 ==> MIN_DIFF * TwoTo(k - 1) < d
    ensures n < k ==> Bootstrap(d, n, elapsed, expectedSpm, false, sqrt) == Halved(d, n) > MIN_DIFF
    ensures n >= k ==> MIN_DIFF <= Bootstrap(d, n, elapsed, expectedSpm, false, sqrt) <= MIN_DIFF + EPSILON
    decreases n
  {
    if n > 0 {
      if k == 0 || (k == 1 && d <= MIN_DIFF + EPSILON) {
        TickTo(d, d, n, elapsed, expectedSpm, sqrt);
        SilentMinerReachesFloorFrom(d, k, n - 1, elapsed, expectedSpm, sqrt);
      } else if k == 1 {
        TickTo(d, MIN_DIFF, n, elapsed, expectedSpm, sqrt);
        SilentMinerReachesFloorFrom(MIN_DIFF, 0, n - 1, elapsed, expectedSpm, sqrt);
      } else {
        AboveTwice(k);
        TickTo(d, d / 2.0, n, elapsed, expectedSpm, sqrt);
        SilentMinerReachesFloorFrom(d / 2.0, k - 1, n - 1, elapsed, expectedSpm, sqrt);
      }
    }
  }

  lemma TickTo(d: real, next: real, n: nat, elapsed: real, expectedSpm: real, sqrt: real -> real)
    requires elapsed >= MAX_ELAPSED_NO_SHARES && d >= MIN_DIFF && n > 0
    requires next == if d > 2.0 * MIN_DIFF then d / 2.0 else if d > MIN_DIFF + EPSILON then MIN_DIFF else d
    ensures Bootstrap(d, n, elapsed, expectedSpm, false, sqrt)
         == Bootstrap(next, n - 1, elapsed, expectedSpm, false, sqrt)
  {
    SilentTick(d, elapsed, expectedSpm, sqrt);
  }

  lemma AboveTwice(k: nat)
    requires k >= 2
    ensures TwoTo(k - 1) >= 2.0 && TwoTo(k) == 2.0 * TwoTo(k - 1) && TwoTo(k - 1) == 2.0 * TwoTo(k - 2)
  {
  }
}
