/** The internal CPU miner's nonce walk (rkstratum_cpu_miner.rs).

    Thread `i` of `n` starts at i * 1_000_000_007 and steps by `n`, wrapping at 2^64, and keeps
    its position from one piece of work to the next. */
module NonceWalk {
  import opened Options
  import opened Powers
  import opened Sequences

  const STRIDE: nat := 1_000_000_007

  /** The thread's `k`-th nonce before wrapping. */
  function Unwrapped(threads: nat, index: nat, k: nat): nat {
    if k == 0 then index * STRIDE else Unwrapped(threads, index, k - 1) + threads
  }

  lemma {:induction false} UnwrappedValue(threads: nat, index: nat, k: nat)
    ensures Unwrapped(threads, index, k) == index * STRIDE + k * threads
  {
    if k > 0 {
      UnwrappedValue(threads, index, k - 1);
      assert k * threads == (k - 1) * threads + threads;
    }
  }

  function NonceAt(threads: nat, index: nat, k: nat): nat {
    Unwrapped(threads, index, k) % U64
  }

  /** The first of `count` positions from `from` whose nonce passes. */
  function FirstHit(threads: nat, index: nat, from: nat, count: nat, passes: nat -> bool): Option<nat>
    decreases count
  {
    if count == 0 then None
    else if passes(NonceAt(threads, index, from)) then Some(from)
    else FirstHit(threads, index, from + 1, count - 1, passes)
  }

  /** A hit passes and is in range, and nothing before it, or without one nothing at all, passes. */
  lemma {:induction false} HitIsFirst(threads: nat, index: nat, from: nat, count: nat, passes: nat -> bool)
    ensures var hit := FirstHit(threads, index, from, count, passes);
      && (hit.Some? ==> from <= hit.value < from + count && passes(NonceAt(threads, index, hit.value)))
      && forall k :: from <= k < (if hit.Some? then hit.value else from + count) ==> !passes(NonceAt(threads, index, k))
    decreases count
  {
    if count > 0 && !passes(NonceAt(threads, index, from)) {
      HitIsFirst(threads, index, from + 1, count - 1, passes);
    }
  }

  /** The nonces at positions `lo <= k < hi`, in order. */
  function Nonces(threads: nat, index: nat, lo: nat, hi: nat): seq<nat>
    requires lo <= hi
    decreases hi
  {
    if lo == hi then [] else Nonces(threads, index, lo, hi - 1) + [NonceAt(threads, index, hi - 1)]
  }

  /** A thread at `position` has tried the nonce of every position before it, and no nonce of a
      later one. */
  ghost predicate Walked(threads: nat, index: nat, position: nat, tried: seq<nat>) {
    && (forall k :: 0 <= k < position ==> NonceAt(threads, index, k) in tried)
    && (forall x :: x in tried ==> IsReached(threads, index, position, x))
  }

  ghost predicate IsReached(threads: nat, index: nat, position: nat, x: nat) {
    exists k :: 0 <= k <= position && x == NonceAt(threads, index, k)
  }

  lemma WalkOn(threads: nat, index: nat, position: nat, tried: seq<nat>)
    requires Walked(threads, index, position, tried)
    ensures Walked(threads, index, position, tried + [NonceAt(threads, index, position)])
    ensures Walked(threads, index, position + 1, tried + [NonceAt(threads, index, position)])
  {
    var more := tried + [NonceAt(threads, index, position)];
    forall x | x in more ensures IsReached(threads, index, position, x) {
      if x in tried { assert IsReached(threads, index, position, x); }
    }
    forall x | x in more ensures IsReached(threads, index, position + 1, x) {
      var k :| 0 <= k <= position && x == NonceAt(threads, index, k);
    }
  }

  /** Evaluating the nonces up to `till` and advancing past them. */
  lemma {:induction false} WalkFar(threads: nat, index: nat, from: nat, till: nat, tried: seq<nat>)
    requires from <= till && Walked(threads, index, from, tried)
    ensures Walked(threads, index, till, tried + Nonces(threads, index, from, till))
    decreases till
  {
    if from < till {
      WalkFar(threads, index, from, till - 1, tried);
      WalkFurther(threads, index, from, till - 1, tried);
    } else {
      assert tried + [] == tried;
    }
  }

  lemma WalkFurther(threads: nat, index: nat, from: nat, till: nat, tried: seq<nat>)
    requires from <= till && Walked(threads, index, till, tried + Nonces(threads, index, from, till))
    ensures Walked(threads, index, till, tried + Nonces(threads, index, from, till + 1))
    ensures Walked(threads, index, till + 1, tried + Nonces(threads, index, from, till + 1))
  {
    NoncesSnoc(threads, index, from, till, tried);
    WalkOn(threads, index, till, tried + Nonces(threads, index, from, till));
  }

  lemma WalkAndStay(threads: nat, index: nat, from: nat, till: nat, tried: seq<nat>)
    requires from <= till && Walked(threads, index, from, tried)
    ensures Walked(threads, index, till, tried + Nonces(threads, index, from, till + 1))
  {
    WalkFar(threads, index, from, till, tried);
    WalkFurther(threads, index, from, till, tried);
  }

  lemma NoncesSnoc(threads: nat, index: nat, from: nat, till: nat, tried: seq<nat>)
    requires from <= till
    ensures tried + Nonces(threads, index, from, till + 1)
         == tried + Nonces(threads, index, from, till) + [NonceAt(threads, index, till)]
  {
    Associates(tried, Nonces(threads, index, from, till), [NonceAt(threads, index, till)]);
  }

  class MinerThread {
    const threads: nat
    const index: nat
    var nonce: nat
    /** How often the thread has advanced, and the nonces it has evaluated, in order. */
    ghost var position: nat
    ghost var tried: seq<nat>

    ghost predicate Valid()
      reads this
    {
      && 1 <= threads < U64 && index < threads
      && nonce == NonceAt(threads, index, position)
      && Walked(threads, index, position, tried)
    }

    constructor (threads: nat, index: nat)
      requires 1 <= threads < U64 && index < threads
      ensures Valid() && this.threads == threads && this.index == index
      ensures position == 0 && tried == []
    {
      this.threads, this.index := threads, index;
      nonce := (index * STRIDE) % U64;
      position, tried := 0, [];
    }

    /** The inner loop on one piece of work; the slot's version changes after `attempts` nonces.
        A hit leaves the position where it is. */
    method Mine(passes: nat -> bool, attempts: nat) returns (found: Option<nat>)
      requires Valid() && attempts >= 1
      modifies this
      ensures Valid() && position >= old(position)
      ensures var hit := FirstHit(threads, index, old(position), attempts, passes);
        && (hit.Some? ==> found == Some(NonceAt(threads, index, hit.value)) && position == hit.value)
        && (hit.None? ==> found == None && position == old(position) + attempts)
      ensures tried
           == old(tried) + Nonces(threads, index, old(position), if found.Some? then position + 1 else position)
    {
      found := None;
      var left := attempts;
      ghost var from, before := position, tried;
      while left > 0
        invariant 0 <= left <= attempts && position == from + (attempts - left)
        invariant Searching(threads, index, from, attempts, position, left, passes, nonce, before, tried)
      {
        SearchOnward(threads, index, from, attempts, position, left, passes, nonce, before, tried);
        tried := tried + [nonce];
        if passes(nonce) {
          WalkAndStay(threads, index, from, position, before);
          return Some(nonce);
        }
        nonce := (nonce + threads) % U64;
        position := position + 1;
        left := left - 1;
      }
      WalkFar(threads, index, from, position, before);
    }
  }

  /** The loop has evaluated the nonces from `from` up to `at`, and searching the `left` positions
      that remain has the same outcome as searching all `count`. */
  ghost predicate Searching(threads: nat, index: nat, from: nat, count: nat, at: nat, left: nat, passes: nat -> bool,
                            nonce: nat, before: seq<nat>, tried: seq<nat>)
  {
    && from <= at && tried == before + Nonces(threads, index, from, at) && nonce == NonceAt(threads, index, at)
    && FirstHit(threads, index, from, count, passes) == FirstHit(threads, index, at, left, passes)
  }

  lemma SearchOnward(threads: nat, index: nat, from: nat, count: nat, at: nat, left: nat, passes: nat -> bool,
                     nonce: nat, before: seq<nat>, tried: seq<nat>)
    requires left > 0 && Searching(threads, index, from, count, at, left, passes, nonce, before, tried)
    ensures tried + [nonce] == before + Nonces(threads, index, from, at + 1)
    ensures passes(nonce) ==> FirstHit(threads, index, from, count, passes) == Some(at)
    ensures !passes(nonce) ==>
              Searching(threads, index, from, count, at + 1, left - 1, passes, (nonce + threads) % U64, before,
                        tried + [nonce])
  {
    WrappingStep(threads, index, at);
    NoncesSnoc(threads, index, from, at, before);
  }

  lemma WrappingStep(threads: nat, index: nat, k: nat)
    ensures (NonceAt(threads, index, k) + threads) % U64 == NonceAt(threads, index, k + 1)
  {
  }

  // ---- Euclid ------------------------------------------------------------------------

  function Gcd(a: nat, b: nat): nat
    decreases b
  {
    if b == 0 then a else Gcd(b, a % b)
  }

  lemma {:induction false} Bezout(a: nat, b: nat) returns (x: int, y: int)
    ensures a * x + b * y == Gcd(a, b)
    decreases b
  {
    if b == 0 {
      x, y := 1, 0;
    } else {
      var u, v := Bezout(b, a % b);
      x, y := v, u - (a / b) * v;
      BezoutStep(a, b, u, v);
    }
  }

  lemma BezoutStep(a: nat, b: nat, u: int, v: int)
    requires b > 0
    ensures a * v + b * (u - (a / b) * v) == b * u + (a % b) * v
  {
  }

  lemma {:induction false} GcdDivides(a: nat, b: nat) returns (m: nat, k: nat)
    ensures a == Gcd(a, b) * m && b == Gcd(a, b) * k
    decreases b
  {
    if b == 0 {
      m, k := 1, 0;
    } else {
      var m', k' := GcdDivides(b, a % b);
      m, k := (a / b) * m' + k', m';
      GcdStep(a, b, Gcd(b, a % b), m', k');
    }
  }

  lemma GcdStep(a: nat, b: nat, g: nat, m: nat, k: nat)
    requires b > 0 && b == g * m && a % b == g * k
    ensures a == g * ((a / b) * m + k)
  {
  }

  /** Euclid's lemma: `n` coprime to `p` and dividing d * p divides `d`. */
  lemma Euclid(n: nat, p: nat, d: int, c: int)
    requires Gcd(n, p) == 1 && d * p == c * n
    ensures exists e: int :: d == e * n
  {
    var x, y := Bezout(n, p);
    Combine(n, p, d, c, x, y);
  }

  lemma Combine(n: int, p: int, d: int, c: int, x: int, y: int)
    requires n * x + p * y == 1 && d * p == c * n
    ensures d == (d * x + c * y) * n
  {
  }

  // ---- Disjointness --------------------------------------------------------------------

  predicate Meet(threads: nat, i: nat, j: nat, k: nat, l: nat) {
    Unwrapped(threads, i, k) == Unwrapped(threads, j, l)
  }

  lemma CoprimeThreadsNeverMeet(threads: nat, i: nat, j: nat, k: nat, l: nat)
    requires Gcd(threads, STRIDE) == 1 && i < j < threads
    ensures !Meet(threads, i, j, k, l)
  {
    if Meet(threads, i, j, k, l) {
      Difference(threads, i, j, k, l);
      Euclid(threads, STRIDE, j - i, k - l);
      var e: int :| j - i == e * threads;
      SmallMultiple(threads, e);
    }
  }

  lemma Difference(threads: nat, i: nat, j: nat, k: nat, l: nat)
    requires Meet(threads, i, j, k, l)
    ensures (j - i) * STRIDE == (k - l) * threads
  {
    UnwrappedValue(threads, i, k);
    UnwrappedValue(threads, j, l);
  }

  lemma SmallMultiple(n: nat, e: int)
    ensures !(0 < e * n < n)
  {
  }

  ghost predicate NeverMeet(threads: nat) {
    forall i: nat, j: nat, k: nat, l: nat :: i < j < threads ==> !Meet(threads, i, j, k, l)
  }

  /** The walks are disjoint exactly when the thread count is coprime to the stride; otherwise
      thread 0 walks onto the start of another thread. */
  lemma WalksAreDisjointIff(threads: nat)
    requires threads >= 1
    ensures NeverMeet(threads) <==> Gcd(threads, STRIDE) == 1
  {
    var g := Gcd(threads, STRIDE);
    if g == 1 {
      forall i: nat, j: nat, k: nat, l: nat | i < j < threads ensures !Meet(threads, i, j, k, l) {
        CoprimeThreadsNeverMeet(threads, i, j, k, l);
      }
    } else {
      var m, q := GcdDivides(threads, STRIDE);
      Proper(g, m, threads);
      assert q * threads == m * STRIDE by { Swap(q, g, m); }
      UnwrappedValue(threads, 0, q);
      assert Meet(threads, 0, m, q, 0);
    }
  }

  lemma Proper(g: nat, m: nat, n: nat)
    requires n == g * m && n >= 1 && g != 1
    ensures 0 < m < n
  {
  }

  lemma Swap(q: nat, g: nat, m: nat)
    ensures q * (g * m) == m * (g * q)
  {
  }

  lemma {:induction false} UnwrappedGrows(threads: nat, index: nat, k: nat, l: nat)
    requires k <= l
    ensures Unwrapped(threads, index, k) <= Unwrapped(threads, index, l)
    decreases l
  {
    if k < l { UnwrappedGrows(threads, index, k, l - 1); }
  }

  /** With a coprime thread count two threads that have not wrapped have evaluated no nonce in
      common, whatever work they were given and however often it changed. */
  lemma TriedNoncesAreDisjoint(a: MinerThread, b: MinerThread, x: nat)
    requires a.Valid() && b.Valid() && a.threads == b.threads && a.index != b.index
    requires Gcd(a.threads, STRIDE) == 1
    requires Unwrapped(a.threads, a.index, a.position) < U64 && Unwrapped(b.threads, b.index, b.position) < U64
    ensures !(x in a.tried && x in b.tried)
  {
    if x in a.tried && x in b.tried {
      ReachedAreDisjoint(a.threads, a.index, b.index, a.position, b.position, x);
    }
  }

  lemma ReachedAreDisjoint(threads: nat, i: nat, j: nat, p: nat, q: nat, x: nat)
    requires Gcd(threads, STRIDE) == 1 && i != j && i < threads && j < threads
    requires Unwrapped(threads, i, p) < U64 && Unwrapped(threads, j, q) < U64
    ensures !(IsReached(threads, i, p, x) && IsReached(threads, j, q, x))
  {
    if IsReached(threads, i, p, x) && IsReached(threads, j, q, x) {
      var k := ReachedUnwrapped(threads, i, p, x);
      var l := ReachedUnwrapped(threads, j, q, x);
      NeverMeetEitherWay(threads, i, j, k, l);
    }
  }

  lemma ReachedUnwrapped(threads: nat, index: nat, position: nat, x: nat) returns (k: nat)
    requires Unwrapped(threads, index, position) < U64 && IsReached(threads, index, position, x)
    ensures k <= position && x == Unwrapped(threads, index, k)
  {
    k :| k <= position && x == NonceAt(threads, index, k);
    UnwrappedGrows(threads, index, k, position);
  }

  lemma NeverMeetEitherWay(threads: nat, i: nat, j: nat, k: nat, l: nat)
    requires Gcd(threads, STRIDE) == 1 && i != j && i < threads && j < threads
    ensures Unwrapped(threads, i, k) != Unwrapped(threads, j, l)
  {
    if i < j {
      CoprimeThreadsNeverMeet(threads, i, j, k, l);
    } else {
      CoprimeThreadsNeverMeet(threads, j, i, l, k);
    }
  }
}
