/** Extranonce assignment (client_handler.rs) and nonce assembly on submit (share_handler.rs). */
module NonceSpaces {
  import opened Options
  import opened Codecs
  import opened Powers
  import opened Sequences

  const MAX_EXTRANONCE: nat := 65535
  const EXTRANONCE_DIGITS: nat := 4
  const NONCE_DIGITS: nat := 16
  const RANGE: nat := 0x1_0000_0000_0000

  // ---- Assignment ---------------------------------------------------------------------

  function Successor(v: nat): nat {
    if v < MAX_EXTRANONCE then v + 1 else 0
  }

  /** `{:04x}`. */
  function ExtranonceText(v: nat): (s: string)
    ensures |s| == EXTRANONCE_DIGITS
  {
    HexNumber(v, EXTRANONCE_DIGITS)
  }

  /** The counter before the `k`-th assignment of the process. */
  function CounterAt(k: nat): nat {
    if k == 0 then 0 else Successor(CounterAt(k - 1))
  }

  /** The `k`-th extranonce handed out. */
  function ExtranonceAt(k: nat): (s: string)
    ensures |s| == EXTRANONCE_DIGITS
  {
    ExtranonceText(CounterAt(k))
  }

  /** The process-wide counter; every call is one atomic `fetch_update`. */
  class ExtranonceCounter {
    var next: nat
    /** How many extranonces have been handed out. */
    ghost var handedOut: nat

    ghost predicate Valid()
      reads this
    {
      next == CounterAt(handedOut)
    }

    constructor ()
      ensures Valid() && handedOut == 0
    {
      next, handedOut := 0, 0;
    }

    /** The caller gets the extranonce of its position among all hand-outs. */
    method Assign() returns (extranonce: string)
      requires Valid()
      modifies this
      ensures Valid() && handedOut == old(handedOut) + 1
      ensures extranonce == ExtranonceAt(old(handedOut))
    {
      extranonce := ExtranonceText(next);
      next := if next < MAX_EXTRANONCE then next + 1 else 0;
      handedOut := handedOut + 1;
    }
  }

  lemma {:induction false} CounterIsModular(k: nat)
    ensures CounterAt(k) == k % (MAX_EXTRANONCE + 1)
  {
    if k > 0 { CounterIsModular(k - 1); }
  }

  /** Two assignments get the same extranonce exactly when a multiple of 65,536 apart; any 65,536
      consecutive ones are distinct. */
  lemma ExtranoncesRepeatExactly(i: nat, j: nat)
    requires i <= j
    ensures ExtranonceAt(i) == ExtranonceAt(j) <==> (j - i) % (MAX_EXTRANONCE + 1) == 0
    ensures i < j < i + 65536 ==> ExtranonceAt(i) != ExtranonceAt(j)
  {
    CounterIsModular(i);
    CounterIsModular(j);
    if ExtranonceAt(i) == ExtranonceAt(j) {
      PrintedExtranonce(CounterAt(i));
      PrintedExtranonce(CounterAt(j));
    }
    SameResidue(i, j);
  }

  lemma SameResidue(i: nat, j: nat)
    requires i <= j
    ensures i % 65536 == j % 65536 <==> (j - i) % 65536 == 0
  {
  }

  // ---- Reading hexadecimal text ----------------------------------------------------------

  function DigitValue(c: char): Option<nat> {
    if '0' <= c <= '9' then Some((c - '0') as nat)
    else if 'a' <= c <= 'f' then Some((c - 'a') as nat + 10)
    else if 'A' <= c <= 'F' then Some((c - 'A') as nat + 10)
    else None
  }

  predicate IsHex(s: string) {
    forall i :: 0 <= i < |s| ==> DigitValue(s[i]).Some?
  }

  function Sixteen(n: nat): (p: nat)
    ensures p >= 1
  {
    if n == 0 then 1 else 16 * Sixteen(n - 1)
  }

  function Value(s: string): (v: nat)
    requires IsHex(s)
    ensures v < Sixteen(|s|)
  {
    if s == "" then 0 else 16 * Value(s[..|s| - 1]) + DigitValue(s[|s| - 1]).value
  }

  /** `u64::from_str_radix(s, 16)`: an optional plus sign, at least one digit, no overflow. */
  function ParseU64(s: string): Option<nat> {
    var digits := if |s| > 1 && s[0] == '+' then s[1..] else s;
    if digits == "" || !IsHex(digits) || Value(digits) >= U64 then None else Some(Value(digits))
  }

  lemma {:induction false} ValueOfConcat(a: string, b: string)
    requires IsHex(a) && IsHex(b)
    ensures IsHex(a + b) && Value(a + b) == Value(a) * Sixteen(|b|) + Value(b)
    decreases |b|
  {
    if b == "" {
      assert a + b == a;
    } else {
      var head := b[..|b| - 1];
      ValueOfConcat(a, head);
      assert (a + b)[..|a + b| - 1] == a + head;
      assert (a + b)[|a + b| - 1] == b[|b| - 1];
      Regroup(Value(a), Sixteen(|head|), Value(head), DigitValue(b[|b| - 1]).value);
    }
  }

  lemma Regroup(a: nat, p: nat, h: nat, d: nat)
    ensures 16 * (a * p + h) + d == a * (16 * p) + (16 * h + d)
  {
  }

  lemma DigitReadsBack(d: nat)
    requires d < 16
    ensures DigitValue(Digit(d)) == Some(d) && Digit(d) != '+'
  {
    assert d == 0 || d == 1 || d == 2 || d == 3 || d == 4 || d == 5 || d == 6 || d == 7
      || d == 8 || d == 9 || d == 10 || d == 11 || d == 12 || d == 13 || d == 14 || d == 15;
  }

  /** Reading back a printed number. */
  lemma {:induction false} PrintedValue(v: nat, n: nat)
    requires v < Sixteen(n)
    ensures |HexNumber(v, n)| == n && IsHex(HexNumber(v, n)) && Value(HexNumber(v, n)) == v
    ensures forall i :: 0 <= i < n ==> HexNumber(v, n)[i] != '+'
    decreases n
  {
    if n > 0 {
      PrintedValue(v / 16, n - 1);
      DigitReadsBack(v % 16);
      var s := HexNumber(v, n);
      assert s[..n - 1] == HexNumber(v / 16, n - 1);
    }
  }

  lemma SixteenPowers()
    ensures Sixteen(4) == 65536 && Sixteen(12) == RANGE && Sixteen(16) == U64
  {
  }

  // ---- Assembly ---------------------------------------------------------------------------

  /** `replace("0x", "")`: every occurrence, left to right. */
  function Without0x(s: string): string {
    if |s| >= 2 && s[0] == '0' && s[1] == 'x' then Without0x(s[2..])
    else if s == "" then ""
    else [s[0]] + Without0x(s[1..])
  }

  function Zeros(n: nat): (s: string)
    ensures |s| == n
  {
    if n == 0 then "" else Zeros(n - 1) + ['0']
  }

  /** Prefix a nonce that is short enough, with padding in between; `extranonce` is empty or
      four digits. */
  function Assemble(extranonce: string, nonce: string): string
    requires |extranonce| <= NONCE_DIGITS
  {
    var width := NONCE_DIGITS - |extranonce|;
    if extranonce != "" && |nonce| <= width then extranonce + Zeros(width - |nonce|) + nonce else nonce
  }

  /** The final nonce text of a submission. */
  function FinalNonce(extranonce: string, submitted: string): string
    requires |extranonce| <= NONCE_DIGITS
  {
    Assemble(extranonce, Without0x(submitted))
  }

  lemma {:induction false} ZerosAreZero(n: nat)
    ensures IsHex(Zeros(n)) && Value(Zeros(n)) == 0
    ensures forall i :: 0 <= i < n ==> Zeros(n)[i] == '0'
  {
    if n > 0 {
      ZerosAreZero(n - 1);
      assert Zeros(n)[..n - 1] == Zeros(n - 1);
    }
  }

  lemma ParsedHex(text: string, v: nat)
    requires text != "" && IsHex(text) && Value(text) == v < U64
    ensures ParseU64(text) == Some(v)
  {
  }

  lemma ParsedOther(text: string)
    requires text != "" && text[0] != '+' && !IsHex(text)
    ensures ParseU64(text) == None
  {
  }

  /** Any four-digit prefix, zero padding and nonce of sixteen characters together. */
  lemma PrefixedText(prefix: string, zeros: string, nonce: string, text: string)
    requires |prefix| == 4 && IsHex(prefix) && |zeros| + |nonce| == 12
    requires IsHex(zeros) && Value(zeros) == 0 && text == prefix + zeros + nonce
    ensures |text| == 16 && text[0] == prefix[0]
    ensures if IsHex(nonce) then IsSum(prefix, nonce, text) else !IsHex(text)
  {
    if IsHex(nonce) {
      PrefixedValue(prefix, zeros, nonce, text, Value(prefix) * RANGE + Value(nonce));
    } else {
      NotHex(prefix + zeros, nonce);
    }
  }

  /** `text` reads as the prefix times 2^48 plus the nonce, which is below 2^48. */
  predicate IsSum(prefix: string, nonce: string, text: string)
    requires IsHex(prefix) && IsHex(nonce)
  {
    Value(nonce) < RANGE && IsHex(text) && Value(text) == Value(prefix) * RANGE + Value(nonce) < U64
  }

  lemma NotHex(a: string, b: string)
    requires !IsHex(b)
    ensures !IsHex(a + b)
  {
    var i :| 0 <= i < |b| && DigitValue(b[i]).None?;
    assert (a + b)[|a| + i] == b[i];
  }

  lemma PrefixedValue(prefix: string, zeros: string, nonce: string, text: string, v: nat)
    requires |prefix| == 4 && IsHex(prefix) && |zeros| + |nonce| == 12 && text == prefix + zeros + nonce
    requires IsHex(zeros) && Value(zeros) == 0 && IsHex(nonce) && v == Value(prefix) * RANGE + Value(nonce)
    ensures Value(nonce) < RANGE && IsHex(text) && Value(text) == v < U64
  {
    ThreeParts(prefix, zeros, nonce);
    Associates(prefix, zeros, nonce);
    SixteenPowers();
  }

  lemma ThreeParts(a: string, zeros: string, b: string)
    requires IsHex(a) && IsHex(zeros) && IsHex(b) && Value(zeros) == 0 && |zeros| + |b| == 12 && |a| == 4
    ensures IsHex(a + (zeros + b)) && Value(a + (zeros + b)) == Value(a) * RANGE + Value(b)
    ensures Value(b) < RANGE && Value(a) * RANGE + Value(b) < U64
  {
    ValueOfConcat(zeros, b);
    ValueOfConcat(a, zeros + b);
    SixteenPowers();
  }

  lemma PrefixedAssembly(prefix: string, nonce: string)
    requires |prefix| == 4 && IsHex(prefix) && |nonce| <= 12
    ensures |Assemble(prefix, nonce)| == 16 && Assemble(prefix, nonce)[0] == prefix[0]
    ensures if IsHex(nonce) then IsSum(prefix, nonce, Assemble(prefix, nonce)) else !IsHex(Assemble(prefix, nonce))
  {
    ZerosAreZero(12 - |nonce|);
    PaddedText(prefix, Zeros(12 - |nonce|), nonce, Assemble(prefix, nonce));
  }

  lemma PaddedText(prefix: string, zeros: string, nonce: string, text: string)
    requires |prefix| == 4 && IsHex(prefix) && |zeros| + |nonce| == 12 && IsHex(zeros) && Value(zeros) == 0
    requires text == prefix + zeros + nonce
    ensures |text| == 16 && text[0] == prefix[0]
    ensures if IsHex(nonce) then IsSum(prefix, nonce, text) else !IsHex(text)
  {
    PrefixedText(prefix, zeros, nonce, text);
  }

  /** A nonce short enough to be prefixed parses exactly when it is hexadecimal, and then to
      e * 2^48 plus its own value, which is below 2^48. */
  lemma PrefixedNonce(e: nat, submitted: string)
    requires e <= MAX_EXTRANONCE && |Without0x(submitted)| <= NONCE_DIGITS - EXTRANONCE_DIGITS
    ensures IsHex(Without0x(submitted)) ==> Value(Without0x(submitted)) < RANGE
    ensures ParseU64(FinalNonce(ExtranonceText(e), submitted))
         == if IsHex(Without0x(submitted)) then Some(e * RANGE + Value(Without0x(submitted))) else None
  {
    PrintedExtranonce(e);
    var prefix, nonce := ExtranonceText(e), Without0x(submitted);
    PrefixedAssembly(prefix, nonce);
    if IsHex(nonce) {
      ParsedHex(Assemble(prefix, nonce), e * RANGE + Value(nonce));
    } else {
      ParsedOther(Assemble(prefix, nonce));
    }
  }

  lemma PrintedExtranonce(e: nat)
    requires e <= MAX_EXTRANONCE
    ensures IsHex(ExtranonceText(e)) && ExtranonceText(e)[0] != '+' && Value(ExtranonceText(e)) == e
  {
    SixteenPowers();
    PrintedValue(e, EXTRANONCE_DIGITS);
  }

  /** Connections with different extranonces submit short nonces from disjoint ranges. */
  lemma RangesAreDisjoint(i: nat, j: nat, a: string, b: string)
    requires i < j < i + 65536
    requires |Without0x(a)| <= 12 && |Without0x(b)| <= 12
    requires ParseU64(FinalNonce(ExtranonceAt(i), a)).Some?
    ensures ParseU64(FinalNonce(ExtranonceAt(i), a)) != ParseU64(FinalNonce(ExtranonceAt(j), b))
  {
    ExtranoncesRepeatExactly(i, j);
    CounterIsModular(i);
    CounterIsModular(j);
    PrefixedNonce(CounterAt(i), a);
    PrefixedNonce(CounterAt(j), b);
    if ParseU64(FinalNonce(ExtranonceAt(j), b)).Some? {
      Apart(CounterAt(i), CounterAt(j), Value(Without0x(a)), Value(Without0x(b)));
    }
  }

  lemma Apart(e: nat, f: nat, a: nat, b: nat)
    requires e != f && a < RANGE && b < RANGE
    ensures e * RANGE + a != f * RANGE + b
  {
  }

  /** Every nonce text of `n` digits that parses lands in the range of `e`. */
  ghost predicate StaysInRange(e: nat, n: nat)
    requires e <= MAX_EXTRANONCE
  {
    forall submitted :: |Without0x(submitted)| == n ==> InRange(e, submitted)
  }

  predicate InRange(e: nat, submitted: string)
    requires e <= MAX_EXTRANONCE
  {
    var parsed := ParseU64(FinalNonce(ExtranonceText(e), submitted));
    parsed.Some? ==> e * RANGE <= parsed.value < (e + 1) * RANGE
  }

  lemma {:induction false} NothingToRemove(s: string)
    requires 'x' !in s
    ensures Without0x(s) == s
  {
    if s != "" {
      if |s| >= 2 { assert s[1] in s; }
      assert 'x' !in s[1..];
      NothingToRemove(s[1..]);
    }
  }

  /** The range is kept exactly for nonces of at most twelve digits: longer ones are taken as
      they are, whatever their leading digits. */
  lemma RangeIsKeptIffShort(e: nat, n: nat)
    requires e <= MAX_EXTRANONCE
    ensures StaysInRange(e, n) <==> n <= NONCE_DIGITS - EXTRANONCE_DIGITS
  {
    if n <= 12 {
      forall submitted | |Without0x(submitted)| == n ensures InRange(e, submitted) {
        PrefixedNonce(e, submitted);
      }
    } else if e == 0 {
      LongNonce(e, n, Zeros(n - 13) + ['1'] + Zeros(12), RANGE);
    } else {
      LongNonce(e, n, Zeros(n - 13) + ['0'] + Zeros(12), 0);
    }
  }

  lemma LongNonce(e: nat, n: nat, s: string, v: nat)
    requires e <= MAX_EXTRANONCE && n > 12 && (v == 0 || v == RANGE) && (e == 0 <==> v == RANGE)
    requires s == Zeros(n - 13) + [if v == 0 then '0' else '1'] + Zeros(12)
    ensures !StaysInRange(e, n)
  {
    LongText(n - 13, if v == 0 then '0' else '1', s);
    NothingToRemove(s);
    TakenAsIs(ExtranonceText(e), s);
    assert ParseU64(s) == Some(v);
    assert !InRange(e, s);
  }

  lemma TakenAsIs(prefix: string, s: string)
    requires |prefix| == 4 && Without0x(s) == s && |s| > 12
    ensures FinalNonce(prefix, s) == s
  {
  }

  lemma LongText(k: nat, top: char, s: string)
    requires (top == '0' || top == '1') && s == Zeros(k) + [top] + Zeros(12)
    ensures |s| == k + 13 && 'x' !in s && s[0] != '+' && IsHex(s)
    ensures Value(s) == if top == '0' then 0 else RANGE
  {
    ZerosAreZero(k);
    ZerosAreZero(12);
    SixteenPowers();
    assert [top][..0] == "" && IsHex([top]) && Value([top]) == if top == '0' then 0 else 1;
    ValueOfConcat(Zeros(k), [top]);
    ValueOfConcat(Zeros(k) + [top], Zeros(12));
  }
}
