/**
  The retry delays of the language-model service: exponential backoff with a cap and jitter, in
  64-bit unsigned arithmetic that wraps around, as a release build does.
*/
module RetryPolicy {
  const U64: nat := 0x1_0000_0000_0000_0000

  datatype Policy = Policy(maxAttempts: nat, baseMs: nat, maxMs: nat, jitter: bool)

  /** A remainder by zero ends the thread. */
  datatype Outcome = Delay(ms: nat) | Panic

  function Pow2(n: nat): (r: nat)
    ensures r >= 1
  {
    if n == 0 then 1 else 2 * Pow2(n - 1)
  }

  function Min(a: nat, b: nat): nat { if a <= b then a else b }
  function Max(a: nat, b: nat): nat { if a >= b then a else b }

  /** The delay before jitter. A shift uses the low six bits of its distance only. */
  function Capped(p: Policy, attempt: nat): nat { Min(p.baseMs * Pow2(attempt % 64) % U64, p.maxMs) }

  /** `noise` is the process id mixed with the attempt. */
  function Jittered(p: Policy, capped: nat, noise: nat): nat
    requires capped / 4 > 0
  {
    var range := capped / 4;
    Max((capped - range / 2 + noise % range) % U64, p.baseMs / 2)
  }

  function DelayFor(p: Policy, attempt: nat, noise: nat): Outcome {
    if attempt >= p.maxAttempts then Delay(0)
    else if !p.jitter then Delay(Capped(p, attempt))
    else if Capped(p, attempt) / 4 == 0 then Panic
    else Delay(Jittered(p, Capped(p, attempt), noise))
  }

  method DelayForAttempt(p: Policy, attempt: nat, noise: nat) returns (outcome: Outcome)
    ensures outcome == DelayFor(p, attempt, noise)
  {
    if attempt >= p.maxAttempts { return Delay(0); }
    var delayMs := p.baseMs * Pow2(attempt % 64) % U64;
    delayMs := Min(delayMs, p.maxMs);
    if p.jitter {
      var jitterRange := delayMs / 4;
      if jitterRange == 0 { return Panic; }
      var jitter := noise % jitterRange;
      delayMs := Max((delayMs - jitterRange / 2 + jitter) % U64, p.baseMs / 2);
    }
    outcome := Delay(delayMs);
  }

  /** The exponential step is exact and leaves room for the jitter. */
  predicate InRange(p: Policy, attempt: nat) {
    attempt < 64 && p.baseMs * Pow2(attempt) < U64 && p.maxMs <= U64 / 2
  }

  /** The nominal delay: doubled for each attempt, up to the cap. */
  function Nominal(p: Policy, attempt: nat): nat { Min(p.baseMs * Pow2(attempt), p.maxMs) }

  lemma {:induction false} SmallMod(a: nat, r: nat)
    requires a < r
    ensures a % r == a
  {}

  lemma {:induction false} CappedIsNominal(p: Policy, attempt: nat)
    requires InRange(p, attempt)
    ensures Capped(p, attempt) == Nominal(p, attempt)
  {
    SmallMod(attempt, 64);
    SmallMod(p.baseMs * Pow2(attempt), U64);
  }

  lemma {:induction false} PowAdds(a: nat, b: nat)
    ensures Pow2(a + b) == Pow2(a) * Pow2(b)
  {
    if b > 0 {
      PowAdds(a, b - 1);
      MulSwap(Pow2(a), Pow2(b - 1));
    }
  }

  lemma {:induction false} MulSwap(x: nat, y: nat)
    ensures 2 * (x * y) == x * (2 * y)
  {}

  lemma {:induction false} PowDoubles(n: nat, x: nat)
    requires Pow2(n) == x
    ensures Pow2(n + n) == x * x
  {
    PowAdds(n, n);
  }

  lemma {:induction false} PowOfWord()
    ensures Pow2(64) == U64
  {
    assert Pow2(4) == 16;
    PowDoubles(4, 16);
    PowDoubles(8, 256);
    PowDoubles(16, 65536);
    PowDoubles(32, 0x1_0000_0000);
  }

  /** Quotient and remainder are unique. */
  lemma {:induction false} OneRemainder(q: int, r: int, q': int, r': int, n: int)
    requires q * n + r == q' * n + r' && 0 <= r < n && 0 <= r' < n
    ensures r == r'
  {
    var d := q - q';
    assert d * n == r' - r && (-d) * n == r - r';
    if d >= 1 { AtLeast(d, n); }
    if d <= -1 { AtLeast(-d, n); }
  }

  lemma {:induction false} AtLeast(d: int, n: int)
    requires d >= 1 && n >= 0
    ensures d * n >= n
  {
    assert d * n == n + (d - 1) * n;
    assert (d - 1) * n >= 0;
  }

  lemma {:induction false} DivMod(a: nat, n: nat) returns (q: nat, r: nat)
    requires n > 0
    ensures q == a / n && r == a % n && a == q * n + r && r < n
  {
    q, r := a / n, a % n;
  }

  lemma {:induction false} Scaled(q: nat, r: nat, m: nat, k: nat)
    requires r < m && k > 0
    ensures (q * m + r) * k == q * (k * m) + k * r && k * r < k * m
  {
    assert (q * m + r) * k == q * m * k + r * k;
    assert q * m * k == q * (k * m);
    assert k * m - k * r == k * (m - r);
    AtLeast(m - r, k);
  }

  /** Wrapping around keeps the low bits of the base: what is left of it after the shift. */
  lemma {:induction false} WrappedScale(b: nat, k: nat, m: nat, n: nat)
    requires k > 0 && m > 0 && k * m == n
    ensures b * k % n == k * (b % m)
  {
    var q, r := DivMod(b, m);
    Scaled(q, r, m, k);
    var q', r' := DivMod(b * k, n);
    OneRemainder(q, k * r, q', r', n);
  }

  lemma {:induction false} WrappedProduct(b: nat, k: nat)
    requires k <= 64
    ensures b * Pow2(k) % U64 == Pow2(k) * (b % Pow2(64 - k))
  {
    PowAdds(k, 64 - k);
    PowOfWord();
    WrappedScale(b, Pow2(k), Pow2(64 - k), U64);
  }

  /**
    With jitter, exactly these attempts panic: those whose cap is below 4 ms, and those where less
    than 4 ms is left of the base delay, which is shifted left and loses its high bits. From the
    third attempt on that means: all its remaining bits are lost, and the delay has wrapped to zero.
  */
  lemma {:induction false} PanicsIff(p: Policy, attempt: nat, noise: nat)
    ensures var k := attempt % 64;
      DelayFor(p, attempt, noise).Panic? <==>
      attempt < p.maxAttempts && p.jitter
      && (p.maxMs < 4
          || (if k == 0 then p.baseMs % U64 < 4
              else if k == 1 then p.baseMs % Pow2(63) < 2
              else p.baseMs % Pow2(64 - k) == 0))
  {
    var k := attempt % 64;
    WrappedProduct(p.baseMs, k);
    PowOfWord();
    FewLeft(p.baseMs % Pow2(64 - k), k);
  }

  lemma {:induction false} FewLeft(r: nat, k: nat)
    ensures Pow2(k) * r < 4 <==> (if k == 0 then r < 4 else if k == 1 then r < 2 else r == 0)
  {
    if k >= 2 {
      PowAdds(2, k - 2);
      assert Pow2(2) == 4;
      AtLeastFour(Pow2(k - 2), r);
    }
  }

  lemma {:induction false} AtLeastFour(x: nat, r: nat)
    requires x >= 1
    ensures 4 * x * r < 4 <==> r == 0
  {
    if r > 0 { assert x * r >= 1; assert 4 * x * r == 4 * (x * r); }
  }

  /** In range that is the nominal delay: with jitter, one under 4 ms panics; nothing else does. */
  lemma {:induction false} PanicsInRangeIff(p: Policy, attempt: nat, noise: nat)
    requires InRange(p, attempt)
    ensures DelayFor(p, attempt, noise).Panic? <==> attempt < p.maxAttempts && p.jitter && Nominal(p, attempt) < 4
  {
    CappedIsNominal(p, attempt);
  }

  /** Behind the last attempt there is no delay; without jitter the delay is the nominal one. */
  lemma {:induction false} PlainDelayIsNominal(p: Policy, attempt: nat, noise: nat)
    requires InRange(p, attempt)
    ensures attempt >= p.maxAttempts ==> DelayFor(p, attempt, noise) == Delay(0)
    ensures attempt < p.maxAttempts && !p.jitter ==> DelayFor(p, attempt, noise) == Delay(Nominal(p, attempt))
  {
    CappedIsNominal(p, attempt);
  }

  /** The jittered delay for a range `r` and a jitter `j` below it, before the lower bound. */
  lemma {:induction false} JitterIsAnEighth(m: nat, r: nat, j: nat)
    requires r == m / 4 && j < r
    ensures var x := m - r / 2 + j; 7 * m <= 8 * x <= 9 * m
  {
    assert 4 * r <= m && 2 * (r / 2) <= r && r - 1 <= 2 * (r / 2);
  }

  lemma {:induction false} ModIsBelow(a: nat, r: nat)
    requires r > 0
    ensures 0 <= a % r < r
  {}

  /** Jitter moves a delay by an eighth at most; only the lower bound can take it further. */
  lemma {:induction false} JitteredBounds(p: Policy, m: nat, noise: nat)
    requires 4 <= m <= U64 / 2
    ensures var d := Jittered(p, m, noise);
      8 * d >= 7 * m && (8 * d <= 9 * m <==> 8 * (p.baseMs / 2) <= 9 * m)
  {
    var r := m / 4;
    ModIsBelow(noise, r);
    var x := m - r / 2 + noise % r;
    JitterIsAnEighth(m, r, noise % r);
    SmallMod(x, U64);
  }

  /**
    A jittered delay is within an eighth of the nominal one, whatever the process id, if and only if
    half the base delay, which is a lower bound, is not itself beyond that.
  */
  lemma {:induction false} WithinAnEighthIff(p: Policy, attempt: nat, noise: nat)
    requires InRange(p, attempt) && attempt < p.maxAttempts && p.jitter && Nominal(p, attempt) >= 4
    ensures var m, d := Nominal(p, attempt), DelayFor(p, attempt, noise);
      && d.Delay? && 8 * d.ms >= 7 * m
      && (8 * d.ms <= 9 * m <==> 8 * (p.baseMs / 2) <= 9 * m)
  {
    CappedIsNominal(p, attempt);
    JitteredBounds(p, Nominal(p, attempt), noise);
  }

  lemma {:induction false} PowGrows(a: nat, b: nat)
    requires a <= b
    ensures Pow2(a) <= Pow2(b)
    decreases b - a
  {
    if a < b { PowGrows(a, b - 1); }
  }

  lemma {:induction false} NominalAtLeastBase(p: Policy, attempt: nat)
    requires p.maxMs >= p.baseMs
    ensures Nominal(p, attempt) >= p.baseMs
  {
    var k := Pow2(attempt);
    assert p.baseMs * k >= p.baseMs by {
      assert p.baseMs * k == p.baseMs + p.baseMs * (k - 1);
      assert p.baseMs * (k - 1) >= 0;
    }
  }

  /** With a cap no lower than the base, the lower bound never matters and the delay is always within an eighth. */
  lemma {:induction false} AlwaysWithinAnEighth(p: Policy, attempt: nat, noise: nat)
    requires InRange(p, attempt) && attempt < p.maxAttempts && p.jitter
    requires p.baseMs >= 4 && p.maxMs >= p.baseMs
    ensures var m, d := Nominal(p, attempt), DelayFor(p, attempt, noise);
      d.Delay? && 7 * m <= 8 * d.ms <= 9 * m
  {
    NominalAtLeastBase(p, attempt);
    WithinAnEighthIff(p, attempt, noise);
  }

  /** Process ids and attempts are 32-bit numbers, and so is what they are mixed to. */
  const U32: nat := 0x1_0000_0000

  predicate Exceeds(p: Policy, attempt: nat, noise: nat) {
    DelayFor(p, attempt, noise).Delay? && DelayFor(p, attempt, noise).ms > p.maxMs
  }

  /** The longest jittered delay, before the lower bound. */
  function Longest(m: nat): nat
    requires m >= 4
  {
    m - (m / 4) / 2 + Min(m / 4, U32) - 1
  }

  lemma {:induction false} LongestIs(m: nat, noise: nat)
    requires 4 <= m && noise < U32
    ensures m - (m / 4) / 2 + noise % (m / 4) <= Longest(m)
    ensures noise == Min(m / 4, U32) - 1 ==> m - (m / 4) / 2 + noise % (m / 4) == Longest(m)
  {
    var r := m / 4;
    ModIsBelow(noise, r);
    ModNoMore(noise, r);
    if noise < r { SmallMod(noise, r); }
  }

  lemma {:induction false} ModNoMore(a: nat, r: nat)
    requires r > 0
    ensures a % r <= a
  {
    if a < r { SmallMod(a, r); } else { ModIsBelow(a, r); }
  }

  lemma {:induction false} JitteredIs(p: Policy, m: nat, noise: nat)
    requires 4 <= m <= U64 / 2
    ensures var x := m - (m / 4) / 2 + noise % (m / 4);
      Jittered(p, m, noise) == Max(x, p.baseMs / 2)
  {
    var r := m / 4;
    ModIsBelow(noise, r);
    JitterIsAnEighth(m, r, noise % r);
    SmallMod(m - r / 2 + noise % r, U64);
  }

  /**
    The configured maximum is not one: some process id pushes the delay over it exactly when the
    longest jittered delay is over it, or half the base delay is.
  */
  lemma {:induction false} MaximumIsExceededIff(p: Policy, attempt: nat)
    requires InRange(p, attempt) && attempt < p.maxAttempts && p.jitter && Nominal(p, attempt) >= 4
    ensures var m := Nominal(p, attempt);
      (exists noise: nat :: noise < U32 && Exceeds(p, attempt, noise))
      <==> m - (m / 4) / 2 + Min(m / 4, U32) - 1 > p.maxMs || p.baseMs / 2 > p.maxMs
  {
    var m := Nominal(p, attempt);
    CappedIsNominal(p, attempt);
    var most := Min(m / 4, U32) - 1;
    LongestIs(m, most);
    JitteredIs(p, m, most);
    if Longest(m) > p.maxMs || p.baseMs / 2 > p.maxMs {
      assert Exceeds(p, attempt, most);
    }
    forall noise: nat | noise < U32 && Exceeds(p, attempt, noise)
      ensures Longest(m) > p.maxMs || p.baseMs / 2 > p.maxMs
    {
      LongestIs(m, noise);
      JitteredIs(p, m, noise);
    }
  }

  /** In particular whenever the cap is reached, from 12 ms on. */
  lemma {:induction false} MaximumCanBeExceeded(p: Policy, attempt: nat)
    requires InRange(p, attempt) && attempt < p.maxAttempts && p.jitter
    requires p.maxMs >= 12 && p.baseMs * Pow2(attempt) >= p.maxMs && p.maxMs < U32
    ensures exists noise: nat :: noise < U32 && Exceeds(p, attempt, noise)
  {
    MaximumIsExceededIff(p, attempt);
  }

  /** Below the cap a later delay is always longer than an earlier one, whatever the jitter of either. */
  lemma {:induction false} DelaysGrow(p: Policy, attempt: nat, noise: nat, nextNoise: nat)
    requires InRange(p, attempt + 1) && attempt + 1 < p.maxAttempts && p.baseMs >= 4
    requires p.baseMs * Pow2(attempt + 1) <= p.maxMs
    ensures DelayFor(p, attempt, noise).Delay? && DelayFor(p, attempt + 1, nextNoise).Delay?
    ensures DelayFor(p, attempt, noise).ms < DelayFor(p, attempt + 1, nextNoise).ms
  {
    var b, k := p.baseMs, Pow2(attempt);
    Doubles(b, attempt);
    assert Pow2(attempt + 1) >= 1 && b <= b * Pow2(attempt + 1) by { NominalFromBase(b, attempt + 1); }
    NominalFromBase(b, attempt);
    CappedIsNominal(p, attempt);
    CappedIsNominal(p, attempt + 1);
    if p.jitter {
      AlwaysWithinAnEighth(p, attempt, noise);
      AlwaysWithinAnEighth(p, attempt + 1, nextNoise);
    }
  }

  lemma {:induction false} NominalFromBase(b: nat, attempt: nat)
    ensures b <= b * Pow2(attempt)
  {
    assert b * Pow2(attempt) == b + b * (Pow2(attempt) - 1);
  }

  lemma {:induction false} Doubles(b: nat, attempt: nat)
    ensures b * Pow2(attempt + 1) == 2 * (b * Pow2(attempt))
  {}

  /** All delays of the first `n` attempts, with the noise of each. */
  function TotalDelay(p: Policy, n: nat, noise: nat -> nat): nat {
    if n == 0 then 0
    else
      TotalDelay(p, n - 1, noise)
      + match DelayFor(p, n - 1, noise(n - 1)) { case Delay(ms) => ms case Panic => 0 }
  }

  /** The first `n` uncapped delays add up to at most nine eighths of what they would without jitter. */
  lemma {:induction false} TotalIsBounded(p: Policy, n: nat, noise: nat -> nat)
    requires p.baseMs >= 4 && n <= p.maxAttempts
    requires n > 0 ==> InRange(p, n - 1) && p.baseMs * Pow2(n - 1) <= p.maxMs
    ensures 8 * TotalDelay(p, n, noise) <= 9 * (p.baseMs * (Pow2(n) - 1))
  {
    if n > 0 {
      var b, k := p.baseMs, Pow2(n - 1);
      if n > 1 { Doubles(b, n - 2); }
      TotalIsBounded(p, n - 1, noise);
      UncappedDelay(p, n - 1, noise(n - 1));
      TotalStep(TotalDelay(p, n - 1, noise), DelayFor(p, n - 1, noise(n - 1)).ms, b, k);
    }
  }

  lemma {:induction false} UncappedDelay(p: Policy, attempt: nat, noise: nat)
    requires p.baseMs >= 4 && attempt < p.maxAttempts && InRange(p, attempt)
    requires p.baseMs * Pow2(attempt) <= p.maxMs
    ensures var d := DelayFor(p, attempt, noise); d.Delay? && 8 * d.ms <= 9 * (p.baseMs * Pow2(attempt))
  {
    NominalFromBase(p.baseMs, attempt);
    CappedIsNominal(p, attempt);
    if p.jitter { AlwaysWithinAnEighth(p, attempt, noise); }
  }

  lemma {:induction false} TotalStep(total: nat, d: nat, b: nat, k: nat)
    requires k >= 1 && 8 * total <= 9 * (b * (k - 1)) && 8 * d <= 9 * (b * k)
    ensures 8 * (total + d) <= 9 * (b * (2 * k - 1))
  {
    assert b * (2 * k - 1) == b * (k - 1) + b * k;
  }
}
