/** The platform's commission on a payment, in integer cents with 64-bit arithmetic. */
module Commission {
  const MAX_INT64: int := 0x7FFF_FFFF_FFFF_FFFF
  const WORD: int := 0x1_0000_0000_0000_0000
  const BASIS: int := 10000

  datatype Config = Config(rateBP: int, minCommissionCent: int, enabled: bool)

  /** What SaveCommission accepts. */
  predicate Accepted(cfg: Config) {
    0 <= cfg.rateBP <= 3000 && 0 <= cfg.minCommissionCent <= MAX_INT64
  }

  predicate Int64(x: int) {
    -MAX_INT64 - 1 <= x <= MAX_INT64
  }

  /** The value a 64-bit product keeps. */
  function Wrap64(x: int): int {
    (x + MAX_INT64 + 1) % WORD - MAX_INT64 - 1
  }

  /** Division that truncates toward zero. */
  function TruncDiv(a: int, b: int): int
    requires b > 0
  {
    if a >= 0 then a / b else -((-a) / b)
  }

  function Calc(paid: int, cfg: Config): int {
    if !cfg.enabled || paid <= 0 then 0
    else Clamped(TruncDiv(Wrap64(paid * cfg.rateBP), BASIS), cfg.minCommissionCent, paid)
  }

  /** The larger of rate part and minimum, capped at the payment and floored at zero. */
  function Clamped(byRate: int, minimum: int, paid: int): int {
    var amount := if minimum > byRate then minimum else byRate;
    var capped := if amount > paid then paid else amount;
    if capped < 0 then 0 else capped
  }

  /** Payments whose rate product fits 64 bits at every accepted rate. */
  predicate Fits(paid: int) {
    paid <= MAX_INT64 / 3000
  }

  /** The rate product of this payment fits 64 bits. */
  predicate InRange(paid: int, cfg: Config) {
    paid * cfg.rateBP <= MAX_INT64
  }

  lemma MulMonotone(a: int, b: int, k: int)
    requires a <= b && 0 <= k
    ensures a * k <= b * k
  {
  }

  lemma WrapIdentity(x: int)
    requires 0 <= x <= MAX_INT64
    ensures Wrap64(x) == x
  {
  }

  lemma ProductFits(paid: int, cfg: Config)
    requires Accepted(cfg) && 0 < paid && Fits(paid)
    ensures Wrap64(paid * cfg.rateBP) == paid * cfg.rateBP
    ensures 0 <= paid * cfg.rateBP <= paid * 3000 <= MAX_INT64
  {
    MulMonotone(0, paid, cfg.rateBP);
    MulMonotone(cfg.rateBP, 3000, paid);
    WrapIdentity(paid * cfg.rateBP);
  }

  /** The bound is exact: at the highest rate the next cent already overflows. */
  lemma ProductFitsIff(paid: int)
    requires 0 < paid <= MAX_INT64
    ensures Fits(paid) <==> paid * 3000 <= MAX_INT64
  {
  }

  /** Never negative and never more than was paid, whatever the configuration or the overflow. */
  lemma Bounds(paid: int, cfg: Config)
    requires Int64(paid)
    ensures 0 <= Calc(paid, cfg)
    ensures paid > 0 ==> Calc(paid, cfg) <= paid
    ensures paid <= 0 || !cfg.enabled ==> Calc(paid, cfg) == 0
  {
  }

  /** The rate part rounds down to whole cents. */
  function ByRate(paid: int, cfg: Config): int {
    paid * cfg.rateBP / BASIS
  }

  lemma RoundsDown(paid: int, cfg: Config)
    requires Accepted(cfg) && 0 < paid && InRange(paid, cfg)
    ensures BASIS * ByRate(paid, cfg) <= paid * cfg.rateBP < BASIS * (ByRate(paid, cfg) + 1)
    ensures 0 <= ByRate(paid, cfg) <= paid
    ensures TruncDiv(Wrap64(paid * cfg.rateBP), BASIS) == ByRate(paid, cfg)
  {
    MulMonotone(0, paid, cfg.rateBP);
    MulMonotone(cfg.rateBP, 3000, paid);
    WrapIdentity(paid * cfg.rateBP);
    DivFacts(paid * cfg.rateBP, paid);
  }

  lemma DivFacts(product: int, paid: int)
    requires 0 <= product <= paid * 3000
    ensures BASIS * (product / BASIS) <= product < BASIS * (product / BASIS + 1)
    ensures 0 <= product / BASIS <= paid
  {
  }

  /** Within 64 bits the commission is the rounded-down rate part, raised to the minimum and capped
      at the payment. */
  lemma Meaning(paid: int, cfg: Config)
    requires Accepted(cfg) && cfg.enabled && 0 < paid && InRange(paid, cfg)
    ensures BASIS * ByRate(paid, cfg) <= paid * cfg.rateBP < BASIS * (ByRate(paid, cfg) + 1)
    ensures Calc(paid, cfg) ==
      if ByRate(paid, cfg) >= cfg.minCommissionCent then ByRate(paid, cfg)
      else if cfg.minCommissionCent <= paid then cfg.minCommissionCent
      else paid
  {
    RoundsDown(paid, cfg);
  }

  lemma DivMonotone(a: int, b: int)
    requires a <= b
    ensures a / BASIS <= b / BASIS
  {
  }

  /** Paying more never lowers the commission. */
  lemma Monotone(paid: int, more: int, cfg: Config)
    requires Accepted(cfg) && paid <= more && InRange(more, cfg)
    ensures Calc(paid, cfg) <= Calc(more, cfg)
  {
    if cfg.enabled && paid > 0 {
      MulMonotone(paid, more, cfg.rateBP);
      RoundsDown(paid, cfg);
      RoundsDown(more, cfg);
      DivMonotone(paid * cfg.rateBP, more * cfg.rateBP);
    }
  }

  /** The largest rate part that 64 bits can hold. */
  const TOP_COMMISSION: int := MAX_INT64 / BASIS

  lemma Overflowed(product: int)
    requires MAX_INT64 < product <= MAX_INT64 + 3000
    ensures TruncDiv(Wrap64(product), BASIS) < 0
  {
    assert Wrap64(product) == product - WORD;
  }

  lemma LastInRange(rate: int)
    requires 0 < rate <= 3000
    ensures
      var last := MAX_INT64 / rate;
      && MAX_INT64 - 3000 < last * rate <= MAX_INT64 < (last + 1) * rate <= MAX_INT64 + 3000
      && last > TOP_COMMISSION
  {
    var last := MAX_INT64 / rate;
    assert MAX_INT64 == last * rate + MAX_INT64 % rate;
    assert (last + 1) * rate == last * rate + rate;
    if last <= TOP_COMMISSION {
      MulMonotone(last, TOP_COMMISSION, rate);
      MulMonotone(rate, 3000, TOP_COMMISSION);
    }
  }

  /** The last payment whose product fits earns the top commission; one cent more earns only the minimum. */
  lemma OverflowDrops(cfg: Config)
    requires Accepted(cfg) && cfg.enabled && cfg.rateBP > 0 && cfg.minCommissionCent < TOP_COMMISSION
    ensures
      var last := MAX_INT64 / cfg.rateBP;
      Calc(last, cfg) == TOP_COMMISSION && Calc(last + 1, cfg) == cfg.minCommissionCent
  {
    var last := MAX_INT64 / cfg.rateBP;
    LastInRange(cfg.rateBP);
    RoundsDown(last, cfg);
    assert ByRate(last, cfg) == TOP_COMMISSION;
    Overflowed((last + 1) * cfg.rateBP);
  }

  ghost predicate MonotoneUpTo(n: int, cfg: Config) {
    forall a, b :: a <= b <= n ==> Calc(a, cfg) <= Calc(b, cfg)
  }

  /** A minimum at the top leaves the rate part no say, overflow or not. */
  lemma TopMinimum(paid: int, cfg: Config)
    requires Accepted(cfg) && cfg.enabled && cfg.minCommissionCent >= TOP_COMMISSION && 0 < paid
    ensures Calc(paid, cfg) == if cfg.minCommissionCent <= paid then cfg.minCommissionCent else paid
  {
    NeverAboveTop(paid * cfg.rateBP);
  }

  lemma NeverAboveTop(product: int)
    ensures TruncDiv(Wrap64(product), BASIS) <= TOP_COMMISSION
  {
  }

  /** The exact range of that: up to a payment of n the commission never falls if and only if the product of n
      still fits, the commission is off, or its minimum is already the top. */
  lemma MonotoneExactly(n: int, cfg: Config)
    requires Accepted(cfg) && 0 < n <= MAX_INT64
    ensures MonotoneUpTo(n, cfg) <==> !cfg.enabled || InRange(n, cfg) || cfg.minCommissionCent >= TOP_COMMISSION
  {
    if !cfg.enabled || InRange(n, cfg) || cfg.minCommissionCent >= TOP_COMMISSION {
      forall a, b | a <= b <= n
        ensures Calc(a, cfg) <= Calc(b, cfg)
      {
        if cfg.enabled && a > 0 {
          if InRange(n, cfg) {
            MulMonotone(b, n, cfg.rateBP);
            Monotone(a, b, cfg);
          } else {
            TopMinimum(a, cfg);
            TopMinimum(b, cfg);
          }
        }
      }
    } else {
      var last := MAX_INT64 / cfg.rateBP;
      LastInRange(cfg.rateBP);
      if n <= last {
        MulMonotone(n, last, cfg.rateBP);
      }
      OverflowDrops(cfg);
      assert last <= last + 1 <= n && Calc(last, cfg) > Calc(last + 1, cfg);
    }
  }

  function Sum(parts: seq<int>): int {
    if parts == [] then 0 else parts[0] + Sum(parts[1..])
  }

  function SumOfCommissions(parts: seq<int>, cfg: Config): int {
    if parts == [] then 0 else Calc(parts[0], cfg) + SumOfCommissions(parts[1..], cfg)
  }

  predicate Positive(parts: seq<int>) {
    forall i :: 0 <= i < |parts| ==> parts[i] > 0
  }

  lemma {:induction false} SumGrows(parts: seq<int>)
    requires Positive(parts)
    ensures Sum(parts) >= |parts|
  {
    if parts != [] {
      SumGrows(parts[1..]);
    }
  }

  lemma Distributes(a: int, b: int, k: int)
    ensures (a + b) * k == a * k + b * k
  {
  }

  lemma DivSplit(x: int, y: int)
    ensures x / BASIS + y / BASIS <= (x + y) / BASIS <= x / BASIS + y / BASIS + 1
  {
  }

  lemma SplitInTwo(a: int, b: int, cfg: Config)
    requires Accepted(cfg) && cfg.minCommissionCent == 0 && 0 < a && 0 < b && InRange(a + b, cfg)
    ensures Calc(a, cfg) + Calc(b, cfg) <= Calc(a + b, cfg) <= Calc(a, cfg) + Calc(b, cfg) + 1
  {
    if cfg.enabled {
      Distributes(a, b, cfg.rateBP);
      MulMonotone(0, a, cfg.rateBP);
      MulMonotone(0, b, cfg.rateBP);
      RoundsDown(a, cfg);
      RoundsDown(b, cfg);
      RoundsDown(a + b, cfg);
      DivSplit(a * cfg.rateBP, b * cfg.rateBP);
    }
  }

  /** Without a minimum, splitting a payment into n parts costs the platform at most n - 1 cents. */
  lemma {:induction false} Splitting(parts: seq<int>, cfg: Config)
    requires Accepted(cfg) && cfg.minCommissionCent == 0
    requires parts != [] && Positive(parts) && InRange(Sum(parts), cfg)
    ensures SumOfCommissions(parts, cfg) <= Calc(Sum(parts), cfg) <= SumOfCommissions(parts, cfg) + |parts| - 1
  {
    var tail := parts[1..];
    if tail == [] {
      assert parts == [parts[0]] && Sum(tail) == 0 && SumOfCommissions(tail, cfg) == 0;
    } else {
      SumGrows(tail);
      MulMonotone(Sum(tail), Sum(parts), cfg.rateBP);
      Splitting(tail, cfg);
      SplitInTwo(parts[0], Sum(tail), cfg);
    }
  }
}
