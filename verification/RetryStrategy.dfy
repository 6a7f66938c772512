/**
 * Retry delays: the capped exponential back-off of internal/handlerretrystrategy and the jitter of
 * internal/fuzzduration.
 */
module RetryStrategy {

  /** scheduler.Stop: the delay that makes an error permanent. */
  const STOP: int := -1

  /** The retry options of a handler, in the ranges that configuration validation admits. */
  datatype Config = Config(retryCount: int, initial: int, factor: real, max: int) {
    predicate Valid() {
      0 <= retryCount && 0 < initial && 1.0 <= factor && (max == 0 || initial <= max)
    }
  }

  /** Conversion of a float to an integer type: the fraction is dropped. */
  function Truncate(x: real): (n: int)
    ensures 0.0 <= x ==> n as real <= x < n as real + 1.0
    ensures x <= 0.0 ==> n as real - 1.0 < x <= n as real
  {
    if 0.0 <= x then x.Floor else -((-x).Floor)
  }

  datatype Snapshot = Snapshot(remaining: int, delay: int)

  /** The delay after one more retry. */
  function NextDelay(cfg: Config, delay: int): int {
    var d := delay as real * cfg.factor;
    Truncate(if cfg.max > 0 && cfg.max as real < d then cfg.max as real else d)
  }

  function Advanced(cfg: Config, s: Snapshot): Snapshot {
    if s.remaining < 0 then s else Snapshot(s.remaining - 1, NextDelay(cfg, s.delay))
  }

  function CurrentOf(s: Snapshot): int {
    if s.remaining <= 0 then STOP else s.delay
  }

  /** The strategy object. */
  class Strategy {
    const cfg: Config
    var remaining: int
    var delay: int

    constructor (cfg: Config)
      ensures this.cfg == cfg && View() == Snapshot(cfg.retryCount, cfg.initial)
    {
      this.cfg, remaining, delay := cfg, cfg.retryCount, cfg.initial;
    }

    ghost function View(): Snapshot
      reads this
    {
      Snapshot(remaining, delay)
    }

    method Advance()
      modifies this
      ensures View() == Advanced(cfg, old(View()))
    {
      if remaining < 0 {
        return;
      }
      var d := delay as real * cfg.factor;
      if cfg.max > 0 {
        d := if cfg.max as real < d then cfg.max as real else d;
      }
      delay := Truncate(d);
      remaining := remaining - 1;
    }

    method Current() returns (d: int)
      ensures d == CurrentOf(View())
    {
      if remaining <= 0 {
        return STOP;
      }
      return delay;
    }
  }

  /** The strategy after k retries. */
  function After(cfg: Config, k: nat): Snapshot {
    if k == 0 then Snapshot(cfg.retryCount, cfg.initial) else Advanced(cfg, After(cfg, k - 1))
  }

  /** The k-th delay, counting from zero. */
  function DelayAt(cfg: Config, k: nat): int {
    if k == 0 then cfg.initial else NextDelay(cfg, DelayAt(cfg, k - 1))
  }

  /** Delays never shrink, stay positive and never exceed a positive maximum. */
  lemma NextDelayBounds(cfg: Config, delay: int)
    requires cfg.Valid() && 0 < delay && (cfg.max > 0 ==> delay <= cfg.max)
    ensures delay <= NextDelay(cfg, delay) && (cfg.max > 0 ==> NextDelay(cfg, delay) <= cfg.max)
  {
    assert delay as real * cfg.factor >= delay as real * 1.0;
  }

  lemma {:induction false} DelayBounds(cfg: Config, k: nat)
    requires cfg.Valid()
    ensures cfg.initial <= DelayAt(cfg, k) && (cfg.max > 0 ==> DelayAt(cfg, k) <= cfg.max)
    ensures DelayAt(cfg, k) <= DelayAt(cfg, k + 1)
  {
    if 0 < k {
      DelayBounds(cfg, k - 1);
    }
    NextDelayBounds(cfg, DelayAt(cfg, k));
  }

  /** The strategy yields exactly retryCount delays and then stops for good. */
  lemma {:induction false} StrategyYieldsDelays(cfg: Config, k: nat)
    requires cfg.Valid()
    ensures k <= cfg.retryCount + 1 ==> After(cfg, k).remaining == cfg.retryCount - k
    ensures k <= cfg.retryCount ==> After(cfg, k).delay == DelayAt(cfg, k)
    ensures k > cfg.retryCount ==> After(cfg, k).remaining == -1
    ensures CurrentOf(After(cfg, k)) == if k < cfg.retryCount then DelayAt(cfg, k) else STOP
  {
    if 0 < k {
      StrategyYieldsDelays(cfg, k - 1);
    }
  }

  // ---------- Closed forms ----------

  function Uncapped(cfg: Config): Config {
    cfg.(max := 0)
  }

  function Min(a: int, b: int): int {
    if a < b then a else b
  }

  /** Capping each step is the same as capping the uncapped sequence. */
  lemma {:induction false} CapCommutes(cfg: Config, k: nat)
    requires cfg.Valid() && cfg.max > 0
    ensures DelayAt(cfg, k) == Min(cfg.max, DelayAt(Uncapped(cfg), k))
  {
    if 0 < k {
      CapCommutes(cfg, k - 1);
      DelayBounds(Uncapped(cfg), k - 1);
      CapStep(cfg, DelayAt(Uncapped(cfg), k - 1));
    }
  }

  lemma CapStep(cfg: Config, u: int)
    requires cfg.Valid() && cfg.max > 0 && 0 < u
    ensures NextDelay(cfg, Min(cfg.max, u)) == Min(cfg.max, NextDelay(Uncapped(cfg), u))
  {
    NextDelayBounds(Uncapped(cfg), u);
    if u < cfg.max {
      TruncateCapped(cfg.max, u as real * cfg.factor);
    } else {
      NextDelayBounds(cfg, cfg.max);
    }
  }

  lemma TruncateCapped(m: int, d: real)
    requires 0 < m
    ensures Truncate(if m as real < d then m as real else d) == Min(m, Truncate(d))
  {
  }

  /** x * f^k and 1 + f + ... + f^(k-1) */
  datatype Powers = Powers(scaled: real, sum: real) {
    function Next(f: real): Powers {
      Powers(f * scaled, f * sum + 1.0)
    }

    /** delay is scaled, less at most sum. */
    predicate Bound(delay: int) {
      scaled - sum <= delay as real <= scaled
    }
  }

  function PowersAt(x: real, f: real, k: nat): Powers {
    if k == 0 then Powers(x, 0.0) else PowersAt(x, f, k - 1).Next(f)
  }

  /** One uncapped step scales both bounds and may lose less than one to truncation. */
  lemma UncappedStep(cfg: Config, delay: int, p: Powers)
    requires cfg.Valid() && cfg.max == 0 && 0 < delay && p.Bound(delay)
    ensures p.Next(cfg.factor).Bound(NextDelay(cfg, delay)) && 0 < NextDelay(cfg, delay)
  {
    var d, f := delay as real, cfg.factor;
    assert d * f >= d * 1.0;
    assert (d - (p.scaled - p.sum)) * f >= 0.0;
    assert (p.scaled - d) * f >= 0.0;
    NextDelayBounds(cfg, delay);
  }

  /** Without a cap the k-th delay is initial * factor^k, less what truncation may have lost. */
  lemma {:induction false} UncappedDelay(cfg: Config, k: nat)
    requires cfg.Valid() && cfg.max == 0
    ensures PowersAt(cfg.initial as real, cfg.factor, k).Bound(DelayAt(cfg, k)) && 0 < DelayAt(cfg, k)
  {
    if 0 < k {
      UncappedDelay(cfg, k - 1);
      UncappedStep(cfg, DelayAt(cfg, k - 1), PowersAt(cfg.initial as real, cfg.factor, k - 1));
    }
  }

  // ---------- Jitter ----------

  /** The factor that the handler's task passes to fuzzduration.Random. */
  const FUZZ_FACTOR: real := 0.1

  /** fuzzduration.Random for a random draw r from [0, 1). */
  function Fuzz(d: int, factor: real, r: real): int {
    var fuzz := -(factor / 2.0) + factor * r;
    d + Truncate(fuzz * d as real)
  }

  /** Jitter stays within half the factor on either side. */
  lemma FuzzWithin(d: int, factor: real, r: real)
    requires 0.0 <= factor && 0.0 <= r < 1.0 && 0 <= d
    ensures (1.0 - factor / 2.0) * d as real <= Fuzz(d, factor, r) as real <= (1.0 + factor / 2.0) * d as real
  {
    var h, x := factor / 2.0, d as real;
    var fuzz := -h + factor * r;
    assert 0.0 <= factor * r <= factor * 1.0;
    assert -h <= fuzz <= h;
    assert -h * x <= fuzz * x <= h * x;
    assert (1.0 - h) * x == x - h * x && (1.0 + h) * x == x + h * x;
  }

  function Part(factor: real, d: int): real {
    factor * d as real
  }

  lemma PartIncreases(x: real, y: real, d: int)
    requires x <= y && 0 <= d
    ensures Part(x, d) <= Part(y, d)
  {
    assert (y - x) * d as real >= 0.0;
  }

  lemma PartWithOne(x: real, d: int)
    ensures Part(1.0 + x, d) == d as real + Part(x, d) && Part(0.0, d) == 0.0
  {
  }

  /** What the draw adds, as a factor. */
  function Jitter(factor: real, r: real): real {
    -(factor / 2.0) + factor * r
  }

  lemma FuzzByJitter(d: int, factor: real, r: real)
    ensures Fuzz(d, factor, r) == d + Truncate(Part(Jitter(factor, r), d))
  {
  }

  lemma JitterIncreases(factor: real, r: real, s: real)
    requires 0.0 <= factor && r <= s
    ensures Jitter(factor, r) <= Jitter(factor, s)
  {
    assert factor * (s - r) >= 0.0;
  }

  lemma JitterAtEnds(factor: real)
    ensures Jitter(factor, 0.0) == -(factor / 2.0) && Jitter(factor, 0.5) == 0.0
  {
  }

  lemma TruncateMonotone(x: real, y: real)
    requires x <= y
    ensures Truncate(x) <= Truncate(y)
  {
  }

  /** The draw decides where in its range the result is, but for less than one unit; it grows with the draw. */
  lemma FuzzFollowsDraw(d: int, factor: real, r: real, s: real)
    requires 0.0 <= factor && r <= s && 0 <= d
    ensures Part(1.0 + Jitter(factor, r), d) - 1.0 < Fuzz(d, factor, r) as real
    ensures Fuzz(d, factor, r) as real < Part(1.0 + Jitter(factor, r), d) + 1.0
    ensures Fuzz(d, factor, r) <= Fuzz(d, factor, s)
  {
    hide Fuzz, Part, Jitter;
    FuzzByJitter(d, factor, r);
    FuzzByJitter(d, factor, s);
    PartWithOne(Jitter(factor, r), d);
    JitterIncreases(factor, r, s);
    PartIncreases(Jitter(factor, r), Jitter(factor, s), d);
    TruncateMonotone(Part(Jitter(factor, r), d), Part(Jitter(factor, s), d));
  }

  /** The draw zero gives the lower end of the range, and the draw in the middle changes nothing. */
  lemma FuzzAtEnds(d: int, factor: real)
    requires 0.0 <= factor && 0 <= d
    ensures Part(1.0 - factor / 2.0, d) <= Fuzz(d, factor, 0.0) as real < Part(1.0 - factor / 2.0, d) + 1.0
    ensures Fuzz(d, factor, 0.5) == d
  {
    hide Fuzz, Part, Jitter;
    JitterAtEnds(factor);
    FuzzByJitter(d, factor, 0.0);
    FuzzByJitter(d, factor, 0.5);
    PartWithOne(-(factor / 2.0), d);
    PartIncreases(-(factor / 2.0), 0.0, d);
  }

  lemma JitterIsSmall(factor: real, r: real)
    requires 0.0 <= factor < 2.0 && 0.0 <= r < 1.0
    ensures -1.0 < Jitter(factor, r) < 1.0
  {
    assert 0.0 <= factor * r <= factor * 1.0;
  }

  lemma PartOfStop(x: real)
    ensures Part(x, STOP) == -x
  {
    assert STOP as real == -1.0;
  }

  lemma FuzzOfStop(factor: real, r: real)
    requires 0.0 <= factor < 2.0 && 0.0 <= r < 1.0
    ensures Fuzz(STOP, factor, r) == STOP
  {
    JitterIsSmall(factor, r);
    FuzzByJitter(STOP, factor, r);
    PartOfStop(Jitter(factor, r));
    hide Fuzz, Jitter, Part;
  }

  /** Jitter of less than 100% neither revives a stopped task nor stops one that is to be retried. */
  lemma FuzzKeepsMeaning(d: int, factor: real, r: real)
    requires 0.0 <= factor < 2.0 && 0.0 <= r < 1.0
    ensures Fuzz(STOP, factor, r) == STOP
    ensures 0 < d ==> 0 < Fuzz(d, factor, r)
  {
    FuzzOfStop(factor, r);
    if 0 < d {
      FuzzWithin(d, factor, r);
      assert 0.0 < (1.0 - factor / 2.0) * d as real;
      hide Fuzz;
    }
  }
}
