/**
 The token-bucket limiter and its sweep of idle buckets (server/ratelimit.go),
 over real-valued tokens and nanosecond times. Calls come in the order of their
 clock readings.
 */
module RateLimit {
  import opened Common

  const SECOND := 1_000_000_000
  const MINUTE := 60 * SECOND
  const MAX_BUCKETS := 10_000

  datatype Config = Config(rate: real, burst: real)

  /** newRateLimiter's defaults. */
  function MakeConfig(rate: real, burst: real): (c: Config)
    ensures c.rate > 0.0 && c.burst > 0.0
  {
    Config(if rate <= 0.0 then 20.0 else rate, if burst <= 0.0 then 60.0 else burst)
  }

  datatype Bucket = Bucket(tokens: real, last: int)

  datatype Limiter = Limiter(buckets: map<string, Bucket>, lastSweep: int)

  predicate PreAuth(key: string) { |key| >= 8 && key[..8] == "preauth:" }

  function Rate(c: Config, key: string): real { if PreAuth(key) then c.rate * 100.0 else c.rate }

  function Burst(c: Config, key: string): real { if PreAuth(key) then c.burst * 100.0 else c.burst }

  /** Tokens gained in `ns` nanoseconds. */
  function Gain(rate: real, ns: int): real { ns as real * rate / 1_000_000_000.0 }

  function Idle(c: Config): int
    requires c.rate > 0.0
  {
    (c.burst / c.rate * 1_000_000_000.0).Floor + MINUTE
  }

  function Min(a: real, b: real): real { if a < b then a else b }

  function Normal(key: string): string { if key == "" then "anonymous" else key }

  /** sweepLocked. */
  function Sweep(l: Limiter, c: Config, now: int): Limiter
    requires c.rate > 0.0
  {
    if now - l.lastSweep < MINUTE then l
    else Limiter(map k | k in l.buckets && now - l.buckets[k].last <= Idle(c) :: l.buckets[k], now)
  }

  /** The bucket after the refill of a call at `now`. */
  function Refilled(b: Bucket, rate: real, burst: real, now: int): Bucket {
    if now - b.last > 0 then Bucket(Min(b.tokens + Gain(rate, now - b.last), burst), now) else b
  }

  /** A call once the sweep is done. */
  function Take(l: Limiter, c: Config, key: string, now: int): (Limiter, bool) {
    if key !in l.buckets then
      if |l.buckets| >= MAX_BUCKETS then (l, false)
      else (l.(buckets := l.buckets[key := Bucket(Burst(c, key) - 1.0, now)]), true)
    else
      var b := Refilled(l.buckets[key], Rate(c, key), Burst(c, key), now);
      if b.tokens < 1.0 then (l.(buckets := l.buckets[key := b]), false)
      else (l.(buckets := l.buckets[key := b.(tokens := b.tokens - 1.0)]), true)
  }

  /** allow. */
  function Allow(l: Limiter, c: Config, key: string, now: int): (Limiter, bool)
    requires c.rate > 0.0
  {
    Take(Sweep(l, c, now), c, Normal(key), now)
  }

  // ---- Levels --------------------------------------------------------------

  /** The tokens a key could spend at `now`: a key without a bucket has a full one. */
  ghost function Level(l: Limiter, c: Config, key: string, now: int): real {
    if key in l.buckets then Min(Burst(c, key), l.buckets[key].tokens + Gain(Rate(c, key), now - l.buckets[key].last))
    else Burst(c, key)
  }

  ghost predicate Good(l: Limiter, c: Config, now: int) {
    && c.rate > 0.0 && c.burst > 0.0 && l.lastSweep <= now
    && forall k :: k in l.buckets ==>
      l.buckets[k].tokens <= Burst(c, k) && l.buckets[k].last <= now && (Whole(c, k) ==> l.buckets[k].tokens >= 0.0)
  }

  /** The key's burst holds at least one token. */
  ghost predicate Whole(c: Config, key: string) { Burst(c, key) >= 1.0 }

  lemma GainSum(rate: real, a: int, b: int)
    ensures Gain(rate, a) + Gain(rate, b) == Gain(rate, a + b)
    ensures Gain(rate, 0) == 0.0
    ensures rate > 0.0 && a >= 0 ==> Gain(rate, a) >= 0.0
  {
    assert (a + b) as real == a as real + b as real;
  }

  /** A bucket the sweep may drop has refilled. */
  lemma IdleIsFull(c: Config, key: string, ns: int)
    requires c.rate > 0.0 && c.burst > 0.0 && ns > Idle(c)
    ensures Gain(Rate(c, key), ns) >= Burst(c, key)
  {
    var x := c.burst / c.rate * 1_000_000_000.0;
    assert ns as real > x;
    assert ns as real * c.rate > x * c.rate;
    assert x * c.rate == c.burst * 1_000_000_000.0 by {
      assert c.burst / c.rate * c.rate == c.burst;
      calc {
        x * c.rate;
        (c.burst / c.rate * 1_000_000_000.0) * c.rate;
        (c.burst / c.rate * c.rate) * 1_000_000_000.0;
        c.burst * 1_000_000_000.0;
      }
    }
    assert Gain(c.rate, ns) > c.burst;
    assert Gain(c.rate * 100.0, ns) == Gain(c.rate, ns) * 100.0;
  }

  /** Time refills, up to the burst. */
  lemma LevelLater(l: Limiter, c: Config, key: string, now: int, later: int)
    requires c.rate > 0.0 && now <= later
    ensures Level(l, c, key, later) == Min(Burst(c, key), Level(l, c, key, now) + Gain(Rate(c, key), later - now))
  {
    GainSum(Rate(c, key), 0, later - now);
    if key in l.buckets {
      var last := l.buckets[key].last;
      GainSum(Rate(c, key), now - last, later - now);
      assert now - last + (later - now) == later - last;
    }
  }

  lemma SweepKeepsLevels(l: Limiter, c: Config, key: string, now: int)
    requires Good(l, c, now)
    ensures Good(Sweep(l, c, now), c, now)
    ensures Whole(c, key) ==> Level(Sweep(l, c, now), c, key, now) == Level(l, c, key, now)
  {
    if key in l.buckets && now - l.buckets[key].last > Idle(c) {
      IdleIsFull(c, key, now - l.buckets[key].last);
    }
  }

  lemma RefillIsLevel(b: Bucket, rate: real, burst: real, now: int)
    requires b.last <= now && b.tokens <= burst
    ensures Refilled(b, rate, burst, now).last == now
    ensures Refilled(b, rate, burst, now).tokens == Min(burst, b.tokens + Gain(rate, now - b.last))
  {
    GainSum(rate, 0, 0);
  }

  lemma TakeLevel(l: Limiter, c: Config, key: string, now: int, k: string)
    requires Good(l, c, now)
    ensures var (l', ok) := Take(l, c, key, now);
      && Good(l', c, now)
      && (Whole(c, k) ==> Level(l', c, k, now) == Level(l, c, k, now) - (if k == key && ok then 1.0 else 0.0))
      && (Whole(c, key) ==> (ok <==> Level(l, c, key, now) >= 1.0 && (key in l.buckets || |l.buckets| < MAX_BUCKETS)))
  {
    GainSum(Rate(c, key), 0, 0);
    if key in l.buckets {
      var b := l.buckets[key];
      RefillIsLevel(b, Rate(c, key), Burst(c, key), now);
      GainSum(Rate(c, key), now - b.last, 0);
    }
  }

  /**
   One call: it is admitted exactly if the key has a whole token at that moment
   (and, for a new key, there is room), it then spends one, and it leaves every
   other key's level alone, swept or not.
   */
  lemma AllowSpendsOne(l: Limiter, c: Config, key: string, now: int, k: string)
    requires Good(l, c, now)
    ensures var (l', ok) := Allow(l, c, key, now);
      && Good(l', c, now)
      && (Whole(c, k) ==> Level(l', c, k, now) == Level(l, c, k, now) - (if k == Normal(key) && ok then 1.0 else 0.0))
      && (Whole(c, Normal(key)) ==>
        (ok <==> Level(l, c, Normal(key), now) >= 1.0
                 && (Normal(key) in Sweep(l, c, now).buckets || |Sweep(l, c, now).buckets| < MAX_BUCKETS)))
  {
    SweepKeepsLevels(l, c, k, now);
    SweepKeepsLevels(l, c, Normal(key), now);
    TakeLevel(Sweep(l, c, now), c, Normal(key), now, k);
  }

  // ---- Runs ----------------------------------------------------------------

  datatype Call = Call(key: string, at: int)

  ghost predicate InOrder(calls: seq<Call>, start: int) {
    && (forall i :: 0 <= i < |calls| ==> start <= calls[i].at)
    && (forall i, j :: 0 <= i < j < |calls| ==> calls[i].at <= calls[j].at)
  }

  function Run(l: Limiter, c: Config, calls: seq<Call>): Limiter
    requires c.rate > 0.0
  {
    if calls == [] then l else
      var n := |calls| - 1;
      Allow(Run(l, c, calls[..n]), c, calls[n].key, calls[n].at).0
  }

  /** How many of the calls are admissions of `key`. */
  function Admitted(l: Limiter, c: Config, calls: seq<Call>, key: string): nat
    requires c.rate > 0.0
  {
    if calls == [] then 0 else
      var n := |calls| - 1;
      var ok := Allow(Run(l, c, calls[..n]), c, calls[n].key, calls[n].at).1;
      Admitted(l, c, calls[..n], key) + (if Normal(calls[n].key) == key && ok then 1 else 0)
  }

  function End(calls: seq<Call>, start: int): int { if calls == [] then start else calls[|calls| - 1].at }

  lemma LevelAtMostBurst(l: Limiter, c: Config, key: string, now: int)
    ensures Level(l, c, key, now) <= Burst(c, key)
  {
  }

  lemma GoodLater(l: Limiter, c: Config, now: int, later: int)
    requires Good(l, c, now) && now <= later
    ensures Good(l, c, later)
  {
  }

  lemma {:induction false} Spent(l: Limiter, c: Config, calls: seq<Call>, start: int, key: string)
    requires Good(l, c, start) && InOrder(calls, start)
    ensures Good(Run(l, c, calls), c, End(calls, start))
    ensures Whole(c, key) ==>
      Admitted(l, c, calls, key) as real + Level(Run(l, c, calls), c, key, End(calls, start))
        <= Burst(c, key) + Gain(Rate(c, key), End(calls, start) - start)
  {
    hide Allow, Level, Gain, Burst, Rate;
    if calls == [] {
      GainSum(Rate(c, key), 0, 0);
      LevelAtMostBurst(l, c, key, start);
    } else {
      var init, last := calls[..|calls| - 1], calls[|calls| - 1];
      assert forall i :: 0 <= i < |init| ==> init[i] == calls[i];
      var l' := Run(l, c, init);
      var mid := End(init, start);
      Spent(l, c, init, start, key);
      assert mid <= last.at;
      GoodLater(l', c, mid, last.at);
      AllowSpendsOne(l', c, last.key, last.at, key);
      LevelLater(l', c, key, mid, last.at);
      GainSum(Rate(c, key), mid - start, last.at - mid);
      assert mid - start + (last.at - mid) == last.at - start;
    }
  }

  /**
   From any state the limiter can be in, a key is admitted at most burst plus rate
   times elapsed times over any stretch of calls, whatever the other keys do and
   whatever is swept.
   */
  lemma AdmissionBound(l: Limiter, c: Config, before: seq<Call>, stretch: seq<Call>, start: int, key: string)
    requires Good(l, c, start) && InOrder(before, start) && stretch != [] && InOrder(stretch, End(before, start))
    requires Whole(c, key)
    ensures Admitted(Run(l, c, before), c, stretch, key) as real
      <= Burst(c, key) + Gain(Rate(c, key), stretch[|stretch| - 1].at - stretch[0].at)
  {
    hide Allow, Level, Gain, Burst, Rate, Whole, Run, Admitted;
    FromFirst(stretch, End(before, start));
    Spent(l, c, before, start, key);
    GoodLater(Run(l, c, before), c, End(before, start), stretch[0].at);
    StretchBound(Run(l, c, before), c, stretch, stretch[0].at, stretch[|stretch| - 1].at, key);
  }

  /** How much more a key from before authentication may do. */
  ghost function Factor(key: string): real { if |key| >= 8 && key[..8] == "preauth:" then 100.0 else 1.0 }

  /** The bound in the configured numbers: tokens per second, a hundred times as many before authentication. */
  lemma AdmissionNumbers(l: Limiter, c: Config, before: seq<Call>, stretch: seq<Call>, start: int, key: string)
    requires Good(l, c, start) && InOrder(before, start) && stretch != [] && InOrder(stretch, End(before, start))
    requires c.burst * Factor(key) >= 1.0
    ensures Admitted(Run(l, c, before), c, stretch, key) as real
      <= Factor(key) * (c.burst + c.rate * ((stretch[|stretch| - 1].at - stretch[0].at) as real / 1_000_000_000.0))
  {
    InNumbers(c, key, stretch[|stretch| - 1].at - stretch[0].at);
    hide Gain, Burst, Rate, Run, Admitted;
    AdmissionBound(l, c, before, stretch, start, key);
  }

  lemma InNumbers(c: Config, key: string, ns: int)
    ensures Burst(c, key) == Factor(key) * c.burst && Rate(c, key) == Factor(key) * c.rate
    ensures Gain(Rate(c, key), ns) == Factor(key) * (c.rate * (ns as real / 1_000_000_000.0))
  {
    var t := ns as real;
    assert t * (Factor(key) * c.rate) / 1_000_000_000.0 == Factor(key) * (c.rate * (t / 1_000_000_000.0));
  }

  /** What a bucket holds at `now`: its tokens and what the seconds since have brought, up to the burst. */
  ghost function Has(b: Bucket, c: Config, key: string, now: int): real {
    var had := b.tokens + Factor(key) * (c.rate * ((now - b.last) as real / 1_000_000_000.0));
    if had > Factor(key) * c.burst then Factor(key) * c.burst else had
  }

  /**
   The decision in the configured numbers: a known key is admitted exactly if its
   tokens and what the time since has brought, up to the burst, come to one; an
   unknown one exactly if fewer than 10,000 keys are known; no key at all counts as
   "anonymous".
   */
  lemma DecidesInNumbers(l: Limiter, c: Config, key: string, now: int)
    requires Good(l, c, now) && now - l.lastSweep < 60 * SECOND && key != ""
    ensures Allow(l, c, "", now) == Allow(l, c, "anonymous", now)
    ensures var (l', ok) := Allow(l, c, key, now);
      if key in l.buckets then
        var have := Has(l.buckets[key], c, key, now);
        && (ok <==> have >= 1.0) && l'.buckets == l.buckets[key := Bucket(if ok then have - 1.0 else have, now)]
      else
        && (ok <==> |l.buckets| < 10_000)
        && l'.buckets == if ok then l.buckets[key := Bucket(Factor(key) * c.burst - 1.0, now)] else l.buckets
  {
    hide Rate, Burst, Refilled, Factor, Idle, PreAuth, Has;
    assert Sweep(l, c, now) == l;
    if key in l.buckets {
      RefilledInNumbers(l.buckets[key], c, key, now);
      assert Allow(l, c, key, now) == Take(l, c, key, now);
    } else {
      InNumbers(c, key, 0);
    }
  }

  lemma RefilledInNumbers(b: Bucket, c: Config, key: string, now: int)
    requires b.last <= now && b.tokens <= Burst(c, key)
    ensures Refilled(b, Rate(c, key), Burst(c, key), now) == Bucket(Has(b, c, key, now), now)
  {
    InNumbers(c, key, now - b.last);
    RefillIsLevel(b, Rate(c, key), Burst(c, key), now);
    hide Gain, Rate, Burst, Refilled, Factor;
    var gain := Gain(Rate(c, key), now - b.last);
    assert Factor(key) * (c.rate * ((now - b.last) as real / 1_000_000_000.0)) == gain;
  }

  lemma StretchBound(l: Limiter, c: Config, calls: seq<Call>, first: int, last: int, key: string)
    requires Good(l, c, first) && InOrder(calls, first) && Whole(c, key) && End(calls, first) == last
    ensures Admitted(l, c, calls, key) as real <= Burst(c, key) + Gain(Rate(c, key), last - first)
  {
    hide Allow, Level, Gain, Burst, Rate, Whole, Run, Admitted, InOrder, End;
    Spent(l, c, calls, first, key);
    LevelNonNegative(Run(l, c, calls), c, key, last);
  }

  lemma FromFirst(calls: seq<Call>, start: int)
    requires calls != [] && InOrder(calls, start)
    ensures start <= calls[0].at && InOrder(calls, calls[0].at) && End(calls, calls[0].at) == calls[|calls| - 1].at
  {
  }

  lemma LevelNonNegative(l: Limiter, c: Config, key: string, now: int)
    requires Good(l, c, now) && Whole(c, key)
    ensures Level(l, c, key, now) >= 0.0
  {
    if key in l.buckets {
      GainSum(Rate(c, key), now - l.buckets[key].last, 0);
    }
  }

  // ---- Sweeping changes no decision ----------------------------------------

  /** The limiter that never sweeps and has no cap. */
  function Plain(l: Limiter, c: Config, key: string, now: int): (Limiter, bool) {
    var k := Normal(key);
    if k !in l.buckets then (l.(buckets := l.buckets[k := Bucket(Burst(c, k) - 1.0, now)]), true)
    else
      var b := Refilled(l.buckets[k], Rate(c, k), Burst(c, k), now);
      if b.tokens < 1.0 then (l.(buckets := l.buckets[k := b]), false)
      else (l.(buckets := l.buckets[k := b.(tokens := b.tokens - 1.0)]), true)
  }

  function PlainRun(l: Limiter, c: Config, calls: seq<Call>): Limiter {
    if calls == [] then l else Plain(PlainRun(l, c, calls[..|calls| - 1]), c, calls[|calls| - 1].key, calls[|calls| - 1].at).0
  }

  lemma PlainSpendsOne(l: Limiter, c: Config, key: string, now: int, k: string)
    requires Good(l, c, now)
    ensures var (l', ok) := Plain(l, c, key, now);
      && Good(l', c, now)
      && (Whole(c, k) ==> Level(l', c, k, now) == Level(l, c, k, now) - (if k == Normal(key) && ok then 1.0 else 0.0))
      && (Whole(c, Normal(key)) ==> (ok <==> Level(l, c, Normal(key), now) >= 1.0))
  {
    var g := Normal(key);
    GainSum(Rate(c, g), 0, 0);
    if g in l.buckets {
      var b := l.buckets[g];
      RefillIsLevel(b, Rate(c, g), Burst(c, g), now);
      GainSum(Rate(c, g), now - b.last, 0);
    }
  }

  ghost predicate SameLevels(a: Limiter, b: Limiter, c: Config, now: int) {
    forall k :: Whole(c, k) ==> Level(a, c, k, now) == Level(b, c, k, now)
  }

  /** Room for a new bucket at every call. */
  ghost predicate Roomy(l: Limiter, c: Config, calls: seq<Call>)
    requires c.rate > 0.0
  {
    calls == [] ||
    (Roomy(l, c, calls[..|calls| - 1]) && |Sweep(Run(l, c, calls[..|calls| - 1]), c, calls[|calls| - 1].at).buckets| < MAX_BUCKETS)
  }

  lemma SameDecision(a: Limiter, b: Limiter, c: Config, now: int, call: Call)
    requires Good(a, c, now) && Good(b, c, now) && SameLevels(a, b, c, now) && now <= call.at
    requires |Sweep(a, c, call.at).buckets| < MAX_BUCKETS
    ensures Whole(c, Normal(call.key)) ==> Allow(a, c, call.key, call.at).1 == Plain(b, c, call.key, call.at).1
    ensures SameLevels(Allow(a, c, call.key, call.at).0, Plain(b, c, call.key, call.at).0, c, call.at)
  {
    hide Allow, Plain, Level, Sweep, Whole;
    GoodLater(a, c, now, call.at);
    GoodLater(b, c, now, call.at);
    var g := Normal(call.key);
    assert Whole(c, g) ==> Level(a, c, g, now) == Level(b, c, g, now);
    LevelLater(a, c, g, now, call.at);
    LevelLater(b, c, g, now, call.at);
    AllowSpendsOne(a, c, call.key, call.at, g);
    PlainSpendsOne(b, c, call.key, call.at, g);
    var a', b' := Allow(a, c, call.key, call.at).0, Plain(b, c, call.key, call.at).0;
    forall k | Whole(c, k) ensures Level(a', c, k, call.at) == Level(b', c, k, call.at) {
      assert Level(a, c, k, now) == Level(b, c, k, now);
      LevelLater(a, c, k, now, call.at);
      LevelLater(b, c, k, now, call.at);
      AllowSpendsOne(a, c, call.key, call.at, k);
      PlainSpendsOne(b, c, call.key, call.at, k);
    }
  }

  lemma {:induction false} LevelsAgree(l: Limiter, c: Config, calls: seq<Call>, start: int)
    requires Good(l, c, start) && InOrder(calls, start) && Roomy(l, c, calls)
    ensures Good(Run(l, c, calls), c, End(calls, start)) && Good(PlainRun(l, c, calls), c, End(calls, start))
    ensures SameLevels(Run(l, c, calls), PlainRun(l, c, calls), c, End(calls, start))
  {
    hide Allow, Plain, Level, Sweep, SameLevels;
    if calls == [] {
      SameAsItself(l, c, start);
    } else {
      var init, last := calls[..|calls| - 1], calls[|calls| - 1];
      LevelsAgree(l, c, init, start);
      StepInvisible(Run(l, c, init), PlainRun(l, c, init), c, End(init, start), last);
    }
  }

  /**
   While the bucket cap is not reached, after any run the next call is decided
   as a limiter that never swept would decide it.
   */
  lemma SweepingInvisible(l: Limiter, c: Config, calls: seq<Call>, next: Call, start: int)
    requires Good(l, c, start) && InOrder(calls + [next], start) && Roomy(l, c, calls + [next]) && Whole(c, Normal(next.key))
    ensures Allow(Run(l, c, calls), c, next.key, next.at).1 == Plain(PlainRun(l, c, calls), c, next.key, next.at).1
  {
    hide Allow, Plain, Level, Sweep, SameLevels;
    var all := calls + [next];
    assert all[..|calls|] == calls && all[|calls|] == next;
    assert forall i :: 0 <= i < |calls| ==> calls[i] == all[i];
    LevelsAgree(l, c, calls, start);
    StepInvisible(Run(l, c, calls), PlainRun(l, c, calls), c, End(calls, start), next);
  }

  lemma StepInvisible(a: Limiter, b: Limiter, c: Config, now: int, call: Call)
    requires Good(a, c, now) && Good(b, c, now) && SameLevels(a, b, c, now) && now <= call.at
    requires |Sweep(a, c, call.at).buckets| < MAX_BUCKETS
    ensures var (a', ok) := Allow(a, c, call.key, call.at);
      var (b', ok') := Plain(b, c, call.key, call.at);
      (Whole(c, Normal(call.key)) ==> ok == ok') && SameLevels(a', b', c, call.at) && Good(a', c, call.at) && Good(b', c, call.at)
  {
    SameDecision(a, b, c, now, call);
    hide Allow, Plain, Level, SameLevels;
    GoodLater(a, c, now, call.at);
    GoodLater(b, c, now, call.at);
    AllowSpendsOne(a, c, call.key, call.at, "");
    PlainSpendsOne(b, c, call.key, call.at, "");
  }

  lemma SameAsItself(l: Limiter, c: Config, now: int)
    ensures SameLevels(l, l, c, now)
  {
  }

  /**
   Both hold of a key only if its burst is at least one. Below that its first call
   is admitted all the same, so one admission in no time exceeds the burst, and
   asking again after a sweep it is admitted where the unswept limiter refuses.
   */
  lemma SmallBurstFails(c: Config, key: string, at: int)
    requires c.rate > 0.0 && c.burst > 0.0 && key != "" && !Whole(c, key)
    ensures var l := Limiter(map[], at);
      var later := at + Idle(c) + 1;
      && Good(l, c, at) && Admitted(l, c, [Call(key, at)], key) as real > Burst(c, key) + Gain(Rate(c, key), at - at)
      && Allow(Allow(l, c, key, at).0, c, key, later).1
      && !Plain(Plain(l, c, key, at).0, c, key, later).1
  {
    GainSum(Rate(c, key), 0, 0);
    IdlePositive(c);
    var l := Limiter(map[], at);
    var later := at + Idle(c) + 1;
    hide Idle, PreAuth;
    assert [Call(key, at)][..0] == [];
    assert Run(l, c, []) == l;
    var first := Allow(l, c, key, at).0;
    assert first == Plain(l, c, key, at).0 == Limiter(map[key := Bucket(Burst(c, key) - 1.0, at)], at);
    assert Sweep(first, c, later).buckets == map[];
    hide Burst, Rate, Gain;
    assert Refilled(first.buckets[key], Rate(c, key), Burst(c, key), later).tokens <= Burst(c, key);
  }

  lemma IdlePositive(c: Config)
    requires c.rate > 0.0 && c.burst > 0.0
    ensures Idle(c) >= MINUTE
  {
    var x := c.burst / c.rate;
    assert x >= 0.0;
  }

  // ---- The limiter as an object --------------------------------------------

  class RateLimiter {
    var buckets: map<string, Bucket>
    const config: Config
    var lastSweep: int

    ghost predicate Valid()
      reads this
    {
      config.rate > 0.0 && config.burst > 0.0
    }

    ghost function State(): Limiter
      reads this
    {
      Limiter(buckets, lastSweep)
    }

    constructor (rate: real, burst: real, now: int)
      ensures Valid() && config == MakeConfig(rate, burst) && State() == Limiter(map[], now)
      ensures Good(State(), config, now)
      ensures config.rate == (if rate > 0.0 then rate else 20.0) && config.burst == if burst > 0.0 then burst else 60.0
    {
      config, buckets, lastSweep := MakeConfig(rate, burst), map[], now;
    }

    method SweepLocked(now: int)
      requires Valid()
      modifies this`buckets, this`lastSweep
      ensures State() == Sweep(old(State()), config, now)
      ensures now - old(lastSweep) >= 60 * SECOND ==>
        && lastSweep == now
        && forall k ::
          k in buckets <==>
            k in old(buckets) && now - old(buckets)[k].last <= (config.burst / config.rate * 1_000_000_000.0).Floor + 60 * SECOND
    {
      if now - lastSweep < MINUTE {
        return;
      }
      lastSweep := now;
      var idle := Idle(config);
      var rest := buckets.Keys;
      while rest != {}
        invariant rest <= buckets.Keys <= old(buckets).Keys
        invariant forall k :: k in buckets ==> buckets[k] == old(buckets)[k]
        invariant forall k :: k in old(buckets) && k !in rest ==> (k in buckets <==> now - old(buckets)[k].last <= idle)
        invariant lastSweep == now
        decreases |rest|
      {
        ghost var m := Member(rest);
        var k :| k in rest;
        rest := rest - {k};
        if now - buckets[k].last > idle {
          buckets := buckets - {k};
        }
      }
    }

    method TryAllow(key0: string, now: int) returns (ok: bool)
      requires Valid()
      modifies this`buckets, this`lastSweep
      ensures (State(), ok) == Allow(old(State()), config, key0, now)
    {
      var key := if key0 == "" then "anonymous" else key0;
      SweepLocked(now);
      var rate, burst := config.rate, config.burst;
      if PreAuth(key) {
        rate, burst := rate * 100.0, burst * 100.0;
      }
      if key !in buckets {
        if |buckets| >= MAX_BUCKETS {
          return false;
        }
        buckets := buckets[key := Bucket(burst - 1.0, now)];
        return true;
      }
      ghost var swept := buckets;
      var bucket := buckets[key];
      var elapsed := now - bucket.last;
      if elapsed > 0 {
        bucket := bucket.(tokens := bucket.tokens + elapsed as real * rate / 1_000_000_000.0);
        if bucket.tokens > burst {
          bucket := bucket.(tokens := burst);
        }
        bucket := bucket.(last := now);
      }
      assert bucket == Refilled(swept[key], rate, burst, now);
      buckets := buckets[key := bucket];
      if bucket.tokens < 1.0 {
        return false;
      }
      buckets := buckets[key := bucket.(tokens := bucket.tokens - 1.0)];
      assert buckets == swept[key := bucket.(tokens := bucket.tokens - 1.0)];
      ok := true;
    }
  }
}
