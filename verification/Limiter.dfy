/** internal/ratelimit/limiter.go: a token bucket per key, refilled lazily, with a
    sweeper that forgets idle buckets. Tokens are exact reals, time is in integer
    nanoseconds, and the clock never runs backwards. */
module Limiter {
  import opened Domain

  const SECOND := 1_000_000_000

  datatype Rule = Rule(burst: nat, rate: nat, period: nat)
  {
    ghost predicate Valid() {
      burst >= 1 && rate >= 1 && period >= 1
    }
  }

  type LimitRule = r: Rule | r.Valid() witness Rule(1, 1, 1)

  // The rule for account recovery.
  const RECOVERY: LimitRule := Rule(5, 20, 3600 * SECOND)

  datatype Bucket = Bucket(tokens: real, lastSeen: Instant)

  type Buckets = map<string, Bucket>

  datatype Answer = Admitted | Refused(wait: int)

  // ---------------------------------------------------------------------------
  // Arithmetic of the refill
  // ---------------------------------------------------------------------------

  function Seconds(d: int): real {
    d as real / SECOND as real
  }

  function PerSecond(rule: LimitRule): (rate: real)
    ensures rate > 0.0
  {
    rule.rate as real / Seconds(rule.period)
  }

  /** Tokens restored over a stretch of d nanoseconds, before the cap. */
  function Restored(rule: LimitRule, d: int): real {
    Seconds(d) * PerSecond(rule)
  }

  function Min(a: real, b: real): real {
    if a <= b then a else b
  }

  lemma RestoredIsLinear(rule: LimitRule, a: int, b: int)
    ensures Restored(rule, a) + Restored(rule, b) == Restored(rule, a + b)
    ensures Restored(rule, 0) == 0.0
  {
    assert Seconds(a) + Seconds(b) == Seconds(a + b);
    Distributes(Seconds(a), Seconds(b), PerSecond(rule));
  }

  lemma Distributes(a: real, b: real, c: real)
    ensures a * c + b * c == (a + b) * c
  {
  }

  lemma RestoredIsMonotone(rule: LimitRule, a: int, b: int)
    requires a <= b
    ensures Restored(rule, a) <= Restored(rule, b)
  {
    RestoredIsLinear(rule, a, b - a);
    assert Seconds(b - a) >= 0.0;
  }

  /** In whole numbers: d nanoseconds restore rate * d / period tokens. */
  lemma RestoredInWholeNumbers(rule: LimitRule, d: int)
    ensures Restored(rule, d) * rule.period as real == (rule.rate * d) as real
  {
    var s, p := SECOND as real, rule.period as real;
    calc {
      Restored(rule, d) * p;
      (d as real / s) * (rule.rate as real / (p / s)) * p;
      == { assert rule.rate as real / (p / s) == rule.rate as real * s / p by { Quotient(rule.rate as real, p, s); } }
      (d as real / s) * (rule.rate as real * s / p) * p;
      == { assert rule.rate as real * s / p * p == rule.rate as real * s; Reassociate(d as real / s, rule.rate as real * s / p, p); }
      (d as real / s) * (rule.rate as real * s);
      == { Cancel(d as real, s, rule.rate as real); }
      d as real * rule.rate as real;
    }
  }

  lemma Quotient(a: real, p: real, s: real)
    requires p > 0.0 && s > 0.0
    ensures p / s > 0.0 && a / (p / s) == a * s / p
  {
    var q := p / s;
    assert q * s == p;
    var r := a / q;
    assert r * q == a;
    Reassociate(r, q, s);
    assert r * p == a * s;
  }

  lemma Reassociate(a: real, b: real, c: real)
    ensures a * b * c == a * (b * c)
  {
  }

  lemma Cancel(d: real, s: real, r: real)
    requires s > 0.0
    ensures (d / s) * (r * s) == d * r
  {
    var q := d / s;
    assert q * s == d;
    assert q * (r * s) == (q * s) * r;
  }

  // ---------------------------------------------------------------------------
  // Buckets
  // ---------------------------------------------------------------------------

  /** What a bucket's count would be at `now`. */
  function Refilled(rule: LimitRule, b: Bucket, now: Instant): real {
    if now <= b.lastSeen then b.tokens
    else Min(b.tokens + Restored(rule, now - b.lastSeen), rule.burst as real)
  }

  /** The allowance a key has at `now`. A key with no bucket has a full one. */
  function Level(rule: LimitRule, m: Buckets, key: string, now: Instant): real {
    if key in m then Refilled(rule, m[key], now) else rule.burst as real
  }

  /** Time until one token is available, before truncation to nanoseconds. */
  function ExactWait(rule: LimitRule, level: real): real {
    (1.0 - level) / PerSecond(rule) * SECOND as real
  }

  function AnswerAt(rule: LimitRule, m: Buckets, key: string, now: Instant): Answer {
    var level := Level(rule, m, key, now);
    if level >= 1.0 then Admitted else Refused(ExactWait(rule, level).Floor)
  }

  /** The table after a call: the refilled count, less one token if it was admitted. */
  function Touched(rule: LimitRule, m: Buckets, key: string, now: Instant): Buckets {
    var level := Level(rule, m, key, now);
    m[key := Bucket(if level >= 1.0 then level - 1.0 else level, now)]
  }

  predicate Sweepable(rule: LimitRule, b: Bucket, idleFor: int, now: Instant) {
    b.lastSeen < now - idleFor && Refilled(rule, b, now) >= rule.burst as real
  }

  function Swept(rule: LimitRule, m: Buckets, idleFor: int, now: Instant): Buckets {
    map k | k in m && !Sweepable(rule, m[k], idleFor, now) :: m[k]
  }

  class InMemory {
    const rule: LimitRule
    var buckets: Buckets

    constructor (rule: LimitRule)
      ensures this.rule == rule && buckets == map[]
    {
      this.rule := rule;
      buckets := map[];
    }

    method Allow(key: string, now: Instant) returns (answer: Answer)
      modifies this
      ensures answer == AnswerAt(rule, old(buckets), key, now)
      ensures buckets == Touched(rule, old(buckets), key, now)
    {
      if key !in buckets {
        buckets := buckets[key := Bucket(rule.burst as real, now)];
      }
      var b := buckets[key];
      b := Bucket(Refilled(rule, b, now), now);
      buckets := buckets[key := b];
      if b.tokens >= 1.0 {
        buckets := buckets[key := b.(tokens := b.tokens - 1.0)];
        return Admitted;
      }
      var wait := (1.0 - b.tokens) / PerSecond(rule) * SECOND as real;
      answer := Refused(wait.Floor);
    }

    method Sweep(idleFor: int, now: Instant) returns (removed: nat)
      modifies this
      ensures buckets == Swept(rule, old(buckets), idleFor, now)
      ensures removed == |old(buckets)| - |buckets|
    {
      var before := buckets;
      var cutoff := now - idleFor;
      var todo := before.Keys;
      removed := 0;
      while todo != {}
        invariant todo <= before.Keys
        invariant forall k :: k in buckets <==> k in before && (k in todo || !Sweepable(rule, before[k], idleFor, now))
        invariant forall k | k in buckets :: buckets[k] == before[k]
        invariant |buckets| + removed == |before|
        decreases todo
      {
        var key :| key in todo;
        todo := todo - {key};
        if before[key].lastSeen < cutoff && Refilled(rule, before[key], now) >= rule.burst as real {
          assert buckets.Keys == (buckets - {key}).Keys + {key};
          buckets := buckets - {key};
          removed := removed + 1;
        }
      }
    }
  }

  // ---------------------------------------------------------------------------
  // Runs
  // ---------------------------------------------------------------------------

  datatype Op = Call(key: string, at: Instant) | Sweep(idleFor: int, at: Instant)

  function After(rule: LimitRule, m: Buckets, op: Op): Buckets {
    match op
    case Call(key, at) => Touched(rule, m, key, at)
    case Sweep(idleFor, at) => Swept(rule, m, idleFor, at)
  }

  /** A process starts with no buckets. */
  function Run(rule: LimitRule, ops: seq<Op>): Buckets {
    if ops == [] then map[] else After(rule, Run(rule, ops[..|ops| - 1]), ops[|ops| - 1])
  }

  /** The clock does not run backwards, and has not passed `now`. */
  predicate Ordered(ops: seq<Op>, now: Instant) {
    && (forall i, j | 0 <= i < j < |ops| :: ops[i].at <= ops[j].at)
    && (forall i | 0 <= i < |ops| :: ops[i].at <= now)
  }

  predicate Sane(rule: LimitRule, m: Buckets, now: Instant) {
    forall k | k in m :: 0.0 <= m[k].tokens <= rule.burst as real && m[k].lastSeen <= now
  }

  /** Refilling to t and then to u is refilling to u. */
  lemma RefillComposes(rule: LimitRule, b: Bucket, t: Instant, u: Instant)
    requires b.tokens <= rule.burst as real && b.lastSeen <= t <= u
    ensures Refilled(rule, Bucket(Refilled(rule, b, t), t), u) == Refilled(rule, b, u)
    ensures Refilled(rule, b, u) == Min(Refilled(rule, b, t) + Restored(rule, u - t), rule.burst as real)
  {
    hide Restored;
    RestoredIsLinear(rule, t - b.lastSeen, u - t);
    RestoredIsMonotone(rule, 0, u - t);
    RestoredIsMonotone(rule, 0, t - b.lastSeen);
  }

  /** The allowance later is the allowance now, plus the refill, capped. */
  lemma LevelComposes(rule: LimitRule, m: Buckets, key: string, t: Instant, u: Instant)
    requires Sane(rule, m, t) && t <= u
    ensures Level(rule, m, key, u) == Min(Level(rule, m, key, t) + Restored(rule, u - t), rule.burst as real)
    ensures 0.0 <= Level(rule, m, key, t) <= rule.burst as real
  {
    hide Restored;
    RestoredIsMonotone(rule, 0, u - t);
    RestoredIsLinear(rule, 0, 0);
    if key in m {
      RefillComposes(rule, m[key], t, u);
      RestoredIsMonotone(rule, 0, t - m[key].lastSeen);
    }
  }

  /** A sweep changes no key's allowance, now or later. */
  lemma SweepKeepsLevels(rule: LimitRule, m: Buckets, idleFor: int, t: Instant, key: string, u: Instant)
    requires Sane(rule, m, t) && t <= u
    ensures Sane(rule, Swept(rule, m, idleFor, t), t)
    ensures Level(rule, Swept(rule, m, idleFor, t), key, u) == Level(rule, m, key, u)
  {
    hide Restored;
    LevelComposes(rule, m, key, t, u);
    RestoredIsMonotone(rule, 0, u - t);
    RestoredIsLinear(rule, 0, 0);
  }

  /** A call takes one token from its own key if it was admitted, and nothing otherwise. */
  lemma CallTakesAtMostOne(rule: LimitRule, m: Buckets, caller: string, t: Instant, key: string, u: Instant)
    requires Sane(rule, m, t) && t <= u
    ensures Sane(rule, Touched(rule, m, caller, t), t)
    ensures Level(rule, Touched(rule, m, caller, t), key, u) ==
      if key == caller && AnswerAt(rule, m, key, t).Admitted?
      then Min(Level(rule, m, key, t) - 1.0 + Restored(rule, u - t), rule.burst as real)
      else Level(rule, m, key, u)
  {
    hide Restored;
    LevelComposes(rule, m, caller, t, u);
    LevelComposes(rule, Touched(rule, m, caller, t), key, t, u);
  }

  lemma {:induction false} RunIsSane(rule: LimitRule, ops: seq<Op>, now: Instant)
    requires Ordered(ops, now)
    ensures Sane(rule, Run(rule, ops), now)
  {
    if ops != [] {
      var n := |ops| - 1;
      var m, t := Run(rule, ops[..n]), ops[n].at;
      RunIsSane(rule, ops[..n], t);
      match ops[n]
      case Call(key, _) => CallTakesAtMostOne(rule, m, key, t, key, t);
      case Sweep(idleFor, _) => SweepKeepsLevels(rule, m, idleFor, t, "", t);
    }
  }
}
