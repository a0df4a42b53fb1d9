/** What the limiter promises over whole runs of calls and sweeps. */
module LimiterTheorems {
  import opened Domain
  import opened Limiter

  // ---------------------------------------------------------------------------
  // Admission is exactly the tightest rate bound
  // ---------------------------------------------------------------------------

  /** When this key's calls were admitted, in order. */
  function AdmittedAt(rule: LimitRule, ops: seq<Op>, key: string): (times: seq<Instant>)
    ensures |times| <= |ops|
  {
    if ops == [] then []
    else
      var n := |ops| - 1;
      var before := AdmittedAt(rule, ops[..n], key);
      if ops[n].Call? && ops[n].key == key && AnswerAt(rule, Run(rule, ops[..n]), key, ops[n].at).Admitted?
      then before + [ops[n].at] else before
  }

  /** How much of the burst is left at t, counted over the window that opened with
      the i-th admission. */
  function LeftInWindow(rule: LimitRule, times: seq<Instant>, i: nat, t: Instant): real
    requires i < |times|
  {
    rule.burst as real - (|times| - i) as real + Restored(rule, t - times[i])
  }

  /** At least x is left of the burst and of every window. */
  predicate EveryWindowLeaves(rule: LimitRule, times: seq<Instant>, t: Instant, x: real) {
    && x <= rule.burst as real
    && forall i | 0 <= i < |times| :: LeftInWindow(rule, times, i, t) >= x
  }

  lemma OneMoreAdmission(rule: LimitRule, times: seq<Instant>, u: Instant, t: Instant, x: real)
    requires u <= t
    ensures EveryWindowLeaves(rule, times + [u], t, x) <==>
      x <= rule.burst as real && EveryWindowLeaves(rule, times, u, x + 1.0 - Restored(rule, t - u))
  {
    hide Restored;
    var after := times + [u];
    forall i | 0 <= i < |times|
      ensures LeftInWindow(rule, after, i, t) == LeftInWindow(rule, times, i, u) - 1.0 + Restored(rule, t - u)
    {
      RestoredIsLinear(rule, u - times[i], t - u);
    }
    if EveryWindowLeaves(rule, after, t, x) {
      assert LeftInWindow(rule, after, |times|, t) >= x;
      forall i | 0 <= i < |times| ensures LeftInWindow(rule, times, i, u) >= x + 1.0 - Restored(rule, t - u) {
        assert LeftInWindow(rule, after, i, t) >= x;
      }
    }
  }

  /** The level of a key at any time is the tightest of all its windows, so the lazy,
      capped and swept arithmetic computes a function of the admission times alone. */
  lemma {:induction false} LevelIsTheTightestWindow(rule: LimitRule, ops: seq<Op>, key: string, t: Instant, x: real)
    requires Ordered(ops, t)
    ensures Level(rule, Run(rule, ops), key, t) >= x <==> EveryWindowLeaves(rule, AdmittedAt(rule, ops, key), t, x)
    decreases |ops|
  {
    hide Restored, AnswerAt, Level, EveryWindowLeaves;
    if ops == [] {
      FreshLevel(rule, key, t, x);
    } else {
      var n := |ops| - 1;
      var before, u := ops[..n], ops[n].at;
      RunIsSane(rule, before, u);
      match ops[n]
      case Sweep(idleFor, _) =>
        SweepKeepsLevels(rule, Run(rule, before), idleFor, u, key, t);
        LevelIsTheTightestWindow(rule, before, key, t, x);
      case Call(caller, _) =>
        CallTakesAtMostOne(rule, Run(rule, before), caller, u, key, t);
        if key == caller && AnswerAt(rule, Run(rule, before), key, u).Admitted? {
          LevelIsTheTightestWindow(rule, before, key, u, x + 1.0 - Restored(rule, t - u));
          OneMoreAdmission(rule, AdmittedAt(rule, before, key), u, t, x);
          Capped(rule, AdmittedAt(rule, before, key), u, t, x);
        } else {
          LevelIsTheTightestWindow(rule, before, key, t, x);
        }
    }
  }

  lemma FreshLevel(rule: LimitRule, key: string, t: Instant, x: real)
    ensures Level(rule, map[], key, t) >= x <==> EveryWindowLeaves(rule, [], t, x)
  {
  }

  lemma Capped(rule: LimitRule, times: seq<Instant>, u: Instant, t: Instant, x: real)
    ensures EveryWindowLeaves(rule, times + [u], t, x) ==> x <= rule.burst as real
  {
  }

  /** The i-th admission up to now, and one more at t, fit the rate. */
  predicate OneMoreFits(rule: LimitRule, times: seq<Instant>, i: nat, t: Instant)
    requires i < |times|
  {
    (|times| - i + 1) as real <= rule.burst as real + Restored(rule, t - times[i])
  }

  predicate EveryWindowAllows(rule: LimitRule, times: seq<Instant>, t: Instant) {
    forall i | 0 <= i < |times| :: OneMoreFits(rule, times, i, t)
  }

  /** A call is admitted exactly when admitting it leaves every window of this key
      that ends with it within the burst plus what the window restored. */
  lemma AdmittedExactlyWhenEveryWindowAllows(rule: LimitRule, ops: seq<Op>, key: string, t: Instant)
    requires Ordered(ops, t)
    ensures AnswerAt(rule, Run(rule, ops), key, t).Admitted? <==> EveryWindowAllows(rule, AdmittedAt(rule, ops, key), t)
  {
    hide Restored, AdmittedAt, Ordered, Run, Level;
    var times := AdmittedAt(rule, ops, key);
    LevelIsTheTightestWindow(rule, ops, key, t, 1.0);
    forall i | 0 <= i < |times| ensures LeftInWindow(rule, times, i, t) >= 1.0 <==> OneMoreFits(rule, times, i, t) {
    }
  }

  predicate Fits(rule: LimitRule, times: seq<Instant>, i: nat, j: nat)
    requires i <= j < |times|
  {
    (j - i + 1) as real <= rule.burst as real + Restored(rule, times[j] - times[i])
  }

  lemma {:induction false} AdmissionWasAllowed(rule: LimitRule, ops: seq<Op>, now: Instant, key: string, i: nat, j: nat)
    requires Ordered(ops, now)
    requires i <= j < |AdmittedAt(rule, ops, key)|
    ensures Fits(rule, AdmittedAt(rule, ops, key), i, j)
    decreases |ops|
  {
    hide Restored, AnswerAt;
    var n := |ops| - 1;
    var before := AdmittedAt(rule, ops[..n], key);
    if j < |before| {
      AdmissionWasAllowed(rule, ops[..n], ops[n].at, key, i, j);
    } else {
      AdmittedExactlyWhenEveryWindowAllows(rule, ops[..n], key, ops[n].at);
      RestoredIsLinear(rule, 0, 0);
      assert i < |before| ==> OneMoreFits(rule, before, i, ops[n].at);
    }
  }

  /** For any interleaving of calls and sweeps over any keys, the calls admitted for
      one key between two of its admissions, both included, number at most
      burst + rate * T / period, where T is the time between them. */
  lemma WindowBound(rule: LimitRule, ops: seq<Op>, now: Instant, key: string, i: nat, j: nat)
    requires Ordered(ops, now)
    requires i <= j < |AdmittedAt(rule, ops, key)|
    ensures var times := AdmittedAt(rule, ops, key);
      (j - i + 1) * rule.period <= rule.burst * rule.period + rule.rate * (times[j] - times[i])
  {
    hide Restored, AdmittedAt, Ordered;
    AdmissionWasAllowed(rule, ops, now, key, i, j);
    var d := AdmittedAt(rule, ops, key)[j] - AdmittedAt(rule, ops, key)[i];
    RestoredInWholeNumbers(rule, d);
    Scaled(j - i + 1, rule.burst, Restored(rule, d), rule.period, rule.rate * d);
  }

  lemma Scaled(n: nat, b: nat, r: real, p: nat, whole: int)
    requires n as real <= b as real + r && r * p as real == whole as real
    ensures n * p <= b * p + whole
  {
    var q := p as real;
    assert (b as real + r - n as real) * q >= 0.0;
    assert (b as real + r - n as real) * q == b as real * q + r * q - n as real * q;
    assert (n * p) as real == n as real * q && (b * p) as real == b as real * q;
  }

  predicate Ascending(times: seq<Instant>, now: Instant) {
    && (forall i, j | 0 <= i < j < |times| :: times[i] <= times[j])
    && (forall i | 0 <= i < |times| :: times[i] <= now)
  }

  lemma {:induction false} AdmissionsAreOrdered(rule: LimitRule, ops: seq<Op>, now: Instant, key: string)
    requires Ordered(ops, now)
    ensures Ascending(AdmittedAt(rule, ops, key), now)
    decreases |ops|
  {
    hide AnswerAt;
    if ops != [] {
      AdmissionsAreOrdered(rule, ops[..|ops| - 1], ops[|ops| - 1].at, key);
    }
  }

  /** How many of a key's admissions fell in a stretch of time. */
  function CountWithin(times: seq<Instant>, from: Instant, to: Instant): nat {
    if times == [] then 0
    else CountWithin(times[..|times| - 1], from, to) + (if from <= times[|times| - 1] <= to then 1 else 0)
  }

  lemma {:induction false} CountedIsAStretch(times: seq<Instant>, from: Instant, to: Instant) returns (i: nat, j: nat)
    requires forall a, b | 0 <= a < b < |times| :: times[a] <= times[b]
    requires CountWithin(times, from, to) > 0
    ensures i <= j < |times| && from <= times[i] && times[j] <= to
    ensures CountWithin(times, from, to) == j - i + 1
    ensures forall k | 0 <= k < i :: times[k] < from
  {
    var n := |times| - 1;
    var before := times[..n];
    if CountWithin(before, from, to) > 0 {
      i, j := CountedIsAStretch(before, from, to);
      if from <= times[n] <= to {
        AllCounted(before, from, to, i);
        j := n;
      }
    } else {
      i, j := n, n;
      forall k | 0 <= k < n ensures times[k] < from {
        NoneCounted(before, from, to, k);
      }
    }
  }

  lemma {:induction false} NoneCounted(times: seq<Instant>, from: Instant, to: Instant, k: nat)
    requires CountWithin(times, from, to) == 0 && k < |times|
    ensures !(from <= times[k] <= to)
  {
    if k < |times| - 1 {
      NoneCounted(times[..|times| - 1], from, to, k);
    }
  }

  lemma {:induction false} AllCounted(times: seq<Instant>, from: Instant, to: Instant, i: nat)
    requires i <= |times|
    requires forall k | i <= k < |times| :: from <= times[k] <= to
    requires forall k | 0 <= k < i :: times[k] < from
    ensures CountWithin(times, from, to) == |times| - i
  {
    if times != [] {
      AllCounted(times[..|times| - 1], from, to, if i == |times| then i - 1 else i);
    }
  }

  /** The bound for any window of time, wherever it starts and ends. */
  lemma AnyWindowBound(rule: LimitRule, ops: seq<Op>, now: Instant, key: string, from: Instant, to: Instant)
    requires Ordered(ops, now) && from <= to
    ensures CountWithin(AdmittedAt(rule, ops, key), from, to) * rule.period <=
      rule.burst * rule.period + rule.rate * (to - from)
  {
    hide CountWithin;
    var times := AdmittedAt(rule, ops, key);
    AdmissionsAreOrdered(rule, ops, now, key);
    var count := CountWithin(times, from, to);
    if count > 0 {
      var i, j := CountedIsAStretch(times, from, to);
      WindowBound(rule, ops, now, key, i, j);
      Wider(rule.rate, times[j] - times[i], to - from);
    } else {
      Wider(rule.rate, 0, to - from);
      assert rule.burst * rule.period >= 0;
    }
  }

  lemma Wider(rate: nat, a: int, b: int)
    requires a <= b
    ensures rate * a <= rate * b
  {
  }

  // ---------------------------------------------------------------------------
  // What changes no answer
  // ---------------------------------------------------------------------------

  /** Two histories with the same admissions for a key answer its next call alike,
      with the same wait. */
  lemma OnlyAdmissionsMatter(rule: LimitRule, a: seq<Op>, b: seq<Op>, key: string, t: Instant)
    requires Ordered(a, t) && Ordered(b, t)
    requires AdmittedAt(rule, a, key) == AdmittedAt(rule, b, key)
    ensures Level(rule, Run(rule, a), key, t) == Level(rule, Run(rule, b), key, t)
    ensures AnswerAt(rule, Run(rule, a), key, t) == AnswerAt(rule, Run(rule, b), key, t)
  {
    hide Level, Run, AdmittedAt, Ordered, EveryWindowLeaves, ExactWait;
    var x, y := Level(rule, Run(rule, a), key, t), Level(rule, Run(rule, b), key, t);
    LevelIsTheTightestWindow(rule, a, key, t, x);
    LevelIsTheTightestWindow(rule, b, key, t, x);
    LevelIsTheTightestWindow(rule, a, key, t, y);
    LevelIsTheTightestWindow(rule, b, key, t, y);
  }

  function WithoutSweeps(ops: seq<Op>): seq<Op> {
    if ops == [] then []
    else
      var n := |ops| - 1;
      if ops[n].Sweep? then WithoutSweeps(ops[..n]) else WithoutSweeps(ops[..n]) + [ops[n]]
  }

  /** This key's admitted calls alone: no sweeps, no other keys, no refused calls. */
  function Essential(rule: LimitRule, ops: seq<Op>, key: string): seq<Op> {
    if ops == [] then []
    else
      var n := |ops| - 1;
      var before := Essential(rule, ops[..n], key);
      if ops[n].Call? && ops[n].key == key && AnswerAt(rule, Run(rule, ops[..n]), key, ops[n].at).Admitted?
      then before + [ops[n]] else before
  }

  lemma OrderedExtends(ops: seq<Op>, op: Op, now: Instant)
    requires Ordered(ops, op.at) && op.at <= now
    ensures Ordered(ops + [op], now)
  {
  }

  lemma OrderedLater(ops: seq<Op>, t: Instant, now: Instant)
    requires Ordered(ops, t) && t <= now
    ensures Ordered(ops, now)
  {
  }

  lemma {:induction false} SweepsAdmitNothing(rule: LimitRule, ops: seq<Op>, key: string, now: Instant)
    requires Ordered(ops, now)
    ensures Ordered(WithoutSweeps(ops), now)
    ensures AdmittedAt(rule, WithoutSweeps(ops), key) == AdmittedAt(rule, ops, key)
    decreases |ops|
  {
    hide AnswerAt, Run, Level;
    if ops != [] {
      var n := |ops| - 1;
      var t, kept := ops[n].at, WithoutSweeps(ops[..n]);
      SweepsAdmitNothing(rule, ops[..n], key, t);
      OrderedLater(kept, t, now);
      if ops[n].Call? {
        OrderedExtends(kept, ops[n], now);
        OnlyAdmissionsMatter(rule, ops[..n], kept, key, t);
        StillAnswered(rule, kept, ops[n], key);
      }
    }
  }

  lemma StillAnswered(rule: LimitRule, kept: seq<Op>, op: Op, key: string)
    requires op.Call?
    ensures AdmittedAt(rule, kept + [op], key) ==
      if op.key == key && AnswerAt(rule, Run(rule, kept), key, op.at).Admitted?
      then AdmittedAt(rule, kept, key) + [op.at] else AdmittedAt(rule, kept, key)
  {
    hide AnswerAt, Run;
    assert (kept + [op])[..|kept|] == kept;
  }

  /** A limiter swept at arbitrary points answers every key's every call, waits
      included, as one that was never swept. */
  lemma SweepingIsInvisible(rule: LimitRule, ops: seq<Op>, key: string, t: Instant)
    requires Ordered(ops, t)
    ensures AnswerAt(rule, Run(rule, WithoutSweeps(ops)), key, t) == AnswerAt(rule, Run(rule, ops), key, t)
  {
    hide AdmittedAt, Ordered, WithoutSweeps, AnswerAt;
    SweepsAdmitNothing(rule, ops, key, t);
    OnlyAdmissionsMatter(rule, WithoutSweeps(ops), ops, key, t);
  }

  lemma {:induction false} EssentialAdmissions(rule: LimitRule, ops: seq<Op>, key: string, now: Instant)
    requires Ordered(ops, now)
    ensures Ordered(Essential(rule, ops, key), now)
    ensures AdmittedAt(rule, Essential(rule, ops, key), key) == AdmittedAt(rule, ops, key)
    decreases |ops|
  {
    hide AnswerAt, Run, Level;
    if ops != [] {
      var n := |ops| - 1;
      var t, kept := ops[n].at, Essential(rule, ops[..n], key);
      EssentialAdmissions(rule, ops[..n], key, t);
      OrderedLater(kept, t, now);
      if ops[n].Call? && ops[n].key == key {
        OrderedExtends(kept, ops[n], now);
        OnlyAdmissionsMatter(rule, ops[..n], kept, key, t);
        StillAnswered(rule, kept, ops[n], key);
      }
    }
  }

  /** Keys are independent and refused calls cost nothing: a key is answered as if its
      own admitted calls were all the limiter had ever seen. */
  lemma KeysAreIndependentAndRefusalsAreFree(rule: LimitRule, ops: seq<Op>, key: string, t: Instant)
    requires Ordered(ops, t)
    ensures AnswerAt(rule, Run(rule, Essential(rule, ops, key)), key, t) == AnswerAt(rule, Run(rule, ops), key, t)
  {
    hide AdmittedAt, Ordered, Essential, AnswerAt;
    EssentialAdmissions(rule, ops, key, t);
    OnlyAdmissionsMatter(rule, Essential(rule, ops, key), ops, key, t);
  }

  // ---------------------------------------------------------------------------
  // The advertised wait
  // ---------------------------------------------------------------------------

  /** d nanoseconds restore the missing part of a token exactly when they are at
      least the wait. */
  lemma WaitIsWhatRestoresOne(rule: LimitRule, d: int, level: real)
    ensures level + Restored(rule, d) >= 1.0 <==> d as real >= ExactWait(rule, level)
  {
    var s, rate := SECOND as real, PerSecond(rule);
    var q := (1.0 - level) / rate;
    assert q * rate == 1.0 - level;
    assert (Seconds(d) - q) * rate == Restored(rule, d) - (1.0 - level);
    assert (Seconds(d) - q) * rate >= 0.0 <==> Seconds(d) >= q by { SameSign(Seconds(d) - q, rate); }
    assert Seconds(d) * s == d as real;
    assert (Seconds(d) - q) * s == d as real - ExactWait(rule, level);
    SameSign(Seconds(d) - q, s);
  }

  lemma SameSign(x: real, r: real)
    requires r > 0.0
    ensures x * r >= 0.0 <==> x >= 0.0
  {
  }

  /** Nothing of this key's has been admitted since `ops`. */
  predicate QuietSince(rule: LimitRule, ops: seq<Op>, later: seq<Op>, key: string) {
    AdmittedAt(rule, ops + later, key) == AdmittedAt(rule, ops, key)
  }

  /** After a refusal, and until another call of the key gets in, a retry is admitted
      exactly when the exact wait has passed, however many retries were refused. */
  lemma RetrySucceedsExactlyAfterTheWait(rule: LimitRule, ops: seq<Op>, later: seq<Op>, key: string, t: Instant, u: Instant)
    requires Ordered(ops, t) && t <= u && Ordered(ops + later, u)
    requires AnswerAt(rule, Run(rule, ops), key, t).Refused? && QuietSince(rule, ops, later, key)
    ensures AnswerAt(rule, Run(rule, ops + later), key, u).Admitted? <==>
      (u - t) as real >= ExactWait(rule, Level(rule, Run(rule, ops), key, t))
  {
    hide Run, AdmittedAt, Restored, ExactWait, Level;
    var level := Level(rule, Run(rule, ops), key, t);
    OrderedLater(ops, t, u);
    OnlyAdmissionsMatter(rule, ops, ops + later, key, u);
    RunIsSane(rule, ops, t);
    LevelComposes(rule, Run(rule, ops), key, t, u);
    WaitIsWhatRestoresOne(rule, u - t, level);
  }

  /** Every retry earlier than the exact wait is refused. */
  lemma {:induction false} EarlyRetriesAreRefused(rule: LimitRule, ops: seq<Op>, later: seq<Op>, key: string, t: Instant, u: Instant)
    requires Ordered(ops, t) && Ordered(ops + later, u)
    requires AnswerAt(rule, Run(rule, ops), key, t).Refused?
    requires forall i | 0 <= i < |later| ::
      t <= later[i].at && (later[i].at - t) as real < ExactWait(rule, Level(rule, Run(rule, ops), key, t))
    ensures QuietSince(rule, ops, later, key)
    decreases |later|
  {
    hide Run, Restored, ExactWait, Level, AnswerAt;
    if later == [] {
      assert ops + later == ops;
    } else {
      var n := |later| - 1;
      var op, so := later[n], ops + later[..n];
      assert (ops + later)[..|ops + later| - 1] == so && (ops + later)[|ops + later| - 1] == op;
      EarlierIsOrdered(ops + later, u);
      EarlyRetriesAreRefused(rule, ops, later[..n], key, t, op.at);
      RetrySucceedsExactlyAfterTheWait(rule, ops, later[..n], key, t, op.at);
    }
  }

  lemma EarlierIsOrdered(ops: seq<Op>, now: Instant)
    requires Ordered(ops, now) && ops != []
    ensures Ordered(ops[..|ops| - 1], ops[|ops| - 1].at)
  {
  }

  /** internal/httpapi/middleware.go: the Retry-After header, in whole seconds. */
  function RetryAfter(wait: int): int
    requires wait >= 0
  {
    wait / SECOND + 1
  }

  datatype Advice = AMoment | Count(seconds: int) | AMinute | Minutes(minutes: int)

  /** internal/httpapi/errors.go: the wait as the message words it. */
  function Advise(wait: int): Advice
    requires wait >= 0
  {
    var seconds := RetryAfter(wait);
    if seconds >= 120 then Minutes((seconds + 59) / 60)
    else if seconds >= 60 then AMinute
    else if seconds > 1 then Count(seconds)
    else AMoment
  }

  /** The seconds a reader of the message would wait. */
  function Understood(advice: Advice): int {
    match advice
    case AMoment => 1
    case Count(seconds) => seconds
    case AMinute => 60
    case Minutes(minutes) => 60 * minutes
  }

  lemma RefusalHasAWait(rule: LimitRule, m: Buckets, key: string, t: Instant)
    requires AnswerAt(rule, m, key, t).Refused?
    ensures var exact := ExactWait(rule, Level(rule, m, key, t));
      exact > 0.0 && AnswerAt(rule, m, key, t).wait == exact.Floor >= 0
  {
    hide Level;
    var level := Level(rule, m, key, t);
    var q := (1.0 - level) / PerSecond(rule);
    assert q * PerSecond(rule) > 0.0;
    assert q > 0.0;
  }

  /** The header survives both truncations: it is never less than the exact wait, and
      exceeds it by at most a second. */
  lemma HeaderCoversTheWait(exact: real)
    requires exact >= 0.0
    ensures exact < (RetryAfter(exact.Floor) * SECOND) as real <= exact + SECOND as real
  {
    var wait := exact.Floor;
    assert wait % SECOND < SECOND;
  }

  /** Nor does the message ask for much more: for waits under two minutes at most a second
      more than the exact wait, and for longer ones at most a minute. */
  lemma MessageIsTight(exact: real)
    requires exact >= 0.0
    ensures var advice, over := Advise(exact.Floor), Understood(Advise(exact.Floor)) as real * SECOND as real - exact;
      && (exact < (119 * SECOND) as real ==> over <= SECOND as real && !advice.Minutes?)
      && (exact >= (119 * SECOND) as real ==> 0.0 < over <= (60 * SECOND) as real && advice.Minutes?)
      && (advice.AMinute? <==> (59 * SECOND) as real <= exact < (119 * SECOND) as real)
      && (advice.AMoment? <==> exact < SECOND as real)
  {
    HeaderCoversTheWait(exact);
  }

  /** A call Retry-After seconds after the refusal, or later, is admitted. */
  lemma RetryAfterSuffices(rule: LimitRule, ops: seq<Op>, later: seq<Op>, key: string, t: Instant, u: Instant)
    requires Ordered(ops, t) && t <= u && Ordered(ops + later, u)
    requires AnswerAt(rule, Run(rule, ops), key, t).Refused? && QuietSince(rule, ops, later, key)
    requires var wait := AnswerAt(rule, Run(rule, ops), key, t).wait; wait >= 0 && u - t >= RetryAfter(wait) * SECOND
    ensures AnswerAt(rule, Run(rule, ops + later), key, u).Admitted?
  {
    hide Run, Level, ExactWait, RetryAfter;
    RefusalHasAWait(rule, Run(rule, ops), key, t);
    HeaderCoversTheWait(ExactWait(rule, Level(rule, Run(rule, ops), key, t)));
    RetrySucceedsExactlyAfterTheWait(rule, ops, later, key, t, u);
  }

  /** Waiting as long as the message says suffices in every wording but "a minute",
      which suffices exactly when the exact wait is no more than sixty seconds. */
  lemma MessageSuffices(rule: LimitRule, ops: seq<Op>, key: string, t: Instant)
    requires Ordered(ops, t) && AnswerAt(rule, Run(rule, ops), key, t).Refused?
    ensures var wait := AnswerAt(rule, Run(rule, ops), key, t).wait;
      wait >= 0 &&
      (AnswerAt(rule, Run(rule, ops), key, t + Understood(Advise(wait)) * SECOND).Admitted? <==>
        (Advise(wait).AMinute? ==> ExactWait(rule, Level(rule, Run(rule, ops), key, t)) <= (60 * SECOND) as real))
  {
    hide Run, Level, ExactWait;
    RefusalHasAWait(rule, Run(rule, ops), key, t);
    var wait := AnswerAt(rule, Run(rule, ops), key, t).wait;
    var u := t + Understood(Advise(wait)) * SECOND;
    OrderedLater(ops, t, u);
    assert ops + [] == ops;
    RetrySucceedsExactlyAfterTheWait(rule, ops, [], key, t, u);
    if !Advise(wait).AMinute? {
      assert Understood(Advise(wait)) >= RetryAfter(wait);
      RetryAfterSuffices(rule, ops, [], key, t, u);
    }
  }

  // ---------------------------------------------------------------------------
  // The burst, and the wording that falls short
  // ---------------------------------------------------------------------------

  function Repeated(key: string, at: Instant, n: nat): (ops: seq<Op>)
    ensures |ops| == n && Ordered(ops, at)
  {
    if n == 0 then [] else Repeated(key, at, n - 1) + [Call(key, at)]
  }

  predicate AllAt(times: seq<Instant>, at: Instant) {
    forall i | 0 <= i < |times| :: times[i] == at
  }

  lemma WindowsAtOnce(rule: LimitRule, times: seq<Instant>, at: Instant)
    requires AllAt(times, at)
    ensures EveryWindowAllows(rule, times, at) <==> |times| + 1 <= rule.burst
  {
    hide Restored;
    RestoredIsLinear(rule, 0, 0);
    assert times != [] ==> (OneMoreFits(rule, times, 0, at) <==> |times| + 1 <= rule.burst);
  }

  /** From a fresh start, of any number of calls made at once exactly the burst gets in. */
  lemma {:induction false} ExactlyTheBurstGetsIn(rule: LimitRule, key: string, at: Instant, n: nat)
    ensures |AdmittedAt(rule, Repeated(key, at, n), key)| == if n <= rule.burst then n else rule.burst
    ensures AllAt(AdmittedAt(rule, Repeated(key, at, n), key), at)
  {
    hide Restored, AnswerAt, EveryWindowAllows, Run, Ordered;
    if n > 0 {
      var before := Repeated(key, at, n - 1);
      assert Repeated(key, at, n)[..n - 1] == before;
      ExactlyTheBurstGetsIn(rule, key, at, n - 1);
      AdmittedExactlyWhenEveryWindowAllows(rule, before, key, at);
      WindowsAtOnce(rule, AdmittedAt(rule, before, key), at);
    }
  }

  /** Recovery attempts: five at once, then a sixth at 80 s is told "a minute" and is
      still refused at 140 s, because 100 s were missing. */
  lemma AMinuteCanBeTooShort()
    ensures var spent := Repeated("203.0.113.7", 0, 5);
      && AnswerAt(RECOVERY, Run(RECOVERY, spent), "203.0.113.7", 80 * SECOND) == Refused(100 * SECOND)
      && Advise(100 * SECOND) == AMinute
      && AnswerAt(RECOVERY, Run(RECOVERY, spent), "203.0.113.7", 140 * SECOND).Refused?
  {
    hide Run, AdmittedAt, Level;
    var key := "203.0.113.7";
    var spent := Repeated(key, 0, 5);
    ExactlyTheBurstGetsIn(RECOVERY, key, 0, 5);
    var times := AdmittedAt(RECOVERY, spent, key);
    assert PerSecond(RECOVERY) == 1.0 / 180.0;
    LevelIsTheTightestWindow(RECOVERY, spent, key, 80 * SECOND, 4.0 / 9.0);
    forall x | x > 4.0 / 9.0 ensures !EveryWindowLeaves(RECOVERY, times, 80 * SECOND, x) {
      assert LeftInWindow(RECOVERY, times, 0, 80 * SECOND) == 4.0 / 9.0;
    }
    LevelIsTheTightestWindow(RECOVERY, spent, key, 80 * SECOND, Level(RECOVERY, Run(RECOVERY, spent), key, 80 * SECOND));
    assert Level(RECOVERY, Run(RECOVERY, spent), key, 80 * SECOND) == 4.0 / 9.0;
    LevelIsTheTightestWindow(RECOVERY, spent, key, 140 * SECOND, 1.0);
    assert LeftInWindow(RECOVERY, times, 0, 140 * SECOND) == 7.0 / 9.0;
  }

  /** A sweep drops exactly the buckets that have been idle for longer than asked and are
      full again, and touches no other. */
  lemma SweptExactlyWhen(rule: LimitRule, m: Buckets, idleFor: int, now: Instant, key: string)
    requires key in m
    ensures key !in Swept(rule, m, idleFor, now) <==> now - m[key].lastSeen > idleFor && Level(rule, m, key, now) >= rule.burst as real
    ensures key in Swept(rule, m, idleFor, now) ==> Swept(rule, m, idleFor, now)[key] == m[key]
  {
    hide Refilled;
  }
}
