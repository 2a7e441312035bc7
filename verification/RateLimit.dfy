/**
 The keyed token-bucket limiter. `Allow` is the limiter that lazily sweeps idle
 buckets; `RefAnswers` is the reference limiter that never forgets a bucket.
 */
module RateLimit {
  import opened Basics

  /** Settings of a limiter: tokens per second, capacity, idle time before a sweep may forget a bucket. */
  datatype Params = Params(rate: real, burst: real, ttl: int) {
    predicate Valid() {
      rate > 0.0 && burst >= 1.0 && ttl > 0
    }
  }

  function New(ratePerSec: real, burst: real): (p: Params)
    ensures p.Valid() && p.ttl == 600 * SECOND
    ensures p.burst >= burst && p.burst in {burst, 1.0} && (p.burst == burst <==> burst >= 1.0)
    ensures p.rate >= ratePerSec && p.rate in {ratePerSec, 1.0} && (p.rate == ratePerSec <==> ratePerSec > 0.0)
  {
    Params(if ratePerSec <= 0.0 then 1.0 else ratePerSec,
           if burst < 1.0 then 1.0 else burst,
           10 * MINUTE)
  }

  // The two limiters the process runs with.
  const EXCHANGE: Params := New(5.0 / 60.0, 10.0)
  const ADMIN: Params := New(1.0, 20.0)

  datatype Bucket = Bucket(tokens: real, last: int)

  // No sweep has happened yet while `lastSweep` is None (Go's zero time).
  datatype State = State(buckets: map<string, Bucket>, lastSweep: Option<int>)

  datatype Call = Call(key: string, now: int)

  datatype Answer = Answer(ok: bool, retryAfter: int)

  /** Tokens earned in `ns` nanoseconds. */
  function Refill(p: Params, ns: int): real {
    ns as real / 1000000000.0 * p.rate
  }

  /** The bucket a call at `now` finds: a fresh full one, or the stored one topped up. */
  function Touch(p: Params, b: Option<Bucket>, now: int): Bucket {
    match b
    case None => Bucket(p.burst, now)
    case Some(b) =>
      if now > b.last then
        var t := b.tokens + Refill(p, now - b.last);
        Bucket(if t > p.burst then p.burst else t, now)
      else b
  }

  /** Nanoseconds, not rounded, until the bucket holds one token. */
  function ExactWait(p: Params, tokens: real): real
    requires p.rate > 0.0
  {
    (1.0 - tokens) / p.rate * 1000000000.0
  }

  /** The wait reported on denial: truncated to a nanosecond, then up to a whole second. */
  function Wait(p: Params, tokens: real): int
    requires p.rate > 0.0
  {
    var wait := ExactWait(p, tokens).Floor;
    var up := if wait % SECOND != 0 then wait + SECOND - wait % SECOND else wait;
    if up <= 0 then SECOND else up
  }

  function Take(p: Params, b: Bucket): (Bucket, Answer)
    requires p.rate > 0.0
  {
    if b.tokens >= 1.0 then (b.(tokens := b.tokens - 1.0), Answer(true, 0))
    else (b, Answer(false, Wait(p, b.tokens)))
  }

  function Lookup(m: map<string, Bucket>, key: string): Option<Bucket> {
    if key in m then Some(m[key]) else None
  }

  /** One call against a table of buckets, with no sweeping. */
  function Serve(p: Params, m: map<string, Bucket>, c: Call): (map<string, Bucket>, Answer)
    requires p.rate > 0.0
  {
    var (b, a) := Take(p, Touch(p, Lookup(m, c.key), c.now));
    (m[c.key := b], a)
  }

  predicate SweepDue(p: Params, s: State, now: int) {
    s.lastSweep.None? || now - s.lastSweep.value >= p.ttl
  }

  function Retained(p: Params, m: map<string, Bucket>, now: int): map<string, Bucket> {
    map k | k in m && now - m[k].last <= p.ttl :: m[k]
  }

  function Sweep(p: Params, s: State, now: int): State {
    if SweepDue(p, s, now) then State(Retained(p, s.buckets, now), Some(now)) else s
  }

  function Allow(p: Params, s: State, c: Call): (State, Answer)
    requires p.rate > 0.0
  {
    var swept := Sweep(p, s, c.now);
    var (m, a) := Serve(p, swept.buckets, c);
    (State(m, swept.lastSweep), a)
  }

  // ---------------------------------------------------------------- runs

  /** State of the sweeping limiter after a run of calls from its creation. */
  function Final(p: Params, calls: seq<Call>): State
    requires p.rate > 0.0
  {
    if calls == [] then State(map[], None)
    else Allow(p, Final(p, calls[..|calls| - 1]), calls[|calls| - 1]).0
  }

  /** What the sweeping limiter answers, call by call. */
  function Answers(p: Params, calls: seq<Call>): (r: seq<Answer>)
    requires p.rate > 0.0
    ensures |r| == |calls|
  {
    if calls == [] then []
    else
      var pre := calls[..|calls| - 1];
      Answers(p, pre) + [Allow(p, Final(p, pre), calls[|calls| - 1]).1]
  }

  /** Table of the limiter that never deletes, started from `m`. */
  function RefFinal(p: Params, m: map<string, Bucket>, calls: seq<Call>): map<string, Bucket>
    requires p.rate > 0.0
  {
    if calls == [] then m
    else Serve(p, RefFinal(p, m, calls[..|calls| - 1]), calls[|calls| - 1]).0
  }

  function RefAnswers(p: Params, m: map<string, Bucket>, calls: seq<Call>): (r: seq<Answer>)
    requires p.rate > 0.0
    ensures |r| == |calls|
  {
    if calls == [] then []
    else
      var pre := calls[..|calls| - 1];
      RefAnswers(p, m, pre) + [Serve(p, RefFinal(p, m, pre), calls[|calls| - 1]).1]
  }

  /** Timestamps may arrive out of order, but none lies more than `lag` behind an earlier one. */
  ghost predicate Lagging(calls: seq<Call>, lag: int) {
    forall i, j :: 0 <= i <= j < |calls| ==> calls[i].now - lag <= calls[j].now
  }

  ghost predicate NonDecreasing(calls: seq<Call>) {
    Lagging(calls, 0)
  }

  /** A bucket idle long enough to be swept is refilled by the time of any call that may still come. */
  predicate ForgetsOnlyFull(p: Params, lag: int) {
    Refill(p, p.ttl + 1 - lag) >= p.burst
  }

  /** Both deployed limiters meet the condition, even for timestamps up to eight minutes out of order. */
  lemma DeployedForgetOnlyFull(lag: nat)
    requires lag <= 8 * MINUTE
    ensures EXCHANGE.Valid() && ForgetsOnlyFull(EXCHANGE, lag)
    ensures ADMIN.Valid() && ForgetsOnlyFull(ADMIN, lag)
  {
  }

  // ---------------------------------------------------------------- refill arithmetic

  lemma RefillMonotone(p: Params, a: int, b: int)
    requires p.Valid() && a <= b
    ensures Refill(p, a) <= Refill(p, b)
  {
    var x, y := a as real / 1000000000.0, b as real / 1000000000.0;
    assert (y - x) * p.rate >= 0.0;
  }

  lemma RefillAdds(p: Params, a: int, b: int)
    ensures Refill(p, a + b) == Refill(p, a) + Refill(p, b)
  {
    var x, y := a as real / 1000000000.0, b as real / 1000000000.0;
    assert (a + b) as real / 1000000000.0 == x + y;
    assert (x + y) * p.rate == x * p.rate + y * p.rate;
  }

  // ---------------------------------------------------------------- tables and runs

  ghost predicate BucketOk(p: Params, b: Bucket) {
    0.0 <= b.tokens <= p.burst
  }

  ghost predicate TableOk(p: Params, m: map<string, Bucket>) {
    forall k :: k in m ==> BucketOk(p, m[k])
  }

  lemma TouchKeepsBucketOk(p: Params, b: Option<Bucket>, now: int)
    requires p.Valid() && (b.Some? ==> BucketOk(p, b.value))
    ensures BucketOk(p, Touch(p, b, now))
    ensures b.None? || now >= b.value.last ==> Touch(p, b, now).last == now
  {
    if b.Some? && now > b.value.last { RefillMonotone(p, 0, now - b.value.last); }
  }

  lemma ServeKeepsTableOk(p: Params, m: map<string, Bucket>, c: Call)
    requires p.Valid() && TableOk(p, m)
    ensures TableOk(p, Serve(p, m, c).0)
  {
    TouchKeepsBucketOk(p, Lookup(m, c.key), c.now);
  }

  lemma OrderedPrefix(calls: seq<Call>, n: nat)
    requires NonDecreasing(calls) && n <= |calls|
    ensures NonDecreasing(calls[..n])
  {
  }

  lemma RunSnoc(p: Params, calls: seq<Call>, c: Call)
    requires p.Valid()
    ensures Final(p, calls + [c]) == Allow(p, Final(p, calls), c).0
    ensures Answers(p, calls + [c]) == Answers(p, calls) + [Allow(p, Final(p, calls), c).1]
  {
    assert (calls + [c])[..|calls|] == calls;
  }

  lemma RefSnoc(p: Params, m: map<string, Bucket>, calls: seq<Call>, c: Call)
    requires p.Valid()
    ensures RefFinal(p, m, calls + [c]) == Serve(p, RefFinal(p, m, calls), c).0
    ensures RefAnswers(p, m, calls + [c]) == RefAnswers(p, m, calls) + [Serve(p, RefFinal(p, m, calls), c).1]
  {
    assert (calls + [c])[..|calls|] == calls;
  }

  lemma {:induction false} RefAnswersSplit(p: Params, m: map<string, Bucket>, a: seq<Call>, b: seq<Call>)
    requires p.rate > 0.0
    ensures RefFinal(p, m, a + b) == RefFinal(p, RefFinal(p, m, a), b)
    ensures RefAnswers(p, m, a + b) == RefAnswers(p, m, a) + RefAnswers(p, RefFinal(p, m, a), b)
  {
    if b == [] {
      assert a + b == a;
    } else {
      var pre := b[..|b| - 1];
      assert (a + b)[..|a + b| - 1] == a + pre;
      RefAnswersSplit(p, m, a, pre);
    }
  }
}
