/** The retry hint given on denial: how far off it can be, and when coming back on time succeeds. */
module RateRetry {
  import opened Basics
  import opened RateLimit
  import opened RateSweep
  import opened RateAdmission

  ghost function LastOf<T>(s: seq<T>): T
    requires s != []
  {
    s[|s| - 1]
  }

  /** The wait lands strictly within a whole second above, and strictly within one nanosecond below, the exact one. */
  lemma WaitBounds(p: Params, tokens: real)
    requires p.Valid() && tokens < 1.0
    ensures ExactWait(p, tokens) > 0.0
    ensures Wait(p, tokens) > 0 && Wait(p, tokens) % SECOND == 0
    ensures ExactWait(p, tokens) - 1.0 < Wait(p, tokens) as real < ExactWait(p, tokens) + SECOND as real
    ensures Wait(p, tokens) as real < ExactWait(p, tokens) <==> HintShort(p, tokens)
  {
    var need := 1.0 - tokens;
    assert need / p.rate > 0.0;
    var wait := ExactWait(p, tokens).Floor;
    if wait % SECOND != 0 {
      var up := wait + SECOND - wait % SECOND;
      assert up == SECOND * (wait / SECOND + 1);
    }
  }

  /** The exact wait exceeds a positive whole number of seconds by less than a nanosecond. */
  predicate HintShort(p: Params, tokens: real)
    requires p.rate > 0.0
  {
    var x := ExactWait(p, tokens);
    x.Floor > 0 && x.Floor % SECOND == 0 && x.Floor as real < x
  }

  /** Refilling for `ns` reaches one token exactly when `ns` is at least the exact wait. */
  lemma EnoughRefill(p: Params, tokens: real, ns: int)
    requires p.Valid()
    ensures tokens + Refill(p, ns) >= 1.0 <==> ns as real >= ExactWait(p, tokens)
  {
    var w := ExactWait(p, tokens);
    var x := ns as real;
    assert w / 1000000000.0 * p.rate == 1.0 - tokens;
    assert (x - w) / 1000000000.0 * p.rate == x / 1000000000.0 * p.rate - w / 1000000000.0 * p.rate;
    if x >= w { assert (x - w) / 1000000000.0 * p.rate >= 0.0; }
    else { assert (w - x) / 1000000000.0 * p.rate > 0.0; }
  }

  /** Tokens the key of the last call holds after it, in the reference limiter. */
  ghost function TokensAfter(p: Params, calls: seq<Call>): real
    requires p.Valid() && calls != []
  {
    var c := LastOf(calls);
    Take(p, Touch(p, Lookup(RefFinal(p, map[], calls[..|calls| - 1]), c.key), c.now)).0.tokens
  }

  /** On a non-decreasing clock no bucket is stamped later than the last call. */
  lemma {:induction false} NoLaterStamp(p: Params, calls: seq<Call>, key: string)
    requires p.Valid() && NonDecreasing(calls)
    ensures var b := Lookup(RefFinal(p, map[], calls), key);
            b.Some? ==> calls != [] && b.value.last <= LastOf(calls).now
  {
    if calls != [] {
      var pre, c := calls[..|calls| - 1], LastOf(calls);
      OrderedPrefix(calls, |pre|);
      NoLaterStamp(p, pre, key);
      assert pre != [] ==> calls[|calls| - 2].now <= c.now;
      hide Refill;
    }
  }

  /** After a call on a non-decreasing clock, the key's bucket is stamped with that call's time. */
  lemma {:induction false} BucketAfter(p: Params, calls: seq<Call>)
    requires p.Valid() && NonDecreasing(calls) && calls != []
    ensures Lookup(RefFinal(p, map[], calls), LastOf(calls).key)
            == Some(Bucket(TokensAfter(p, calls), LastOf(calls).now))
    ensures var a := LastOf(RefAnswers(p, map[], calls));
            !a.ok ==> TokensAfter(p, calls) < 1.0 && a.retryAfter == Wait(p, TokensAfter(p, calls))
  {
    var pre, c := calls[..|calls| - 1], LastOf(calls);
    assert pre != [] ==> pre[|pre| - 1].now <= c.now;
    OrderedPrefix(calls, |pre|);
    hide RefFinal, RefAnswers, Refill, NonDecreasing;
    ReferenceTableOk(p, pre);
    NoLaterStamp(p, pre, c.key);
    var before := Lookup(RefFinal(p, map[], pre), c.key);
    TouchKeepsBucketOk(p, before, c.now);
    assert calls == pre + [c];
    RefSnoc(p, map[], pre, c);
  }

  lemma {:induction false} ForeignCallsLeaveBucket(p: Params, m: map<string, Bucket>, calls: seq<Call>, key: string)
    requires p.Valid() && forall c :: c in calls ==> c.key != key
    ensures Lookup(RefFinal(p, m, calls), key) == Lookup(m, key)
  {
    if calls != [] {
      ForeignCallsLeaveBucket(p, m, calls[..|calls| - 1], key);
    }
  }

  lemma RetryStep(p: Params, m: map<string, Bucket>, c: Call, tokens: real, last: int)
    requires p.Valid() && c.now > last && Lookup(m, c.key) == Some(Bucket(tokens, last))
    ensures Serve(p, m, c).1.ok <==> (c.now - last) as real >= ExactWait(p, tokens)
  {
    EnoughRefill(p, tokens, c.now - last);
  }

  /** The last call of the run was denied. */
  ghost predicate Denied(p: Params, calls: seq<Call>)
    requires p.Valid() && calls != []
  {
    !LastOf(Answers(p, calls)).ok
  }

  /** The wait hinted at to the last call of the run. */
  ghost function Hint(p: Params, calls: seq<Call>): int
    requires p.Valid() && calls != []
  {
    LastOf(Answers(p, calls)).retryAfter
  }

  /** Others call meanwhile, then the last caller comes back after `wait`. */
  ghost function Retry(calls: seq<Call>, others: seq<Call>, wait: int): seq<Call>
    requires calls != []
  {
    calls + others + [Call(LastOf(calls).key, LastOf(calls).now + wait)]
  }

  /** The others use other keys, and the clock never runs backwards. */
  ghost predicate LoneRetry(calls: seq<Call>, others: seq<Call>, wait: int)
    requires calls != []
  {
    NonDecreasing(Retry(calls, others, wait)) && forall c :: c in others ==> c.key != LastOf(calls).key
  }

  /** A denied caller that comes back is granted exactly when it waited at least the exact wait. */
  lemma {:induction false} RetryOutcome(p: Params, calls: seq<Call>, others: seq<Call>, wait: int)
    requires p.Valid() && ForgetsOnlyFull(p, 0) && calls != [] && wait > 0
    ensures Denied(p, calls) && LoneRetry(calls, others, wait) ==>
              && TokensAfter(p, calls) < 1.0 && Hint(p, calls) == Wait(p, TokensAfter(p, calls))
              && (LastOf(Answers(p, Retry(calls, others, wait))).ok
                  <==> wait as real >= ExactWait(p, TokensAfter(p, calls)))
  {
    if Denied(p, calls) && LoneRetry(calls, others, wait) {
      var denied := LastOf(calls);
      var retry := Call(denied.key, denied.now + wait);
      var all := calls + others + [retry];
      OrderedPrefix(all, |calls|);
      assert all[..|calls|] == calls;
      SweepTransparency(p, 0, calls);
      SweepTransparency(p, 0, all);
      BucketAfter(p, calls);
      RefAnswersSplit(p, map[], calls, others);
      ForeignCallsLeaveBucket(p, RefFinal(p, map[], calls), others, denied.key);
      RefSnoc(p, map[], calls + others, retry);
      RetryStep(p, RefFinal(p, map[], calls + others), retry, TokensAfter(p, calls), denied.now);
    }
  }

  /** Every denial, in every run, hints at a positive whole number of seconds. */
  lemma DenialHint(p: Params, calls: seq<Call>)
    requires p.Valid() && calls != []
    ensures Denied(p, calls) ==> Hint(p, calls) > 0 && Hint(p, calls) % SECOND == 0
  {
    var c := LastOf(calls);
    var s := Sweep(p, Final(p, calls[..|calls| - 1]), c.now).buckets;
    var tokens := Touch(p, Lookup(s, c.key), c.now).tokens;
    if tokens < 1.0 { WaitBounds(p, tokens); }
  }

  /** Coming back one nanosecond after the hinted wait always succeeds, whoever else called meanwhile. */
  lemma {:induction false} RetryGranted(p: Params, calls: seq<Call>, others: seq<Call>)
    requires p.Valid() && ForgetsOnlyFull(p, 0) && calls != []
    ensures Denied(p, calls) && LoneRetry(calls, others, Hint(p, calls) + 1) ==>
              LastOf(Answers(p, Retry(calls, others, Hint(p, calls) + 1))).ok
  {
    if Denied(p, calls) && LoneRetry(calls, others, Hint(p, calls) + 1) {
      DenialHint(p, calls);
      RetryOutcome(p, calls, others, Hint(p, calls) + 1);
      WaitBounds(p, TokensAfter(p, calls));
    }
  }

  /**
   Coming back after exactly the hinted wait succeeds if and only if the hint is not short, that
   is unless the exact wait lies within a nanosecond above a whole number of seconds.
   */
  lemma {:induction false} RetryOnTimeIff(p: Params, calls: seq<Call>, others: seq<Call>)
    requires p.Valid() && ForgetsOnlyFull(p, 0) && calls != []
    ensures Denied(p, calls) && LoneRetry(calls, others, Hint(p, calls)) ==>
              (LastOf(Answers(p, Retry(calls, others, Hint(p, calls)))).ok <==> !HintShort(p, TokensAfter(p, calls)))
  {
    if Denied(p, calls) && LoneRetry(calls, others, Hint(p, calls)) {
      DenialHint(p, calls);
      RetryOutcome(p, calls, others, Hint(p, calls));
      WaitBounds(p, TokensAfter(p, calls));
    }
  }

  /** The hint does not overstate: coming back a second or more before its time is always refused. */
  lemma {:induction false} RetryTooEarly(p: Params, calls: seq<Call>, others: seq<Call>, wait: int)
    requires p.Valid() && ForgetsOnlyFull(p, 0) && calls != []
    ensures Denied(p, calls) && 0 < wait <= Hint(p, calls) - SECOND && LoneRetry(calls, others, wait) ==>
              !LastOf(Answers(p, Retry(calls, others, wait))).ok
  {
    if Denied(p, calls) && 0 < wait <= Hint(p, calls) - SECOND && LoneRetry(calls, others, wait) {
      RetryOutcome(p, calls, others, wait);
      WaitBounds(p, TokensAfter(p, calls));
    }
  }

  // ---------------------------------------------------------------- limiters whose hint is never short

  ghost predicate Whole(x: real) {
    x == x.Floor as real
  }

  /** Tokens held in whole q-ths, one q-th being what a nanosecond earns. */
  ghost predicate InGrid(tokens: real, q: real) {
    Whole(tokens * q)
  }

  /** One token takes a whole number q of nanoseconds, and the capacity is a whole number of q-ths. */
  ghost predicate OnGrid(p: Params, q: int) {
    q > 0 && p.rate * q as real == 1000000000.0 && InGrid(p.burst, q as real)
  }

  lemma GridAdd(tokens: real, d: real, q: real, n: int)
    requires InGrid(tokens, q) && d * q == n as real
    ensures InGrid(tokens + d, q)
  {
    assert (tokens + d) * q == tokens * q + d * q;
    assert (tokens + d) * q == ((tokens * q).Floor + n) as real;
  }

  lemma GridRefill(p: Params, q: int, tokens: real, ns: int)
    requires p.Valid() && OnGrid(p, q) && InGrid(tokens, q as real)
    ensures InGrid(tokens + Refill(p, ns), q as real)
  {
    var x := ns as real / 1000000000.0;
    assert (x * p.rate) * q as real == x * (p.rate * q as real);
    GridAdd(tokens, Refill(p, ns), q as real, ns);
  }

  lemma GridTake(q: int, tokens: real)
    requires InGrid(tokens, q as real)
    ensures InGrid(tokens - 1.0, q as real)
  {
    GridAdd(tokens, -1.0, q as real, -q);
  }

  lemma {:induction false} GridRun(p: Params, q: int, calls: seq<Call>)
    requires p.Valid()
    ensures OnGrid(p, q) ==>
              forall k :: k in RefFinal(p, map[], calls) ==> InGrid(RefFinal(p, map[], calls)[k].tokens, q as real)
  {
    if calls != [] && OnGrid(p, q) {
      var pre, c := calls[..|calls| - 1], calls[|calls| - 1];
      GridRun(p, q, pre);
      var m := RefFinal(p, map[], pre);
      if c.key in m { GridRefill(p, q, m[c.key].tokens, c.now - m[c.key].last); }
      var b := Touch(p, Lookup(m, c.key), c.now);
      assert InGrid(b.tokens, q as real);
      GridTake(q, b.tokens);
      RefSnoc(p, map[], pre, c);
      assert calls == pre + [c];
    }
  }

  lemma DivideOut(need: real, rate: real, q: real, second: real)
    requires rate > 0.0 && rate * q == second
    ensures need / rate * second == need * q
  {
    var y := need / rate;
    assert y * rate == need;
    assert y * (rate * q) == (y * rate) * q;
  }

  lemma WholeDifference(x: real, q: real, d: real)
    requires Whole(x) && Whole(q) && d == q - x
    ensures Whole(d)
  {
    assert d == (q.Floor - x.Floor) as real;
  }

  lemma GridComplement(tokens: real, q: real, d: real)
    requires InGrid(tokens, q) && Whole(q) && d == (1.0 - tokens) * q
    ensures Whole(d)
  {
    Complement(tokens, q);
    WholeDifference(tokens * q, q, d);
  }

  lemma Complement(tokens: real, q: real)
    ensures (1.0 - tokens) * q == q - tokens * q
  {
  }

  lemma WholeWait(p: Params, q: real, tokens: real)
    requires p.Valid() && InGrid(tokens, q) && Whole(q) && p.rate * q == 1000000000.0
    ensures Whole(ExactWait(p, tokens))
  {
    DivideOut(1.0 - tokens, p.rate, q, 1000000000.0);
    GridComplement(tokens, q, ExactWait(p, tokens));
  }

  lemma GridNeverShort(p: Params, q: int, tokens: real)
    requires p.Valid() && OnGrid(p, q) && InGrid(tokens, q as real)
    ensures !HintShort(p, tokens)
  {
    WholeWait(p, q as real, tokens);
  }

  lemma DeployedOnGrid()
    ensures OnGrid(EXCHANGE, 12 * SECOND) && OnGrid(ADMIN, SECOND)
  {
    assert EXCHANGE.burst * (12 * SECOND) as real == (120 * SECOND) as real;
    assert ADMIN.burst * SECOND as real == (20 * SECOND) as real;
  }

  /** Both deployed limiters: coming back after exactly the hinted wait is always granted. */
  lemma {:induction false} DeployedRetryOnTime(p: Params, calls: seq<Call>, others: seq<Call>)
    requires (p == EXCHANGE || p == ADMIN) && calls != []
    ensures p.Valid()
    ensures Denied(p, calls) && LoneRetry(calls, others, Hint(p, calls)) ==>
              LastOf(Answers(p, Retry(calls, others, Hint(p, calls)))).ok
  {
    DeployedForgetOnlyFull(0);
    if Denied(p, calls) && LoneRetry(calls, others, Hint(p, calls)) {
      var q := if p == EXCHANGE then 12 * SECOND else SECOND;
      DeployedOnGrid();
      hide Answers, InGrid, HintShort, RefFinal;
      var all := Retry(calls, others, Hint(p, calls));
      OrderedPrefix(all, |calls|);
      assert all[..|calls|] == calls;
      BucketAfter(p, calls);
      GridRun(p, q, calls);
      GridNeverShort(p, q, TokensAfter(p, calls));
      RetryOnTimeIff(p, calls, others);
    }
  }

  // ---------------------------------------------------------------- a limiter whose hint is short

  // One token takes a second and half a nanosecond.
  const SLOW: Params := New(2000000000.0 / 2000000001.0, 1.0)
  const FIRST_TWO: seq<Call> := [Call("k", 0), Call("k", 0)]

  /** The second call is told to wait one second, comes back a second later, and is denied again. */
  lemma ShortHintExample()
    ensures SLOW.Valid() && ForgetsOnlyFull(SLOW, 0)
    ensures Answers(SLOW, FIRST_TWO) == [Answer(true, 0), Answer(false, SECOND)]
    ensures !LastOf(Answers(SLOW, FIRST_TWO + [Call("k", SECOND)])).ok
  {
    assert FIRST_TWO[..1] == [Call("k", 0)];
    assert Final(SLOW, FIRST_TWO[..1]) == State(map["k" := Bucket(0.0, 0)], Some(0)) by {
      assert FIRST_TWO[..1][..0] == [];
    }
    assert ExactWait(SLOW, 0.0) == 1000000000.5;
    assert Answers(SLOW, FIRST_TWO[..1]) == [Answer(true, 0)];
    var all := FIRST_TWO + [Call("k", SECOND)];
    assert all[..|all| - 1] == FIRST_TWO;
    assert Final(SLOW, FIRST_TWO).buckets["k"] == Bucket(0.0, 0);
  }

  // ---------------------------------------------------------------- the Retry-After header

  /** Seconds sent in the admin API's Retry-After header. */
  function RetryAfterHeader(retryAfter: int): int {
    var secs := if retryAfter < 0 then -(-retryAfter / SECOND) else retryAfter / SECOND;
    if secs < 1 then 1 else secs
  }

  /** On every denial of every run the header says exactly what the limiter said. */
  lemma HeaderLosesNothing(p: Params, calls: seq<Call>)
    requires p.Valid() && calls != []
    ensures Denied(p, calls) ==> RetryAfterHeader(Hint(p, calls)) * SECOND == Hint(p, calls)
  {
    DenialHint(p, calls);
  }
}
