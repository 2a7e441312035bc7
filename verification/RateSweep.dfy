/**
 Sweeping is invisible to callers, exactly when an idle time just past the ttl refills a bucket;
 and keys do not interfere although their calls sweep each other's buckets.
 */
module RateSweep {
  import opened Basics
  import opened RateLimit

  /** A bucket that any call from time `t` on finds full. */
  ghost predicate FullBy(p: Params, b: Bucket, t: int) {
    b.last < t && b.tokens + Refill(p, t - b.last) >= p.burst
  }

  /**
   The simulation relation: the sweeping table is part of the reference table, and whatever it
   has forgotten the reference refills to the brim for any call from `t` on.
   */
  ghost predicate Simulates(p: Params, s: map<string, Bucket>, m: map<string, Bucket>, t: int) {
    && TableOk(p, m)
    && (forall k :: k in s ==> k in m && m[k] == s[k])
    && (forall k :: k in m && k !in s ==> FullBy(p, m[k], t))
  }

  /** Whatever a sweep at `now` drops is full again for any call at most `lag` before `now`. */
  lemma SweepKeepsSimulation(p: Params, s: State, m: map<string, Bucket>, lag: nat, now: int, t: int)
    requires p.Valid() && ForgetsOnlyFull(p, lag) && Simulates(p, s.buckets, m, t) && now - lag <= t
    ensures Simulates(p, Sweep(p, s, now).buckets, m, t)
  {
    forall k | k in m && k !in Sweep(p, s, now).buckets ensures FullBy(p, m[k], t) {
      if k in s.buckets {
        RefillMonotone(p, p.ttl + 1 - lag, t - m[k].last);
        if t <= m[k].last { RefillMonotone(p, t - m[k].last, 0); }
      }
    }
  }

  lemma ServeAnswersAlike(p: Params, s: map<string, Bucket>, m: map<string, Bucket>, c: Call)
    requires p.Valid() && Simulates(p, s, m, c.now)
    ensures Touch(p, Lookup(s, c.key), c.now) == Touch(p, Lookup(m, c.key), c.now)
  {
  }

  lemma ServeKeepsSimulation(p: Params, s: map<string, Bucket>, m: map<string, Bucket>, c: Call, t: int)
    requires p.Valid() && Simulates(p, s, m, t)
    requires Touch(p, Lookup(s, c.key), c.now) == Touch(p, Lookup(m, c.key), c.now)
    ensures Simulates(p, Serve(p, s, c).0, Serve(p, m, c).0, t)
  {
    hide Touch, FullBy, BucketOk;
    ServeKeepsTableOk(p, m, c);
  }

  lemma {:induction false} SimulationOverRuns(p: Params, lag: nat, calls: seq<Call>, t: int)
    requires p.Valid() && ForgetsOnlyFull(p, lag) && Lagging(calls, lag)
    requires forall c :: c in calls ==> c.now - lag <= t
    ensures Answers(p, calls) == RefAnswers(p, map[], calls)
    ensures Simulates(p, Final(p, calls).buckets, RefFinal(p, map[], calls), t)
  {
    if calls != [] {
      hide Touch, Simulates, Sweep, ForgetsOnlyFull;
      var pre, c := calls[..|calls| - 1], calls[|calls| - 1];
      var s, m := Final(p, pre), RefFinal(p, map[], pre);
      SimulationOverRuns(p, lag, pre, c.now);
      SweepKeepsSimulation(p, s, m, lag, c.now, c.now);
      var swept := Sweep(p, s, c.now).buckets;
      ServeAnswersAlike(p, swept, m, c);
      SimulationOverRuns(p, lag, pre, t);
      SweepKeepsSimulation(p, s, m, lag, c.now, t);
      ServeKeepsSimulation(p, swept, m, c, t);
    }
  }

  /**
   Callers cannot tell the sweeping limiter from one that never forgets a bucket, even when their
   timestamps, read before the lock is taken, arrive out of order by up to `lag`.
   */
  lemma {:induction false} SweepTransparency(p: Params, lag: nat, calls: seq<Call>)
    requires p.Valid() && ForgetsOnlyFull(p, lag) && Lagging(calls, lag)
    ensures Answers(p, calls) == RefAnswers(p, map[], calls)
  {
    SimulationOverRuns(p, lag, calls, Latest(calls));
  }

  ghost function Latest(calls: seq<Call>): (t: int)
    ensures forall c :: c in calls ==> c.now <= t
  {
    if calls == [] then 0
    else
      var rest := Latest(calls[1..]);
      assert forall c :: c in calls ==> c == calls[0] || c in calls[1..];
      if calls[0].now > rest then calls[0].now else rest
  }

  function Repeat(c: Call, n: nat): (r: seq<Call>)
    ensures |r| == n && forall i :: 0 <= i < n ==> r[i] == c
  {
    seq(n, _ => c)
  }

  /** n calls at one instant are all granted exactly when the bucket they find holds n tokens. */
  lemma {:induction false} InstantBurst(p: Params, m: map<string, Bucket>, c: Call, n: nat)
    requires p.Valid() && n >= 1
    ensures var tokens := Touch(p, Lookup(m, c.key), c.now).tokens;
            && (tokens >= n as real ==>
                  && (forall i :: 0 <= i < n ==> RefAnswers(p, m, Repeat(c, n))[i].ok)
                  && c.key in RefFinal(p, m, Repeat(c, n))
                  && RefFinal(p, m, Repeat(c, n))[c.key].tokens == tokens - n as real
                  && RefFinal(p, m, Repeat(c, n))[c.key].last >= c.now)
            && (tokens < n as real ==> exists i :: 0 <= i < n && !RefAnswers(p, m, Repeat(c, n))[i].ok)
  {
    var calls := Repeat(c, n);
    assert calls[..n - 1] == Repeat(c, n - 1);
    var tokens := Touch(p, Lookup(m, c.key), c.now).tokens;
    if n == 1 {
      if tokens < 1.0 { assert !RefAnswers(p, m, calls)[0].ok; }
    } else {
      InstantBurst(p, m, c, n - 1);
      var pre := RefAnswers(p, m, Repeat(c, n - 1));
      assert RefAnswers(p, m, calls)[..n - 1] == pre;
      if n as real - 1.0 <= tokens < n as real {
        assert !RefAnswers(p, m, calls)[n - 1].ok;
      } else if tokens < n as real - 1.0 {
        var i :| 0 <= i < n - 1 && !pre[i].ok;
        assert !RefAnswers(p, m, calls)[i].ok;
      }
    }
  }

  lemma DrainStep(p: Params, s: State, c: Call)
    requires p.Valid() && !SweepDue(p, s, c.now)
    requires Touch(p, Lookup(s.buckets, c.key), c.now).tokens >= 1.0
    ensures var b := Touch(p, Lookup(s.buckets, c.key), c.now);
            Allow(p, s, c) == (State(s.buckets[c.key := b.(tokens := b.tokens - 1.0)], s.lastSweep), Answer(true, 0))
  {
  }

  lemma SweepOnce(p: Params, s: State, now: int)
    requires p.Valid()
    ensures !SweepDue(p, Sweep(p, s, now), now)
    ensures forall c: Call :: c.now == now ==> Allow(p, s, c) == Allow(p, Sweep(p, s, now), c)
  {
  }

  /** A key whose bucket is gone gets a whole fresh burst. */
  lemma {:induction false} FreshBurst(p: Params, pre: seq<Call>, c: Call, n: nat)
    requires p.Valid() && 1 <= n && n as real <= p.burst
    requires c.key !in Sweep(p, Final(p, pre), c.now).buckets
    ensures var s := Sweep(p, Final(p, pre), c.now);
            Final(p, pre + Repeat(c, n)) == State(s.buckets[c.key := Bucket(p.burst - n as real, c.now)], s.lastSweep)
    ensures forall i :: |pre| <= i < |pre| + n ==> Answers(p, pre + Repeat(c, n))[i].ok
  {
    hide Allow, Final, Answers, Sweep, SweepDue;
    var before := pre + Repeat(c, n - 1);
    assert pre + Repeat(c, n) == before + [c];
    RunSnoc(p, before, c);
    var s := Sweep(p, Final(p, pre), c.now);
    SweepOnce(p, Final(p, pre), c.now);
    if n == 1 {
      assert before == pre;
      DrainStep(p, s, c);
    } else {
      FreshBurst(p, pre, c, n - 1);
      var now := State(s.buckets[c.key := Bucket(p.burst - (n - 1) as real, c.now)], s.lastSweep);
      assert !SweepDue(p, now, c.now) by { SameSweepDue(p, now, s, c.now); }
      DrainStep(p, now, c);
      assert now.buckets[c.key := Bucket(p.burst - n as real, c.now)]
          == s.buckets[c.key := Bucket(p.burst - n as real, c.now)];
    }
  }

  lemma SameSweepDue(p: Params, s: State, t: State, now: int)
    requires s.lastSweep == t.lastSweep
    ensures SweepDue(p, s, now) == SweepDue(p, t, now)
  {
  }

  /** The start of the run that exposes a sweep: drain a key, then let another key's call sweep it. */
  function DrainAndSweep(p: Params, key: string, other: string, n: nat): seq<Call> {
    Repeat(Call(key, 0), n) + [Call(other, p.ttl + 1)]
  }

  /** The whole run: the drained key comes back, stamped `lag` before the sweep, and is drained again. */
  function DrainTwice(p: Params, key: string, other: string, n: nat, lag: nat): seq<Call> {
    DrainAndSweep(p, key, other, n) + Repeat(Call(key, p.ttl + 1 - lag), n)
  }

  lemma SweepDrops(p: Params, s: State, key: string, o: Call, later: int)
    requires p.Valid() && key != o.key && SweepDue(p, s, o.now)
    requires key in s.buckets && o.now - s.buckets[key].last > p.ttl
    ensures key !in Sweep(p, Allow(p, s, o).0, later).buckets
  {
  }

  lemma FirstSweep(p: Params, now: int)
    requires p.Valid()
    ensures Sweep(p, Final(p, []), now) == State(map[], Some(now))
  {
  }

  lemma SweptAway(p: Params, key: string, other: string, n: nat, lag: nat)
    requires p.Valid() && 1 <= n && n as real <= p.burst && key != other
    ensures key !in Sweep(p, Final(p, DrainAndSweep(p, key, other, n)), p.ttl + 1 - lag).buckets
  {
    var c, o := Call(key, 0), Call(other, p.ttl + 1);
    hide Allow, Final, Answers, Sweep;
    FirstSweep(p, 0);
    assert [] + Repeat(c, n) == Repeat(c, n);
    FreshBurst(p, [], c, n);
    RunSnoc(p, Repeat(c, n), o);
    SweepDrops(p, Final(p, Repeat(c, n)), key, o, p.ttl + 1 - lag);
  }

  lemma SweptDrainTwice(p: Params, key: string, other: string, n: nat, lag: nat)
    requires p.Valid() && 1 <= n && n as real <= p.burst && key != other
    ensures forall i :: n + 1 <= i < 2 * n + 1 ==> Answers(p, DrainTwice(p, key, other, n, lag))[i].ok
  {
    hide Sweep, Final, Answers;
    SweptAway(p, key, other, n, lag);
    FreshBurst(p, DrainAndSweep(p, key, other, n), Call(key, p.ttl + 1 - lag), n);
  }

  lemma ReferenceDrained(p: Params, key: string, other: string, n: nat)
    requires p.Valid() && 1 <= n && n as real <= p.burst && key != other
    ensures Lookup(RefFinal(p, map[], DrainAndSweep(p, key, other, n)), key) == Some(Bucket(p.burst - n as real, 0))
  {
    var c := Call(key, 0);
    InstantBurst(p, map[], c, n);
    TouchedLast(p, c, n);
    RefSnoc(p, map[], Repeat(c, n), Call(other, p.ttl + 1));
  }

  /** What n calls leave of a burst, refilled for ttl + 1 - lag, does not pay for n calls again. */
  predicate Underpaid(p: Params, n: nat, lag: nat) {
    p.burst - n as real + Refill(p, p.ttl + 1 - lag) < n as real
  }

  lemma ReferenceDrainTwice(p: Params, key: string, other: string, n: nat, lag: nat)
    requires p.Valid() && 1 <= n && n as real <= p.burst < n as real + 1.0 && key != other && Underpaid(p, n, lag)
    ensures exists i :: n + 1 <= i < 2 * n + 1 && !RefAnswers(p, map[], DrainTwice(p, key, other, n, lag))[i].ok
  {
    hide RefFinal, RefAnswers;
    var first, d := DrainAndSweep(p, key, other, n), Call(key, p.ttl + 1 - lag);
    ReferenceDrained(p, key, other, n);
    var m := RefFinal(p, map[], first);
    InstantBurst(p, m, d, n);
    RefAnswersSplit(p, map[], first, Repeat(d, n));
    var i :| 0 <= i < n && !RefAnswers(p, m, Repeat(d, n))[i].ok;
    assert !RefAnswers(p, map[], DrainTwice(p, key, other, n, lag))[n + 1 + i].ok;
  }

  lemma {:induction false} TouchedLast(p: Params, c: Call, n: nat)
    requires p.Valid() && n >= 1
    ensures c.key in RefFinal(p, map[], Repeat(c, n)) && RefFinal(p, map[], Repeat(c, n))[c.key].last == c.now
  {
    assert Repeat(c, n)[..n - 1] == Repeat(c, n - 1);
    if n > 1 { TouchedLast(p, c, n - 1); }
  }

  /** For any burst: a sweep shows as soon as it spares a caller part of a burst it had not earned back. */
  lemma {:induction false} SweepVisible(p: Params, lag: nat)
    requires p.Valid() && Underpaid(p, p.burst.Floor, lag)
    ensures exists calls :: Lagging(calls, lag) && Answers(p, calls) != RefAnswers(p, map[], calls)
  {
    var n := p.burst.Floor;
    var key, other := "k", "other";
    assert key[0] != other[0];
    hide Answers, RefAnswers, Underpaid;
    SweptDrainTwice(p, key, other, n, lag);
    ReferenceDrainTwice(p, key, other, n, lag);
    var calls := DrainTwice(p, key, other, n, lag);
    assert Lagging(calls, lag);
    var i :| n + 1 <= i < 2 * n + 1 && !RefAnswers(p, map[], calls)[i].ok;
    assert Answers(p, calls)[i].ok;
  }

  /**
   For a whole-number burst the side condition is exact: sweeping is invisible on every run whose
   timestamps lag by at most `lag` if and only if an idle time of ttl + 1 - lag refills an empty
   bucket. With lag 0 this speaks of non-decreasing timestamps.
   */
  lemma {:induction false} SweepTransparentIff(p: Params, lag: nat)
    requires p.Valid() && p.burst == p.burst.Floor as real
    ensures (forall calls :: Lagging(calls, lag) ==> Answers(p, calls) == RefAnswers(p, map[], calls))
            <==> ForgetsOnlyFull(p, lag)
  {
    hide Answers, RefAnswers, Lagging;
    if ForgetsOnlyFull(p, lag) {
      forall calls | Lagging(calls, lag) ensures Answers(p, calls) == RefAnswers(p, map[], calls) {
        SweepTransparency(p, lag, calls);
      }
    } else {
      SweepVisible(p, lag);
    }
  }

  // ---------------------------------------------------------------- key non-interference

  function CallsOf(key: string, calls: seq<Call>): seq<Call> {
    if calls == [] then []
    else
      var n := |calls| - 1;
      CallsOf(key, calls[..n]) + if calls[n].key == key then [calls[n]] else []
  }

  function AnswersTo(key: string, calls: seq<Call>, answers: seq<Answer>): seq<Answer>
    requires |calls| == |answers|
  {
    if calls == [] then []
    else
      var n := |calls| - 1;
      AnswersTo(key, calls[..n], answers[..n]) + if calls[n].key == key then [answers[n]] else []
  }

  lemma {:induction false} CallsOfLag(key: string, calls: seq<Call>, lag: nat)
    requires Lagging(calls, lag)
    ensures Lagging(CallsOf(key, calls), lag)
    ensures forall c :: c in CallsOf(key, calls) ==> c in calls
  {
    if calls != [] {
      var n := |calls| - 1;
      CallsOfLag(key, calls[..n], lag);
      var pre := CallsOf(key, calls[..n]);
      forall i | 0 <= i < |pre| ensures pre[i].now - lag <= calls[n].now {
        assert pre[i] in calls[..n];
      }
    }
  }

  lemma ServeReadsOwnBucket(p: Params, m: map<string, Bucket>, m': map<string, Bucket>, c: Call)
    requires p.Valid() && Lookup(m, c.key) == Lookup(m', c.key)
    ensures Serve(p, m, c).1 == Serve(p, m', c).1
    ensures Lookup(Serve(p, m, c).0, c.key) == Lookup(Serve(p, m', c).0, c.key)
  {
  }

  lemma {:induction false} ReferenceKeysIndependent(p: Params, m: map<string, Bucket>, calls: seq<Call>, key: string)
    requires p.Valid()
    ensures Lookup(RefFinal(p, m, calls), key) == Lookup(RefFinal(p, m, CallsOf(key, calls)), key)
    ensures AnswersTo(key, calls, RefAnswers(p, m, calls)) == RefAnswers(p, m, CallsOf(key, calls))
  {
    if calls != [] {
      var n := |calls| - 1;
      var pre, c := calls[..n], calls[n];
      var mine := CallsOf(key, pre);
      ReferenceKeysIndependent(p, m, pre, key);
      assert calls == pre + [c];
      RefSnoc(p, m, pre, c);
      assert RefAnswers(p, m, calls)[..n] == RefAnswers(p, m, pre);
      if c.key == key {
        RefSnoc(p, m, mine, c);
        ServeReadsOwnBucket(p, RefFinal(p, m, pre), RefFinal(p, m, mine), c);
      } else {
        assert CallsOf(key, calls) == mine;
      }
    }
  }

  /** What a key is answered does not depend on the other keys' calls, although those sweep its bucket. */
  lemma {:induction false} KeyNonInterference(p: Params, lag: nat, calls: seq<Call>, key: string)
    requires p.Valid() && ForgetsOnlyFull(p, lag) && Lagging(calls, lag)
    ensures AnswersTo(key, calls, Answers(p, calls)) == Answers(p, CallsOf(key, calls))
  {
    SweepTransparency(p, lag, calls);
    CallsOfLag(key, calls, lag);
    SweepTransparency(p, lag, CallsOf(key, calls));
    ReferenceKeysIndependent(p, map[], calls, key);
  }
}
