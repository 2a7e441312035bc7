/** The limiter object itself, and how large its table can get. */
module RateLimiter {
  import opened Basics
  import opened RateLimit

  /**
   The running limiter. `history` records every call so far, so that what is proved of whole
   runs (`Final`, `Answers`) is proved of this object.
   */
  class Limiter {
    const p: Params
    var buckets: map<string, Bucket>
    var lastSweep: Option<int>
    ghost var history: seq<Call>

    ghost predicate Valid()
      reads this
    {
      p.Valid() && State(buckets, lastSweep) == Final(p, history)
    }

    constructor (ratePerSec: real, burst: real)
      ensures Valid() && p == New(ratePerSec, burst) && history == []
    {
      p := New(ratePerSec, burst);
      buckets := map[];
      lastSweep := None;
      history := [];
    }

    method Allow(key: string, now: int) returns (ok: bool, retryAfter: int)
      requires Valid()
      modifies this
      ensures Valid() && history == old(history) + [Call(key, now)]
      ensures Answers(p, history) == Answers(p, old(history)) + [Answer(ok, retryAfter)]
    {
      ghost var c := Call(key, now);
      ghost var before := State(buckets, lastSweep);
      assert (history + [c])[..|history|] == history;
      SweepIdle(now);
      var b: Bucket;
      if key !in buckets {
        b := Bucket(p.burst, now);
      } else {
        b := buckets[key];
        if now - b.last > 0 {
          var tokens := b.tokens + Refill(p, now - b.last);
          if tokens > p.burst {
            tokens := p.burst;
          }
          b := Bucket(tokens, now);
        }
      }
      if b.tokens >= 1.0 {
        buckets := buckets[key := b.(tokens := b.tokens - 1.0)];
        ok, retryAfter := true, 0;
      } else {
        buckets := buckets[key := b];
        var wait := ((1.0 - b.tokens) / p.rate * 1000000000.0).Floor;
        var rem := wait % SECOND;
        if rem != 0 {
          wait := wait + SECOND - rem;
        }
        if wait <= 0 {
          wait := SECOND;
        }
        ok, retryAfter := false, wait;
      }
      assert (State(buckets, lastSweep), Answer(ok, retryAfter)) == RateLimit.Allow(p, before, c);
      history := history + [c];
    }

    /** Drops buckets idle longer than the ttl, at most once per ttl. */
    method SweepIdle(now: int)
      modifies this`buckets, this`lastSweep
      ensures State(buckets, lastSweep) == Sweep(p, old(State(buckets, lastSweep)), now)
    {
      if lastSweep.Some? && now - lastSweep.value < p.ttl {
        return;
      }
      lastSweep := Some(now);
      ghost var all := buckets;
      var todo := buckets.Keys;
      while todo != {}
        invariant lastSweep == Some(now)
        invariant todo <= buckets.Keys <= all.Keys
        invariant forall k :: k in buckets ==> buckets[k] == all[k]
        invariant forall k :: k in all && k !in todo ==> (k in buckets <==> now - all[k].last <= p.ttl)
      {
        var k :| k in todo;
        if now - buckets[k].last > p.ttl {
          buckets := buckets - {k};
        }
        todo := todo - {k};
      }
      assert buckets == Retained(p, all, now);
    }
  }

  // ---------------------------------------------------------------- size of the table

  /** Keys called in the two ttls before `now`. */
  ghost function RecentKeys(p: Params, calls: seq<Call>, now: int): set<string> {
    set c | c in calls && now - c.now < 2 * p.ttl :: c.key
  }

  /** Every bucket was last touched by a recorded call, and survived the latest sweep. */
  ghost predicate Retention(p: Params, s: State, calls: seq<Call>) {
    && (forall k :: k in s.buckets ==>
          && BucketOk(p, s.buckets[k])
          && Call(k, s.buckets[k].last) in calls
          && s.lastSweep.Some? && s.lastSweep.value - s.buckets[k].last <= p.ttl)
    && (s.lastSweep.Some? ==> exists c :: c in calls && c.now == s.lastSweep.value)
  }

  /** The latest sweep is less than a ttl old. */
  ghost predicate SweptRecently(p: Params, s: State, calls: seq<Call>) {
    calls != [] ==> s.lastSweep.Some? && calls[|calls| - 1].now - s.lastSweep.value < p.ttl
  }

  /** A sweep at the time of call c keeps buckets that have survived it. */
  lemma SweepKeepsRetention(p: Params, s: State, calls: seq<Call>, c: Call)
    requires p.Valid() && Retention(p, s, calls) && forall d :: d in calls ==> d.now <= c.now
    ensures var t := Sweep(p, s, c.now);
            && Retention(p, t, calls + [c]) && t.lastSweep.Some?
            && t.lastSweep.value <= c.now && c.now - t.lastSweep.value < p.ttl
  {
    var t, more := Sweep(p, s, c.now), calls + [c];
    assert c in more && forall d :: d in calls ==> d in more;
    if t.lastSweep != s.lastSweep { assert t.lastSweep.value == c.now; }
  }

  lemma {:induction false} CallKeepsRetention(p: Params, s: State, calls: seq<Call>, c: Call)
    requires p.Valid() && Retention(p, s, calls) && forall d :: d in calls ==> d.now <= c.now
    ensures Retention(p, Allow(p, s, c).0, calls + [c]) && SweptRecently(p, Allow(p, s, c).0, calls + [c])
  {
    SweepKeepsRetention(p, s, calls, c);
    hide Sweep;
    var swept := Sweep(p, s, c.now);
    forall k | k in swept.buckets ensures swept.buckets[k].last <= c.now {
      assert Call(k, swept.buckets[k].last) in calls + [c];
    }
    TouchKeepsBucketOk(p, Lookup(swept.buckets, c.key), c.now);
    assert c in calls + [c];
  }

  lemma {:induction false} RetentionOverRuns(p: Params, calls: seq<Call>)
    requires p.Valid() && NonDecreasing(calls)
    ensures Retention(p, Final(p, calls), calls) && SweptRecently(p, Final(p, calls), calls)
  {
    if calls != [] {
      var pre, c := calls[..|calls| - 1], calls[|calls| - 1];
      RetentionOverRuns(p, pre);
      hide Allow, Retention, SweptRecently;
      CallKeepsRetention(p, Final(p, pre), pre, c);
      assert pre + [c] == calls;
    }
  }

  /**
   On a non-decreasing clock, right after every call each retained bucket was last used less than
   two ttls ago and holds between 0 and burst tokens, so the table is no larger than the number of
   distinct keys called in that time.
   */
  lemma {:induction false} TableStaysBounded(p: Params, calls: seq<Call>)
    requires p.Valid() && NonDecreasing(calls) && calls != []
    ensures var (m, now) := (Final(p, calls).buckets, calls[|calls| - 1].now);
            && (forall k :: k in m ==> now - m[k].last < 2 * p.ttl && 0.0 <= m[k].tokens <= p.burst)
            && m.Keys <= RecentKeys(p, calls, now)
            && |m| <= |RecentKeys(p, calls, now)|
  {
    RetentionOverRuns(p, calls);
    var m, now := Final(p, calls).buckets, calls[|calls| - 1].now;
    forall k | k in m ensures now - m[k].last < 2 * p.ttl && k in RecentKeys(p, calls, now) {
      assert Call(k, m[k].last) in calls;
    }
    SubsetNoLarger(m.Keys, RecentKeys(p, calls, now));
  }

  // ---------------------------------------------------------------- how often it sweeps

  /** A sweep is due once per ttl; then exactly the buckets idle longer than the ttl go, and no other changes. */
  lemma SweepIff(p: Params, s: State, now: int)
    ensures var t, due := Sweep(p, s, now), s.lastSweep.None? || now - s.lastSweep.value >= p.ttl;
            && t.lastSweep == (if due then Some(now) else s.lastSweep)
            && (forall k :: k in t.buckets <==> k in s.buckets && (due ==> now - s.buckets[k].last <= p.ttl))
            && (forall k :: k in t.buckets ==> t.buckets[k] == s.buckets[k])
  {
  }

  /** The i-th call of the run drops a bucket. */
  ghost predicate Drops(p: Params, calls: seq<Call>, i: nat)
    requires p.Valid() && i < |calls|
  {
    exists k :: k in Final(p, calls[..i]).buckets && k !in Final(p, calls[..i + 1]).buckets
  }

  lemma DropsWhenDue(p: Params, calls: seq<Call>, i: nat)
    requires p.Valid() && i < |calls|
    ensures var s, t := Final(p, calls[..i]), Final(p, calls[..i + 1]);
            && (Drops(p, calls, i) ==> SweepDue(p, s, calls[i].now))
            && t.lastSweep == if SweepDue(p, s, calls[i].now) then Some(calls[i].now) else s.lastSweep
  {
    assert calls[..i + 1][..i] == calls[..i];
  }

  lemma {:induction false} SweptSince(p: Params, calls: seq<Call>, i: nat, j: nat)
    requires p.Valid() && NonDecreasing(calls) && i < j <= |calls| && Drops(p, calls, i)
    ensures var last := Final(p, calls[..j]).lastSweep; last.Some? && calls[i].now <= last.value
  {
    hide Final, Drops, SweepDue;
    DropsWhenDue(p, calls, j - 1);
    if j > i + 1 { SweptSince(p, calls, i, j - 1); }
  }

  /** On a non-decreasing clock, between two calls that drop buckets lies at least a ttl. */
  lemma {:induction false} SweepSpacing(p: Params, calls: seq<Call>, i: nat, j: nat)
    requires p.Valid() && NonDecreasing(calls) && i < j < |calls|
    ensures Drops(p, calls, i) && Drops(p, calls, j) ==> calls[j].now - calls[i].now >= p.ttl
  {
    hide Final;
    if Drops(p, calls, i) && Drops(p, calls, j) {
      SweptSince(p, calls, i, j);
      DropsWhenDue(p, calls, j);
    }
  }
}
