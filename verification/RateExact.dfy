/**
 The exact admission law: a call is granted if and only if, for every earlier instant, the grants
 since then and this one are paid for by a full bucket at that instant and what was earned since.
 Nothing in it speaks of buckets or of sweeps.
 */
module RateExact {
  import opened Basics
  import opened RateLimit
  import opened RateSweep
  import opened RateAdmission
  import opened RateRetry

  /** The latest stamp among a key's calls. */
  function Clock(key: string, calls: seq<Call>): Option<int> {
    if calls == [] then None
    else
      var n := |calls| - 1;
      var before := Clock(key, calls[..n]);
      if calls[n].key != key || (before.Some? && before.value > calls[n].now) then before else Some(calls[n].now)
  }

  /** A key's granted calls since instant a, each dated by the latest stamp the key had by then. */
  function Since(key: string, a: int, calls: seq<Call>, answers: seq<Answer>): nat
    requires |calls| == |answers|
  {
    if calls == [] then 0
    else
      var n := |calls| - 1;
      Since(key, a, calls[..n], answers[..n])
      + if calls[n].key == key && answers[n].ok && Clock(key, calls).GetOr(a) >= a then 1 else 0
  }

  /** A full bucket, and what is earned in `ns` nanoseconds. */
  function Allowance(p: Params, ns: int): real {
    p.burst + p.rate * (ns as real / 1000000000.0)
  }

  lemma AllowanceIsRefill(p: Params, ns: int)
    ensures Allowance(p, ns) == p.burst + Refill(p, ns)
  {
  }

  lemma ClockThen(key: string, calls: seq<Call>, c: Call)
    ensures Clock(key, calls + [c])
            == if c.key != key then Clock(key, calls)
               else Some(if Clock(key, calls).GetOr(c.now) > c.now then Clock(key, calls).value else c.now)
  {
    assert (calls + [c])[..|calls|] == calls;
  }

  lemma SinceThen(key: string, a: int, calls: seq<Call>, answers: seq<Answer>, c: Call, ans: Answer)
    requires |calls| == |answers|
    ensures Since(key, a, calls + [c], answers + [ans])
            == Since(key, a, calls, answers)
               + if c.key == key && ans.ok && Clock(key, calls + [c]).GetOr(a) >= a then 1 else 0
  {
    assert (calls + [c])[..|calls|] == calls && (answers + [ans])[..|calls|] == answers;
  }

  /** There are no grants after the latest stamp. */
  lemma {:induction false} NoneSince(key: string, a: int, calls: seq<Call>, answers: seq<Answer>)
    requires |calls| == |answers| && (Clock(key, calls).Some? ==> Clock(key, calls).value < a)
    ensures Since(key, a, calls, answers) == 0
  {
    if calls != [] {
      var n := |calls| - 1;
      NoneSince(key, a, calls[..n], answers[..n]);
    }
  }

  /** `tokens` at instant t is the least that any earlier instant leaves of its allowance. */
  ghost predicate Tight(p: Params, key: string, calls: seq<Call>, answers: seq<Answer>, tokens: real, t: int)
    requires |calls| == |answers|
  {
    && (forall a :: a <= t ==> Since(key, a, calls, answers) as real + tokens <= Allowance(p, t - a))
    && (exists a :: a <= t && Since(key, a, calls, answers) as real + tokens == Allowance(p, t - a))
  }

  lemma AllowanceAdds(p: Params, x: int, y: int)
    requires p.Valid()
    ensures Allowance(p, x + y) == Allowance(p, x) + Refill(p, y)
    ensures y >= 0 ==> p.burst <= Allowance(p, y)
  {
    AllowanceIsRefill(p, x + y);
    AllowanceIsRefill(p, x);
    AllowanceIsRefill(p, y);
    RefillAdds(p, x, y);
    if y >= 0 { RefillMonotone(p, 0, y); }
  }

  /** What a key's bucket says after a run without deletions. */
  ghost predicate Told(p: Params, key: string, calls: seq<Call>, answers: seq<Answer>, b: Option<Bucket>)
    requires |calls| == |answers|
  {
    match b
    case None => Clock(key, calls).None?
    case Some(b) => Clock(key, calls) == Some(b.last) && Tight(p, key, calls, answers, b.tokens, b.last)
  }

  lemma FullIsTight(p: Params, key: string, calls: seq<Call>, answers: seq<Answer>, t: int)
    requires p.Valid() && |calls| == |answers| && (Clock(key, calls).Some? ==> Clock(key, calls).value < t)
    requires forall a :: a <= t ==> Since(key, a, calls, answers) as real + p.burst <= Allowance(p, t - a)
    ensures Tight(p, key, calls, answers, p.burst, t)
  {
    NoneSince(key, t, calls, answers);
    assert Since(key, t, calls, answers) as real + p.burst == Allowance(p, t - t);
  }

  /** Time passes: a later instant sees the tokens earned meanwhile, up to the capacity. */
  lemma {:induction false} LaterIsTight(p: Params, key: string, calls: seq<Call>, answers: seq<Answer>,
                                        b: Bucket, t: int)
    requires p.Valid() && |calls| == |answers| && Told(p, key, calls, answers, Some(b)) && b.last < t
    ensures var tokens := b.tokens + Refill(p, t - b.last);
            Tight(p, key, calls, answers, if tokens > p.burst then p.burst else tokens, t)
  {
    hide Since, Allowance, Clock, Refill;
    var earned := b.tokens + Refill(p, t - b.last);
    var tokens := if earned > p.burst then p.burst else earned;
    forall a | a <= t ensures Since(key, a, calls, answers) as real + tokens <= Allowance(p, t - a) {
      AllowanceAdds(p, b.last - a, t - b.last);
      assert b.last - a + (t - b.last) == t - a;
      if a > b.last {
        NoneSince(key, a, calls, answers);
        AllowanceAdds(p, 0, t - a);
      }
    }
    if earned > p.burst {
      FullIsTight(p, key, calls, answers, t);
    } else {
      var a :| a <= b.last && Since(key, a, calls, answers) as real + b.tokens == Allowance(p, b.last - a);
      AllowanceAdds(p, b.last - a, t - b.last);
      assert b.last - a + (t - b.last) == t - a;
      assert Since(key, a, calls, answers) as real + tokens == Allowance(p, t - a);
    }
  }

  /** The bucket a call finds is tight at the key's latest stamp, the call's own included. */
  lemma {:induction false} FoundIsTight(p: Params, calls: seq<Call>, answers: seq<Answer>, b: Option<Bucket>, c: Call)
    requires p.Valid() && |calls| == |answers| && Told(p, c.key, calls, answers, b)
    ensures var found := Touch(p, b, c.now);
            && Clock(c.key, calls + [c]) == Some(found.last)
            && Tight(p, c.key, calls, answers, found.tokens, found.last)
  {
    ClockThen(c.key, calls, c);
    hide Clock, Since, Allowance;
    if b.None? {
      forall a | a <= c.now ensures Since(c.key, a, calls, answers) as real + p.burst <= Allowance(p, c.now - a) {
        NoneSince(c.key, a, calls, answers);
        AllowanceAdds(p, 0, c.now - a);
      }
      FullIsTight(p, c.key, calls, answers, c.now);
    } else if c.now > b.value.last {
      LaterIsTight(p, c.key, calls, answers, b.value, c.now);
    }
  }

  /** A grant takes one token from every instant's account at once. */
  lemma {:induction false} TakenIsTight(p: Params, calls: seq<Call>, answers: seq<Answer>, c: Call, found: Bucket)
    requires p.Valid() && |calls| == |answers| && Clock(c.key, calls + [c]) == Some(found.last)
    requires Tight(p, c.key, calls, answers, found.tokens, found.last)
    ensures var (b, ans) := Take(p, found);
            Told(p, c.key, calls + [c], answers + [ans], Some(b))
  {
    hide Clock, Allowance, Wait;
    var (b, ans) := Take(p, found);
    forall a ensures Since(c.key, a, calls + [c], answers + [ans])
                     == Since(c.key, a, calls, answers) + if ans.ok && found.last >= a then 1 else 0 {
      SinceThen(c.key, a, calls, answers, c, ans);
    }
    hide Since;
    var a :| a <= found.last
             && Since(c.key, a, calls, answers) as real + found.tokens == Allowance(p, found.last - a);
    assert Since(c.key, a, calls + [c], answers + [ans]) as real + b.tokens == Allowance(p, b.last - a);
  }

  lemma {:induction false} OtherKeepsTold(p: Params, key: string, calls: seq<Call>, answers: seq<Answer>,
                                          b: Option<Bucket>, c: Call, ans: Answer)
    requires |calls| == |answers| && Told(p, key, calls, answers, b) && c.key != key
    ensures Told(p, key, calls + [c], answers + [ans], b)
  {
    ClockThen(key, calls, c);
    forall a ensures Since(key, a, calls + [c], answers + [ans]) == Since(key, a, calls, answers) {
      SinceThen(key, a, calls, answers, c, ans);
    }
    hide Clock, Since, Allowance;
    if b.Some? {
      var a :| a <= b.value.last
               && Since(key, a, calls, answers) as real + b.value.tokens == Allowance(p, b.value.last - a);
      assert Since(key, a, calls + [c], answers + [ans]) as real + b.value.tokens == Allowance(p, b.value.last - a);
    }
  }

  lemma {:induction false} BucketsTold(p: Params, calls: seq<Call>, key: string)
    requires p.Valid()
    ensures Told(p, key, calls, RefAnswers(p, map[], calls), Lookup(RefFinal(p, map[], calls), key))
  {
    if calls != [] {
      hide Told, Touch, Take;
      var pre, c := calls[..|calls| - 1], calls[|calls| - 1];
      assert calls == pre + [c];
      BucketsTold(p, pre, key);
      RefSnoc(p, map[], pre, c);
      var m, answers := RefFinal(p, map[], pre), RefAnswers(p, map[], pre);
      if c.key == key {
        FoundIsTight(p, pre, answers, Lookup(m, key), c);
        TakenIsTight(p, pre, answers, c, Touch(p, Lookup(m, key), c.now));
      } else {
        OtherKeepsTold(p, key, pre, answers, Lookup(m, key), c, Serve(p, m, c).1);
      }
    }
  }

  /** Call c, after the calls answered so far, is paid for from every earlier instant on. */
  ghost predicate PaidFor(p: Params, calls: seq<Call>, answers: seq<Answer>, c: Call)
    requires |calls| == |answers|
  {
    var t := Clock(c.key, calls + [c]).GetOr(c.now);
    forall a :: a <= t ==> (Since(c.key, a, calls, answers) + 1) as real <= Allowance(p, t - a)
  }

  lemma {:induction false} ReferenceAdmissionIff(p: Params, pre: seq<Call>, c: Call)
    requires p.Valid()
    ensures var ans := Serve(p, RefFinal(p, map[], pre), c).1;
            && (ans.ok <==> PaidFor(p, pre, RefAnswers(p, map[], pre), c))
            && (ans.ok ==> ans.retryAfter == 0)
  {
    BucketsTold(p, pre, c.key);
    hide Told, Touch, Since, Allowance, Clock, Wait;
    var answers, b := RefAnswers(p, map[], pre), Lookup(RefFinal(p, map[], pre), c.key);
    FoundIsTight(p, pre, answers, b, c);
    var found := Touch(p, b, c.now);
    var a :| a <= found.last
             && Since(c.key, a, pre, answers) as real + found.tokens == Allowance(p, found.last - a);
    assert found.tokens < 1.0 ==> (Since(c.key, a, pre, answers) + 1) as real > Allowance(p, found.last - a);
  }

  /**
   The exact admission law, over every run whose timestamps are out of order by at most `lag`: the
   last call is granted if and only if it is paid for from every instant on.
   */
  lemma {:induction false} AdmissionIff(p: Params, lag: nat, pre: seq<Call>, c: Call)
    requires p.Valid() && ForgetsOnlyFull(p, lag) && Lagging(pre + [c], lag)
    ensures var ans := LastOf(Answers(p, pre + [c]));
            && (ans.ok <==> PaidFor(p, pre, Answers(p, pre), c))
            && (ans.ok ==> ans.retryAfter == 0)
  {
    EarlierWithinLag(pre, c, lag);
    SweepTransparency(p, lag, pre + [c]);
    SweepTransparency(p, lag, pre);
    hide Answers, RefAnswers, RefFinal, Serve, PaidFor, Lagging;
    RefSnoc(p, map[], pre, c);
    ReferenceAdmissionIff(p, pre, c);
  }

  // ---------------------------------------------------------------- on a clock that never runs backwards

  lemma {:induction false} OrderedClock(key: string, calls: seq<Call>, t: int)
    requires NonDecreasing(calls) && AllBy(calls, t)
    ensures Clock(key, calls).GetOr(t) <= t
    ensures calls != [] && calls[|calls| - 1].key == key ==> Clock(key, calls) == Some(calls[|calls| - 1].now)
  {
    if calls != [] {
      var pre, c := calls[..|calls| - 1], calls[|calls| - 1];
      assert calls == pre + [c];
      EarlierWithinLag(pre, c, 0);
      assert c in calls;
      hide Lagging, AllBy;
      OrderedClock(key, pre, c.now);
      ClockThen(key, pre, c);
    }
  }

  /** On such a clock every grant is dated by its own stamp. */
  lemma {:induction false} SinceIsGranted(key: string, a: int, b: int, calls: seq<Call>, answers: seq<Answer>)
    requires |calls| == |answers| && NonDecreasing(calls) && AllBy(calls, b)
    ensures Since(key, a, calls, answers) == Granted(key, a, b, calls, answers)
  {
    if calls != [] {
      var pre, c := calls[..|calls| - 1], calls[|calls| - 1];
      assert calls == pre + [c] && c in calls;
      EarlierWithinLag(pre, c, 0);
      assert AllBy(pre, b);
      SinceIsGranted(key, a, b, pre, answers[..|pre|]);
      OrderedClock(key, calls, b);
    }
  }

  /** From every instant a on, the key's grants stamped in [a, c.now], and c, are paid for. */
  ghost predicate Affordable(p: Params, calls: seq<Call>, answers: seq<Answer>, c: Call)
    requires |calls| == |answers|
  {
    forall a :: a <= c.now ==> (Granted(c.key, a, c.now, calls, answers) + 1) as real <= Allowance(p, c.now - a)
  }

  /**
   On a non-decreasing clock: the last call is granted if and only if for every instant a the
   grants in [a, now], and this one, do not exceed burst + rate * (now - a).
   */
  lemma {:induction false} OrderedAdmissionIff(p: Params, pre: seq<Call>, c: Call)
    requires p.Valid() && ForgetsOnlyFull(p, 0) && NonDecreasing(pre + [c])
    ensures LastOf(Answers(p, pre + [c])).ok <==> Affordable(p, pre, Answers(p, pre), c)
  {
    AdmissionIff(p, 0, pre, c);
    EarlierWithinLag(pre, c, 0);
    assert AllBy(pre + [c], c.now);
    OrderedClock(c.key, pre + [c], c.now);
    assert (pre + [c])[|pre + [c]| - 1] == c;
    SameBill(p, pre, Answers(p, pre), c);
  }

  lemma {:induction false} SameBill(p: Params, calls: seq<Call>, answers: seq<Answer>, c: Call)
    requires |calls| == |answers| && NonDecreasing(calls) && AllBy(calls, c.now)
    requires Clock(c.key, calls + [c]) == Some(c.now)
    ensures PaidFor(p, calls, answers, c) <==> Affordable(p, calls, answers, c)
  {
    hide Clock, Since, Granted, Allowance;
    forall a ensures Since(c.key, a, calls, answers) == Granted(c.key, a, c.now, calls, answers) {
      SinceIsGranted(c.key, a, c.now, calls, answers);
    }
  }

  // ---------------------------------------------------------------- the deployed limiters

  /** From every instant a on, the key has been granted at most `ahead` calls and one more per `every` ns. */
  ghost predicate WithinPace(p: Params, pre: seq<Call>, c: Call, ahead: int, every: int)
    requires p.Valid() && every > 0
  {
    forall a :: a <= c.now ==>
      Granted(c.key, a, c.now, pre, Answers(p, pre)) as real <= ahead as real + (c.now - a) as real / every as real
  }

  lemma {:induction false} PaceIff(p: Params, pre: seq<Call>, c: Call, ahead: int, every: int)
    requires p.Valid() && ForgetsOnlyFull(p, 0) && NonDecreasing(pre + [c]) && every > 0
    requires forall ns :: Allowance(p, ns) == (ahead + 1) as real + ns as real / every as real
    ensures LastOf(Answers(p, pre + [c])).ok <==> WithinPace(p, pre, c, ahead, every)
  {
    OrderedAdmissionIff(p, pre, c);
    hide Answers, Granted, Lagging, Allowance;
    if Affordable(p, pre, Answers(p, pre), c) {
      forall a | a <= c.now
        ensures Granted(c.key, a, c.now, pre, Answers(p, pre)) as real
                <= ahead as real + (c.now - a) as real / every as real
      {
        assert (Granted(c.key, a, c.now, pre, Answers(p, pre)) + 1) as real <= Allowance(p, c.now - a);
      }
    }
  }

  /**
   The two deployed limiters in figures: ten calls at once and one more every twelve seconds for a
   login, twenty at once and one more a second for the admin diagnostics.
   */
  lemma {:induction false} DeployedAdmissionIff(pre: seq<Call>, c: Call)
    requires NonDecreasing(pre + [c])
    ensures EXCHANGE.Valid() && ADMIN.Valid()
    ensures LastOf(Answers(EXCHANGE, pre + [c])).ok <==> WithinPace(EXCHANGE, pre, c, 9, 12_000_000_000)
    ensures LastOf(Answers(ADMIN, pre + [c])).ok <==> WithinPace(ADMIN, pre, c, 19, 1_000_000_000)
  {
    DeployedForgetOnlyFull(0);
    forall ns ensures Allowance(EXCHANGE, ns) == 10.0 + ns as real / 12_000_000_000.0
              ensures Allowance(ADMIN, ns) == 20.0 + ns as real / 1_000_000_000.0 {
      DeployedAllowance(ns);
    }
    hide Answers, WithinPace, Allowance;
    PaceIff(EXCHANGE, pre, c, 9, 12_000_000_000);
    PaceIff(ADMIN, pre, c, 19, 1_000_000_000);
  }

  lemma DeployedAllowance(ns: int)
    ensures Allowance(EXCHANGE, ns) == 10.0 + ns as real / 12_000_000_000.0
    ensures Allowance(ADMIN, ns) == 20.0 + ns as real / 1_000_000_000.0
  {
  }
}
