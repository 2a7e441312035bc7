/** How many calls a key can be granted in a window of time. */
module RateAdmission {
  import opened RateLimit
  import opened RateSweep

  /** Calls for `key`, stamped within [a, b], that were granted. */
  function Granted(key: string, a: int, b: int, calls: seq<Call>, answers: seq<Answer>): nat
    requires |calls| == |answers|
  {
    if calls == [] then 0
    else
      var n := |calls| - 1;
      Granted(key, a, b, calls[..n], answers[..n])
      + if calls[n].key == key && a <= calls[n].now <= b && answers[n].ok then 1 else 0
  }

  lemma GrantedThen(key: string, a: int, b: int, calls: seq<Call>, answers: seq<Answer>, c: Call, ans: Answer)
    requires |calls| == |answers|
    ensures Granted(key, a, b, calls + [c], answers + [ans])
            == Granted(key, a, b, calls, answers) + if c.key == key && a <= c.now <= b && ans.ok then 1 else 0
  {
    assert (calls + [c])[..|calls|] == calls && (answers + [ans])[..|calls|] == answers;
  }

  /** The most tokens `key` can still spend on calls stamped within [a, b]. */
  ghost function Budget(p: Params, m: map<string, Bucket>, key: string, a: int, b: int): real {
    if key !in m || m[key].last < a then p.burst + Refill(p, b - a)
    else if m[key].last <= b then m[key].tokens + Refill(p, b - m[key].last)
    else m[key].tokens
  }

  ghost function Spent(c: Call, key: string, a: int, b: int, ans: Answer): int {
    if c.key == key && a <= c.now <= b && ans.ok then 1 else 0
  }

  /** No call stamped up to b raises the budget, and a granted one uses it up. */
  lemma ServeSpendsBudget(p: Params, m: map<string, Bucket>, c: Call, key: string, a: int, b: int)
    requires p.Valid() && TableOk(p, m) && a <= b && c.now <= b
    ensures var (m', ans) := Serve(p, m, c);
            Spent(c, key, a, b, ans) as real + Budget(p, m', key, a, b) <= Budget(p, m, key, a, b)
  {
    RefillMonotone(p, 0, b - a);
    TouchKeepsBucketOk(p, Lookup(m, c.key), c.now);
    if c.key == key {
      if a <= c.now { RefillMonotone(p, b - c.now, b - a); }
      if key in m && c.now > m[key].last {
        RefillAdds(p, c.now - m[key].last, b - c.now);
        RefillMonotone(p, 0, b - c.now);
      }
    }
  }

  lemma BudgetBounds(p: Params, m: map<string, Bucket>, key: string, a: int, b: int)
    requires p.Valid() && TableOk(p, m) && a <= b
    ensures 0.0 <= Budget(p, m, key, a, b) <= p.burst + Refill(p, b - a)
  {
    RefillMonotone(p, 0, b - a);
    if key in m && a <= m[key].last <= b {
      RefillMonotone(p, b - m[key].last, b - a);
      RefillMonotone(p, 0, b - m[key].last);
    }
  }

  /**
   Without deletions: from any table, in any stretch of calls stamped within [a, b], in whatever
   order the stamps arrive, a key is granted at most burst + rate * (b - a).
   */
  lemma {:induction false} ReferenceAdmissionBound(p: Params, m: map<string, Bucket>, calls: seq<Call>,
                                                   key: string, a: int, b: int)
    requires p.Valid() && TableOk(p, m) && a <= b
    requires forall i :: 0 <= i < |calls| ==> a <= calls[i].now <= b
    ensures TableOk(p, RefFinal(p, m, calls))
    ensures Granted(key, a, b, calls, RefAnswers(p, m, calls)) as real
            + Budget(p, RefFinal(p, m, calls), key, a, b) <= Budget(p, m, key, a, b)
    ensures Granted(key, a, b, calls, RefAnswers(p, m, calls)) as real <= p.burst + Refill(p, b - a)
  {
    if calls != [] {
      var pre, c := calls[..|calls| - 1], calls[|calls| - 1];
      ReferenceAdmissionBound(p, m, pre, key, a, b);
      var mid := RefFinal(p, m, pre);
      ServeKeepsTableOk(p, mid, c);
      ServeSpendsBudget(p, mid, c, key, a, b);
      assert RefAnswers(p, m, calls)[..|pre|] == RefAnswers(p, m, pre);
    }
    BudgetBounds(p, m, key, a, b);
    BudgetBounds(p, RefFinal(p, m, calls), key, a, b);
  }

  ghost predicate AllBy(calls: seq<Call>, t: int) {
    forall c :: c in calls ==> c.now <= t
  }

  lemma EarlierWithinLag(pre: seq<Call>, c: Call, lag: nat)
    requires Lagging(pre + [c], lag)
    ensures Lagging(pre, lag) && AllBy(pre, c.now + lag)
  {
    var calls := pre + [c];
    forall i | 0 <= i < |pre| ensures pre[i].now <= c.now + lag {
      assert calls[i].now - lag <= calls[|pre|].now;
    }
    assert forall i :: 0 <= i < |pre| ==> calls[i] == pre[i];
  }

  /** One call of the window: what it spends of the budget up to b + lag. */
  lemma WindowStep(p: Params, m: map<string, Bucket>, c: Call, key: string, a: int, b: int, lag: nat, granted: nat)
    requires p.Valid() && TableOk(p, m) && a <= b
    requires granted as real + Budget(p, m, key, a, b + lag) <= p.burst + Refill(p, b + lag - a) || c.now > b
    ensures var (m', ans) := Serve(p, m, c);
            var most := p.burst + Refill(p, b + lag - a);
            var spent := if c.key == key && a <= c.now <= b && ans.ok then 1 else 0;
            && (spent == 1 ==> (granted + 1) as real <= most)
            && (c.now <= b + lag && granted as real + Budget(p, m, key, a, b + lag) <= most ==>
                  (granted + spent) as real + Budget(p, m', key, a, b + lag) <= most)
  {
    hide Budget, Refill, Touch, Take;
    if c.now <= b + lag {
      ServeKeepsTableOk(p, m, c);
      ServeSpendsBudget(p, m, c, key, a, b + lag);
      BudgetBounds(p, Serve(p, m, c).0, key, a, b + lag);
    }
  }

  /**
   Without deletions, over a whole run: a call stamped after b + lag can only be followed by calls
   stamped after b, so the window's grants are bounded by what can be earned up to b + lag.
   */
  lemma {:induction false} ReferenceWindowBound(p: Params, lag: nat, calls: seq<Call>, key: string, a: int, b: int)
    requires p.Valid() && Lagging(calls, lag) && a <= b
    ensures var m := RefFinal(p, map[], calls);
            var g := Granted(key, a, b, calls, RefAnswers(p, map[], calls)) as real;
            var most := p.burst + Refill(p, b + lag - a);
            && TableOk(p, m) && g <= most
            && (AllBy(calls, b + lag) ==> g + Budget(p, m, key, a, b + lag) <= most)
  {
    RefillMonotone(p, 0, b + lag - a);
    if calls != [] {
      hide Lagging, Budget, Refill, Serve, RefFinal, RefAnswers, Granted;
      var pre, c := calls[..|calls| - 1], calls[|calls| - 1];
      assert calls == pre + [c];
      EarlierWithinLag(pre, c, lag);
      ReferenceWindowBound(p, lag, pre, key, a, b);
      var mid := RefFinal(p, map[], pre);
      RefSnoc(p, map[], pre, c);
      GrantedThen(key, a, b, pre, RefAnswers(p, map[], pre), c, Serve(p, mid, c).1);
      ServeKeepsTableOk(p, mid, c);
      assert AllBy(calls, b + lag) ==> AllBy(pre, b + lag) && c in calls;
      assert c.now <= b ==> AllBy(pre, b + lag);
      hide AllBy, TableOk;
      WindowStep(p, mid, c, key, a, b, lag, Granted(key, a, b, pre, RefAnswers(p, map[], pre)));
    }
  }

  /**
   The sweeping limiter, with timestamps out of order by up to `lag`: in any window [a, b] of a run
   a key is granted at most burst + rate * (b - a + lag) calls.
   */
  lemma AdmissionBound(p: Params, lag: nat, calls: seq<Call>, key: string, a: int, b: int)
    requires p.Valid() && ForgetsOnlyFull(p, lag) && Lagging(calls, lag) && a <= b
    ensures Granted(key, a, b, calls, Answers(p, calls)) as real <= p.burst + Refill(p, b + lag - a)
  {
    SweepTransparency(p, lag, calls);
    ReferenceWindowBound(p, lag, calls, key, a, b);
  }

  /** In a stretch of such a run that is stamped within [a, b] throughout, the lag costs nothing. */
  lemma {:induction false} StretchAdmissionBound(p: Params, lag: nat, before: seq<Call>, calls: seq<Call>,
                                                 key: string, a: int, b: int)
    requires p.Valid() && ForgetsOnlyFull(p, lag) && Lagging(before + calls, lag) && a <= b
    requires forall i :: 0 <= i < |calls| ==> a <= calls[i].now <= b
    ensures Granted(key, a, b, calls, Answers(p, before + calls)[|before|..]) as real <= p.burst + Refill(p, b - a)
  {
    hide Answers, RefAnswers, RefFinal, Granted;
    SweepTransparency(p, lag, before + calls);
    RefAnswersSplit(p, map[], before, calls);
    var m := RefFinal(p, map[], before);
    assert RefAnswers(p, map[], before + calls)[|before|..] == RefAnswers(p, m, calls);
    ReferenceTableOk(p, before);
    ReferenceAdmissionBound(p, m, calls, key, a, b);
  }

  lemma {:induction false} ReferenceTableOk(p: Params, calls: seq<Call>)
    requires p.Valid()
    ensures TableOk(p, RefFinal(p, map[], calls))
  {
    if calls != [] {
      ReferenceTableOk(p, calls[..|calls| - 1]);
      ServeKeepsTableOk(p, RefFinal(p, map[], calls[..|calls| - 1]), calls[|calls| - 1]);
    }
  }
}
