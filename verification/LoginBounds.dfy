/** Bounds and liveness of the login protocol: table size, exchanges per peer, usable flows. */
module LoginBounds {
  import opened Basics
  import opened RateLimit
  import opened RateAdmission
  import opened Store
  import opened Login
  import opened LoginProtocol

  // ---------------------------------------------------------------- size of the nonce table

  /** Calls that passed on database d and whose stamp is at most STATE_TTL old. */
  ghost function RecentlyPassed(s: World, d: DbId): set<CallId> {
    set id | id in s.calls && HasPassed(s, id) && StoreOf(s, id) == Some(d)
             && s.clock - s.calls[id].phase.stampedAt <= STATE_TTL
  }

  lemma RowOwner(sys: System, s: World, d: DbId, h: Digest) returns (id: CallId)
    requires Inv(sys, s) && h in Rows(s, d)
    ensures Owns(sys, s, id, d, h)
  {
    assert RowBacked(sys, s, d, h);
    id :| Owns(sys, s, id, d, h);
  }

  /** The hash a call's nonce is stored under. */
  ghost function HashOf(sys: System, s: World, id: CallId): Digest {
    if id in s.calls then sys.hash(NonceOf(s, id)) else []
  }

  /** Call id passed on database d within the last STATE_TTL and left the row of h. */
  ghost predicate LeftRecently(sys: System, s: World, d: DbId, h: Digest, id: CallId) {
    id in RecentlyPassed(s, d) && HashOf(sys, s, id) == h
  }

  lemma FreshRowsBounded(sys: System, s: World, d: DbId)
    requires Inv(sys, s) && forall h :: h in Rows(s, d) ==> Rows(s, d)[h] >= s.clock
    ensures forall h :: h in Rows(s, d) ==> exists id :: LeftRecently(sys, s, d, h, id)
    ensures |Rows(s, d)| <= |RecentlyPassed(s, d)|
  {
    hide Inv;
    forall h | h in Rows(s, d) ensures exists id :: LeftRecently(sys, s, d, h, id) {
      var id := RowOwner(sys, s, d, h);
      assert LeftRecently(sys, s, d, h, id);
    }
    forall h | h in Rows(s, d).Keys ensures exists id :: id in RecentlyPassed(s, d) && HashOf(sys, s, id) == h {
      var id :| LeftRecently(sys, s, d, h, id);
    }
    hide HashOf, RecentlyPassed;
    CoveredNoLarger(Rows(s, d).Keys, RecentlyPassed(s, d), id => HashOf(sys, s, id));
  }

  /** How many insertions a stretch of events holds. */
  function Insertions(events: seq<Event>): nat {
    if events == [] then 0
    else Insertions(events[..|events| - 1]) + if events[|events| - 1].Insert? then 1 else 0
  }

  lemma StepGrowth(sys: System, s: World, e: Event, d: DbId)
    ensures |Rows(Next(sys, s, e), d)| <= |Rows(s, d)| + if e.Insert? then 1 else 0
  {
    hide Next;
    var t := Next(sys, s, e);
    if e.Insert? { InsertStep(sys, s, e); } else { QuietStep(sys, s, e); }
    if Quiet(s, t) {
      SubsetNoLarger(Rows(t, d).Keys, Rows(s, d).Keys);
    } else {
      hide Quiet;
      SubsetNoLarger(Rows(t, d).Keys, Rows(s, d).Keys + {sys.hash(NonceOf(t, e.id))});
    }
  }

  lemma {:induction false} Growth(sys: System, events: seq<Event>, later: seq<Event>, d: DbId)
    ensures |Rows(Run(sys, events + later), d)| <= |Rows(Run(sys, events), d)| + Insertions(later)
  {
    if later == [] {
      assert events + later == events;
    } else {
      hide Run, Next;
      var n := |later| - 1;
      Growth(sys, events, later[..n], d);
      assert events + later == events + later[..n] + [later[n]];
      RunThen(sys, events + later[..n], later[n]);
      StepGrowth(sys, Run(sys, events + later[..n]), later[n], d);
    }
  }

  /**
   Right after a prune every row belongs to a call that passed within the last STATE_TTL, so the
   table is no larger than the number of those calls. From then on it grows by at most one row per
   insertion: by one at the end of a call that runs undisturbed.
   */
  lemma {:induction false} TableStaysBounded(sys: System, events: seq<Event>, d: DbId, later: seq<Event>)
    ensures var s := Run(sys, events + [Prune(Some(d))]);
            && (forall h :: h in Rows(s, d) ==> exists id :: LeftRecently(sys, s, d, h, id))
            && |Rows(s, d)| <= |RecentlyPassed(s, d)|
            && |Rows(Run(sys, events + [Prune(Some(d))] + later), d)| <= |RecentlyPassed(s, d)| + Insertions(later)
  {
    hide Run, Inv, RecentlyPassed, LeftRecently;
    var e := Prune(Some(d));
    RunKeepsInv(sys, events + [e]);
    RunThen(sys, events, e);
    FreshRowsBounded(sys, Run(sys, events + [e]), d);
    Growth(sys, events + [e], later, d);
  }

  // ---------------------------------------------------------------- token exchanges per peer

  /** Admitted calls of one limiter bucket, by the time they were admitted. */
  ghost function AdmittedIn(s: World, key: string, a: int, b: int): set<CallId> {
    set id | id in s.calls && LimiterKey(s.calls[id].peer) == key && a <= s.calls[id].admittedAt <= b
  }

  /** Calls that got as far as the identity provider's token endpoint. */
  ghost function ExchangesIn(s: World, key: string, a: int, b: int): set<CallId> {
    set id | id in AdmittedIn(s, key, a, b) && HasPassed(s, id)
  }

  /** The admission log and the call table agree, and the limiter's stamps lag by at most sys.lag. */
  ghost predicate Counted(sys: System, s: World, key: string, a: int, b: int) {
    && Lagging(s.history, sys.lag)
    && (forall c :: c in s.history ==> c.now <= s.clock)
    && |AdmittedIn(s, key, a, b)| == Granted(key, a, b, s.history, Answers(EXCHANGE, s.history))
  }

  /** The event is a call that reaches the limiter. */
  predicate Admits(sys: System, s: World, e: Event) {
    e.Admit? && e.id !in s.calls && s.clock - sys.lag <= e.stamp <= s.clock
  }

  lemma SameAdmissions(sys: System, s: World, e: Event, key: string, a: int, b: int)
    requires !Admits(sys, s, e)
    ensures var t := Next(sys, s, e);
            t.history == s.history && t.clock >= s.clock && AdmittedIn(t, key, a, b) == AdmittedIn(s, key, a, b)
  {
    hide Allow, Final, Finish, Gate, LimiterKey;
  }

  /** What an admission does to the log and to the call table. */
  lemma AdmitStep(sys: System, s: World, e: Event, key: string, a: int, b: int)
    requires Admits(sys, s, e)
    ensures var t, c := Next(sys, s, e), Call(LimiterKey(e.peer), e.stamp);
            var ok := Allow(EXCHANGE, Final(EXCHANGE, s.history), c).1.ok;
            && t.history == s.history + [c] && t.clock == s.clock
            && |AdmittedIn(t, key, a, b)|
               == |AdmittedIn(s, key, a, b)| + if c.key == key && a <= c.now <= b && ok then 1 else 0
  {
    var t, c := Next(sys, s, e), Call(LimiterKey(e.peer), e.stamp);
    assert t.history == s.history + [c] && t.clock == s.clock;
    if Allow(EXCHANGE, Final(EXCHANGE, s.history), c).1.ok {
      assert t.calls == s.calls[e.id := Callback(e.peer, e.stamp, e.req, Admitted)];
      hide Next, Allow, Final, LimiterKey;
      OneMoreAdmitted(s, t, e.id, key, a, b);
    } else {
      assert t.calls == s.calls;
      hide Next, Allow, Final, LimiterKey;
      assert AdmittedIn(t, key, a, b) == AdmittedIn(s, key, a, b);
    }
  }

  lemma OneMoreAdmitted(s: World, t: World, id: CallId, key: string, a: int, b: int)
    requires id !in s.calls && id in t.calls && t.calls == s.calls[id := t.calls[id]]
    ensures var c := t.calls[id];
            |AdmittedIn(t, key, a, b)|
            == |AdmittedIn(s, key, a, b)| + if LimiterKey(c.peer) == key && a <= c.admittedAt <= b then 1 else 0
  {
    hide LimiterKey;
    var c := t.calls[id];
    if LimiterKey(c.peer) == key && a <= c.admittedAt <= b {
      assert AdmittedIn(t, key, a, b) == AdmittedIn(s, key, a, b) + {id};
    } else {
      assert AdmittedIn(t, key, a, b) == AdmittedIn(s, key, a, b);
    }
  }

  lemma {:induction false} AdmitCounts(sys: System, s: World, e: Event, key: string, a: int, b: int)
    requires Counted(sys, s, key, a, b) && Admits(sys, s, e)
    ensures Counted(sys, Next(sys, s, e), key, a, b)
  {
    hide Next, Allow, Final, Answers, Granted, LimiterKey, AdmittedIn, Lagging;
    var c := Call(LimiterKey(e.peer), e.stamp);
    RunSnoc(EXCHANGE, s.history, c);
    var ans := Allow(EXCHANGE, Final(EXCHANGE, s.history), c).1;
    GrantedThen(key, a, b, s.history, Answers(EXCHANGE, s.history), c, ans);
    AdmitStep(sys, s, e, key, a, b);
    LaggingThen(s.history, c, sys.lag, s.clock);
  }

  lemma LaggingThen(calls: seq<Call>, c: Call, lag: nat, clock: int)
    requires Lagging(calls, lag) && (forall d :: d in calls ==> d.now <= clock) && clock - lag <= c.now
    ensures Lagging(calls + [c], lag)
  {
  }

  lemma {:induction false} RunCounts(sys: System, events: seq<Event>, key: string, a: int, b: int)
    ensures Counted(sys, Run(sys, events), key, a, b)
  {
    if events != [] {
      hide Next;
      var pre, e := events[..|events| - 1], events[|events| - 1];
      RunCounts(sys, pre, key, a, b);
      var s := Run(sys, pre);
      if Admits(sys, s, e) {
        AdmitCounts(sys, s, e, key, a, b);
      } else {
        SameAdmissions(sys, s, e, key, a, b);
      }
    }
  }

  lemma ExchangeRate(ns: int)
    ensures EXCHANGE.burst + Refill(EXCHANGE, ns) == 10.0 + 5.0 * (ns as real / MINUTE as real)
  {
  }

  /**
   Over any run, the token exchanges made for one peer's calls stamped within [a, b] number at most
   10 + 5 per minute, the minutes lengthened by the disorder of the stamps.
   */
  lemma ExchangesBounded(sys: System, events: seq<Event>, peer: string, a: int, b: int)
    requires a <= b && sys.lag <= 8 * MINUTE
    ensures |ExchangesIn(Run(sys, events), LimiterKey(peer), a, b)| as real
            <= 10.0 + 5.0 * ((b - a + sys.lag) as real / MINUTE as real)
  {
    hide Run, Answers, Granted, LimiterKey, Refill;
    var s, key := Run(sys, events), LimiterKey(peer);
    RunCounts(sys, events, key, a, b);
    DeployedForgetOnlyFull(sys.lag);
    AdmissionBound(EXCHANGE, sys.lag, s.history, key, a, b);
    ExchangeRate(b + sys.lag - a);
    SubsetNoLarger(ExchangesIn(s, key, a, b), AdmittedIn(s, key, a, b));
  }

  // ---------------------------------------------------------------- flows stay usable

  /** The callback the host makes with what InitAuthorize gave it. */
  function Honest(ps: ProviderState): Request {
    Request(ps, ps.state, ps.redirectURI)
  }

  /** The steps of that callback when it runs undisturbed in s. */
  function HonestCall(s: World, ps: ProviderState, id: CallId, peer: string): seq<Event> {
    [Admit(id, peer, Honest(ps), s.clock), Check(id, true), Stamp(id), Resolve(id), Prune(s.wired), Insert(id, true)]
  }

  /** The limiter admits the callback and the flow is not stale. */
  predicate Welcome(s: World, ps: ProviderState, peer: string) {
    && Allow(EXCHANGE, Final(EXCHANGE, s.history), Call(LimiterKey(peer), s.clock)).1.ok
    && s.clock - ps.issuedAt.GetOr(s.clock) <= STATE_TTL
  }

  /** The database in use still holds a row for the nonce that has not expired. */
  predicate StillHeld(sys: System, s: World, nonce: string) {
    s.wired.Some? && sys.hash(nonce) in Unexpired(Rows(s, s.wired.value), s.clock)
  }

  lemma NoRow(sys: System, s: World, nonce: string)
    requires Inv(sys, s)
    requires forall k :: HasPassed(s, k) && StoreOf(s, k) == s.wired ==> sys.hash(NonceOf(s, k)) != sys.hash(nonce)
    ensures !StillHeld(sys, s, nonce)
  {
    if StillHeld(sys, s, nonce) {
      var k := RowOwner(sys, s, s.wired.value, sys.hash(nonce));
    }
  }

  lemma GuardOutcome(sys: System, s: World, id: CallId)
    requires id in s.calls && s.calls[id].phase.Checked?
    ensures var resolved := Next(sys, Next(sys, s, Stamp(id)), Resolve(id));
            var t := Next(sys, Next(sys, resolved, Prune(s.wired)), Insert(id, true));
            HasPassed(t, id) <==> !StillHeld(sys, s, NonceOf(s, id))
  {
    hide Allow, Final, Gate, Finish;
    var resolved := Next(sys, Next(sys, s, Stamp(id)), Resolve(id));
    assert resolved.calls[id].phase == Resolved(s.calls[id].phase.checkedAt, s.clock, s.wired);
    var pruned := Next(sys, resolved, Prune(s.wired));
    assert pruned.calls == resolved.calls;
    assert s.wired.Some? ==> Rows(pruned, s.wired.value) == Unexpired(Rows(s, s.wired.value), s.clock);
  }

  /** Steps of a call that is not under way, or was refused, change nothing about it. */
  lemma IdleSteps(sys: System, s: World, id: CallId)
    requires id in s.calls ==> s.calls[id].phase.Rejected?
    ensures var resolved := Next(sys, Next(sys, s, Stamp(id)), Resolve(id));
            !HasPassed(Next(sys, Next(sys, resolved, Prune(s.wired)), Insert(id, true)), id)
  {
    hide Allow, Final, Gate, Finish;
    assert Next(sys, Next(sys, s, Stamp(id)), Resolve(id)) == s;
    assert Next(sys, s, Prune(s.wired)).calls == s.calls;
  }

  lemma IssuedOk(sys: System, s: World, nonce: string)
    requires Inv(sys, s) && nonce in s.issued
    ensures FlowOk(nonce, s.issued[nonce])
  {
  }

  lemma SameHeld(sys: System, s: World, t: World, nonce: string)
    requires t.wired == s.wired && t.tables == s.tables && t.clock == s.clock
    ensures StillHeld(sys, t, nonce) == StillHeld(sys, s, nonce)
  {
  }

  lemma HonestOpening(sys: System, s: World, ps: ProviderState, id: CallId, peer: string)
    requires id !in s.calls && FlowOk(ps.nonce, ps)
    ensures var t := Next(sys, Next(sys, s, Admit(id, peer, Honest(ps), s.clock)), Check(id, true));
            && t.wired == s.wired && t.tables == s.tables && t.clock == s.clock
            && (id in t.calls ==> t.calls[id].req.provider == ps)
            && if Welcome(s, ps, peer) then id in t.calls && t.calls[id].phase.Checked?
               else id in t.calls ==> t.calls[id].phase.Rejected?
  {
    hide Allow, Final, LimiterKey, Finish;
  }

  /**
   From any reachable state, in whatever way earlier callbacks of the flow were refused: an honest
   callback passes exactly when the limiter admits it, the flow is not stale and no unexpired row
   holds its nonce's hash; there is none if no nonce of that hash has passed on this database.
   */
  lemma {:induction false} FlowStaysUsable(sys: System, events: seq<Event>, nonce: string, id: CallId, peer: string)
    requires nonce in Run(sys, events).issued && id !in Run(sys, events).calls
    ensures var s := Run(sys, events);
            var ps := s.issued[nonce];
            && (HasPassed(Run(sys, events + HonestCall(s, ps, id, peer)), id)
                <==> Welcome(s, ps, peer) && !StillHeld(sys, s, nonce))
            && ((forall k :: HasPassed(s, k) && StoreOf(s, k) == s.wired ==>
                   sys.hash(NonceOf(s, k)) != sys.hash(nonce)) ==> !StillHeld(sys, s, nonce))
  {
    hide Run, Next, Inv, StillHeld;
    RunKeepsInv(sys, events);
    var s := Run(sys, events);
    var ps := s.issued[nonce];
    assert FlowOk(nonce, ps) by { IssuedOk(sys, s, nonce); }
    if forall k :: HasPassed(s, k) && StoreOf(s, k) == s.wired ==> sys.hash(NonceOf(s, k)) != sys.hash(nonce) {
      NoRow(sys, s, nonce);
    }
    var e1 := Then(sys, events, Admit(id, peer, Honest(ps), s.clock));
    var e2 := Then(sys, e1, Check(id, true));
    HonestOpening(sys, s, ps, id, peer);
    hide Welcome;
    SameHeld(sys, s, Run(sys, e2), nonce);
    var e3 := Then(sys, e2, Stamp(id));
    var e4 := Then(sys, e3, Resolve(id));
    var e5 := Then(sys, e4, Prune(s.wired));
    var e6 := Then(sys, e5, Insert(id, true));
    assert e6 == events + HonestCall(s, ps, id, peer);
    if Welcome(s, ps, peer) { GuardOutcome(sys, Run(sys, e2), id); } else { IdleSteps(sys, Run(sys, e2), id); }
  }

  // ---------------------------------------------------------------- what a login rests on

  /** Only callers without an address share a bucket with one another, or with one named unknown. */
  lemma LimiterKeyIff(a: string, b: string)
    ensures LimiterKey(a) == LimiterKey(b) <==> a == b || (a in {"", "unknown"} && b in {"", "unknown"})
  {
    var prefix := "exchange:";
    var x, y := if a == "" then "unknown" else a, if b == "" then "unknown" else b;
    assert LimiterKey(a) == prefix + x && LimiterKey(b) == prefix + y;
    assert (prefix + x)[|prefix|..] == x && (prefix + y)[|prefix|..] == y;
  }

  /** A newly issued provider_state passes the checks exactly for ten minutes, with its own state and URI. */
  lemma IssueOpensGate(sys: System, s: World, verifier: string, nonce: string, state: string, redirectURI: string)
    requires verifier != "" && nonce != "" && nonce !in s.issued
    ensures var t := Next(sys, s, Issue(verifier, nonce, state, redirectURI));
            && t.issued.Keys == s.issued.Keys + {nonce} && (forall n :: n in s.issued ==> t.issued[n] == s.issued[n])
            && t.issued[nonce].nonce == nonce && t.issued[nonce].verifier == verifier
            && forall now, st, uri ::
                 Gate(true, Request(t.issued[nonce], st, uri), now).None?
                 <==> now - s.clock <= 600_000_000_000 && state in {"", st} && redirectURI in {"", uri}
  {
  }

  /** The outcome of call id was decided by one of the events on that call's own nonce. */
  ghost predicate Concluded(sys: System, s: World, events: seq<Event>, id: CallId)
    requires HasPassed(s, id) && s.calls[id].phase.outcome.Some?
  {
    exists cfg, idp :: Conclude(id, cfg, idp) in events
                       && s.calls[id].phase.outcome.value == Finish(sys.rx, cfg, NonceOf(s, id), idp)
  }

  ghost predicate HasOutcome(s: World, id: CallId) {
    HasPassed(s, id) && s.calls[id].phase.outcome.Some?
  }

  lemma OutcomeStep(sys: System, s: World, e: Event, id: CallId)
    ensures var t := Next(sys, s, e);
            HasOutcome(t, id) ==>
              || (HasOutcome(s, id) && t.calls[id] == s.calls[id])
              || (e.Conclude? && e.id == id
                  && t.calls[id].phase.outcome.value == Finish(sys.rx, e.cfg, NonceOf(t, id), e.idp))
  {
    hide Allow, Final, Gate, Finish, LimiterKey;
  }

  lemma {:induction false} OutcomesConcluded(sys: System, events: seq<Event>, id: CallId)
    ensures HasOutcome(Run(sys, events), id) ==> Concluded(sys, Run(sys, events), events, id)
  {
    if events != [] {
      hide Next;
      var pre, e := events[..|events| - 1], events[|events| - 1];
      OutcomesConcluded(sys, pre, id);
      OutcomeStep(sys, Run(sys, pre), e, id);
      assert e in events && forall x :: x in pre ==> x in events;
    }
  }

  /**
   Over every run, a call that ended in a login passed all checks when it was checked, and its
   id_token was verified under the very nonce that call consumed.
   */
  lemma {:induction false} LoginsVerified(sys: System, events: seq<Event>, id: CallId)
    ensures var s := Run(sys, events);
            HasOutcome(s, id) && s.calls[id].phase.outcome.value.Ok? ==>
              && Gate(true, s.calls[id].req, s.calls[id].phase.checkedAt).None?
              && exists cfg, idp ::
                   && Conclude(id, cfg, idp) in events && idp.Verified? && idp.claims.Some?
                   && idp.nonce == NonceOf(s, id)
                   && s.calls[id].phase.outcome.value == Decide(sys.rx, cfg, idp.claims.value, idp.userinfo)
  {
    hide Run, Gate, Decide;
    var s := Run(sys, events);
    RunKeepsInv(sys, events);
    OutcomesConcluded(sys, events, id);
    if HasOutcome(s, id) && s.calls[id].phase.outcome.value.Ok? {
      assert CallOk(s, s.calls[id]);
      var cfg, idp :| Conclude(id, cfg, idp) in events
                      && s.calls[id].phase.outcome.value == Finish(sys.rx, cfg, NonceOf(s, id), idp);
      FinishIff(sys.rx, cfg, NonceOf(s, id), idp);
    }
  }
}
