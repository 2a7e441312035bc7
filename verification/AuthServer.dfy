/** The auth provider object: InitAuthorize and ExchangeCode over a limiter and a nonce store. */
module AuthServer {
  import opened Basics
  import opened Json
  import opened Claims
  import opened Config
  import opened Store
  import opened RateLimit
  import opened RateLimiter
  import opened Login
  import opened LoginProtocol

  /** The clock readings of one ExchangeCode call, in the order they are taken. */
  datatype Times = Times(admit: int, check: int, stamp: int, prune: int)

  /** Which of its database statements succeed. */
  datatype Db = Db(pruneOk: bool, insertOk: bool)

  /** An admitted call as one step: the checks, the replay guard, then the identity provider. */
  function Exchange(sys: System, rows: map<Digest, int>, cfg: Config, providerReady: bool, req: Request,
                    at: Times, db: Db, idp: Idp): (map<Digest, int>, Result<Response, Error>)
  {
    var refused := Gate(providerReady, req, at.check);
    if refused.Some? then (rows, Err(refused.value))
    else
      var nonce := req.provider.nonce;
      var (rows', c) := Consume(rows, sys.hash(nonce), at.stamp + STATE_TTL, at.prune, db.pruneOk, db.insertOk);
      match c
      case Fresh => (rows', Finish(sys.rx, cfg, nonce, idp))
      case Replay => (rows', Err(ReplayedNonce))
      case _ => (rows', Err(ReplayCheckFailed))
  }

  /** The same without a database: the replay guard is skipped. */
  function Unguarded(sys: System, cfg: Config, providerReady: bool, req: Request, at: Times, idp: Idp)
    : Result<Response, Error>
  {
    match Gate(providerReady, req, at.check)
    case Some(e) => Err(e)
    case None => Finish(sys.rx, cfg, req.provider.nonce, idp)
  }

  /** Copies every claim of `extra` over `base`. */
  method Overlay(base: Object, extra: Object) returns (m: Object)
    ensures m == base + extra
  {
    m := base;
    var todo := extra.Keys;
    while todo != {}
      invariant todo <= extra.Keys && m.Keys == base.Keys + (extra.Keys - todo)
      invariant forall k :: k in m ==> m[k] == if k in extra && k !in todo then extra[k] else base[k]
    {
      var k :| k in todo;
      m := m[k := extra[k]];
      todo := todo - {k};
    }
  }

  /** The part of ExchangeCode that follows id_token verification. */
  method DecideClaims(rx: Engine, cfg: Config, idClaims: Object, userinfo: Option<Object>)
    returns (r: Result<Response, Error>)
    ensures r == Decide(rx, cfg, idClaims, userinfo)
  {
    hide EvaluateFilters, ResolveRole, IdentityOf;
    var merged := Overlay(map[], idClaims);
    var idSub := StringAt(idClaims, "sub");
    if idSub == "" {
      return Err(MissingSubject);
    }
    if userinfo.Some? {
      var uiSub := StringAt(userinfo.value, "sub");
      if uiSub != "" && uiSub != idSub {
        return Err(SubjectMismatch);
      }
      merged := Overlay(merged, userinfo.value);
    }
    assert merged == Merged(idClaims, userinfo);
    var idEmailVerified, idEmail := EmailVerified(idClaims), StringAt(idClaims, "email");
    if cfg.emailVerifiedRequired && !idEmailVerified {
      return Err(EmailUnverified);
    }
    if !EvaluateFilters(rx, merged, cfg.claimFilters.Seq()) {
      return Err(FilterRejected);
    }
    merged := merged[ROLE_KEY := String(ResolveRole(rx, merged, cfg.claimRoleMapping.Seq()))];
    if cfg.linkByEmail && idEmailVerified && idEmail != "" {
      merged := merged[LINK_KEY := Bool(true)];
    }
    var id := DeriveIdentity(merged);
    return Ok(Response(id.subject, id.displayName, id.email, merged));
  }

  class Server {
    const sys: System
    const limiter: Limiter
    // Not wired until the first successful Configure; replay protection is skipped until then.
    var store: Store?

    ghost predicate Valid()
      reads this, limiter, store
    {
      limiter.Valid() && (store != null ==> store.hash == sys.hash)
    }

    constructor (sys: System, limiter: Limiter)
      requires limiter.Valid()
      ensures Valid() && this.sys == sys && this.limiter == limiter && store == null
    {
      this.sys, this.limiter, store := sys, limiter, null;
    }

    /** Issues a flow; verifier and nonce are what the random source gives, None when it fails. */
    method InitAuthorize(providerReady: bool, verifier: Option<string>, nonce: Option<string>, state: string,
                         redirectURI: string, now: int)
      returns (r: Result<ProviderState, Error>)
      requires verifier != Some("") && nonce != Some("")
      ensures r.Ok? <==> providerReady && verifier.Some? && nonce.Some?
      ensures r.Err? ==> r.error == if providerReady then EntropyFailed else NotConfigured
      ensures r.Ok? ==> r.value.nonce == nonce.value && r.value.verifier == verifier.value
      ensures r.Ok? ==> forall t, s, u ::
                Gate(true, Request(r.value, s, u), t).None?
                <==> t - now <= STATE_TTL && (state == "" || s == state) && (redirectURI == "" || u == redirectURI)
    {
      if !providerReady {
        return Err(NotConfigured);
      }
      if verifier.None? || nonce.None? {
        return Err(EntropyFailed);
      }
      return Ok(ProviderState(verifier.value, nonce.value, state, redirectURI, Some(now)));
    }

    /** With a store wired, an admitted call is `Exchange`; a denied one touches no row. */
    method ExchangeCode(peer: string, req: Request, cfg: Config, providerReady: bool, at: Times, db: Db, idp: Idp)
      returns (r: Result<Response, Error>)
      requires Valid()
      modifies limiter, store
      ensures Valid() && limiter.history == old(limiter.history) + [Call(LimiterKey(peer), at.admit)]
      ensures var a := Answers(limiter.p, limiter.history)[|old(limiter.history)|];
              if !a.ok then
                r == Err(RateLimited(a.retryAfter)) && (store != null ==> store.nonces == old(store.nonces))
              else if store != null then
                (store.nonces, r) == Exchange(sys, old(store.nonces), cfg, providerReady, req, at, db, idp)
              else
                r == Unguarded(sys, cfg, providerReady, req, at, idp)
    {
      hide Answers, Final, Decide, RateLimit.Allow;
      var ok, retry := limiter.Allow(LimiterKey(peer), at.admit);
      if !ok {
        return Err(RateLimited(retry));
      }
      var refused := Gate(providerReady, req, at.check);
      if refused.Some? {
        return Err(refused.value);
      }
      var nonce := req.provider.nonce;
      if store != null {
        var c := store.ConsumeNonce(nonce, at.stamp + STATE_TTL, at.prune, db.pruneOk, db.insertOk);
        if c == Replay {
          return Err(ReplayedNonce);
        }
        if c != Fresh {
          return Err(ReplayCheckFailed);
        }
      }
      if !idp.Verified? {
        return Err(if idp.NoTokens? then ExchangeFailed else VerifyFailed);
      }
      if idp.nonce != nonce {
        return Err(NonceMismatch);
      }
      if idp.claims.None? {
        return Err(VerifyFailed);
      }
      r := DecideClaims(sys.rx, cfg, idp.claims.value, idp.userinfo);
    }
  }

  // ---------------------------------------------------------------- the object takes protocol steps

  /** Lets the clock run up to `t`. */
  function WaitUntil(sys: System, s: World, t: int): World {
    if s.clock <= t then Next(sys, s, Tick(t - s.clock)) else s
  }

  /** Its replay guard: stamp, look up the database, prune if that succeeds, insert. */
  function GuardToEnd(sys: System, s: World, id: CallId, at: Times, db: Db): World {
    var stamped := Next(sys, WaitUntil(sys, s, at.stamp), Stamp(id));
    var ready := WaitUntil(sys, Next(sys, stamped, Resolve(id)), at.prune);
    Next(sys, if db.pruneOk then Next(sys, ready, Prune(s.wired)) else ready, Insert(id, db.insertOk))
  }

  /** The protocol steps of one call at the given times, with no step of another call in between. */
  function CallToEnd(sys: System, s: World, id: CallId, peer: string, req: Request, cfg: Config,
                     providerReady: bool, at: Times, db: Db, idp: Idp): World
  {
    var admitted := Next(sys, WaitUntil(sys, s, at.admit), Admit(id, peer, req, at.admit));
    if id !in admitted.calls then admitted
    else
      var checked := Next(sys, WaitUntil(sys, admitted, at.check), Check(id, providerReady));
      if id in checked.calls && checked.calls[id].phase.Rejected? then checked
      else Next(sys, GuardToEnd(sys, checked, id, at, db), Conclude(id, cfg, idp))
  }

  /** Up to its prune, a guarded call only lets time pass and records what it read. */
  lemma GuardReady(sys: System, s: World, id: CallId, at: Times)
    requires id in s.calls && s.calls[id].phase.Checked? && s.clock <= at.stamp <= at.prune
    ensures var stamped := Next(sys, WaitUntil(sys, s, at.stamp), Stamp(id));
            WaitUntil(sys, Next(sys, stamped, Resolve(id)), at.prune)
            == Advance(s.(clock := at.prune), id, Resolved(s.calls[id].phase.checkedAt, at.stamp, s.wired))
  {
    hide Finish, Gate, RateLimit.Allow, Final;
    var waited := WaitUntil(sys, s, at.stamp);
    assert waited == s.(clock := at.stamp);
    var stamped := Next(sys, waited, Stamp(id));
    assert stamped == Advance(waited, id, Phase.Stamped(s.calls[id].phase.checkedAt, at.stamp));
    var resolved := Resolved(s.calls[id].phase.checkedAt, at.stamp, s.wired);
    assert Next(sys, stamped, Resolve(id)) == Advance(stamped, id, resolved);
    assert Advance(stamped, id, resolved).calls == Advance(waited, id, resolved).calls;
  }

  lemma GuardIsConsume(sys: System, s: World, id: CallId, at: Times, db: Db)
    requires id in s.calls && s.calls[id].phase.Checked? && s.clock <= at.stamp <= at.prune && s.wired.Some?
    ensures var (t, d, nonce) := (GuardToEnd(sys, s, id, at, db), s.wired.value, s.calls[id].req.provider.nonce);
            var (rows, c) := Consume(Rows(s, d), sys.hash(nonce), at.stamp + STATE_TTL, at.prune, db.pruneOk,
                                     db.insertOk);
            && Rows(t, d) == rows && SameElsewhere(s, t, d)
            && id in t.calls && t.calls[id].req == s.calls[id].req && t.history == s.history
            && match t.calls[id].phase
               case Passed(_, _, _, _, outcome) => c == Fresh && outcome.None?
               case Rejected(e) =>
                 c in {Replay, DbError} && e == if c == Replay then ReplayedNonce else ReplayCheckFailed
               case _ => false
  {
    hide Finish, Gate, RateLimit.Allow, Final, WaitUntil;
    GuardReady(sys, s, id, at);
  }

  lemma GuardSkipped(sys: System, s: World, id: CallId, at: Times, db: Db)
    requires id in s.calls && s.calls[id].phase.Checked? && s.clock <= at.stamp <= at.prune && s.wired.None?
    ensures var t := GuardToEnd(sys, s, id, at, db);
            && t.tables == s.tables && id in t.calls && t.calls[id].req == s.calls[id].req && t.history == s.history
            && t.calls[id].phase.Passed? && t.calls[id].phase.outcome.None?
  {
    hide Finish, Gate, RateLimit.Allow, Final, WaitUntil;
    GuardReady(sys, s, id, at);
  }

  /** The nonce rows of all databases other than d are the same. */
  ghost predicate SameElsewhere(s: World, t: World, d: DbId) {
    t.tables - {d} == s.tables - {d}
  }

  /** What ExchangeCode promises of an admitted call, for the database in use in s. */
  ghost predicate Exchanged(sys: System, s: World, t: World, cfg: Config, providerReady: bool, req: Request, at: Times,
                            db: Db, idp: Idp, reply: Result<Response, Error>)
  {
    match s.wired
    case Some(d) =>
      && SameElsewhere(s, t, d)
      && (Rows(t, d), reply) == Exchange(sys, Rows(s, d), cfg, providerReady, req, at, db, idp)
    case None => t.tables == s.tables && reply == Unguarded(sys, cfg, providerReady, req, at, idp)
  }

  /** What the caller is told once a call has ended. */
  function Reply(c: Callback): Option<Result<Response, Error>> {
    match c.phase
    case Rejected(e) => Some(Err(e))
    case Passed(_, _, _, _, outcome) => outcome
    case _ => None
  }

  lemma AdmittedCallIsSteps(sys: System, s: World, id: CallId, cfg: Config, providerReady: bool, at: Times, db: Db,
                            idp: Idp)
    requires id in s.calls && s.calls[id].phase.Admitted? && s.clock <= at.check <= at.stamp <= at.prune
    ensures var req, checked := s.calls[id].req, Next(sys, WaitUntil(sys, s, at.check), Check(id, providerReady));
            var t := if id in checked.calls && checked.calls[id].phase.Rejected? then checked
                     else Next(sys, GuardToEnd(sys, checked, id, at, db), Conclude(id, cfg, idp));
            && id in t.calls && Reply(t.calls[id]).Some? && t.history == s.history
            && Exchanged(sys, s, t, cfg, providerReady, req, at, db, idp, Reply(t.calls[id]).value)
  {
    hide Finish, Gate, RateLimit.Allow, Final, GuardToEnd, Consume;
    var checked := Next(sys, WaitUntil(sys, s, at.check), Check(id, providerReady));
    assert checked.tables == s.tables && checked.wired == s.wired && checked.history == s.history;
    if checked.calls[id].phase.Checked? {
      if s.wired.Some? { GuardIsConsume(sys, checked, id, at, db); } else { GuardSkipped(sys, checked, id, at, db); }
      var t := GuardToEnd(sys, checked, id, at, db);
      assert Next(sys, t, Conclude(id, cfg, idp)).tables == t.tables;
    }
  }

  lemma AdmitStep(sys: System, s: World, id: CallId, peer: string, req: Request, at: int)
    requires id !in s.calls && s.clock <= at
    ensures var t, c := Next(sys, WaitUntil(sys, s, at), Admit(id, peer, req, at)), Call(LimiterKey(peer), at);
            && t.history == s.history + [c] && t.clock == at && t.wired == s.wired && t.tables == s.tables
            && (id in t.calls <==> Answers(EXCHANGE, t.history)[|s.history|].ok)
            && (id in t.calls ==> t.calls[id] == Callback(peer, at, req, Admitted))
  {
    DeployedForgetOnlyFull(0);
    RunSnoc(EXCHANGE, s.history, Call(LimiterKey(peer), at));
    hide RateLimit.Allow, Final, Answers, LimiterKey;
  }

  /**
   A call of the step system at times in order, from any state and undisturbed by others, does to
   the log and to the rows what ExchangeCode promises, and gives the same reply, whichever database
   is in use, or none.
   */
  lemma {:induction false} CallIsSteps(sys: System, s: World, id: CallId, peer: string, req: Request, cfg: Config,
                                       providerReady: bool, at: Times, db: Db, idp: Idp)
    requires id !in s.calls && s.clock <= at.admit <= at.check <= at.stamp <= at.prune
    ensures var t := CallToEnd(sys, s, id, peer, req, cfg, providerReady, at, db, idp);
            && t.history == s.history + [Call(LimiterKey(peer), at.admit)]
            && if !Answers(EXCHANGE, t.history)[|s.history|].ok then
                 id !in t.calls && t.tables == s.tables
               else
                 && id in t.calls && Reply(t.calls[id]).Some?
                 && Exchanged(sys, s, t, cfg, providerReady, req, at, db, idp, Reply(t.calls[id]).value)
  {
    hide Next, WaitUntil, GuardToEnd, Exchange, Unguarded, Answers, LimiterKey, Reply;
    AdmitStep(sys, s, id, peer, req, at.admit);
    var admitted := Next(sys, WaitUntil(sys, s, at.admit), Admit(id, peer, req, at.admit));
    if id in admitted.calls {
      AdmittedCallIsSteps(sys, admitted, id, cfg, providerReady, at, db, idp);
    }
  }
}
