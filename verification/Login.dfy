/**
 What a login decides: the gates before the token exchange, the decision on the verified claims,
 and the admin simulator that must agree with it.
 */
module Login {
  import opened Basics
  import opened Json
  import opened Claims
  import opened Config

  // How long an issued provider_state stays valid, and how long a consumed nonce is retained.
  const STATE_TTL: int := 10 * MINUTE

  datatype Error =
    | RateLimited(retryAfter: int)
    | NotConfigured
    | EntropyFailed
    | InvalidProviderState
    | StaleState
    | StateMismatch
    | RedirectMismatch
    | ReplayedNonce
    | ReplayCheckFailed
    | ExchangeFailed
    | VerifyFailed
    | NonceMismatch
    | MissingSubject
    | SubjectMismatch
    | EmailUnverified
    | FilterRejected

  // ---------------------------------------------------------------- before the exchange

  /** The provider_state of a flow; `issuedAt` is None when absent or not a timestamp. */
  datatype ProviderState = ProviderState(
    verifier: string, nonce: string, state: string, redirectURI: string, issuedAt: Option<int>)

  datatype Request = Request(provider: ProviderState, state: string, redirectURI: string)

  /** The checks made at time `now` between the rate limiter and the replay guard. */
  function Gate(providerReady: bool, req: Request, now: int): Option<Error> {
    var ps := req.provider;
    if !providerReady then Some(NotConfigured)
    else if ps.verifier == "" || ps.nonce == "" then Some(InvalidProviderState)
    else if ps.issuedAt.Some? && now - ps.issuedAt.value > STATE_TTL then Some(StaleState)
    else if ps.state != "" && req.state != ps.state then Some(StateMismatch)
    else if ps.redirectURI != "" && req.redirectURI != ps.redirectURI then Some(RedirectMismatch)
    else None
  }

  /** A provider_state without a timestamp, or one at most ten minutes old. */
  predicate NotStale(ps: ProviderState, now: int) {
    ps.issuedAt.Some? ==> now - ps.issuedAt.value <= 600_000_000_000
  }

  /** Which callbacks get past the checks, and which check a refusal names: the first that fails. */
  lemma GateIff(providerReady: bool, req: Request, now: int)
    ensures var (ps, r) := (req.provider, Gate(providerReady, req, now));
            var complete := ps.verifier != "" && ps.nonce != "";
            var sameState, sameURI := ps.state in {"", req.state}, ps.redirectURI in {"", req.redirectURI};
            && (r == None <==> providerReady && complete && NotStale(ps, now) && sameState && sameURI)
            && (r == Some(NotConfigured) <==> !providerReady)
            && (r == Some(InvalidProviderState) <==> providerReady && !complete)
            && (r == Some(StaleState) <==> providerReady && complete && !NotStale(ps, now))
            && (r == Some(StateMismatch) <==> providerReady && complete && NotStale(ps, now) && !sameState)
            && (r == Some(RedirectMismatch) <==>
                  providerReady && complete && NotStale(ps, now) && sameState && !sameURI)
  {
  }

  // ---------------------------------------------------------------- after the exchange

  /** Everything the identity provider may come back with. */
  datatype Idp =
    | NoTokens
    | NoIdToken
    | BadIdToken
    | Verified(nonce: string, claims: Option<Object>, userinfo: Option<Object>)

  datatype Response = Response(subject: string, displayName: string, email: string, claims: Object)

  // Claims the plugin itself attaches for the host.
  const ROLE_KEY := "silo_role"
  const LINK_KEY := "silo_link_by_email"

  function Merged(idClaims: Object, userinfo: Option<Object>): Object {
    if userinfo.Some? then idClaims + userinfo.value else idClaims
  }

  /** userinfo names a subject, and not the one of the id_token. */
  predicate SubjectClash(idClaims: Object, userinfo: Option<Object>) {
    && userinfo.Some? && StringAt(userinfo.value, "sub") != ""
    && StringAt(userinfo.value, "sub") != StringAt(idClaims, "sub")
  }

  /** Email linking is offered only for a verified, non-empty email of the id_token itself. */
  predicate OffersLink(cfg: Config, idClaims: Object) {
    cfg.linkByEmail && EmailVerified(idClaims) && StringAt(idClaims, "email") != ""
  }

  /** The merged claims with the plugin's own keys written over them. */
  function Stamped(cfg: Config, idClaims: Object, merged: Object, role: string): Object {
    var m := merged[ROLE_KEY := String(role)];
    if OffersLink(cfg, idClaims) then m[LINK_KEY := Bool(true)] else m
  }

  /** The decision on verified id_token claims and whatever userinfo was obtained. */
  function Decide(rx: Engine, cfg: Config, idClaims: Object, userinfo: Option<Object>): Result<Response, Error> {
    var merged := Merged(idClaims, userinfo);
    if StringAt(idClaims, "sub") == "" then Err(MissingSubject)
    else if SubjectClash(idClaims, userinfo) then Err(SubjectMismatch)
    else if cfg.emailVerifiedRequired && !EmailVerified(idClaims) then Err(EmailUnverified)
    else if !EvaluateFilters(rx, merged, cfg.claimFilters.Seq()) then Err(FilterRejected)
    else
      var claims := Stamped(cfg, idClaims, merged, ResolveRole(rx, merged, cfg.claimRoleMapping.Seq()));
      var id := IdentityOf(claims);
      Ok(Response(id.subject, id.displayName, id.email, claims))
  }

  /** The whole of ExchangeCode after the replay guard. */
  function Finish(rx: Engine, cfg: Config, expectedNonce: string, idp: Idp): Result<Response, Error> {
    match idp
    case NoTokens => Err(ExchangeFailed)
    case NoIdToken => Err(VerifyFailed)
    case BadIdToken => Err(VerifyFailed)
    case Verified(nonce, claims, userinfo) =>
      if nonce != expectedNonce then Err(NonceMismatch)
      else if claims.None? then Err(VerifyFailed)
      else Decide(rx, cfg, claims.value, userinfo)
  }

  // ---------------------------------------------------------------- when a login succeeds

  /** The claims a login is decided on: where both sources have a claim, userinfo's counts. */
  function Effective(idClaims: Object, userinfo: Option<Object>): Object {
    idClaims + userinfo.GetOr(map[])
  }

  /** userinfo names a subject, as text, that is neither empty nor the given one. */
  predicate NamesOther(userinfo: Option<Object>, subject: string) {
    && userinfo.Some? && "sub" in userinfo.value && userinfo.value["sub"].String?
    && userinfo.value["sub"].s !in {"", subject}
  }

  /** Every filter finds a claim that satisfies it. */
  ghost predicate AllMatch(rx: Engine, filters: seq<ClaimFilter>, claims: Object) {
    forall f :: f in filters ==> exists v :: Resolve(claims, f.path) == Some(v) && Eval(rx, f.op, v, f.value)
  }

  lemma AllMatchIff(rx: Engine, filters: seq<ClaimFilter>, claims: Object)
    ensures EvaluateFilters(rx, claims, filters) <==> AllMatch(rx, filters, claims)
  {
    hide EvaluateFilters, Resolve, Eval;
    FiltersConjunction(rx, claims, filters);
    forall f | f in filters
      ensures Matches(rx, claims, f.path, f.op, f.value)
              <==> exists v :: Resolve(claims, f.path) == Some(v) && Eval(rx, f.op, v, f.value)
    {
      MatchesIff(rx, claims, f.path, f.op, f.value);
    }
  }

  /** Which claims are let through, and which check a refusal names: the first that fails. */
  lemma {:induction false} DecisionIff(rx: Engine, cfg: Config, idClaims: Object, userinfo: Option<Object>)
    ensures var (r, sub) := (Decide(rx, cfg, idClaims, userinfo), StringAt(idClaims, "sub"));
            var other := NamesOther(userinfo, sub);
            var unverified := cfg.emailVerifiedRequired
                              && !("email_verified" in idClaims && idClaims["email_verified"] == Bool(true));
            var matches := AllMatch(rx, cfg.claimFilters.Seq(), Effective(idClaims, userinfo));
            && (r.Ok? <==> sub != "" && !other && !unverified && matches)
            && (r == Err(MissingSubject) <==> sub == "")
            && (r == Err(SubjectMismatch) <==> sub != "" && other)
            && (r == Err(EmailUnverified) <==> sub != "" && !other && unverified)
            && (r == Err(FilterRejected) <==> sub != "" && !other && !unverified && !matches)
  {
    hide EvaluateFilters, ResolveRole, IdentityOf, AllMatch;
    assert Merged(idClaims, userinfo) == Effective(idClaims, userinfo);
    AllMatchIff(rx, cfg.claimFilters.Seq(), Merged(idClaims, userinfo));
  }

  /** Which answers of the identity provider reach the decision, and what the others lead to. */
  lemma FinishIff(rx: Engine, cfg: Config, expectedNonce: string, idp: Idp)
    ensures var r := Finish(rx, cfg, expectedNonce, idp);
            && (idp.NoTokens? ==> r == Err(ExchangeFailed))
            && (idp.NoIdToken? || idp.BadIdToken? ==> r == Err(VerifyFailed))
            && (r == Err(NonceMismatch) <==> idp.Verified? && idp.nonce != expectedNonce)
            && (idp.Verified? && idp.nonce == expectedNonce ==>
                  r == match idp.claims
                       case None => Err(VerifyFailed)
                       case Some(claims) => Decide(rx, cfg, claims, idp.userinfo))
  {
    hide EvaluateFilters, ResolveRole, IdentityOf;
  }

  // ---------------------------------------------------------------- what a login can return

  /**
   The claims a login returns: userinfo's where it has them, else the id_token's, except for the two
   keys of the plugin. The identity is read from those claims.
   */
  lemma {:induction false} ReturnedClaims(rx: Engine, cfg: Config, idClaims: Object, userinfo: Option<Object>,
                                          k: string)
    requires Decide(rx, cfg, idClaims, userinfo).Ok?
    ensures var (r, ui) := (Decide(rx, cfg, idClaims, userinfo).value, userinfo.GetOr(map[]));
            && (k !in {"silo_role", "silo_link_by_email"} ==>
                  && (k in r.claims <==> k in ui || k in idClaims)
                  && (k in ui ==> r.claims[k] == ui[k])
                  && (k in idClaims && k !in ui ==> r.claims[k] == idClaims[k]))
            && r.subject == StringAt(r.claims, "sub")
            && r.email == StringAt(r.claims, "email")
            && r.displayName == IdentityOf(r.claims).displayName
            && r.email == (if "email" in ui then StringOf(ui["email"]) else StringAt(idClaims, "email"))
  {
    hide EvaluateFilters, ResolveRole;
    IdentityKeysApart("email");
  }

  /** The role a login returns is that of the first matching rule; the link flag is set when earned. */
  lemma {:induction false} ReturnedRole(rx: Engine, cfg: Config, idClaims: Object, userinfo: Option<Object>)
    requires Decide(rx, cfg, idClaims, userinfo).Ok?
    ensures var claims, c := Decide(rx, cfg, idClaims, userinfo).value.claims, Effective(idClaims, userinfo);
            var rules := cfg.claimRoleMapping.Seq();
            var earned := cfg.linkByEmail && EmailVerified(idClaims) && StringAt(idClaims, "email") != "";
            && "silo_role" in claims
            && ((forall r :: r in rules ==> !RuleMatches(rx, c, r)) ==> claims["silo_role"] == String("user"))
            && (forall i :: 0 <= i < |rules| && RuleMatches(rx, c, rules[i])
                            && (forall j :: 0 <= j < i ==> !RuleMatches(rx, c, rules[j]))
                            ==> claims["silo_role"] == String(rules[i].role))
            && (earned ==> "silo_link_by_email" in claims && claims["silo_link_by_email"] == Bool(true))
            && (!earned && "silo_link_by_email" in claims ==>
                  "silo_link_by_email" in c && claims["silo_link_by_email"] == c["silo_link_by_email"])
  {
    hide EvaluateFilters, TraceRoleFrom, IdentityOf, RuleMatches;
    OwnKeysApart();
    RoleIsFirstMatch(rx, Effective(idClaims, userinfo), cfg.claimRoleMapping.Seq());
    assert Merged(idClaims, userinfo) == Effective(idClaims, userinfo);
  }

  /** The keys an identity is read from. */
  predicate IdentityKey(k: string) {
    k == "sub" || k == "email" || k == "name" || k == "given_name" || k == "family_name"
  }

  lemma IdentityKeysApart(k: string)
    requires IdentityKey(k)
    ensures k != ROLE_KEY && k != LINK_KEY
  {
    assert ROLE_KEY[5] == 'r' && LINK_KEY[5] == 'l';
  }

  lemma OwnKeysApart()
    ensures ROLE_KEY != LINK_KEY
  {
    assert ROLE_KEY[5] == 'r' && LINK_KEY[5] == 'l';
  }

  lemma IdentityReadsOnly(c: Object, d: Object)
    requires forall k :: IdentityKey(k) ==> StringAt(c, k) == StringAt(d, k)
    ensures IdentityOf(c) == IdentityOf(d)
  {
    assert IdentityKey("sub") && IdentityKey("email") && IdentityKey("name");
    assert IdentityKey("given_name") && IdentityKey("family_name");
  }

  /** Writing the plugin's own keys does not disturb the identity derived from the claims. */
  lemma StampKeepsIdentity(cfg: Config, idClaims: Object, merged: Object, role: string)
    ensures IdentityOf(Stamped(cfg, idClaims, merged, role)) == IdentityOf(merged)
  {
    var m := Stamped(cfg, idClaims, merged, role);
    forall k | IdentityKey(k) ensures StringAt(m, k) == StringAt(merged, k) {
      IdentityKeysApart(k);
    }
    IdentityReadsOnly(m, merged);
  }

  /** userinfo carries a `sub` that is not a non-empty string. */
  predicate BlanksSubject(userinfo: Option<Object>) {
    userinfo.Some? && "sub" in userinfo.value && StringAt(userinfo.value, "sub") == ""
  }

  /**
   Subject pinning: a login that succeeds was verified under the stashed nonce, and returns the
   subject of the id_token, or the empty subject exactly when userinfo blanks it; never another.
   */
  lemma SubjectPinned(rx: Engine, cfg: Config, expectedNonce: string, idp: Idp)
    requires Finish(rx, cfg, expectedNonce, idp).Ok?
    ensures idp.Verified? && idp.nonce == expectedNonce && idp.claims.Some?
    ensures var idSub := StringAt(idp.claims.value, "sub");
            && idSub != ""
            && Finish(rx, cfg, expectedNonce, idp).value.subject == if BlanksSubject(idp.userinfo) then "" else idSub
  {
    hide EvaluateFilters, ResolveRole;
    var idClaims, merged := idp.claims.value, Merged(idp.claims.value, idp.userinfo);
    StampKeepsIdentity(cfg, idClaims, merged, ResolveRole(rx, merged, cfg.claimRoleMapping.Seq()));
  }

  /** The link flag is returned exactly when the id_token earned it or the provider sent a claim of that name. */
  lemma LinkFlagIff(rx: Engine, cfg: Config, idClaims: Object, userinfo: Option<Object>)
    requires Decide(rx, cfg, idClaims, userinfo).Ok?
    ensures var claims := Decide(rx, cfg, idClaims, userinfo).value.claims;
            && (LINK_KEY in claims <==>
                  || OffersLink(cfg, idClaims)
                  || LINK_KEY in idClaims
                  || (userinfo.Some? && LINK_KEY in userinfo.value))
            && (OffersLink(cfg, idClaims) ==> claims[LINK_KEY] == Bool(true))
  {
    hide EvaluateFilters, IdentityOf, ResolveRole;
    OwnKeysApart();
  }

  /**
   What a successful login attaches: under an acceptable configuration the role is user or admin
   whatever the claims said, and the link flag is there exactly when the id_token earned it or the
   identity provider itself sent a claim of that name.
   */
  lemma AttachedClaims(rx: Engine, ck: Checks, cfg: Config, idClaims: Object, userinfo: Option<Object>)
    requires WellFormed(ck, cfg) && Decide(rx, cfg, idClaims, userinfo).Ok?
    ensures var claims := Decide(rx, cfg, idClaims, userinfo).value.claims;
            && ROLE_KEY in claims && claims[ROLE_KEY] in {String("user"), String("admin")}
            && (LINK_KEY in claims <==>
                  || OffersLink(cfg, idClaims)
                  || LINK_KEY in idClaims
                  || (userinfo.Some? && LINK_KEY in userinfo.value))
            && (OffersLink(cfg, idClaims) ==> claims[LINK_KEY] == Bool(true) && cfg.emailVerifiedRequired)
  {
    hide EvaluateFilters, IdentityOf, TraceRoleFrom, RuleOk, Fields, IconAllowed;
    OwnKeysApart();
    LinkFlagIff(rx, cfg, idClaims, userinfo);
    var merged, rules := Merged(idClaims, userinfo), cfg.claimRoleMapping.Seq();
    RoleIsFirstMatch(rx, merged, rules);
    var (role, k) := TraceRole(rx, merged, rules);
    assert role == "user" || role == "admin" by {
      if k >= 0 { assert rules[k] in rules; }
    }
  }

  /** Unsigned userinfo has no say in the email-verified verdict, nor in whether linking is offered. */
  lemma UserinfoNonInterference(rx: Engine, cfg: Config, idClaims: Object, ui1: Option<Object>, ui2: Option<Object>)
    requires forall ui :: ui in {ui1, ui2} ==>
               !SubjectClash(idClaims, ui) && (ui.Some? ==> LINK_KEY !in ui.value)
    ensures var r1, r2 := Decide(rx, cfg, idClaims, ui1), Decide(rx, cfg, idClaims, ui2);
            && (r1 == Err(EmailUnverified) <==> r2 == Err(EmailUnverified))
            && (r1.Ok? && r2.Ok? ==> (LINK_KEY in r1.value.claims <==> LINK_KEY in r2.value.claims))
  {
    hide EvaluateFilters, ResolveRole, IdentityOf;
    assert ui1 in {ui1, ui2} && ui2 in {ui1, ui2};
    var r1, r2 := Decide(rx, cfg, idClaims, ui1), Decide(rx, cfg, idClaims, ui2);
    if r1.Ok? { LinkFlagIff(rx, cfg, idClaims, ui1); }
    if r2.Ok? { LinkFlagIff(rx, cfg, idClaims, ui2); }
  }

  // ---------------------------------------------------------------- what userinfo can do, at concrete inputs

  const ANY_EMAIL: Config := DEFAULT.(emailVerifiedRequired := false)
  const USER: Object := map["sub" := String("u")]

  /** A userinfo answer with an empty subject makes the login succeed without one. */
  lemma EmptySubjectExample(rx: Engine)
    ensures var r := Finish(rx, ANY_EMAIL, "n", Verified("n", Some(USER), Some(map["sub" := String("")])));
            r.Ok? && r.value.subject == ""
  {
    hide ResolveRole;
    var userinfo := Some(map["sub" := String("")]);
    assert Decide(rx, ANY_EMAIL, USER, userinfo).Ok?;
    SubjectPinned(rx, ANY_EMAIL, "n", Verified("n", Some(USER), userinfo));
  }

  /** A link flag that only userinfo sent, of whatever value, is returned although linking is switched off. */
  lemma ForeignLinkFlagExample(rx: Engine, v: Value)
    ensures var r := Decide(rx, ANY_EMAIL, USER, Some(map[LINK_KEY := v]));
            !ANY_EMAIL.linkByEmail && r.Ok? && LINK_KEY in r.value.claims && r.value.claims[LINK_KEY] == v
  {
    hide ResolveRole, IdentityOf;
    OwnKeysApart();
    var userinfo: Object := map[LINK_KEY := v];
    assert "sub" !in userinfo by { IdentityKeysApart("sub"); }
    assert Decide(rx, ANY_EMAIL, USER, Some(userinfo)).Ok?;
  }

  /** With email_verified only in userinfo, the simulator lets the merged claims through and the login refuses. */
  lemma SimulatorDriftExample(rx: Engine)
    ensures var userinfo := Some(map["email_verified" := Bool(true)]);
            && Decide(rx, DEFAULT, USER, userinfo) == Err(EmailUnverified)
            && Allowed(rx, DEFAULT, Merged(USER, userinfo))
  {
    var userinfo: Object := map["email_verified" := Bool(true)];
    assert |"sub"| != |"email_verified"|;
    assert "sub" !in userinfo && "email_verified" !in USER;
    assert EvaluateFilters(rx, USER + userinfo, []);
  }

  // ---------------------------------------------------------------- the admin simulator

  datatype Simulation = Simulation(
    allowed: bool, filtersPassed: bool, trace: seq<FilterTrace>, emailCheck: EmailCheck,
    role: string, ruleIndex: int, identity: Identity)

  datatype EmailCheck = EmailCheck(required: bool, found: bool, value: Value, passed: bool)

  /** Whether the saved rules let a claim set through, as the simulator sees it. */
  predicate Allowed(rx: Engine, cfg: Config, claims: Object) {
    && EvaluateFilters(rx, claims, cfg.claimFilters.Seq())
    && (cfg.emailVerifiedRequired ==> EmailVerified(claims))
    && IdentityOf(claims).subject != ""
  }

  /** Runs unsaved rules where the request gives them, the saved ones otherwise. */
  method SimulateClaims(rx: Engine, cfg: Config, claims: Object, filters: Option<Slice<ClaimFilter>>,
                        mapping: Option<Slice<RoleRule>>, emailRequired: Option<bool>)
    returns (sim: Simulation)
    ensures var used := cfg.(
                          claimFilters := if filters.Some? then filters.value else cfg.claimFilters,
                          claimRoleMapping := if mapping.Some? then mapping.value else cfg.claimRoleMapping,
                          emailVerifiedRequired := if emailRequired.Some? then emailRequired.value
                                                   else cfg.emailVerifiedRequired);
            && sim.allowed == Allowed(rx, used, claims)
            && (sim.role, sim.ruleIndex) == TraceRole(rx, claims, used.claimRoleMapping.Seq())
            && sim.identity == IdentityOf(claims)
            && Traced(rx, claims, used.claimFilters.Seq(), sim.trace)
            && sim.filtersPassed == EvaluateFilters(rx, claims, used.claimFilters.Seq())
            && sim.filtersPassed == (forall t :: t in sim.trace ==> t.isMatch)
            && sim.emailCheck == EmailCheck(used.emailVerifiedRequired, "email_verified" in claims,
                                            if "email_verified" in claims then claims["email_verified"] else Null,
                                            used.emailVerifiedRequired ==> EmailVerified(claims))
  {
    hide EvaluateFilters, TraceRole, IdentityOf;
    var useFilters, useMapping, required := cfg.claimFilters, cfg.claimRoleMapping, cfg.emailVerifiedRequired;
    if filters.Some? {
      useFilters := filters.value;
    }
    if mapping.Some? {
      useMapping := mapping.value;
    }
    if emailRequired.Some? {
      required := emailRequired.value;
    }
    var trace, passed := TraceFilters(rx, claims, useFilters.Seq());
    var emailPassed := !required || EmailVerified(claims);
    var emailValue := if "email_verified" in claims then claims["email_verified"] else Null;
    var check := EmailCheck(required, "email_verified" in claims, emailValue, emailPassed);
    var (role, ruleIndex) := TraceRole(rx, claims, useMapping.Seq());
    var id := DeriveIdentity(claims);
    sim := Simulation(passed && emailPassed && id.subject != "", passed, trace, check, role, ruleIndex, id);
  }

  /** userinfo leaves the subject, and for an identified user the email-verified verdict, as the id_token had them. */
  predicate LeavesIdentity(idClaims: Object, userinfo: Option<Object>) {
    var merged := Merged(idClaims, userinfo);
    && !SubjectClash(idClaims, userinfo)
    && StringAt(merged, "sub") == StringAt(idClaims, "sub")
    && (StringAt(idClaims, "sub") != "" ==> EmailVerified(merged) == EmailVerified(idClaims))
  }

  /** One configuration: the simulator on the merged claims against the real decision. */
  ghost predicate Agrees(rx: Engine, cfg: Config, idClaims: Object, userinfo: Option<Object>) {
    Decide(rx, cfg, idClaims, userinfo).Ok? <==> Allowed(rx, cfg, Merged(idClaims, userinfo))
  }

  const NO_RULES: Config := DEFAULT.(claimFilters := Nil, claimRoleMapping := Nil)

  /**
   Simulator fidelity, with its exact condition: the simulator agrees with the login under every
   configuration if and only if userinfo leaves subject and email-verified verdict alone.
   */
  lemma SimulatorFaithfulIff(rx: Engine, idClaims: Object, userinfo: Option<Object>)
    ensures (forall cfg :: Agrees(rx, cfg, idClaims, userinfo)) <==> LeavesIdentity(idClaims, userinfo)
  {
    hide ResolveRole;
    if LeavesIdentity(idClaims, userinfo) {
      forall cfg ensures Agrees(rx, cfg, idClaims, userinfo) {
        hide EvaluateFilters;
      }
    } else {
      var lax, strict := NO_RULES.(emailVerifiedRequired := false), NO_RULES;
      assert EvaluateFilters(rx, Merged(idClaims, userinfo), []);
      assert !Agrees(rx, lax, idClaims, userinfo) || !Agrees(rx, strict, idClaims, userinfo);
    }
  }

  /** When the login succeeds, the simulator on the merged claims shows the same role and identity. */
  lemma SimulatorShowsResponse(rx: Engine, cfg: Config, idClaims: Object, userinfo: Option<Object>)
    requires Decide(rx, cfg, idClaims, userinfo).Ok?
    ensures var r, merged := Decide(rx, cfg, idClaims, userinfo).value, Merged(idClaims, userinfo);
            && ROLE_KEY in r.claims
            && r.claims[ROLE_KEY] == String(TraceRole(rx, merged, cfg.claimRoleMapping.Seq()).0)
            && IdentityOf(merged) == Identity(r.subject, r.email, r.displayName)
  {
    hide EvaluateFilters, TraceRole, IdentityOf;
    OwnKeysApart();
    var merged := Merged(idClaims, userinfo);
    StampKeepsIdentity(cfg, idClaims, merged, ResolveRole(rx, merged, cfg.claimRoleMapping.Seq()));
  }
}
