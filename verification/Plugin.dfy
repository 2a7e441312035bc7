/** The configuration life cycle: Configure and admin patches over the databases they persist to. */
module Plugin {
  import opened Basics
  import opened Config
  import Json
  import opened Store
  import opened Claims

  /** What a provider is built from. */
  datatype Provider = Provider(issuer: string, clientID: string, clientSecret: string, scopes: string)

  datatype State = State(
    live: Option<Config>,
    provider: Option<Provider>,
    discoveryFailed: bool,
    wired: Option<DbId>,
    rows: map<DbId, Row>)

  /** An admin patch: a missing field is left alone. */
  datatype Patch = Patch(
    issuerURL: Option<string>,
    clientID: Option<string>,
    clientSecret: Option<string>,
    scopes: Option<string>,
    displayName: Option<string>,
    iconURLPath: Option<string>,
    claimFilters: Option<Slice<ClaimFilter>>,
    claimRoleMapping: Option<Slice<RoleRule>>,
    emailVerifiedRequired: Option<bool>,
    linkByEmail: Option<bool>)

  datatype Event =
    | Configure(entries: seq<Entry>, target: Option<DbId>, io: Io, discoveryOk: bool)
    | AdminPatch(patch: Patch, writeOk: bool, discoveryOk: bool)

  function TrimmedOr(s: Option<string>, keep: string): string {
    if s.Some? then TrimSpace(s.value) else keep
  }

  function Or<T>(x: Option<T>, keep: T): T {
    if x.Some? then x.value else keep
  }

  /** The patched configuration; an empty secret keeps the old one. */
  function Patched(cur: Config, p: Patch): Config {
    Config(
      "",
      TrimmedOr(p.issuerURL, cur.issuerURL),
      TrimmedOr(p.clientID, cur.clientID),
      if p.clientSecret.Some? && p.clientSecret.value != "" then p.clientSecret.value else cur.clientSecret,
      TrimmedOr(p.scopes, cur.scopes),
      TrimmedOr(p.displayName, cur.displayName),
      TrimmedOr(p.iconURLPath, cur.iconURLPath),
      Or(p.claimFilters, cur.claimFilters),
      Or(p.claimRoleMapping, cur.claimRoleMapping),
      Or(p.emailVerifiedRequired, cur.emailVerifiedRequired),
      Or(p.linkByEmail, cur.linkByEmail))
  }

  const NO_PATCH: Patch := Patch(None, None, None, None, None, None, None, None, None, None)

  /** A patch that mentions every setting. */
  function FullPatch(cfg: Config): Patch {
    Patch(Some(cfg.issuerURL), Some(cfg.clientID), Some(cfg.clientSecret), Some(cfg.scopes), Some(cfg.displayName),
          Some(cfg.iconURLPath), Some(cfg.claimFilters), Some(cfg.claimRoleMapping),
          Some(cfg.emailVerifiedRequired), Some(cfg.linkByEmail))
  }

  /**
   A patch that mentions nothing keeps every setting, one that mentions everything replaces every
   setting except for an empty secret, and patching twice is patching once.
   */
  lemma PatchLaws(cur: Config, cfg: Config, p: Patch)
    ensures Patched(cur, NO_PATCH) == cur.(databaseURL := "")
    ensures (forall s :: s in {cfg.issuerURL, cfg.clientID, cfg.scopes, cfg.displayName, cfg.iconURLPath}
               ==> TrimSpace(s) == s)
            ==> Patched(cur, FullPatch(cfg))
                == cfg.(databaseURL := "",
                        clientSecret := if cfg.clientSecret == "" then cur.clientSecret else cfg.clientSecret)
    ensures Patched(Patched(cur, p), p) == Patched(cur, p)
  {
    hide TrimSpace;
  }

  /** A patch of one setting changes that setting and no other; text is trimmed, but the secret is taken as it is. */
  lemma OneSettingPatches(cur: Config, t: string, fs: Slice<ClaimFilter>, rs: Slice<RoleRule>, b: bool)
    ensures Patched(cur, NO_PATCH.(issuerURL := Some(t))) == cur.(databaseURL := "", issuerURL := TrimSpace(t))
    ensures Patched(cur, NO_PATCH.(clientID := Some(t))) == cur.(databaseURL := "", clientID := TrimSpace(t))
    ensures t != "" ==> Patched(cur, NO_PATCH.(clientSecret := Some(t))) == cur.(databaseURL := "", clientSecret := t)
    ensures Patched(cur, NO_PATCH.(clientSecret := Some(""))) == cur.(databaseURL := "")
    ensures Patched(cur, NO_PATCH.(scopes := Some(t))) == cur.(databaseURL := "", scopes := TrimSpace(t))
    ensures Patched(cur, NO_PATCH.(displayName := Some(t))) == cur.(databaseURL := "", displayName := TrimSpace(t))
    ensures Patched(cur, NO_PATCH.(iconURLPath := Some(t))) == cur.(databaseURL := "", iconURLPath := TrimSpace(t))
    ensures Patched(cur, NO_PATCH.(claimFilters := Some(fs))) == cur.(databaseURL := "", claimFilters := fs)
    ensures Patched(cur, NO_PATCH.(claimRoleMapping := Some(rs))) == cur.(databaseURL := "", claimRoleMapping := rs)
    ensures Patched(cur, NO_PATCH.(emailVerifiedRequired := Some(b)))
            == cur.(databaseURL := "", emailVerifiedRequired := b)
    ensures Patched(cur, NO_PATCH.(linkByEmail := Some(b))) == cur.(databaseURL := "", linkByEmail := b)
  {
    hide TrimSpace;
  }

  /** What a patch says of one setting, as a patch of its own. */
  function Only(p: Patch, f: Field): Patch {
    match f
    case DatabaseURL => NO_PATCH
    case IssuerURL => NO_PATCH.(issuerURL := p.issuerURL)
    case ClientID => NO_PATCH.(clientID := p.clientID)
    case ClientSecret => NO_PATCH.(clientSecret := p.clientSecret)
    case Scopes => NO_PATCH.(scopes := p.scopes)
    case DisplayName => NO_PATCH.(displayName := p.displayName)
    case IconURLPath => NO_PATCH.(iconURLPath := p.iconURLPath)
    case ClaimFilters => NO_PATCH.(claimFilters := p.claimFilters)
    case ClaimRoleMapping => NO_PATCH.(claimRoleMapping := p.claimRoleMapping)
    case EmailVerifiedRequired => NO_PATCH.(emailVerifiedRequired := p.emailVerifiedRequired)
    case LinkByEmail => NO_PATCH.(linkByEmail := p.linkByEmail)
  }

  /** The settings of a patch, one at a time in the given order. */
  function InTurn(cur: Config, p: Patch, order: seq<Field>): Config
    decreases |order|
  {
    if order == [] then cur.(databaseURL := "") else InTurn(Patched(cur, Only(p, order[0])), p, order[1..])
  }

  /** Setting f is as the patch wants it. */
  ghost predicate Settled(cfg: Config, p: Patch, f: Field) {
    match f
    case DatabaseURL => true
    case IssuerURL => cfg.issuerURL == TrimmedOr(p.issuerURL, cfg.issuerURL)
    case ClientID => cfg.clientID == TrimmedOr(p.clientID, cfg.clientID)
    case ClientSecret => p.clientSecret.GetOr("") == "" || cfg.clientSecret == p.clientSecret.value
    case Scopes => cfg.scopes == TrimmedOr(p.scopes, cfg.scopes)
    case DisplayName => cfg.displayName == TrimmedOr(p.displayName, cfg.displayName)
    case IconURLPath => cfg.iconURLPath == TrimmedOr(p.iconURLPath, cfg.iconURLPath)
    case ClaimFilters => cfg.claimFilters == Or(p.claimFilters, cfg.claimFilters)
    case ClaimRoleMapping => cfg.claimRoleMapping == Or(p.claimRoleMapping, cfg.claimRoleMapping)
    case EmailVerifiedRequired => cfg.emailVerifiedRequired == Or(p.emailVerifiedRequired, cfg.emailVerifiedRequired)
    case LinkByEmail => cfg.linkByEmail == Or(p.linkByEmail, cfg.linkByEmail)
  }

  lemma PatchSettles(cur: Config, p: Patch, f: Field)
    ensures Settled(Patched(cur, Only(p, f)), p, f)
  {
    hide TrimSpace;
    match f {
      case DatabaseURL | IssuerURL | ClientID | ClientSecret =>
      case Scopes | DisplayName | IconURLPath =>
      case ClaimFilters | ClaimRoleMapping | EmailVerifiedRequired | LinkByEmail =>
    }
  }

  /** Patching one setting leaves the others as they are. */
  lemma PatchFrame(cur: Config, p: Patch, f: Field)
    ensures var c := Patched(cur, Only(p, f));
            && (f != IssuerURL ==> c.issuerURL == cur.issuerURL)
            && (f != ClientID ==> c.clientID == cur.clientID)
            && (f != ClientSecret ==> c.clientSecret == cur.clientSecret)
            && (f != Scopes ==> c.scopes == cur.scopes)
            && (f != DisplayName ==> c.displayName == cur.displayName)
            && (f != IconURLPath ==> c.iconURLPath == cur.iconURLPath)
            && (f != ClaimFilters ==> c.claimFilters == cur.claimFilters)
            && (f != ClaimRoleMapping ==> c.claimRoleMapping == cur.claimRoleMapping)
            && (f != EmailVerifiedRequired ==> c.emailVerifiedRequired == cur.emailVerifiedRequired)
            && (f != LinkByEmail ==> c.linkByEmail == cur.linkByEmail)
  {
    hide TrimSpace;
  }

  lemma PatchKeepsSettled(cur: Config, p: Patch, f: Field, g: Field)
    ensures Settled(cur, p, g) ==> Settled(Patched(cur, Only(p, f)), p, g)
  {
    PatchFrame(cur, p, f);
    PatchSettles(cur, p, f);
    hide Patched, Only, TrimSpace;
  }

  /** One setting first and then the whole patch is the whole patch. */
  lemma PatchAbsorbs(cur: Config, p: Patch, f: Field)
    ensures Patched(Patched(cur, Only(p, f)), p) == Patched(cur, p)
  {
    hide TrimSpace;
  }

  lemma AllSettled(cur: Config, p: Patch)
    requires forall f :: Settled(cur, p, f)
    ensures Patched(cur, p) == cur.(databaseURL := "")
  {
    hide TrimSpace;
    assert Settled(cur, p, IssuerURL) && Settled(cur, p, ClientID) && Settled(cur, p, ClientSecret);
    assert Settled(cur, p, Scopes) && Settled(cur, p, DisplayName) && Settled(cur, p, IconURLPath);
    assert Settled(cur, p, ClaimFilters) && Settled(cur, p, ClaimRoleMapping);
    assert Settled(cur, p, EmailVerifiedRequired) && Settled(cur, p, LinkByEmail);
  }

  lemma {:induction false} InTurnSettles(cur: Config, p: Patch, order: seq<Field>)
    ensures forall f :: f in order || Settled(cur, p, f) ==> Settled(InTurn(cur, p, order), p, f)
    ensures Patched(InTurn(cur, p, order), p) == Patched(cur, p)
    decreases |order|
  {
    hide Patched, Only;
    if order == [] {
      DatabaseURLCleared(cur, p);
    } else {
      var next := Patched(cur, Only(p, order[0]));
      InTurnSettles(next, p, order[1..]);
      PatchAbsorbs(cur, p, order[0]);
      forall f | f in order || Settled(cur, p, f) ensures Settled(InTurn(cur, p, order), p, f) {
        PatchSettles(cur, p, order[0]);
        PatchKeepsSettled(cur, p, order[0], f);
      }
    }
  }

  lemma DatabaseURLCleared(cur: Config, p: Patch)
    ensures Patched(cur.(databaseURL := ""), p) == Patched(cur, p)
    ensures Patched(cur, p).databaseURL == ""
  {
    hide TrimSpace;
  }

  /** A patch is its one-setting patches made one after the other, in any order that leaves none out. */
  lemma {:induction false} PatchInAnyOrder(cur: Config, p: Patch, order: seq<Field>)
    requires forall f :: f in order || Only(p, f) == NO_PATCH
    ensures InTurn(cur, p, order) == Patched(cur, p)
  {
    hide Settled, Patched, Only, InTurn;
    InTurnSettles(cur, p, order);
    var end := InTurn(cur, p, order);
    forall f ensures Settled(end, p, f) {
      if Only(p, f) == NO_PATCH { UnmentionedSettled(end, p, f); }
    }
    AllSettled(end, p);
    InTurnClears(cur, p, order);
  }

  lemma UnmentionedSettled(cur: Config, p: Patch, f: Field)
    requires Only(p, f) == NO_PATCH
    ensures Settled(cur, p, f)
  {
    hide TrimSpace;
  }

  lemma {:induction false} InTurnClears(cur: Config, p: Patch, order: seq<Field>)
    ensures InTurn(cur, p, order).databaseURL == ""
    decreases |order|
  {
    if order != [] { InTurnClears(Patched(cur, Only(p, order[0])), p, order[1..]); }
  }

  function ProviderFor(cfg: Config, discoveryOk: bool): Option<Provider> {
    if cfg.ProviderConfigured() && discoveryOk
    then Some(Provider(cfg.issuerURL, cfg.clientID, cfg.clientSecret, cfg.scopes))
    else None
  }

  function Applied(s: State, cfg: Config, discoveryOk: bool): State {
    s.(live := Some(cfg),
       provider := ProviderFor(cfg, discoveryOk),
       discoveryFailed := cfg.ProviderConfigured() && !discoveryOk)
  }

  function RowOf(s: State, d: DbId): Row {
    if d in s.rows then s.rows[d] else map[]
  }

  function StepConfigure(ck: Checks, s: State, legacy: Config, target: Option<DbId>, io: Io, discoveryOk: bool)
    : (State, bool)
  {
    if legacy.databaseURL == "" || target.None? then (s, false)
    else
      var d := target.value;
      var out := Import(ck, RowOf(s, d), legacy, io);
      var s1 := s.(rows := s.rows[d := out.row]);
      if out.effective.None? then (s1, false)
      else (Applied(s1, out.effective.value, discoveryOk).(wired := target), true)
  }

  function StepPatch(ck: Checks, s: State, patch: Patch, writeOk: bool, discoveryOk: bool): (State, bool) {
    if s.wired.None? || s.live.None? then (s, false)
    else
      var next := Patched(s.live.value, patch);
      if ValidateConfig(ck, next).Some? || !writeOk then (s, false)
      else (Applied(s.(rows := s.rows[s.wired.value := Encode(next)]), next, discoveryOk), true)
  }

  /** One RPC; the flag says whether it reported success. */
  function Step(ck: Checks, s: State, e: Event): (State, bool) {
    match e
    case Configure(entries, target, io, discoveryOk) =>
      var loaded := Loaded(ck, entries);
      if loaded.Err? then (s, false) else StepConfigure(ck, s, loaded.value, target, io, discoveryOk)
    case AdminPatch(patch, writeOk, discoveryOk) => StepPatch(ck, s, patch, writeOk, discoveryOk)
  }

  function Run(ck: Checks, s: State, events: seq<Event>): State {
    if events == [] then s
    else Step(ck, Run(ck, s, events[..|events| - 1]), events[|events| - 1]).0
  }

  // ---------------------------------------------------------------- invariant

  ghost predicate Acceptable(ck: Checks, cfg: Config) {
    WellFormed(ck, cfg) && cfg.databaseURL == ""
  }

  /** Every database holds nothing yet, or an acceptable configuration. */
  ghost predicate RowsOk(ck: Checks, rows: map<DbId, Row>) {
    forall d :: d in rows ==> Decode(rows[d]).Some? && Acceptable(ck, Decode(rows[d]).value)
  }

  ghost predicate Inv(ck: Checks, s: State) {
    && RowsOk(ck, s.rows)
    && (s.wired.Some? <==> s.live.Some?)
    && (s.wired.Some? ==> s.wired.value in s.rows)
    && (s.live.Some? ==> Acceptable(ck, s.live.value))
    && (s.provider.Some? ==> s.live.Some? && s.provider == ProviderFor(s.live.value, true))
  }

  /** The live configuration is the one persisted in the wired database. */
  ghost predicate Synced(s: State) {
    s.wired.Some? ==> Decode(RowOf(s, s.wired.value)) == s.live
  }

  /** A process that has not been configured, over databases this plugin alone has written. */
  ghost predicate Start(ck: Checks, s: State) {
    RowsOk(ck, s.rows) && s.live.None? && s.wired.None? && s.provider.None? && !s.discoveryFailed
  }

  /** What the host's entries ask to be stored. */
  function Wanted(ck: Checks, e: Event): Option<Config> {
    if e.Configure? && Loaded(ck, e.entries).Ok? && Loaded(ck, e.entries).value.databaseURL != "" && e.target.Some?
    then Some(Loaded(ck, e.entries).value.(databaseURL := ""))
    else None
  }

  /** A Configure call that imports settings, whose write succeeds, and whose reading back fails. */
  ghost predicate ImportLost(ck: Checks, s: State, e: Event) {
    && Wanted(ck, e).Some? && Wanted(ck, e).value != DEFAULT
    && Decode(RowOf(s, e.target.value)) == Some(DEFAULT) && e.io == Io(true, true, false)
  }

  /** Such a call on the wired database: the one way to fall out of step. */
  ghost predicate ReadBackLost(ck: Checks, s: State, e: Event) {
    ImportLost(ck, s, e) && e.target == s.wired
  }

  lemma DatabaseURLUnchecked(ck: Checks, cfg: Config, url: string)
    ensures WellFormed(ck, cfg.(databaseURL := url)) == WellFormed(ck, cfg)
  {
    hide Fields, IconAllowed, RuleOk;
  }

  lemma {:induction false} ImportKeepsAcceptable(ck: Checks, row: Row, legacy: Config, io: Io)
    ensures Decode(row).Some? && Acceptable(ck, Decode(row).value) ==>
            var out := Import(ck, row, legacy, io);
            && Decode(out.row).Some? && Acceptable(ck, Decode(out.row).value)
            && (out.effective.Some? ==> out.effective == Decode(out.row))
            && (out.effective.None? && out.row != row ==>
                  io == Io(true, true, false) && Decode(row) == Some(DEFAULT)
                  && Decode(out.row) == Some(legacy.(databaseURL := "")) && legacy.(databaseURL := "") != DEFAULT)
            && (WellFormed(ck, legacy) && io == Io(true, true, false) && Decode(row) == Some(DEFAULT)
                && legacy.(databaseURL := "") != DEFAULT ==>
                  out.effective.None? && Decode(out.row) == Some(legacy.(databaseURL := "")))
  {
    hide Decode, Encode, ValidateConfig, WellFormed;
    var wanted := legacy.(databaseURL := "");
    DatabaseURLUnchecked(ck, legacy, "");
    ValidateConfigIff(ck, wanted);
    StoredRoundTrip(wanted);
  }

  lemma LoadedIsWellFormed(ck: Checks, entries: seq<Entry>)
    requires Loaded(ck, entries).Ok?
    ensures WellFormed(ck, Loaded(ck, entries).value)
  {
    ValidateConfigIff(ck, Loaded(ck, entries).value);
  }

  lemma {:induction false} ConfigureKeepsInv(ck: Checks, s: State, e: Event)
    requires Inv(ck, s) && e.Configure?
    ensures Inv(ck, Step(ck, s, e).0)
    ensures Step(ck, s, e).1 ==> Synced(Step(ck, s, e).0)
    ensures !Step(ck, s, e).1 && !ImportLost(ck, s, e) ==> Synced(Step(ck, s, e).0) == Synced(s)
  {
    hide Decode, Encode, ValidateConfig, WellFormed, Loaded, Import;
    if Loaded(ck, e.entries).Ok? && e.target.Some? {
      EmptyRowIsDefault();
      DefaultWellFormed(ck);
      LoadedIsWellFormed(ck, e.entries);
      ImportKeepsAcceptable(ck, RowOf(s, e.target.value), Loaded(ck, e.entries).value, e.io);
    }
  }

  /** A call that succeeds, or one that fails without an import behind the back of settings in step. */
  ghost predicate StaysInStep(ck: Checks, s: State, e: Event) {
    || Step(ck, s, e).1
    || (if ReadBackLost(ck, s, e) then s.live == Wanted(ck, e) else Synced(s))
  }

  /**
   Each RPC keeps the invariant; afterwards live and persisted agree exactly when the call
   succeeded, or they agreed before and no read-back was lost.
   */
  lemma {:induction false} StepKeepsInv(ck: Checks, s: State, e: Event)
    requires Inv(ck, s)
    ensures Inv(ck, Step(ck, s, e).0)
    ensures Synced(Step(ck, s, e).0) <==> StaysInStep(ck, s, e)
    ensures Synced(s) ==> (Synced(Step(ck, s, e).0) <==> !ReadBackLost(ck, s, e))
  {
    hide Decode, Encode, ValidateConfig, WellFormed, Loaded, Import;
    if e.Configure? {
      ConfigureKeepsInv(ck, s, e);
      if ImportLost(ck, s, e) {
        hide Step;
        LostCallFails(ck, s, e);
      }
    } else if s.live.Some? {
      ValidateConfigIff(ck, Patched(s.live.value, e.patch));
      StoredRoundTrip(Patched(s.live.value, e.patch));
    }
  }

  /** A lost import is stored although the call fails, and nothing else changes. */
  lemma {:induction false} LostCallFails(ck: Checks, s: State, e: Event)
    requires ImportLost(ck, s, e)
    ensures var row := Encode(Wanted(ck, e).value);
            Step(ck, s, e) == (s.(rows := s.rows[e.target.value := row]), false) && Decode(row) == Wanted(ck, e)
  {
    hide Decode, Encode, ValidateConfig, WellFormed, Loaded;
    LoadedIsWellFormed(ck, e.entries);
    DatabaseURLUnchecked(ck, Loaded(ck, e.entries).value, "");
    ValidateConfigIff(ck, Wanted(ck, e).value);
    StoredRoundTrip(Wanted(ck, e).value);
  }

  // ---------------------------------------------------------------- what each call does

  /** The call finds the defaults stored and has other settings to import. */
  ghost predicate Imports(ck: Checks, s: State, e: Event) {
    Wanted(ck, e).Some? && Wanted(ck, e).value != DEFAULT && Decode(RowOf(s, e.target.value)) == Some(DEFAULT)
  }

  /** The settings of a provider are all there. */
  predicate Complete(cfg: Config) {
    cfg.issuerURL != "" && cfg.clientID != "" && cfg.clientSecret != ""
  }

  /**
   A Configure call with something to store succeeds exactly when the stored settings can be read
   and, if it imports, written and read back. It changes the target's row exactly by importing, and
   on success makes what is stored there live. Without anything to store it changes nothing.
   */
  lemma {:induction false} ConfigureOutcome(ck: Checks, s: State, e: Event)
    requires e.Configure?
    ensures var (t, ok) := Step(ck, s, e);
            if Wanted(ck, e).None? then t == s && !ok
            else
              var d, imports := e.target.value, Imports(ck, s, e);
              && (ok <==> && e.io.readOk && Decode(RowOf(s, d)).Some?
                          && (imports ==> e.io.writeOk && e.io.readBackOk))
              && (imports && e.io.readOk && e.io.writeOk ==> Decode(RowOf(t, d)) == Wanted(ck, e))
              && (!(imports && e.io.readOk && e.io.writeOk) ==> RowOf(t, d) == RowOf(s, d))
              && t.rows - {d} == s.rows - {d} && d in t.rows
              && (ok ==> t.wired == Some(d) && t.live == Decode(RowOf(t, d)))
              && (!ok ==> t == s.(rows := t.rows))
  {
    hide Decode, Encode, ValidateConfig, WellFormed, Loaded, Config.ProviderConfigured;
    if Wanted(ck, e).Some? {
      LoadedIsWellFormed(ck, e.entries);
      DatabaseURLUnchecked(ck, Loaded(ck, e.entries).value, "");
      ValidateConfigIff(ck, Wanted(ck, e).value);
      StoredRoundTrip(Wanted(ck, e).value);
    }
  }

  /**
   An admin patch succeeds exactly when a database is wired, the patched live settings are well
   formed and the write succeeds; then they are live and stored there. Otherwise nothing changes.
   */
  lemma {:induction false} PatchOutcome(ck: Checks, s: State, e: Event)
    requires e.AdminPatch?
    ensures var (t, ok) := Step(ck, s, e);
            && (ok <==> s.wired.Some? && s.live.Some? && WellFormed(ck, Patched(s.live.value, e.patch)) && e.writeOk)
            && (!ok ==> t == s)
            && (ok ==> && t.live == Some(Patched(s.live.value, e.patch)) && t.wired == s.wired
                       && Decode(RowOf(t, s.wired.value)) == t.live
                       && t.rows - {s.wired.value} == s.rows - {s.wired.value})
  {
    hide Decode, Encode, ValidateConfig, WellFormed, Patched, Config.ProviderConfigured;
    if s.live.Some? {
      ValidateConfigIff(ck, Patched(s.live.value, e.patch));
      StoredRoundTrip(Patched(s.live.value, e.patch));
    }
  }

  /**
   After a call that succeeds there is a provider exactly when the live settings are complete and
   discovery worked, and a discovery failure is on record exactly when they are complete and it did not.
   */
  lemma {:induction false} ProviderAfterCall(ck: Checks, s: State, e: Event)
    ensures var (t, ok) := Step(ck, s, e);
            if !ok then t.provider == s.provider && t.discoveryFailed == s.discoveryFailed && t.live == s.live
            else
              && t.live.Some?
              && (t.provider.Some? <==> Complete(t.live.value) && e.discoveryOk)
              && (t.discoveryFailed <==> Complete(t.live.value) && !e.discoveryOk)
              && (t.provider.Some? ==>
                    t.provider.value == Provider(t.live.value.issuerURL, t.live.value.clientID,
                                                 t.live.value.clientSecret, t.live.value.scopes))
  {
    hide Decode, Encode, ValidateConfig, WellFormed, Loaded, Patched, Import;
  }

  /** Whether discovery worked in the last call of the run that succeeded. */
  ghost function LastDiscovery(ck: Checks, s: State, events: seq<Event>): Option<bool> {
    if events == [] then None
    else
      var pre, e := events[..|events| - 1], events[|events| - 1];
      if Step(ck, Run(ck, s, pre), e).1 then Some(e.discoveryOk) else LastDiscovery(ck, s, pre)
  }

  /** The provider and the failure on record are what the last successful call's discovery made of the live settings. */
  ghost predicate ProviderUpToDate(t: State, discovery: Option<bool>) {
    && (discovery.Some? <==> t.live.Some?)
    && (t.provider.Some? <==> t.live.Some? && Complete(t.live.value) && discovery == Some(true))
    && (t.discoveryFailed <==> t.live.Some? && Complete(t.live.value) && discovery == Some(false))
  }

  lemma {:induction false} ProviderOverRuns(ck: Checks, s: State, events: seq<Event>)
    requires Start(ck, s)
    ensures ProviderUpToDate(Run(ck, s, events), LastDiscovery(ck, s, events))
  {
    if events != [] {
      hide Step, Complete, Start;
      var n := |events| - 1;
      ProviderOverRuns(ck, s, events[..n]);
      ProviderAfterCall(ck, Run(ck, s, events[..n]), events[n]);
    }
  }

  /** A stored configuration that is not the default one is changed by admin patches only. */
  lemma ConfigureKeepsNonDefault(ck: Checks, s: State, e: Event, d: DbId)
    requires e.Configure? && Decode(RowOf(s, d)) != Some(DEFAULT)
    ensures RowOf(Step(ck, s, e).0, d) == RowOf(s, d)
  {
    hide Decode, Encode, ValidateConfig, Loaded;
  }

  lemma {:induction false} RunKeepsInv(ck: Checks, s: State, events: seq<Event>)
    requires Inv(ck, s)
    ensures Inv(ck, Run(ck, s, events))
  {
    hide Step, Inv;
    if events != [] {
      var n := |events| - 1;
      RunKeepsInv(ck, s, events[..n]);
      StepKeepsInv(ck, Run(ck, s, events[..n]), events[n]);
    }
  }

  /** Since the last call of the run that succeeded, none has lost a read-back. */
  ghost predicate InStep(ck: Checks, s: State, events: seq<Event>) {
    events == [] ||
    var pre, e := events[..|events| - 1], events[|events| - 1];
    Step(ck, Run(ck, s, pre), e).1 || (InStep(ck, s, pre) && !ReadBackLost(ck, Run(ck, s, pre), e))
  }

  /** Out of step, the wired database is ahead: it no longer holds the defaults. */
  ghost predicate Ahead(s: State) {
    s.wired.Some? && Decode(RowOf(s, s.wired.value)) != Some(DEFAULT)
  }

  lemma {:induction false} StepKeepsAhead(ck: Checks, s: State, e: Event)
    requires Inv(ck, s) && (Synced(s) || Ahead(s))
    ensures var t := Step(ck, s, e).0;
            && (Synced(t) || Ahead(t))
            && (Synced(t) <==> Step(ck, s, e).1 || (Synced(s) && !ReadBackLost(ck, s, e)))
  {
    hide Decode, Encode, ValidateConfig, WellFormed, Loaded, Import;
    StepKeepsInv(ck, s, e);
    if ImportLost(ck, s, e) {
      LostCallFails(ck, s, e);
    } else if e.Configure? && Ahead(s) {
      ConfigureKeepsNonDefault(ck, s, e, s.wired.value);
    }
  }

  lemma {:induction false} InStepIff(ck: Checks, s: State, events: seq<Event>)
    requires Start(ck, s)
    ensures var t := Run(ck, s, events);
            && Inv(ck, t) && (Synced(t) || Ahead(t))
            && (Synced(t) <==> InStep(ck, s, events))
  {
    RunKeepsInv(ck, s, events);
    if events != [] {
      hide Step, Inv, Synced, Ahead, ReadBackLost, Start;
      var n := |events| - 1;
      InStepIff(ck, s, events[..n]);
      StepKeepsAhead(ck, Run(ck, s, events[..n]), events[n]);
    }
  }

  /**
   After any run of Configure calls and admin patches: what is live is acceptable, and equals what
   is persisted exactly when no read-back was lost since the last successful call; a provider
   exists exactly when the live settings are complete and the last successful call's discovery
   worked, and was built from exactly those settings.
   */
  lemma {:induction false} ConfigurationInvariant(ck: Checks, s: State, events: seq<Event>)
    requires Start(ck, s)
    ensures var t := Run(ck, s, events);
            && (t.live.Some? ==>
                  && WellFormed(ck, t.live.value)
                  && (t.live.value.linkByEmail ==> t.live.value.emailVerifiedRequired)
                  && t.wired.Some?
                  && (Decode(RowOf(t, t.wired.value)) == t.live <==> InStep(ck, s, events)))
            && ProviderUpToDate(t, LastDiscovery(ck, s, events))
            && (t.provider.Some? ==>
                  && t.live.Some? && t.live.value.ProviderConfigured()
                  && t.provider.value == Provider(t.live.value.issuerURL, t.live.value.clientID,
                                                  t.live.value.clientSecret, t.live.value.scopes))
  {
    hide Decode, Run, InStep;
    InStepIff(ck, s, events);
    ProviderOverRuns(ck, s, events);
  }

  // ---------------------------------------------------------------- the provider stays configured

  ghost predicate Configured(s: State, d: DbId) {
    Decode(RowOf(s, d)).Some? && Decode(RowOf(s, d)).value.ProviderConfigured()
  }

  /** The process runs on database d, but with settings that configure no provider. */
  ghost predicate Exposed(s: State, d: DbId) {
    s.wired == Some(d) && s.live.Some? && !s.live.value.ProviderConfigured()
  }

  lemma {:induction false} StepKeepsConfigured(ck: Checks, s: State, e: Event, d: DbId)
    ensures Inv(ck, s) && Configured(s, d) && !Exposed(s, d) ==>
              Configured(Step(ck, s, e).0, d) && !Exposed(Step(ck, s, e).0, d)
  {
    hide Decode, Encode, ValidateConfig, TrimSpace, Loaded;
    if Inv(ck, s) && Configured(s, d) && !Exposed(s, d) {
      if e.Configure? {
        ConfigureKeepsNonDefault(ck, s, e, d);
      } else if s.live.Some? {
        ValidateConfigIff(ck, Patched(s.live.value, e.patch));
        StoredRoundTrip(Patched(s.live.value, e.patch));
      }
    }
  }

  lemma {:induction false} RunKeepsConfigured(ck: Checks, s: State, events: seq<Event>, d: DbId)
    requires Inv(ck, s)
    ensures Configured(s, d) && !Exposed(s, d) ==>
              Configured(Run(ck, s, events), d) && !Exposed(Run(ck, s, events), d)
  {
    hide Step, Inv, Configured, Exposed;
    if events != [] {
      var n := |events| - 1;
      RunKeepsConfigured(ck, s, events[..n], d);
      RunKeepsInv(ck, s, events[..n]);
      StepKeepsConfigured(ck, Run(ck, s, events[..n]), events[n], d);
    }
  }

  /** In an exposed state the patch that changes nothing already overwrites the stored settings. */
  lemma {:induction false} ExposedLoses(ck: Checks, s: State, d: DbId)
    requires Inv(ck, s)
    ensures Exposed(s, d) ==> !Configured(Step(ck, s, NO_CHANGE).0, d)
  {
    hide Decode, Encode, ValidateConfig, WellFormed, TrimSpace;
    if Exposed(s, d) {
      PatchLaws(s.live.value, s.live.value, NO_PATCH);
      ValidateConfigIff(ck, s.live.value);
      StoredRoundTrip(s.live.value);
    }
  }

  lemma SyncedNotExposed(ck: Checks, s: State, d: DbId)
    requires Inv(ck, s)
    ensures Configured(s, d) && Synced(s) ==> !Exposed(s, d)
  {
    hide Decode, Acceptable;
  }

  lemma RunOne(ck: Checks, s: State, e: Event)
    ensures Run(ck, s, [e]) == Step(ck, s, e).0
  {
    hide Step;
    assert [e][..0] == [];
  }

  /**
   Once issuer, client id and secret are stored in a database, no run of Configure calls and
   patches, whatever fails in it, empties any of them again, if and only if the process is not
   running on that database with settings that configure no provider.
   */
  lemma {:induction false} ProviderStaysConfiguredIff(ck: Checks, s: State, d: DbId)
    requires Inv(ck, s)
    ensures Configured(s, d) ==> ((forall events :: Configured(Run(ck, s, events), d)) <==> !Exposed(s, d))
    ensures Configured(s, d) ==> ((forall e :: Configured(Step(ck, s, e).0, d)) <==> !Exposed(s, d))
    ensures Configured(s, d) && Synced(s) ==> !Exposed(s, d)
  {
    hide Step, Inv, Configured, Exposed, Run, NO_CHANGE, Synced;
    SyncedNotExposed(ck, s, d);
    RunOne(ck, s, NO_CHANGE);
    if Configured(s, d) {
      ExposedLoses(ck, s, d);
      forall events ensures !Exposed(s, d) ==> Configured(Run(ck, s, events), d) {
        RunKeepsConfigured(ck, s, events, d);
      }
      forall e ensures !Exposed(s, d) ==> Configured(Step(ck, s, e).0, d) {
        StepKeepsConfigured(ck, s, e, d);
      }
    }
  }

  // A lost read-back, concretely: a first Configure that stores nothing, then one that imports the
  // host's settings but cannot read them back, then a patch that changes nothing.

  const UNCONFIGURED: State := State(None, None, false, None, map[])
  const NO_CHANGE: Event := AdminPatch(NO_PATCH, true, true)

  function BareConfigure(url: string): Event {
    Configure([Entry("database_url", Some(Json.String(url)))], Some(0), Io(true, true, true), true)
  }

  function LosingConfigure(entries: seq<Entry>): Event {
    Configure(entries, Some(0), Io(true, true, false), true)
  }

  function FailingConfigure(entries: seq<Entry>): Event {
    Configure(entries, Some(0), Io(true, false, true), true)
  }

  function WorkingConfigure(entries: seq<Entry>): Event {
    Configure(entries, Some(0), Io(true, true, true), true)
  }

  lemma {:induction false} BareConfigureGivesDefaults(ck: Checks, url: string)
    requires url != ""
    ensures Step(ck, UNCONFIGURED, BareConfigure(url)).0
            == State(Some(DEFAULT), None, false, Some(0), map[0 := map[]])
  {
    BareLoadIsDefault(ck, url);
    EmptyRowIsDefault();
    hide Decode, Loaded, ValidateConfig;
    assert DEFAULT.(databaseURL := url).(databaseURL := "") == DEFAULT;
  }

  lemma {:induction false} LosingConfigureStores(ck: Checks, entries: seq<Entry>, s: State)
    requires s == State(Some(DEFAULT), None, false, Some(0), map[0 := map[]])
    ensures Loaded(ck, entries).Ok? && Loaded(ck, entries).value.databaseURL != ""
            && Loaded(ck, entries).value.ProviderConfigured() ==>
              var t := Step(ck, s, LosingConfigure(entries)).0;
              Configured(t, 0) && t.live == Some(DEFAULT) && t.wired == Some(0)
  {
    hide Decode, Encode, ValidateConfig, WellFormed, Loaded, Import;
    EmptyRowIsDefault();
    DefaultWellFormed(ck);
    if Loaded(ck, entries).Ok? && Loaded(ck, entries).value.ProviderConfigured() {
      var legacy := Loaded(ck, entries).value;
      LoadedIsWellFormed(ck, entries);
      ImportKeepsAcceptable(ck, map[], legacy, Io(true, true, false));
      assert legacy.(databaseURL := "").issuerURL != DEFAULT.issuerURL;
    }
  }

  lemma {:induction false} NoChangeRestoresDefaults(ck: Checks, t: State)
    requires t.live == Some(DEFAULT) && t.wired == Some(0)
    ensures Decode(RowOf(Step(ck, t, NO_CHANGE).0, 0)) == Some(DEFAULT)
  {
    DefaultWellFormed(ck);
    ValidateConfigIff(ck, DEFAULT);
    StoredRoundTrip(DEFAULT);
    hide Decode, Encode, ValidateConfig, WellFormed, TrimSpace;
  }

  /**
   A lost read-back leads there, for whatever complete settings the host sends: they are persisted
   but not live, so the patch that changes nothing overwrites them with the live defaults.
   */
  lemma {:induction false} LostReadBackUnconfigures(ck: Checks, url: string, entries: seq<Entry>)
    requires url != ""
    ensures Loaded(ck, entries).Ok? && Loaded(ck, entries).value.databaseURL != ""
            && Loaded(ck, entries).value.ProviderConfigured() ==>
              && Configured(Run(ck, UNCONFIGURED, [BareConfigure(url), LosingConfigure(entries)]), 0)
              && Decode(RowOf(Run(ck, UNCONFIGURED, [BareConfigure(url), LosingConfigure(entries), NO_CHANGE]), 0))
                 == Some(DEFAULT)
  {
    var e0, e1, e2 := BareConfigure(url), LosingConfigure(entries), NO_CHANGE;
    assert [e0][..0] == [] && [e0, e1][..1] == [e0] && [e0, e1, e2][..2] == [e0, e1];
    assert Run(ck, UNCONFIGURED, [e0]) == Step(ck, UNCONFIGURED, e0).0;
    hide Step, Decode, Loaded, RowOf, Configured, BareConfigure, LosingConfigure, NO_CHANGE;
    BareConfigureGivesDefaults(ck, url);
    LosingConfigureStores(ck, entries, Run(ck, UNCONFIGURED, [e0]));
    if Run(ck, UNCONFIGURED, [e0, e1]).live == Some(DEFAULT) && Run(ck, UNCONFIGURED, [e0, e1]).wired == Some(0) {
      NoChangeRestoresDefaults(ck, Run(ck, UNCONFIGURED, [e0, e1]));
    }
  }

  // ---------------------------------------------------------------- legacy import

  /** Over any run of Configure calls, a stored non-default configuration never changes. */
  lemma {:induction false} ImportOnlyOverDefaults(ck: Checks, s: State, events: seq<Event>, d: DbId)
    requires Decode(RowOf(s, d)) != Some(DEFAULT)
    requires forall e :: e in events ==> e.Configure?
    ensures RowOf(Run(ck, s, events), d) == RowOf(s, d)
  {
    if events != [] {
      var n := |events| - 1;
      ImportOnlyOverDefaults(ck, s, events[..n], d);
      ConfigureKeepsNonDefault(ck, Run(ck, s, events[..n]), events[n], d);
    }
  }

  /**
   Repeating a Configure that succeeded, whatever its database accesses and discovery do the
   second time, leaves every stored row and the live configuration as they are.
   */
  lemma {:induction false} ConfigureIdempotent(ck: Checks, s: State, e: Event, again: Event)
    requires e.Configure? && again.Configure? && again.entries == e.entries && again.target == e.target
    ensures Step(ck, s, e).1 ==>
              var s1, s2 := Step(ck, s, e).0, Step(ck, Step(ck, s, e).0, again).0;
              && s2.rows == s1.rows && s2.live == s1.live && s2.wired == s1.wired
              && (again == e ==> Step(ck, s1, again) == (s1, true))
  {
    hide Decode, Encode, ValidateConfig, Loaded, StepPatch, Config.ProviderConfigured;
    if Step(ck, s, e).1 {
      StoredRoundTrip(Loaded(ck, e.entries).value.(databaseURL := ""));
      var s1 := Step(ck, s, e).0;
      assert s1.rows[e.target.value := RowOf(s1, e.target.value)] == s1.rows;
    }
  }

  /** Repeating a lost import succeeds and makes the imported settings live. */
  lemma {:induction false} RepeatAfterLoss(ck: Checks, s: State, e: Event)
    requires ImportLost(ck, s, e)
    ensures var s1 := Step(ck, s, e).0;
            var (s2, ok) := Step(ck, s1, e);
            ok && s2.rows == s1.rows && s2.live == Wanted(ck, e) && s2.wired == e.target
  {
    hide Decode, Encode, ValidateConfig, Loaded;
    LostCallFails(ck, s, e);
    var s1 := Step(ck, s, e).0;
    assert s1.rows[e.target.value := RowOf(s1, e.target.value)] == s1.rows;
  }

  lemma {:induction false} RepeatAfterFailure(ck: Checks, s: State, e: Event)
    requires e.Configure? && !Step(ck, s, e).1 && !ImportLost(ck, s, e)
    ensures Step(ck, Step(ck, s, e).0, e).0 == Step(ck, s, e).0
  {
    hide Decode, Encode, ValidateConfig, Loaded, StepPatch, Applied;
    var s1 := Step(ck, s, e).0;
    if Wanted(ck, e).Some? {
      StoredRoundTrip(Wanted(ck, e).value);
      assert RowOf(s1, e.target.value) == RowOf(s, e.target.value);
      assert s1.rows[e.target.value := RowOf(s1, e.target.value)] == s1.rows;
    }
  }

  /** Repeating a call with the same outcomes changes something only if it lost an import that was not live. */
  lemma {:induction false} RepeatSameOutcomes(ck: Checks, s: State, e: Event)
    requires e.Configure?
    ensures var s1 := Step(ck, s, e).0;
            var s2 := Step(ck, s1, e).0;
            && (s2.rows == s1.rows && s2.live == s1.live <==> !(ImportLost(ck, s, e) && s.live != Wanted(ck, e)))
            && (!ImportLost(ck, s, e) ==> s2 == s1)
  {
    hide Step, Decode, Encode, Loaded, Wanted;
    if ImportLost(ck, s, e) {
      LostCallFails(ck, s, e);
      RepeatAfterLoss(ck, s, e);
    } else if Step(ck, s, e).1 {
      ConfigureIdempotent(ck, s, e, e);
    } else {
      RepeatAfterFailure(ck, s, e);
    }
  }

  /**
   In state s the call would find something to do: settings to import and a write that succeeds, or
   readable settings that are not live.
   */
  ghost predicate Outstanding(ck: Checks, s: State, e: Event) {
    Wanted(ck, e).Some? && e.io.readOk &&
    var cur := Decode(RowOf(s, e.target.value));
    cur.Some? && if cur.value == DEFAULT && Wanted(ck, e).value != DEFAULT then e.io.writeOk else s.live != cur
  }

  lemma {:induction false} OutstandingIff(ck: Checks, s: State, e: Event)
    requires e.Configure? && (Wanted(ck, e).Some? ==> e.target.value in s.rows)
    ensures var t := Step(ck, s, e).0; t.rows == s.rows && t.live == s.live <==> !Outstanding(ck, s, e)
  {
    hide Decode, Encode, ValidateConfig, WellFormed, Loaded;
    if Wanted(ck, e).Some? {
      var wanted, d := Wanted(ck, e).value, e.target.value;
      LoadedIsWellFormed(ck, e.entries);
      DatabaseURLUnchecked(ck, Loaded(ck, e.entries).value, "");
      ValidateConfigIff(ck, wanted);
      StoredRoundTrip(wanted);
      assert s.rows[d := RowOf(s, d)] == s.rows;
      assert s.rows[d := Encode(wanted)][d] == Encode(wanted);
    }
  }

  /**
   Repeating a Configure call, whatever fails in either attempt, leaves stored and live configuration
   unchanged, unless the first attempt reported failure and the second finds something to do.
   */
  lemma {:induction false} ConfigureRepeatIff(ck: Checks, s: State, e: Event, again: Event)
    requires e.Configure? && again.Configure? && again.entries == e.entries && again.target == e.target
    ensures var (s1, ok) := Step(ck, s, e);
            var s2 := Step(ck, s1, again).0;
            && (s2.rows == s1.rows && s2.live == s1.live <==> ok || !Outstanding(ck, s1, again))
            && (again == e ==>
                  (s2.rows == s1.rows && s2.live == s1.live <==> !(ImportLost(ck, s, e) && s.live != Wanted(ck, e))))
  {
    RepeatSameOutcomes(ck, s, e);
    ConfigureIdempotent(ck, s, e, again);
    var s1 := Step(ck, s, e).0;
    assert Wanted(ck, again).Some? ==> again.target.value in s1.rows;
    hide Step, Wanted, Outstanding, ImportLost;
    OutstandingIff(ck, s1, again);
  }

  const CORP: seq<Entry> :=
    [Entry("database_url", Some(Json.String("db"))), Entry("display_name", Some(Json.String("Corp")))]

  lemma {:induction false} CorpLoads(ck: Checks)
    ensures Loaded(ck, CORP) == Ok(DEFAULT.(databaseURL := "db", displayName := "Corp"))
  {
    hide FieldOf, Fields, RuleOk, IconAllowed, ValidateConfig;
    var last := [Entry("display_name", Some(Json.String("Corp")))];
    assert CORP == [Entry("database_url", Some(Json.String("db")))] + last && last == last + [];
    assert FieldOf("database_url") == Some(DatabaseURL) && FieldOf("display_name") == Some(DisplayName) by { Names(); }
    ApplyNext(ck, DEFAULT, "database_url", DatabaseURL, Json.String("db"), last);
    ApplyNext(ck, DEFAULT.(databaseURL := "db"), "display_name", DisplayName, Json.String("Corp"), []);
    DefaultWellFormed(ck);
    ValidateConfigIff(ck, DEFAULT.(databaseURL := "db", displayName := "Corp"));
  }

  lemma Names()
    ensures FieldOf("database_url") == Some(DatabaseURL) && FieldOf("display_name") == Some(DisplayName)
  {
  }

  /** The exception at two concrete inputs: a fresh process whose first import fails goes live on the second try. */
  lemma {:induction false} RepeatGoesLiveExample(ck: Checks)
    ensures var s1 := Step(ck, UNCONFIGURED, LosingConfigure(CORP)).0;
            s1.live == None && Step(ck, s1, LosingConfigure(CORP)).0.live == Some(DEFAULT.(displayName := "Corp"))
    ensures var s1 := Step(ck, UNCONFIGURED, FailingConfigure(CORP)).0;
            && s1.live == None && !ImportLost(ck, UNCONFIGURED, FailingConfigure(CORP))
            && Outstanding(ck, s1, WorkingConfigure(CORP))
            && Step(ck, s1, WorkingConfigure(CORP)).0.live == Some(DEFAULT.(displayName := "Corp"))
  {
    hide Loaded, Decode, Encode, ValidateConfig, CORP, Step;
    CorpLoads(ck);
    EmptyRowIsDefault();
    var e := LosingConfigure(CORP);
    assert |DEFAULT.displayName| == 17 && |"Corp"| == 4;
    assert Wanted(ck, e) == Some(DEFAULT.(displayName := "Corp"));
    LostCallFails(ck, UNCONFIGURED, e);
    RepeatAfterLoss(ck, UNCONFIGURED, e);
    FailThenImport(ck, CORP);
  }

  /** The write of an import fails, and succeeds on the second try. */
  lemma {:induction false} FailThenImport(ck: Checks, entries: seq<Entry>)
    requires Wanted(ck, WorkingConfigure(entries)).Some? && Wanted(ck, WorkingConfigure(entries)).value != DEFAULT
    ensures var s1 := Step(ck, UNCONFIGURED, FailingConfigure(entries)).0;
            && s1.live == None && !ImportLost(ck, UNCONFIGURED, FailingConfigure(entries))
            && Outstanding(ck, s1, WorkingConfigure(entries))
            && Step(ck, s1, WorkingConfigure(entries)).0.live == Wanted(ck, WorkingConfigure(entries))
  {
    hide Decode, Encode, ValidateConfig, WellFormed, Loaded;
    EmptyRowIsDefault();
    var wanted := Wanted(ck, WorkingConfigure(entries)).value;
    LoadedIsWellFormed(ck, entries);
    DatabaseURLUnchecked(ck, Loaded(ck, entries).value, "");
    ValidateConfigIff(ck, wanted);
    StoredRoundTrip(wanted);
    assert Step(ck, UNCONFIGURED, FailingConfigure(entries)).0 == UNCONFIGURED.(rows := map[0 := map[]]);
  }

  /**
   Go tells a nil list from an empty one, and so does the import: host settings that differ from
   the defaults only by an explicitly empty filter list are taken over and end all later imports.
   */
  lemma {:induction false} ExplicitEmptyListEndsImports(ck: Checks, url: string, later: Config, io: Io)
    ensures var legacy := DEFAULT.(databaseURL := url, claimFilters := Elems([]));
            var out := Import(ck, map[], legacy, Io(true, true, true));
            && out.effective == Some(DEFAULT.(claimFilters := Elems([])))
            && Import(ck, out.row, later, io).row == out.row
  {
    hide Decode, Encode, ValidateConfig, WellFormed;
    var wanted := DEFAULT.(claimFilters := Elems([]));
    assert WellFormed(ck, wanted) by { EmptyListWellFormed(ck); }
    ValidateConfigIff(ck, wanted);
    StoredRoundTrip(wanted);
    EmptyRowIsDefault();
  }

  lemma {:induction false} EmptyListWellFormed(ck: Checks)
    ensures WellFormed(ck, DEFAULT.(claimFilters := Elems([])))
  {
    DefaultWellFormed(ck);
    hide Fields, IconAllowed, RuleOk;
  }

  // ---------------------------------------------------------------- the process

  /** Overwrites the settings a patch mentions, one by one. */
  method PatchConfig(cur: Config, patch: Patch) returns (next: Config)
    ensures next == Patched(cur, patch)
  {
    hide TrimSpace;
    var issuerURL, clientID, clientSecret := cur.issuerURL, cur.clientID, cur.clientSecret;
    if patch.issuerURL.Some? { issuerURL := TrimSpace(patch.issuerURL.value); }
    assert issuerURL == TrimmedOr(patch.issuerURL, cur.issuerURL);
    if patch.clientID.Some? { clientID := TrimSpace(patch.clientID.value); }
    assert clientID == TrimmedOr(patch.clientID, cur.clientID);
    if patch.clientSecret.Some? && patch.clientSecret.value != "" { clientSecret := patch.clientSecret.value; }
    var scopes, displayName, iconURLPath := cur.scopes, cur.displayName, cur.iconURLPath;
    if patch.scopes.Some? { scopes := TrimSpace(patch.scopes.value); }
    assert scopes == TrimmedOr(patch.scopes, cur.scopes);
    if patch.displayName.Some? { displayName := TrimSpace(patch.displayName.value); }
    assert displayName == TrimmedOr(patch.displayName, cur.displayName);
    if patch.iconURLPath.Some? { iconURLPath := TrimSpace(patch.iconURLPath.value); }
    assert iconURLPath == TrimmedOr(patch.iconURLPath, cur.iconURLPath);
    var claimFilters, claimRoleMapping := cur.claimFilters, cur.claimRoleMapping;
    if patch.claimFilters.Some? { claimFilters := patch.claimFilters.value; }
    assert claimFilters == Or(patch.claimFilters, cur.claimFilters);
    if patch.claimRoleMapping.Some? { claimRoleMapping := patch.claimRoleMapping.value; }
    assert claimRoleMapping == Or(patch.claimRoleMapping, cur.claimRoleMapping);
    var emailVerifiedRequired, linkByEmail := cur.emailVerifiedRequired, cur.linkByEmail;
    if patch.emailVerifiedRequired.Some? { emailVerifiedRequired := patch.emailVerifiedRequired.value; }
    assert emailVerifiedRequired == Or(patch.emailVerifiedRequired, cur.emailVerifiedRequired);
    if patch.linkByEmail.Some? { linkByEmail := patch.linkByEmail.value; }
    assert linkByEmail == Or(patch.linkByEmail, cur.linkByEmail);
    return Config("", issuerURL, clientID, clientSecret, scopes, displayName, iconURLPath,
                  claimFilters, claimRoleMapping, emailVerifiedRequired, linkByEmail);
  }

  /** The running plugin: the pointers its handlers read, over the databases it may be pointed at. */
  class Process {
    const databases: map<DbId, Store>
    var live: Option<Config>
    var provider: Option<Provider>
    var discoveryFailed: bool
    var wired: Option<DbId>

    ghost predicate Valid()
      reads this
    {
      && (forall d, e :: d in databases && e in databases && d != e ==> databases[d] != databases[e])
      && (wired.Some? ==> wired.value in databases)
    }

    ghost function View(): State
      reads this, databases.Values
    {
      State(live, provider, discoveryFailed, wired,
            map d | d in databases && databases[d].row.Some? :: databases[d].row.value)
    }

    constructor (databases: map<DbId, Store>)
      requires forall d, e :: d in databases && e in databases && d != e ==> databases[d] != databases[e]
      ensures Valid() && this.databases == databases
      ensures live == None && provider == None && wired == None && !discoveryFailed
    {
      this.databases := databases;
      live, provider, discoveryFailed, wired := None, None, false, None;
    }

    /** Builds the provider when the settings allow it; a discovery failure is recorded, not fatal. */
    method ApplyConfig(cfg: Config, discoveryOk: bool)
      modifies this`live, this`provider, this`discoveryFailed
      ensures View() == Applied(old(View()), cfg, discoveryOk)
    {
      var built: Option<Provider> := None;
      if cfg.ProviderConfigured() {
        if discoveryOk {
          built := Some(Provider(cfg.issuerURL, cfg.clientID, cfg.clientSecret, cfg.scopes));
          discoveryFailed := false;
        } else {
          discoveryFailed := true;
        }
      } else {
        discoveryFailed := false;
      }
      live, provider := Some(cfg), built;
    }

    /** Migrates database d and imports the host's settings into it. */
    method ImportInto(ck: Checks, cfg: Config, d: DbId, io: Io) returns (effective: Option<Config>)
      requires Valid() && d in databases
      modifies databases[d]
      ensures var out := Import(ck, RowOf(old(View()), d), cfg, io);
              effective == out.effective && View() == old(View()).(rows := old(View()).rows[d := out.row])
    {
      hide Import;
      var db := databases[d];
      db.Migrate();
      effective := db.ImportLegacyConfig(ck, cfg, io);
    }

    /** The configuration callback; `target` is the database the URL leads to, when there is one. */
    method OnConfigure(ck: Checks, cfg: Config, target: Option<DbId>, io: Io, discoveryOk: bool) returns (ok: bool)
      requires Valid() && (target.Some? ==> target.value in databases)
      modifies this, databases.Values
      ensures Valid() && (View(), ok) == StepConfigure(ck, old(View()), cfg, target, io, discoveryOk)
    {
      hide Import, Config.ProviderConfigured;
      if cfg.databaseURL == "" || target.None? {
        return false;
      }
      var effective := ImportInto(ck, cfg, target.value, io);
      if effective.None? {
        return false;
      }
      ApplyConfig(effective.value, discoveryOk);
      ghost var applied := View();
      wired := target;
      assert View() == applied.(wired := target);
      return true;
    }

    /** The Configure RPC. */
    method Configure(ck: Checks, entries: seq<Entry>, target: Option<DbId>, io: Io, discoveryOk: bool)
      returns (ok: bool)
      requires Valid() && (target.Some? ==> target.value in databases)
      modifies this, databases.Values
      ensures Valid() && (View(), ok) == Step(ck, old(View()), Event.Configure(entries, target, io, discoveryOk))
    {
      hide Loaded, WellFormed, StepConfigure, StepPatch;
      var loaded := LoadConfig(ck, entries);
      if loaded.Err? {
        return false;
      }
      ok := OnConfigure(ck, loaded.value, target, io, discoveryOk);
    }

    /** The admin endpoint that changes settings. */
    method UpdateConfig(ck: Checks, patch: Patch, writeOk: bool, discoveryOk: bool) returns (ok: bool)
      requires Valid()
      modifies this, databases.Values
      ensures Valid() && (View(), ok) == Step(ck, old(View()), AdminPatch(patch, writeOk, discoveryOk))
    {
      hide TrimSpace, ValidateConfig, Encode, Decode, WellFormed, StepConfigure, Patched, Config.ProviderConfigured;
      if wired.None? || live.None? {
        return false;
      }
      var next := PatchConfig(live.value, patch);
      ValidateConfigIff(ck, next);
      var db := databases[wired.value];
      ok := db.UpdateConfig(ck, next, writeOk);
      if ok {
        assert View() == old(View()).(rows := old(View()).rows[wired.value := Encode(next)]);
        ApplyConfig(next, discoveryOk);
      } else {
        assert View() == old(View());
      }
    }
  }
}
