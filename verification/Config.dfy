/** The plugin configuration: validation, loading from host entries, and its stored JSON form. */
module Config {
  import opened Basics
  import opened Json
  import opened Claims

  // A Go slice: nil and the empty slice are different values.
  datatype Slice<+T> = Nil | Elems(elems: seq<T>) {
    function Seq(): seq<T> {
      if Nil? then [] else elems
    }
  }

  datatype Config = Config(
    databaseURL: string,
    issuerURL: string,
    clientID: string,
    clientSecret: string,
    scopes: string,
    displayName: string,
    iconURLPath: string,
    claimFilters: Slice<ClaimFilter>,
    claimRoleMapping: Slice<RoleRule>,
    emailVerifiedRequired: bool,
    linkByEmail: bool)
  {
    predicate ProviderConfigured() {
      issuerURL != "" && clientID != "" && clientSecret != ""
    }

    predicate ProviderPartiallyConfigured() {
      issuerURL != "" || clientID != "" || clientSecret != ""
    }
  }

  const DEFAULT: Config :=
    Config("", "", "", "", "openid profile email", "Sign in with OIDC", "generic-key.svg", Nil, Nil, true, false)

  /**
   What the configuration code asks of URL parsing, of the regexp compiler, and of the JSON decoder
   when a rule list is decoded over one already there. Nothing is assumed of any of them.
   */
  datatype Checks = Checks(
    issuerOk: string -> bool,
    customIconOk: string -> bool,
    compiles: string -> bool,
    redecodeFilters: (Slice<ClaimFilter>, Value) -> Option<Slice<ClaimFilter>>,
    redecodeRoles: (Slice<RoleRule>, Value) -> Option<Slice<RoleRule>>)

  // ---------------------------------------------------------------- white space

  predicate IsSpace(c: char) {
    || '\U{09}' <= c <= '\U{0D}' || c == ' ' || c == '\U{85}' || c == '\U{A0}' || c == '\U{1680}'
    || '\U{2000}' <= c <= '\U{200A}' || c == '\U{2028}' || c == '\U{2029}'
    || c == '\U{202F}' || c == '\U{205F}' || c == '\U{3000}'
  }

  /** The code points that Unicode counts as white space. */
  lemma SpaceIff(c: char)
    ensures IsSpace(c) <==>
              c as int in {9, 10, 11, 12, 13, 32, 133, 160, 5760, 8192, 8193, 8194, 8195, 8196, 8197, 8198, 8199, 8200,
                           8201, 8202, 8232, 8233, 8239, 8287, 12288}
  {
  }

  function TrimLeft(s: string): string {
    if s != "" && IsSpace(s[0]) then TrimLeft(s[1..]) else s
  }

  function TrimRight(s: string): string {
    if s != "" && IsSpace(s[|s| - 1]) then TrimRight(s[..|s| - 1]) else s
  }

  function TrimSpace(s: string): string {
    TrimRight(TrimLeft(s))
  }

  /** Length of the run of non-space characters that starts s. */
  function WordLength(s: string): (n: nat)
    ensures n <= |s|
  {
    if s == "" || IsSpace(s[0]) then 0 else 1 + WordLength(s[1..])
  }

  /** The words of s, split around white space. */
  function Fields(s: string): seq<string>
    decreases |s|
  {
    if s == "" then []
    else if IsSpace(s[0]) then Fields(s[1..])
    else [s[..WordLength(s)]] + Fields(s[WordLength(s)..])
  }

  ghost predicate AllSpace(s: string) {
    forall i :: 0 <= i < |s| ==> IsSpace(s[i])
  }

  lemma {:induction false} TrimLeftStrips(pre: string, core: string)
    requires AllSpace(pre) && (core != "" ==> !IsSpace(core[0]))
    ensures TrimLeft(pre + core) == core
  {
    if pre == "" {
      assert pre + core == core;
    } else {
      assert (pre + core)[1..] == pre[1..] + core;
      TrimLeftStrips(pre[1..], core);
    }
  }

  lemma {:induction false} TrimRightStrips(core: string, post: string)
    requires AllSpace(post) && (core != "" ==> !IsSpace(core[|core| - 1]))
    ensures TrimRight(core + post) == core
  {
    if post == "" {
      assert core + post == core;
    } else {
      var n := |post| - 1;
      assert (core + post)[..|core + post| - 1] == core + post[..n];
      TrimRightStrips(core, post[..n]);
    }
  }

  /** Trimming removes the white space around a text and nothing else. */
  lemma TrimSpaceStrips(pre: string, core: string, post: string)
    requires AllSpace(pre) && AllSpace(post)
    requires core != "" ==> !IsSpace(core[0]) && !IsSpace(core[|core| - 1])
    ensures TrimSpace(pre + core + post) == core
  {
    if core == "" {
      TrimLeftStrips(pre + core + post, "");
      assert pre + core + post + "" == pre + core + post;
    } else {
      TrimLeftStrips(pre, core + post);
      assert pre + (core + post) == pre + core + post;
      TrimRightStrips(core, post);
    }
  }

  /** The word w stands at position i of s, with white space or nothing on either side. */
  ghost predicate StandsAt(s: string, w: string, i: int) {
    && w != "" && (forall c :: c in w ==> !IsSpace(c))
    && 0 <= i <= |s| - |w| && s[i..i + |w|] == w
    && (i > 0 ==> IsSpace(s[i - 1]))
    && (i + |w| < |s| ==> IsSpace(s[i + |w|]))
  }

  lemma {:induction false} WordLengthIs(s: string)
    ensures forall i :: 0 <= i < WordLength(s) ==> !IsSpace(s[i])
    ensures WordLength(s) < |s| ==> IsSpace(s[WordLength(s)])
  {
    if s != "" && !IsSpace(s[0]) {
      WordLengthIs(s[1..]);
      forall i | 0 <= i < WordLength(s) ensures !IsSpace(s[i]) {
        if i > 0 { assert s[i] == s[1..][i - 1]; }
      }
    }
  }

  /** Dropping n characters from s, the last of them white space or the next one, moves its later words. */
  lemma Shifted(s: string, w: string, n: nat, i: int)
    requires n <= |s| && i >= n && (0 < n < |s| ==> IsSpace(s[n - 1]) || IsSpace(s[n]))
    ensures StandsAt(s, w, i) <==> StandsAt(s[n..], w, i - n)
  {
    hide IsSpace;
    var t := s[n..];
    if n <= i <= |s| - |w| { assert s[i..i + |w|] == t[i - n..i - n + |w|]; }
    if w != "" && n == i <= |s| - |w| && s[i..i + |w|] == w { assert s[n] == w[0] && w[0] in w; }
  }

  /** The fields of a text are exactly the words in it. */
  lemma {:induction false} FieldsIff(s: string, w: string)
    ensures w in Fields(s) <==> exists i :: StandsAt(s, w, i)
    decreases |s|
  {
    if s != "" {
      var n := if IsSpace(s[0]) then 1 else WordLength(s);
      WordLengthIs(s);
      FieldsIff(s[n..], w);
      forall i | i >= n ensures StandsAt(s, w, i) <==> StandsAt(s[n..], w, i - n) { Shifted(s, w, n, i); }
      if w in Fields(s[n..]) {
        var i :| StandsAt(s[n..], w, i);
        assert StandsAt(s, w, i + n);
      }
      if !IsSpace(s[0]) { FirstWordStands(s, w); }
      forall i | StandsAt(s, w, i) ensures w in Fields(s) {
        if i >= n {
          assert StandsAt(s[n..], w, i - n);
        } else {
          OnlyFirstWord(s, w, i);
        }
      }
    }
  }

  lemma FirstWordStands(s: string, w: string)
    requires s != "" && !IsSpace(s[0])
    ensures StandsAt(s, w, 0) <==> w == s[..WordLength(s)]
  {
    var n := WordLength(s);
    WordLengthIs(s);
    hide IsSpace;
    assert n > 0;
    if StandsAt(s, w, 0) {
      assert s[..|w|] == w;
      forall k | 0 <= k < |w| ensures !IsSpace(s[k]) { assert s[k] == w[k] && w[k] in w; }
    }
    if w == s[..n] {
      forall c | c in w ensures !IsSpace(c) {
        var i :| 0 <= i < |w| && w[i] == c;
      }
    }
  }

  /** No later word begins before the first one ends. */
  lemma OnlyFirstWord(s: string, w: string, i: int)
    requires s != "" && StandsAt(s, w, i) && i < if IsSpace(s[0]) then 1 else WordLength(s)
    ensures !IsSpace(s[0]) && i == 0 && w == s[..WordLength(s)]
  {
    WordLengthIs(s);
    assert s[i] == w[0] && w[0] in w;
    FirstWordStands(s, w);
  }

  // ---------------------------------------------------------------- validation

  datatype RuleError = BadOperator | PathRequired | BadPath(e: PathError) | BadRole | ValueNotString | BadRegex

  datatype ConfigError =
    | IssuerRequired
    | IssuerInvalid
    | ClientIDRequired
    | ClientSecretRequired
    | ScopesWithoutOpenID
    | LinkWithoutVerifiedEmail
    | IconNotAllowed
    | FilterError(index: nat, error: RuleError)
    | RoleError(index: nat, error: RuleError)

  const ALLOWED_ICONS: set<string> :=
    {"authentik.svg", "keycloak.svg", "auth0.svg", "okta.svg", "microsoft.svg", "google.svg", "gitlab.svg",
     "generic-key.svg"}

  predicate IconAllowed(ck: Checks, name: string) {
    name in ALLOWED_ICONS || ck.customIconOk(name)
  }

  predicate KnownOperator(op: string) {
    op in {"equals", "contains", "starts_with", "regex"}
  }

  predicate OperatorTakes(op: string, value: Value) {
    op in {"starts_with", "regex"} ==> value.String?
  }

  function CheckFilter(ck: Checks, f: ClaimFilter): Option<RuleError> {
    if !KnownOperator(f.op) then Some(BadOperator)
    else if f.path == "" then Some(PathRequired)
    else if ValidateClaimPath(f.path).Some? then Some(BadPath(ValidateClaimPath(f.path).value))
    else if !OperatorTakes(f.op, f.value) then Some(ValueNotString)
    else if f.op == "regex" && !ck.compiles(StringOf(f.value)) then Some(BadRegex)
    else None
  }

  function CheckRole(ck: Checks, r: RoleRule): Option<RuleError> {
    if !KnownOperator(r.op) then Some(BadOperator)
    else if r.path == "" then Some(PathRequired)
    else if ValidateClaimPath(r.path).Some? then Some(BadPath(ValidateClaimPath(r.path).value))
    else if r.role != "user" && r.role != "admin" then Some(BadRole)
    else if !OperatorTakes(r.op, r.value) then Some(ValueNotString)
    else if r.op == "regex" && !ck.compiles(StringOf(r.value)) then Some(BadRegex)
    else None
  }

  function CheckFilters(ck: Checks, fs: seq<ClaimFilter>, i: nat): Option<ConfigError>
    requires i <= |fs|
    decreases |fs| - i
  {
    if i == |fs| then None
    else if CheckFilter(ck, fs[i]).Some? then Some(FilterError(i, CheckFilter(ck, fs[i]).value))
    else CheckFilters(ck, fs, i + 1)
  }

  function CheckRoles(ck: Checks, rs: seq<RoleRule>, i: nat): Option<ConfigError>
    requires i <= |rs|
    decreases |rs| - i
  {
    if i == |rs| then None
    else if CheckRole(ck, rs[i]).Some? then Some(RoleError(i, CheckRole(ck, rs[i]).value))
    else CheckRoles(ck, rs, i + 1)
  }

  /** The first reason to refuse a configuration, in the order the checks are made. */
  function ValidateConfig(ck: Checks, cfg: Config): Option<ConfigError> {
    if cfg.ProviderPartiallyConfigured() && cfg.issuerURL == "" then Some(IssuerRequired)
    else if cfg.ProviderPartiallyConfigured() && !ck.issuerOk(cfg.issuerURL) then Some(IssuerInvalid)
    else if cfg.ProviderPartiallyConfigured() && cfg.clientID == "" then Some(ClientIDRequired)
    else if cfg.ProviderPartiallyConfigured() && cfg.clientSecret == "" then Some(ClientSecretRequired)
    else if "openid" !in Fields(cfg.scopes) then Some(ScopesWithoutOpenID)
    else if cfg.linkByEmail && !cfg.emailVerifiedRequired then Some(LinkWithoutVerifiedEmail)
    else if !IconAllowed(ck, cfg.iconURLPath) then Some(IconNotAllowed)
    else if CheckFilters(ck, cfg.claimFilters.Seq(), 0).Some? then CheckFilters(ck, cfg.claimFilters.Seq(), 0)
    else CheckRoles(ck, cfg.claimRoleMapping.Seq(), 0)
  }

  /** What an accepted configuration guarantees, whatever the order of checks. */
  ghost predicate WellFormed(ck: Checks, cfg: Config) {
    && (cfg.issuerURL != "" || cfg.clientID != "" || cfg.clientSecret != "" ==>
          cfg.issuerURL != "" && cfg.clientID != "" && cfg.clientSecret != "" && ck.issuerOk(cfg.issuerURL))
    && "openid" in Fields(cfg.scopes)
    && (cfg.linkByEmail ==> cfg.emailVerifiedRequired)
    && IconAllowed(ck, cfg.iconURLPath)
    && (forall f :: f in cfg.claimFilters.Seq() ==> RuleOk(ck, f.path, f.op, f.value))
    && (forall r :: r in cfg.claimRoleMapping.Seq() ==>
          RuleOk(ck, r.path, r.op, r.value) && r.role in {"user", "admin"})
  }

  ghost predicate RuleOk(ck: Checks, path: string, op: string, value: Value) {
    && op in {"equals", "contains", "starts_with", "regex"}
    && (exists segs :: AllSegments(segs) && Join(segs) == path)
    && (op == "starts_with" ==> value.String?)
    && (op == "regex" ==> value.String? && ck.compiles(value.s))
  }

  /** The bundled icons by name; any other icon is up to the URL rules. */
  lemma IconAllowedIff(ck: Checks, name: string)
    ensures IconAllowed(ck, name) <==>
              || name in ["authentik.svg", "keycloak.svg", "auth0.svg", "okta.svg", "microsoft.svg", "google.svg",
                          "gitlab.svg", "generic-key.svg"]
              || ck.customIconOk(name)
  {
  }

  lemma {:induction false} FirstBadFilter(ck: Checks, fs: seq<ClaimFilter>, i: nat)
    requires i <= |fs|
    ensures match CheckFilters(ck, fs, i)
            case None => forall j :: i <= j < |fs| ==> CheckFilter(ck, fs[j]).None?
            case Some(e) => e.FilterError? && i <= e.index < |fs| && CheckFilter(ck, fs[e.index]) == Some(e.error)
                            && forall j :: i <= j < e.index ==> CheckFilter(ck, fs[j]).None?
    decreases |fs| - i
  {
    hide CheckFilter;
    if i < |fs| { FirstBadFilter(ck, fs, i + 1); }
  }

  lemma {:induction false} FirstBadRole(ck: Checks, rs: seq<RoleRule>, i: nat)
    requires i <= |rs|
    ensures match CheckRoles(ck, rs, i)
            case None => forall j :: i <= j < |rs| ==> CheckRole(ck, rs[j]).None?
            case Some(e) => e.RoleError? && i <= e.index < |rs| && CheckRole(ck, rs[e.index]) == Some(e.error)
                            && forall j :: i <= j < e.index ==> CheckRole(ck, rs[j]).None?
    decreases |rs| - i
  {
    hide CheckRole;
    if i < |rs| { FirstBadRole(ck, rs, i + 1); }
  }

  lemma FilterOkIff(ck: Checks, f: ClaimFilter)
    ensures CheckFilter(ck, f).None? <==> RuleOk(ck, f.path, f.op, f.value)
  {
    AcceptedPaths(f.path);
  }

  lemma RoleOkIff(ck: Checks, r: RoleRule)
    ensures CheckRole(ck, r).None? <==> RuleOk(ck, r.path, r.op, r.value) && r.role in {"user", "admin"}
  {
    AcceptedPaths(r.path);
  }

  /** Validation accepts exactly the well-formed configurations. */
  lemma ValidateConfigIff(ck: Checks, cfg: Config)
    ensures ValidateConfig(ck, cfg).None? <==> WellFormed(ck, cfg)
  {
    var fs, rs := cfg.claimFilters.Seq(), cfg.claimRoleMapping.Seq();
    FirstBadFilter(ck, fs, 0);
    FirstBadRole(ck, rs, 0);
    forall f ensures CheckFilter(ck, f).None? <==> RuleOk(ck, f.path, f.op, f.value) { FilterOkIff(ck, f); }
    forall r ensures CheckRole(ck, r).None? <==> RuleOk(ck, r.path, r.op, r.value) && r.role in {"user", "admin"} {
      RoleOkIff(ck, r);
    }
    hide CheckFilter, CheckRole, RuleOk, CheckFilters, CheckRoles, Fields, IconAllowed;
  }

  // ---------------------------------------------------------------- the reason given for a refusal

  /** All provider settings are given and the issuer is fine, as far as checks before the client id go. */
  predicate IssuerFine(ck: Checks, cfg: Config) {
    cfg.issuerURL != "" && ck.issuerOk(cfg.issuerURL)
  }

  predicate ProviderFine(ck: Checks, cfg: Config) {
    cfg.issuerURL == cfg.clientID == cfg.clientSecret == ""
    || (IssuerFine(ck, cfg) && cfg.clientID != "" && cfg.clientSecret != "")
  }

  predicate SettingsFine(ck: Checks, cfg: Config) {
    && ProviderFine(ck, cfg) && "openid" in Fields(cfg.scopes)
    && !(cfg.linkByEmail && !cfg.emailVerifiedRequired) && IconAllowed(ck, cfg.iconURLPath)
  }

  /** A refusal names a fault that is there, and the first one in the order of the checks. */
  lemma RefusalNamesFirstFault(ck: Checks, cfg: Config)
    ensures match ValidateConfig(ck, cfg)
            case None => true
            case Some(IssuerRequired) => cfg.issuerURL == "" && cfg.clientID + cfg.clientSecret != ""
            case Some(IssuerInvalid) => cfg.issuerURL != "" && !ck.issuerOk(cfg.issuerURL)
            case Some(ClientIDRequired) => IssuerFine(ck, cfg) && cfg.clientID == ""
            case Some(ClientSecretRequired) => IssuerFine(ck, cfg) && cfg.clientID != "" && cfg.clientSecret == ""
            case Some(ScopesWithoutOpenID) => ProviderFine(ck, cfg) && "openid" !in Fields(cfg.scopes)
            case Some(LinkWithoutVerifiedEmail) =>
              && ProviderFine(ck, cfg) && "openid" in Fields(cfg.scopes)
              && cfg.linkByEmail && !cfg.emailVerifiedRequired
            case Some(IconNotAllowed) =>
              && ProviderFine(ck, cfg) && "openid" in Fields(cfg.scopes)
              && !(cfg.linkByEmail && !cfg.emailVerifiedRequired) && !IconAllowed(ck, cfg.iconURLPath)
            case Some(FilterError(i, e)) =>
              && SettingsFine(ck, cfg) && i < |cfg.claimFilters.Seq()|
              && CheckFilter(ck, cfg.claimFilters.Seq()[i]) == Some(e)
              && forall j :: 0 <= j < i ==> CheckFilter(ck, cfg.claimFilters.Seq()[j]).None?
            case Some(RoleError(i, e)) =>
              && SettingsFine(ck, cfg) && i < |cfg.claimRoleMapping.Seq()|
              && (forall f :: f in cfg.claimFilters.Seq() ==> CheckFilter(ck, f).None?)
              && CheckRole(ck, cfg.claimRoleMapping.Seq()[i]) == Some(e)
              && forall j :: 0 <= j < i ==> CheckRole(ck, cfg.claimRoleMapping.Seq()[j]).None?
  {
    hide CheckFilter, CheckRole, CheckFilters, CheckRoles, Fields, IconAllowed;
    FirstBadFilter(ck, cfg.claimFilters.Seq(), 0);
    FirstBadRole(ck, cfg.claimRoleMapping.Seq(), 0);
  }

  /** What is wrong with a rule that is refused, the parts before it being right. */
  ghost predicate Fault(ck: Checks, e: RuleError, path: string, op: string, value: Value, role: string) {
    (op !in {"equals", "contains", "starts_with", "regex"} <==> e.BadOperator?) &&
    match e
    case BadOperator => true
    case PathRequired => path == ""
    case BadPath(pe) => path != "" && ValidateClaimPath(path) == Some(pe)
    case BadRole => ValidateClaimPath(path).None? && role !in {"user", "admin"}
    case ValueNotString =>
      ValidateClaimPath(path).None? && role in {"user", "admin"} && op in {"starts_with", "regex"} && !value.String?
    case BadRegex =>
      && ValidateClaimPath(path).None? && role in {"user", "admin"}
      && op == "regex" && value.String? && !ck.compiles(value.s)
  }

  /** A filter is checked like a rule with an admissible role. */
  lemma RuleFaults(ck: Checks, f: ClaimFilter, r: RoleRule)
    ensures CheckFilter(ck, f).Some? ==> Fault(ck, CheckFilter(ck, f).value, f.path, f.op, f.value, "user")
    ensures CheckRole(ck, r).Some? ==> Fault(ck, CheckRole(ck, r).value, r.path, r.op, r.value, r.role)
  {
    hide ValidateClaimPath;
  }

  // ---------------------------------------------------------------- words and defaults

  lemma {:induction false} FirstWord(w: string, rest: string)
    requires (forall c :: c in w ==> !IsSpace(c)) && (rest == "" || IsSpace(rest[0]))
    ensures WordLength(w + rest) == |w|
  {
    if w == "" {
      assert w + rest == rest;
    } else {
      assert (w + rest)[1..] == w[1..] + rest;
      FirstWord(w[1..], rest);
    }
  }

  /** The first word of a text and the words after the space that ends it. */
  lemma FirstField(w: string, space: char, rest: string)
    requires w != "" && (forall c :: c in w ==> !IsSpace(c)) && IsSpace(space)
    ensures Fields(w + [space] + rest) == [w] + Fields(rest)
  {
    var s := w + [space] + rest;
    assert s == w + ([space] + rest);
    FirstWord(w, [space] + rest);
    assert s[..|w|] == w && s[|w|..] == [space] + rest;
    assert ([space] + rest)[1..] == rest;
  }

  lemma DefaultScopes()
    ensures "openid" in Fields(DEFAULT.scopes)
  {
    hide Fields;
    assert DEFAULT.scopes == "openid" + [' '] + "profile email";
    FirstField("openid", ' ', "profile email");
  }

  /** The default configuration is itself acceptable. */
  lemma DefaultWellFormed(ck: Checks)
    ensures WellFormed(ck, DEFAULT)
  {
    DefaultScopes();
    hide Fields, RuleOk;
    assert DEFAULT.iconURLPath in ALLOWED_ICONS;
  }

  // ---------------------------------------------------------------- loading host entries

  // One configuration entry; `value` is None when the entry carries no value at all.
  datatype Entry = Entry(key: string, value: Option<Value>)

  // The settings, by the key that names each in host entries and in the stored JSON object.
  datatype Field =
    | DatabaseURL | IssuerURL | ClientID | ClientSecret | Scopes | DisplayName | IconURLPath
    | ClaimFilters | ClaimRoleMapping | EmailVerifiedRequired | LinkByEmail

  function FieldOf(key: string): Option<Field> {
    match key
    case "database_url" => Some(DatabaseURL)
    case "issuer_url" => Some(IssuerURL)
    case "client_id" => Some(ClientID)
    case "client_secret" => Some(ClientSecret)
    case "scopes" => Some(Scopes)
    case "display_name" => Some(DisplayName)
    case "icon_url_path" => Some(IconURLPath)
    case "claim_filters" => Some(ClaimFilters)
    case "claim_role_mapping" => Some(ClaimRoleMapping)
    case "email_verified_required" => Some(EmailVerifiedRequired)
    case "link_by_email" => Some(LinkByEmail)
    case _ => None
  }

  function OrKeep(s: string, keep: string): string {
    if s != "" then s else keep
  }

  /** The effect of one entry on the configuration under construction; None is a decoding failure. */
  function ApplyEntry(ck: Checks, cfg: Config, e: Entry): Option<Config> {
    var field := FieldOf(e.key);
    if e.value.None? || field.None? then Some(cfg) else ApplyField(ck, cfg, field.value, e.value.value)
  }

  function ApplyField(ck: Checks, cfg: Config, field: Field, v: Value): Option<Config> {
    var s := StringOf(v);
    match field
    case DatabaseURL => Some(cfg.(databaseURL := s))
    case IssuerURL => Some(cfg.(issuerURL := TrimSpace(s)))
    case ClientID => Some(cfg.(clientID := s))
    case ClientSecret => Some(cfg.(clientSecret := s))
    case Scopes => Some(cfg.(scopes := OrKeep(s, cfg.scopes)))
    case DisplayName => Some(cfg.(displayName := OrKeep(s, cfg.displayName)))
    case IconURLPath => Some(cfg.(iconURLPath := OrKeep(s, cfg.iconURLPath)))
    case ClaimFilters =>
      var d := if cfg.claimFilters.Nil? then DecodeSlice(v, DecodeFilter)
               else ck.redecodeFilters(cfg.claimFilters, v);
      if d.None? then None else Some(cfg.(claimFilters := d.value))
    case ClaimRoleMapping =>
      var d := if cfg.claimRoleMapping.Nil? then DecodeSlice(v, DecodeRole)
               else ck.redecodeRoles(cfg.claimRoleMapping, v);
      if d.None? then None else Some(cfg.(claimRoleMapping := d.value))
    case EmailVerifiedRequired => Some(if v.Bool? then cfg.(emailVerifiedRequired := v.b) else cfg)
    case LinkByEmail => Some(if v.Bool? then cfg.(linkByEmail := v.b) else cfg)
  }

  function ApplyEntries(ck: Checks, cfg: Config, entries: seq<Entry>): Option<Config>
    decreases |entries|
  {
    if entries == [] then Some(cfg)
    else
      var next := ApplyEntry(ck, cfg, entries[0]);
      if next.None? then None else ApplyEntries(ck, next.value, entries[1..])
  }

  /** The text an entry gives, or the one already there when it gives none. */
  function TextOr(v: Value, keep: string): string {
    match v
    case String(s) => if s == "" then keep else s
    case _ => keep
  }

  /** What an entry of each key does, whatever its value: text settings read anything but text as empty. */
  lemma TextEntries(ck: Checks, cfg: Config, v: Value)
    ensures ApplyEntry(ck, cfg, Entry("database_url", Some(v))) == Some(cfg.(databaseURL := StringOf(v)))
    ensures ApplyEntry(ck, cfg, Entry("issuer_url", Some(v))) == Some(cfg.(issuerURL := TrimSpace(StringOf(v))))
    ensures ApplyEntry(ck, cfg, Entry("client_id", Some(v))) == Some(cfg.(clientID := StringOf(v)))
    ensures ApplyEntry(ck, cfg, Entry("client_secret", Some(v))) == Some(cfg.(clientSecret := StringOf(v)))
    ensures ApplyEntry(ck, cfg, Entry("scopes", Some(v))) == Some(cfg.(scopes := TextOr(v, cfg.scopes)))
    ensures ApplyEntry(ck, cfg, Entry("display_name", Some(v)))
            == Some(cfg.(displayName := TextOr(v, cfg.displayName)))
    ensures ApplyEntry(ck, cfg, Entry("icon_url_path", Some(v)))
            == Some(cfg.(iconURLPath := TextOr(v, cfg.iconURLPath)))
  {
    hide TrimSpace;
  }

  /** Flags take booleans only; rule lists are decoded, over what is there already, or loading fails. */
  lemma OtherEntries(ck: Checks, cfg: Config, v: Value, b: bool)
    ensures ApplyEntry(ck, cfg, Entry("email_verified_required", Some(Bool(b))))
            == Some(cfg.(emailVerifiedRequired := b))
    ensures ApplyEntry(ck, cfg, Entry("link_by_email", Some(Bool(b)))) == Some(cfg.(linkByEmail := b))
    ensures !v.Bool? ==> ApplyEntry(ck, cfg, Entry("email_verified_required", Some(v))) == Some(cfg)
    ensures !v.Bool? ==> ApplyEntry(ck, cfg, Entry("link_by_email", Some(v))) == Some(cfg)
    ensures var d := if cfg.claimFilters.Nil? then DecodeSlice(v, DecodeFilter)
                     else ck.redecodeFilters(cfg.claimFilters, v);
            ApplyEntry(ck, cfg, Entry("claim_filters", Some(v)))
            == if d.Some? then Some(cfg.(claimFilters := d.value)) else None
    ensures var d := if cfg.claimRoleMapping.Nil? then DecodeSlice(v, DecodeRole)
                     else ck.redecodeRoles(cfg.claimRoleMapping, v);
            ApplyEntry(ck, cfg, Entry("claim_role_mapping", Some(v)))
            == if d.Some? then Some(cfg.(claimRoleMapping := d.value)) else None
  {
    hide TrimSpace, DecodeSlice;
  }

  const KNOWN_KEYS: set<string> :=
    {"database_url", "issuer_url", "client_id", "client_secret", "scopes", "display_name", "icon_url_path",
     "claim_filters", "claim_role_mapping", "email_verified_required", "link_by_email"}

  /** Entries without a value, and entries of unknown keys, change nothing. */
  lemma IgnoredEntries(ck: Checks, cfg: Config, e: Entry)
    ensures e.value.None? || e.key !in KNOWN_KEYS ==> ApplyEntry(ck, cfg, e) == Some(cfg)
  {
  }

  /** Entries take effect one after the other, and the first that cannot be decoded ends the loading. */
  lemma {:induction false} LoadAppend(ck: Checks, cfg: Config, a: seq<Entry>, b: seq<Entry>)
    ensures ApplyEntries(ck, cfg, a + b)
            == match ApplyEntries(ck, cfg, a) case None => None case Some(c) => ApplyEntries(ck, c, b)
    ensures forall e :: ApplyEntries(ck, cfg, [e]) == ApplyEntry(ck, cfg, e)
    decreases |a|
  {
    hide ApplyEntry;
    if a == [] {
      assert a + b == b;
    } else {
      assert (a + b)[1..] == a[1..] + b;
      var next := ApplyEntry(ck, cfg, a[0]);
      if next.Some? { LoadAppend(ck, next.value, a[1..], b); }
    }
  }

  /** Loading succeeds with exactly what the entries build from the defaults, if that is well formed. */
  lemma LoadedIff(ck: Checks, entries: seq<Entry>, cfg: Config)
    ensures Loaded(ck, entries) == Ok(cfg) <==> ApplyEntries(ck, DEFAULT, entries) == Some(cfg) && WellFormed(ck, cfg)
    ensures Loaded(ck, entries) == Err(DecodeFailed) <==> ApplyEntries(ck, DEFAULT, entries).None?
  {
    hide ApplyEntries, ValidateConfig, WellFormed;
    ValidateConfigIff(ck, cfg);
  }

  datatype LoadError = DecodeFailed | Invalid(e: ConfigError)

  /** What loading yields, as a function. */
  function Loaded(ck: Checks, entries: seq<Entry>): Result<Config, LoadError> {
    match ApplyEntries(ck, DEFAULT, entries)
    case None => Err(DecodeFailed)
    case Some(cfg) =>
      match ValidateConfig(ck, cfg)
      case None => Ok(cfg)
      case Some(e) => Err(Invalid(e))
  }

  method LoadConfig(ck: Checks, entries: seq<Entry>) returns (r: Result<Config, LoadError>)
    ensures r == Loaded(ck, entries)
    ensures r.Ok? ==> WellFormed(ck, r.value)
  {
    hide ApplyEntry;
    var cfg := DEFAULT;
    for i := 0 to |entries|
      invariant ApplyEntries(ck, DEFAULT, entries) == ApplyEntries(ck, cfg, entries[i..])
    {
      assert entries[i..][1..] == entries[i + 1..];
      var next := ApplyEntry(ck, cfg, entries[i]);
      if next.None? {
        return Err(DecodeFailed);
      }
      cfg := next.value;
    }
    ValidateConfigIff(ck, cfg);
    var bad := ValidateConfig(ck, cfg);
    return if bad.Some? then Err(Invalid(bad.value)) else Ok(cfg);
  }

  lemma ApplyNext(ck: Checks, cfg: Config, key: string, field: Field, v: Value, rest: seq<Entry>)
    requires FieldOf(key) == Some(field)
    ensures ApplyEntries(ck, cfg, [Entry(key, Some(v))] + rest)
            == match ApplyField(ck, cfg, field, v) case None => None case Some(next) => ApplyEntries(ck, next, rest)
  {
    assert ([Entry(key, Some(v))] + rest)[1..] == rest;
  }

  // A host entry for every setting of cfg, in three groups.

  function ConnectionEntries(cfg: Config, rest: seq<Entry>): seq<Entry> {
    [Entry("database_url", Some(String(cfg.databaseURL)))]
    + ([Entry("issuer_url", Some(String(cfg.issuerURL)))]
       + ([Entry("client_id", Some(String(cfg.clientID)))]
          + ([Entry("client_secret", Some(String(cfg.clientSecret)))] + rest)))
  }

  function DisplayEntries(cfg: Config, rest: seq<Entry>): seq<Entry> {
    [Entry("scopes", Some(String(cfg.scopes)))]
    + ([Entry("display_name", Some(String(cfg.displayName)))]
       + ([Entry("icon_url_path", Some(String(cfg.iconURLPath)))] + rest))
  }

  function RuleEntries(cfg: Config, rest: seq<Entry>): seq<Entry> {
    [Entry("claim_filters", Some(EncodeSlice(cfg.claimFilters, EncodeFilter)))]
    + ([Entry("claim_role_mapping", Some(EncodeSlice(cfg.claimRoleMapping, EncodeRole)))]
       + ([Entry("email_verified_required", Some(Bool(cfg.emailVerifiedRequired)))]
          + ([Entry("link_by_email", Some(Bool(cfg.linkByEmail)))] + rest)))
  }

  lemma LoadConnection(ck: Checks, c: Config, cfg: Config, rest: seq<Entry>)
    ensures ApplyEntries(ck, c, ConnectionEntries(cfg, rest))
            == ApplyEntries(ck, c.(databaseURL := cfg.databaseURL, issuerURL := TrimSpace(cfg.issuerURL),
                                   clientID := cfg.clientID, clientSecret := cfg.clientSecret), rest)
  {
    hide ApplyEntries, TrimSpace;
    var r3 := [Entry("client_secret", Some(String(cfg.clientSecret)))] + rest;
    var r2 := [Entry("client_id", Some(String(cfg.clientID)))] + r3;
    var r1 := [Entry("issuer_url", Some(String(cfg.issuerURL)))] + r2;
    var c1 := c.(databaseURL := cfg.databaseURL);
    var c2 := c1.(issuerURL := TrimSpace(cfg.issuerURL));
    ApplyNext(ck, c, "database_url", DatabaseURL, String(cfg.databaseURL), r1);
    ApplyNext(ck, c1, "issuer_url", IssuerURL, String(cfg.issuerURL), r2);
    ApplyNext(ck, c2, "client_id", ClientID, String(cfg.clientID), r3);
    ApplyNext(ck, c2.(clientID := cfg.clientID), "client_secret", ClientSecret, String(cfg.clientSecret), rest);
  }

  lemma LoadDisplay(ck: Checks, c: Config, cfg: Config, rest: seq<Entry>)
    ensures ApplyEntries(ck, c, DisplayEntries(cfg, rest))
            == ApplyEntries(ck, c.(scopes := OrKeep(cfg.scopes, c.scopes),
                                   displayName := OrKeep(cfg.displayName, c.displayName),
                                   iconURLPath := OrKeep(cfg.iconURLPath, c.iconURLPath)), rest)
  {
    hide ApplyEntries, OrKeep;
    var r2 := [Entry("icon_url_path", Some(String(cfg.iconURLPath)))] + rest;
    var r1 := [Entry("display_name", Some(String(cfg.displayName)))] + r2;
    var c1 := c.(scopes := OrKeep(cfg.scopes, c.scopes));
    var c2 := c1.(displayName := OrKeep(cfg.displayName, c.displayName));
    ApplyNext(ck, c, "scopes", Scopes, String(cfg.scopes), r1);
    ApplyNext(ck, c1, "display_name", DisplayName, String(cfg.displayName), r2);
    ApplyNext(ck, c2, "icon_url_path", IconURLPath, String(cfg.iconURLPath), rest);
  }

  lemma LoadRules(ck: Checks, c: Config, cfg: Config, rest: seq<Entry>)
    requires c.claimFilters.Nil? && c.claimRoleMapping.Nil?
    ensures ApplyEntries(ck, c, RuleEntries(cfg, rest))
            == ApplyEntries(ck, c.(claimFilters := cfg.claimFilters, claimRoleMapping := cfg.claimRoleMapping,
                                   emailVerifiedRequired := cfg.emailVerifiedRequired,
                                   linkByEmail := cfg.linkByEmail), rest)
  {
    hide ApplyEntries, EncodeSlice, DecodeSlice;
    FiltersRoundTrip(cfg.claimFilters);
    RolesRoundTrip(cfg.claimRoleMapping);
    var filters, roles := EncodeSlice(cfg.claimFilters, EncodeFilter), EncodeSlice(cfg.claimRoleMapping, EncodeRole);
    var r3 := [Entry("link_by_email", Some(Bool(cfg.linkByEmail)))] + rest;
    var r2 := [Entry("email_verified_required", Some(Bool(cfg.emailVerifiedRequired)))] + r3;
    var r1 := [Entry("claim_role_mapping", Some(roles))] + r2;
    var c1 := c.(claimFilters := cfg.claimFilters);
    var c2 := c1.(claimRoleMapping := cfg.claimRoleMapping);
    ApplyNext(ck, c, "claim_filters", ClaimFilters, filters, r1);
    ApplyNext(ck, c1, "claim_role_mapping", ClaimRoleMapping, roles, r2);
    ApplyNext(ck, c2, "email_verified_required", EmailVerifiedRequired, Bool(cfg.emailVerifiedRequired), r3);
    ApplyNext(ck, c2.(emailVerifiedRequired := cfg.emailVerifiedRequired), "link_by_email", LinkByEmail,
              Bool(cfg.linkByEmail), rest);
  }

  function EntriesOf(cfg: Config): seq<Entry> {
    ConnectionEntries(cfg, DisplayEntries(cfg, RuleEntries(cfg, [])))
  }

  /** Entries that spell out cfg build it, up to the issuer's white space and empty display settings. */
  lemma EntriesBuild(ck: Checks, cfg: Config)
    ensures ApplyEntries(ck, DEFAULT, EntriesOf(cfg))
            == Some(cfg.(issuerURL := TrimSpace(cfg.issuerURL), scopes := OrKeep(cfg.scopes, DEFAULT.scopes),
                         displayName := OrKeep(cfg.displayName, DEFAULT.displayName),
                         iconURLPath := OrKeep(cfg.iconURLPath, DEFAULT.iconURLPath)))
  {
    hide ConnectionEntries, DisplayEntries, RuleEntries, TrimSpace, OrKeep;
    var rules := RuleEntries(cfg, []);
    var c1 := DEFAULT.(databaseURL := cfg.databaseURL, issuerURL := TrimSpace(cfg.issuerURL),
                       clientID := cfg.clientID, clientSecret := cfg.clientSecret);
    var c2 := c1.(scopes := OrKeep(cfg.scopes, DEFAULT.scopes),
                  displayName := OrKeep(cfg.displayName, DEFAULT.displayName),
                  iconURLPath := OrKeep(cfg.iconURLPath, DEFAULT.iconURLPath));
    LoadConnection(ck, DEFAULT, cfg, DisplayEntries(cfg, rules));
    LoadDisplay(ck, c1, cfg, rules);
    LoadRules(ck, c2, cfg, []);
  }

  /**
   An acceptable configuration is loaded back from the entries that spell it out if and only if its
   issuer has no surrounding white space and neither its display name nor its icon is empty.
   */
  lemma LoadRoundTripIff(ck: Checks, cfg: Config)
    requires WellFormed(ck, cfg)
    ensures Loaded(ck, EntriesOf(cfg)) == Ok(cfg)
            <==> TrimSpace(cfg.issuerURL) == cfg.issuerURL && cfg.displayName != "" && cfg.iconURLPath != ""
  {
    assert cfg.scopes != "" by { assert Fields("") == []; }
    assert DEFAULT.displayName != "" && DEFAULT.iconURLPath != "";
    hide ValidateConfig, WellFormed, EntriesOf, TrimSpace, ApplyEntries;
    ValidateConfigIff(ck, cfg);
    EntriesBuild(ck, cfg);
  }

  /** The issuer is kept as given, a trailing slash included. */
  lemma TrailingSlashKept(ck: Checks, cfg: Config, origin: string)
    requires origin != "" && !IsSpace(origin[0])
    ensures ApplyEntry(ck, cfg, Entry("issuer_url", Some(String(origin + "/"))))
            == Some(cfg.(issuerURL := origin + "/"))
  {
    hide TrimSpace;
    TrimSpaceStrips("", origin + "/", "");
    assert "" + (origin + "/") + "" == origin + "/";
  }

  /** With nothing but a database URL the loaded settings are the stored defaults. */
  lemma BareLoadIsDefault(ck: Checks, url: string)
    ensures Loaded(ck, [Entry("database_url", Some(String(url)))]) == Ok(DEFAULT.(databaseURL := url))
    ensures DEFAULT.(databaseURL := url)
            == Config(url, "", "", "", "openid profile email", "Sign in with OIDC", "generic-key.svg", Nil, Nil,
                      true, false)
  {
    var cfg := DEFAULT.(databaseURL := url);
    assert ApplyEntries(ck, DEFAULT, [Entry("database_url", Some(String(url)))]) == Some(cfg);
    DefaultWellFormed(ck);
    assert WellFormed(ck, cfg);
    ValidateConfigIff(ck, cfg);
  }

  // ---------------------------------------------------------------- stored JSON form

  function EncodeFilter(f: ClaimFilter): Value {
    Obj(map["claim_path" := String(f.path), "operator" := String(f.op), "value" := f.value])
  }

  function EncodeRole(r: RoleRule): Value {
    Obj(map["claim_path" := String(r.path), "operator" := String(r.op), "value" := r.value, "role" := String(r.role)])
  }

  // A stored JSON object, keyed by the settings it mentions.
  type Row = map<Field, Value>

  /** json.Marshal of a list: nil is written as null. */
  function EncodeSlice<T>(xs: Slice<T>, encode: T -> Value): Value {
    if xs.Nil? then Null else Array(seq(|xs.elems|, i requires 0 <= i < |xs.elems| => encode(xs.elems[i])))
  }

  /** json.Marshal of a configuration: every field is written. */
  function Encode(cfg: Config): Row {
    map[DatabaseURL := String(cfg.databaseURL),
        IssuerURL := String(cfg.issuerURL),
        ClientID := String(cfg.clientID),
        ClientSecret := String(cfg.clientSecret),
        Scopes := String(cfg.scopes),
        DisplayName := String(cfg.displayName),
        IconURLPath := String(cfg.iconURLPath),
        ClaimFilters := EncodeSlice(cfg.claimFilters, EncodeFilter),
        ClaimRoleMapping := EncodeSlice(cfg.claimRoleMapping, EncodeRole),
        EmailVerifiedRequired := Bool(cfg.emailVerifiedRequired),
        LinkByEmail := Bool(cfg.linkByEmail)]
  }

  // Decoding a scalar over the value already there: absent or null keeps it, another type is an error.
  function StringField<K(==)>(m: map<K, Value>, key: K, keep: string): Option<string> {
    if key !in m || m[key].Null? then Some(keep) else if m[key].String? then Some(m[key].s) else None
  }

  function BoolField(m: Row, key: Field, keep: bool): Option<bool> {
    if key !in m || m[key].Null? then Some(keep) else if m[key].Bool? then Some(m[key].b) else None
  }

  function AnyField<K(==)>(m: map<K, Value>, key: K): Value {
    if key in m then m[key] else Null
  }

  function DecodeFilter(v: Value): Option<ClaimFilter> {
    if v.Null? then Some(ClaimFilter("", "", Null))
    else if !v.Obj? then None
    else
      var path, op := StringField(v.fields, "claim_path", ""), StringField(v.fields, "operator", "");
      if path.None? || op.None? then None
      else Some(ClaimFilter(path.value, op.value, AnyField(v.fields, "value")))
  }

  function DecodeRole(v: Value): Option<RoleRule> {
    if v.Null? then Some(RoleRule("", "", Null, ""))
    else if !v.Obj? then None
    else
      var path, op := StringField(v.fields, "claim_path", ""), StringField(v.fields, "operator", "");
      var role := StringField(v.fields, "role", "");
      if path.None? || op.None? || role.None? then None
      else Some(RoleRule(path.value, op.value, AnyField(v.fields, "value"), role.value))
  }

  function DecodeAll<T>(vs: seq<Value>, decode: Value -> Option<T>): Option<seq<T>> {
    if vs == [] then Some([])
    else
      var x, rest := decode(vs[0]), DecodeAll(vs[1..], decode);
      if x.None? || rest.None? then None else Some([x.value] + rest.value)
  }

  /** Decoding a list over a nil slice: null leaves it nil. */
  function DecodeSlice<T>(v: Value, decode: Value -> Option<T>): Option<Slice<T>> {
    if v.Null? then Some(Nil)
    else if !v.Array? then None
    else
      var xs := DecodeAll(v.elems, decode);
      if xs.None? then None else Some(Elems(xs.value))
  }

  /** json.Unmarshal of a stored row over the default configuration. */
  function Decode(m: Row): Option<Config> {
    var db := StringField(m, DatabaseURL, DEFAULT.databaseURL);
    var issuer := StringField(m, IssuerURL, DEFAULT.issuerURL);
    var client := StringField(m, ClientID, DEFAULT.clientID);
    var secret := StringField(m, ClientSecret, DEFAULT.clientSecret);
    var scopes := StringField(m, Scopes, DEFAULT.scopes);
    var name := StringField(m, DisplayName, DEFAULT.displayName);
    var icon := StringField(m, IconURLPath, DEFAULT.iconURLPath);
    var filters := DecodeSlice(AnyField(m, ClaimFilters), DecodeFilter);
    var roles := DecodeSlice(AnyField(m, ClaimRoleMapping), DecodeRole);
    var verified := BoolField(m, EmailVerifiedRequired, DEFAULT.emailVerifiedRequired);
    var link := BoolField(m, LinkByEmail, DEFAULT.linkByEmail);
    if db.None? || issuer.None? || client.None? || secret.None? || scopes.None? || name.None? || icon.None?
       || filters.None? || roles.None? || verified.None? || link.None?
    then None
    else Some(Config(db.value, issuer.value, client.value, secret.value, scopes.value, name.value, icon.value,
                     filters.value, roles.value, verified.value, link.value))
  }

  lemma {:induction false} DecodeAllInverts<T>(xs: seq<T>, vs: seq<Value>, decode: Value -> Option<T>)
    requires |vs| == |xs| && forall i :: 0 <= i < |xs| ==> decode(vs[i]) == Some(xs[i])
    ensures DecodeAll(vs, decode) == Some(xs)
  {
    if xs != [] {
      DecodeAllInverts(xs[1..], vs[1..], decode);
      assert xs == [xs[0]] + xs[1..];
    }
  }

  /** The text under a key: a string, or the default where there is nothing or null. */
  ghost predicate Reads<K>(m: map<K, Value>, key: K, t: string, default: string) {
    (key in m && m[key] == String(t)) || ((key in m ==> m[key] == Null) && t == default)
  }

  ghost predicate ReadsFlag(m: Row, key: Field, b: bool, default: bool) {
    (key in m && m[key] == Bool(b)) || ((key in m ==> m[key] == Null) && b == default)
  }

  ghost predicate ReadsAny<K>(m: map<K, Value>, key: K, v: Value) {
    if key in m then m[key] == v else v == Null
  }

  /** Which JSON values are rules; any other fails to decode. */
  lemma DecodeRuleIff(v: Value, f: ClaimFilter, r: RoleRule)
    ensures DecodeFilter(v) == Some(f) <==>
              || (v == Null && f == ClaimFilter("", "", Null))
              || (v.Obj? && Reads(v.fields, "claim_path", f.path, "") && Reads(v.fields, "operator", f.op, "")
                  && ReadsAny(v.fields, "value", f.value))
    ensures DecodeRole(v) == Some(r) <==>
              || (v == Null && r == RoleRule("", "", Null, ""))
              || (v.Obj? && Reads(v.fields, "claim_path", r.path, "") && Reads(v.fields, "operator", r.op, "")
                  && ReadsAny(v.fields, "value", r.value) && Reads(v.fields, "role", r.role, ""))
  {
  }

  lemma {:induction false} DecodeAllIff<T>(vs: seq<Value>, decode: Value -> Option<T>, xs: seq<T>)
    ensures DecodeAll(vs, decode) == Some(xs)
            <==> |xs| == |vs| && forall i :: 0 <= i < |vs| ==> decode(vs[i]) == Some(xs[i])
  {
    if vs != [] && xs != [] {
      DecodeAllIff(vs[1..], decode, xs[1..]);
      assert xs == [xs[0]] + xs[1..];
      assert forall i :: 0 < i < |vs| ==> vs[i] == vs[1..][i - 1];
      assert forall i :: 0 < i < |xs| ==> xs[i] == xs[1..][i - 1];
      if |xs| == |vs| && forall i :: 0 <= i < |vs| ==> decode(vs[i]) == Some(xs[i]) {
        assert forall i :: 0 <= i < |vs| - 1 ==> decode(vs[1..][i]) == Some(xs[1..][i]);
      }
    }
  }

  /** null is the nil list, an array the list of its decoded elements, and nothing else is a list. */
  lemma DecodeSliceIff<T>(v: Value, decode: Value -> Option<T>, xs: Slice<T>)
    ensures DecodeSlice(v, decode) == Some(xs) <==>
              || (v == Null && xs == Nil)
              || (v.Array? && xs.Elems? && |xs.elems| == |v.elems|
                  && forall i :: 0 <= i < |v.elems| ==> decode(v.elems[i]) == Some(xs.elems[i]))
  {
    if v.Array? && xs.Elems? { DecodeAllIff(v.elems, decode, xs.elems); }
  }

  /** What a stored row reads as: each setting as written, or its default where the row says nothing. */
  lemma DecodeIff(m: Row, c: Config)
    ensures Decode(m) == Some(c) <==>
              && Reads(m, DatabaseURL, c.databaseURL, "") && Reads(m, IssuerURL, c.issuerURL, "")
              && Reads(m, ClientID, c.clientID, "") && Reads(m, ClientSecret, c.clientSecret, "")
              && Reads(m, Scopes, c.scopes, "openid profile email")
              && Reads(m, DisplayName, c.displayName, "Sign in with OIDC")
              && Reads(m, IconURLPath, c.iconURLPath, "generic-key.svg")
              && DecodeSlice(if ClaimFilters in m then m[ClaimFilters] else Null, DecodeFilter)
                 == Some(c.claimFilters)
              && DecodeSlice(if ClaimRoleMapping in m then m[ClaimRoleMapping] else Null, DecodeRole)
                 == Some(c.claimRoleMapping)
              && ReadsFlag(m, EmailVerifiedRequired, c.emailVerifiedRequired, true)
              && ReadsFlag(m, LinkByEmail, c.linkByEmail, false)
  {
    forall key, t, keep ensures StringField(m, key, keep) == Some(t) <==> Reads(m, key, t, keep) {}
    forall key, b, keep ensures BoolField(m, key, keep) == Some(b) <==> ReadsFlag(m, key, b, keep) {}
    hide StringField, BoolField, DecodeSlice, Reads, ReadsFlag;
  }

  lemma FilterRoundTrip(f: ClaimFilter)
    ensures DecodeFilter(EncodeFilter(f)) == Some(f)
  {
  }

  lemma RoleRoundTrip(r: RoleRule)
    ensures DecodeRole(EncodeRole(r)) == Some(r)
  {
  }

  lemma FiltersRoundTrip(fs: Slice<ClaimFilter>)
    ensures DecodeSlice(EncodeSlice(fs, EncodeFilter), DecodeFilter) == Some(fs)
  {
    hide DecodeFilter, EncodeFilter;
    if fs.Elems? {
      forall f ensures DecodeFilter(EncodeFilter(f)) == Some(f) { FilterRoundTrip(f); }
      DecodeAllInverts(fs.elems, EncodeSlice(fs, EncodeFilter).elems, DecodeFilter);
    }
  }

  lemma RolesRoundTrip(rs: Slice<RoleRule>)
    ensures DecodeSlice(EncodeSlice(rs, EncodeRole), DecodeRole) == Some(rs)
  {
    hide DecodeRole, EncodeRole;
    if rs.Elems? {
      forall r ensures DecodeRole(EncodeRole(r)) == Some(r) { RoleRoundTrip(r); }
      DecodeAllInverts(rs.elems, EncodeSlice(rs, EncodeRole).elems, DecodeRole);
    }
  }

  lemma TextRoundTrip(cfg: Config)
    ensures var m := Encode(cfg);
            && StringField(m, DatabaseURL, DEFAULT.databaseURL) == Some(cfg.databaseURL)
            && StringField(m, IssuerURL, DEFAULT.issuerURL) == Some(cfg.issuerURL)
            && StringField(m, ClientID, DEFAULT.clientID) == Some(cfg.clientID)
            && StringField(m, ClientSecret, DEFAULT.clientSecret) == Some(cfg.clientSecret)
            && StringField(m, Scopes, DEFAULT.scopes) == Some(cfg.scopes)
            && StringField(m, DisplayName, DEFAULT.displayName) == Some(cfg.displayName)
            && StringField(m, IconURLPath, DEFAULT.iconURLPath) == Some(cfg.iconURLPath)
  {
    hide EncodeSlice;
  }

  lemma FlagsRoundTrip(cfg: Config)
    ensures BoolField(Encode(cfg), EmailVerifiedRequired, DEFAULT.emailVerifiedRequired)
            == Some(cfg.emailVerifiedRequired)
    ensures BoolField(Encode(cfg), LinkByEmail, DEFAULT.linkByEmail) == Some(cfg.linkByEmail)
  {
    hide EncodeSlice;
  }

  lemma RulesStored(cfg: Config)
    ensures AnyField(Encode(cfg), ClaimFilters) == EncodeSlice(cfg.claimFilters, EncodeFilter)
    ensures AnyField(Encode(cfg), ClaimRoleMapping) == EncodeSlice(cfg.claimRoleMapping, EncodeRole)
  {
    hide EncodeSlice;
  }

  lemma AllWritten(cfg: Config)
    ensures forall f :: f in Encode(cfg)
  {
    hide EncodeSlice;
    forall f ensures f in Encode(cfg) {
      assert f.DatabaseURL? || f.IssuerURL? || f.ClientID? || f.ClientSecret? || f.Scopes? || f.DisplayName?
          || f.IconURLPath? || f.ClaimFilters? || f.ClaimRoleMapping? || f.EmailVerifiedRequired? || f.LinkByEmail?;
    }
  }

  /** Reading back a stored configuration gives the same configuration, nil and empty lists kept apart. */
  lemma StoredRoundTrip(cfg: Config)
    ensures Decode(Encode(cfg)) == Some(cfg)
    ensures forall f :: f in Encode(cfg)
  {
    AllWritten(cfg);
    TextRoundTrip(cfg);
    FlagsRoundTrip(cfg);
    FiltersRoundTrip(cfg.claimFilters);
    RolesRoundTrip(cfg.claimRoleMapping);
    RulesStored(cfg);
    hide Encode, EncodeSlice, DecodeSlice, StringField, BoolField, AnyField;
  }

  /** The row a migration creates reads as the default configuration. */
  lemma EmptyRowIsDefault()
    ensures Decode(map[]) == Some(DEFAULT)
  {
  }
}
