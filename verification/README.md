# Verified model of the OIDC login plugin

This project models the OIDC login plugin for Silo and proves properties of that model: the keyed token-bucket
limiter in front of its endpoints, the one-time login protocol (`InitAuthorize`, `ExchangeCode`, `ConsumeNonce`), the
life cycle of its configuration (Configure, legacy import, admin patches), and the claim rules that decide a login.

`dafny verify dfyconfig.toml` checks everything. The files:

- `RateLimit` (the limiter as functions and runs), `RateSweep`, `RateAdmission`, `RateRetry` (what holds over runs),
  `RateExact` (exactly which calls are granted), `RateLimiter` (the object, and the size of its table).
- `Json`, `Claims` (paths, operators, filters, roles, identity), `Login` (gates, the decision, the simulator).
- `LoginProtocol` (interleaved calls as a step system, at most one login per flow), `LoginRace` (its conditions are
  exact), `LoginBounds` (table size, exchanges per peer, usable flows), `AuthServer` (the object, tied to the steps).
- `Config`, `Store`, `Plugin` (validation, loading, storing, the configuration state machine and its object),
  `Service` (configuration and login together). `Basics` holds shared definitions.

## How the model is built

- Times and durations are whole nanoseconds; tokens and rates are exact reals. Floating-point rounding, int64 overflow
  and the microsecond timestamps of Postgres are not part of this model.
- Code that updates state is a class with a method per operation, each proved equal to a function of the old state;
  the properties are proved of runs of those functions. A bucket is a value in the limiter's map, since nothing else
  holds a reference to it.
- What cannot be seen from here is a parameter that may be anything: the identity provider's answers (`Idp`), the
  regular-expression engine and `fmt.Sprint` (`Engine`), URL checks, regular-expression compilation and decoding a
  rule list over one already there (`Checks`), whether each database access succeeds (`Io`, `Db`), the clock readings,
  SHA-256 (`hash`). Nothing is assumed of any of them. Random values are non-empty and a nonce is not issued twice.
- The step system looks up the database in use anew for every call, as the source does. Its `Rewire` step is a
  successful Configure call; before the first one no database is in use and the replay guard is skipped.
- `hide` statements only make proofs cheaper: they take a definition away from the verifier, never add one.

## What turned out to be false of the code, and when exactly it holds

- The limiter's comment promises the time until the next token, rounded up to whole seconds. The wait is truncated to
  a nanosecond first, so a caller that comes back on time can be refused (`ShortHintExample`). It succeeds if and only
  if the exact wait is not within a nanosecond above a whole number of seconds (`RetryOnTimeIff`); for both deployed
  limiters that never happens (`DeployedRetryOnTime`).
- Sweeping idle buckets is invisible only if an idle time of ttl + 1ns, less the disorder of the timestamps, refills
  an empty bucket; for whole-number bursts that is an if and only if (`SweepTransparentIff`). Both deployed limiters
  qualify, up to eight minutes of disorder.
- The comments on the nonce table say that the stale check covers exactly what the table forgets. That leaves out the
  time between a call's stale check and its insertion, and it leaves out that Configure may move the table. Suppose
  each call of a flow inserts within a delay D of its check, consumes the nonce no sooner than G after the issue, and
  finds one of a set of databases in use. Then the flow logs in at most once, in all runs, if and only if D <= G and
  that set is a single database; or else D < G - stateTTL, so that no call passes at all (`OncePerFlowIff`).
  `LongerDelayBreaksIt` gives the run for every D > G on one database; `SwitchBreaksIt` gives the run for every G in
  which two calls pass without further delay, on either side of a switch, or before any database is in use (the first
  Configure publishes the provider before the store). With D <= G a flow still passes at most once per database
  (`OncePerDatabase`). A run in which Configure never leads elsewhere stays on one database (`SettledRunsWithin`,
  `OneDatabaseInUse`).
- The simulator's comment says that it cannot drift from the real gate. It does when only userinfo says that the
  email is verified (`SimulatorDriftExample`). It agrees under every configuration if and only if userinfo leaves the
  subject and the email-verified verdict of the id_token alone (`SimulatorFaithfulIff`).
- Live and persisted configuration agree exactly when no import has lost its read-back since the last successful call
  (`ConfigurationInvariant`).
- Complete provider settings can be lost: after such an import a patch that changes nothing replaces them by the live
  defaults (`LostReadBackUnconfigures`). They stay, over all runs, if and only if the process is not running on that
  database with incomplete live settings (`ProviderStaysConfiguredIff`).
- Repeating a Configure call can change the stored or the live configuration (`RepeatGoesLiveExample`). It does so
  exactly when the first attempt reported failure and the second finds something to do: settings to import that it
  can write, or readable settings that are not live. If both attempts meet the same database outcomes, that is
  exactly when the first lost the read-back of an import that was not live (`ConfigureRepeatIff`).
- Loading the entries that spell out a configuration need not give it back: white space around the issuer is trimmed,
  and an empty display name or icon keeps the default (`LoadRoundTripIff`).
- A userinfo answer whose `sub` is not a non-empty string makes a login succeed with an empty subject
  (`EmptySubjectExample`, and exactly then: `SubjectPinned`). A claim named `silo_link_by_email` sent by the identity
  provider is passed on (`ForeignLinkFlagExample`, `LinkFlagIff`).
- The repository's README says that a trailing slash of the issuer is stripped; the code keeps it
  (`TrailingSlashKept`).

## Model

| member | source | states |
|---|---|---|
| `RateLimit.New` | internal/ratelimit/ratelimit.go:40-54 | the ttl is ten minutes; a burst below 1 and a rate that is not positive become 1, others are kept |
| `RateLimit.DeployedForgetOnlyFull` | cmd/silo-plugin-oidc-login/main.go:66-67 | both deployed limiters forget only buckets that are full again, for timestamps up to eight minutes out of order |
| `RateLimiter.Limiter.constructor` | internal/ratelimit/ratelimit.go:40-54 | a new limiter is the start of a run |
| `RateLimiter.Limiter.Allow` | internal/ratelimit/ratelimit.go:59-95 | the object's answers and table are those of the run of all its calls so far |
| `RateLimiter.Limiter.SweepIdle` | internal/ratelimit/ratelimit.go:99-109 | the deleting loop is the sweep of the run |
| `RateLimiter.TableStaysBounded` | internal/ratelimit/ratelimit.go:10-11 | after every call each bucket was used less than two ttls ago and holds 0 to burst tokens; the table is no larger than the keys called in that time |
| `RateLimiter.SweepIff` | internal/ratelimit/ratelimit.go:99-109 | a sweep is due once per ttl; then exactly the buckets idle longer than the ttl go |
| `RateLimiter.SweepSpacing` | internal/ratelimit/ratelimit.go:97-109 | on a non-decreasing clock two calls that drop buckets lie at least a ttl apart |
| `RateSweep.SimulationOverRuns` | internal/ratelimit/ratelimit.go:64-109 | over every run, forgotten buckets are ones the reference limiter would refill to the brim |
| `RateSweep.SweepTransparency` | internal/ratelimit/ratelimit.go:59-109 | the sweeping limiter answers every run exactly as one that never deletes, also with timestamps out of order by up to a lag |
| `RateSweep.SweepTransparentIff` | internal/ratelimit/ratelimit.go:97-109 | for whole-number bursts, sweeping is invisible on all runs with that lag if and only if refilling for ttl + 1 - lag fills a bucket |
| `RateSweep.SweepVisible` | internal/ratelimit/ratelimit.go:97-109 | for any burst, if what a drained burst leaves, refilled for ttl + 1 - lag, does not pay for it again, some run with that lag shows the sweep |
| `RateSweep.FreshBurst` | internal/ratelimit/ratelimit.go:66-69 | a key without a bucket is granted a whole burst at once |
| `RateSweep.InstantBurst` | internal/ratelimit/ratelimit.go:81-84 | n calls at one instant are all granted exactly when the bucket holds n tokens |
| `RateSweep.KeyNonInterference` | internal/ratelimit/ratelimit.go:19-21 | a key's answers in any interleaved run are those of its own calls alone |
| `RateAdmission.ServeSpendsBudget` | internal/ratelimit/ratelimit.go:66-84 | no call raises what a key may still spend in a window, and a granted one lowers it by one |
| `RateAdmission.ReferenceAdmissionBound` | internal/ratelimit/ratelimit.go:66-84 | without deletions, in any stretch stamped within [a, b] in any order, a key is granted at most burst + rate * (b - a) |
| `RateAdmission.AdmissionBound` | internal/ratelimit/ratelimit.go:59-109 | the sweeping limiter, with stamps out of order by up to a lag, grants a key at most burst + rate * (b - a + lag) calls in any window of a run |
| `RateAdmission.StretchAdmissionBound` | internal/ratelimit/ratelimit.go:59-109 | in a stretch stamped within [a, b] throughout the lag costs nothing |
| `RateExact.AdmissionIff` | internal/ratelimit/ratelimit.go:59-109 | over every run with stamps out of order by up to a lag, a call is granted if and only if from every earlier instant on the grants and this one are paid for by a full bucket and what was earned since, each grant dated by the latest stamp its key had |
| `RateExact.OrderedAdmissionIff` | internal/ratelimit/ratelimit.go:59-84 | on a non-decreasing clock, a call at t is granted if and only if for every a its key's grants in [a, t], and this one, do not exceed burst + rate * (t - a) |
| `RateExact.DeployedAdmissionIff` | cmd/silo-plugin-oidc-login/main.go:63-67 | the same law in figures for both deployed limiters: ten at once and one per twelve seconds, twenty at once and one per second |
| `RateRetry.WaitBounds` | internal/ratelimit/ratelimit.go:85-94 | the hint is a positive whole number of seconds, less than 1ns too short and less than 1s too long; when it is short |
| `RateRetry.DenialHint` | internal/ratelimit/ratelimit.go:85-94 | every denial of every run hints at a positive whole number of seconds |
| `RateRetry.RetryOutcome` | internal/ratelimit/ratelimit.go:56-58 | a denied caller that comes back is granted exactly when it waited the exact refill time, whoever called meanwhile |
| `RateRetry.RetryGranted` | internal/ratelimit/ratelimit.go:56-58 | coming back 1ns after the hinted wait always succeeds |
| `RateRetry.RetryTooEarly` | internal/ratelimit/ratelimit.go:85-90 | coming back a second or more before the hinted time is always refused |
| `RateRetry.RetryOnTimeIff` | internal/ratelimit/ratelimit.go:56-58 | coming back exactly on time succeeds if and only if the hint is not short |
| `RateRetry.DeployedRetryOnTime` | cmd/silo-plugin-oidc-login/main.go:66-67 | for both deployed limiters coming back exactly on time always succeeds |
| `RateRetry.ShortHintExample` | internal/ratelimit/ratelimit.go:85-90 | a limiter that tells a caller to wait one second and refuses it one second later |
| `RateRetry.HeaderLosesNothing` | internal/admin/server.go:95-100 | the Retry-After header (section 10.2.3 of RFC 9110) carries exactly the limiter's wait |
| `Json.ResolvePath` | internal/claims/path.go:10-28 | the loop finds exactly what the recursive walk along the dotted path finds |
| `Json.ResolveComposes` | internal/claims/path.go:7-28 | resolving p.q is resolving p and then q inside the object found |
| `Json.ResolveKey` | internal/claims/path.go:14-26 | a path of one segment finds the value under that key, of whatever kind, and nothing when the key is absent |
| `Json.ResolveIff` | internal/claims/path.go:10-28 | any path finds a value exactly when a chain of objects leads to it along the path's segments |
| `Json.StringAtIff` | internal/claims/identity.go:17-19 | a text claim is read from a string only, and is empty otherwise |
| `Json.SplitJoin` | internal/claims/path.go:14 | splitting at dots undoes joining with dots |
| `Json.JoinSplit` | internal/claims/path.go:14 | joining with dots undoes splitting at dots |
| `Json.AcceptedPaths` | internal/runtime/runtime.go:345-361 | a path is accepted if and only if it is a dotted join of identifier-shaped segments |
| `Json.SegmentPath` | internal/runtime/runtime.go:343-361 | such a join is accepted and resolves to the walk along its segments |
| `Json.SegmentIff` | internal/runtime/runtime.go:343 | a segment is made of letters, digits, underscores and hyphens and starts with neither digit nor hyphen |
| `Json.FirstBadSegmentIs` | internal/runtime/runtime.go:352-359 | a refused path is refused for its first empty or misshapen segment |
| `Claims.OperatorStrength` | internal/claims/operator.go:13-71 | on string claims equals implies starts_with implies contains, and mutual containment is equality |
| `Claims.OperatorsOnArrays` | internal/claims/operator.go:27-98 | on array claims contains is equality with some element and regex holds of some string element; equals and starts_with never hold |
| `Claims.OperatorsOnStrings` | internal/claims/operator.go:29-98 | on string claims: equality, being a prefix, occurring anywhere, and matching the pattern, each in terms of the text |
| `Claims.OperatorsOnOthers` | internal/claims/operator.go:29-98 | on other claims: equality, or the pattern matching the printed form; contains and starts_with never |
| `Claims.UnknownOperator` | internal/claims/operator.go:10-24 | an unknown operator never holds |
| `Claims.MatchesIff` | internal/claims/eval.go:17-25 | a rule matches exactly when its path finds a claim that satisfies its operator |
| `Claims.FiltersConjunction` | internal/claims/eval.go:13-27 | the short-circuiting gate passes exactly when every filter matches |
| `Claims.FiltersReorder` | internal/claims/eval.go:13-27 | the result does not depend on the order of the filters and splits over concatenation |
| `Claims.TraceFilters` | internal/claims/eval.go:52-72 | every filter is traced faithfully, and the overall flag is the gate's |
| `Claims.RoleIsFirstMatch` | internal/claims/eval.go:76-87 | the least matching rule decides, none means user and -1 |
| `Claims.RoleAppend` | internal/claims/eval.go:29-35 | rules after a match change nothing; after no match they alone decide |
| `Claims.DeriveIdentity` | internal/claims/identity.go:16-35 | subject and email as in the claims, display name by the order of preference |
| `Claims.IdentityOf` | internal/claims/identity.go:13-35 | subject and email are those claims, and the display name is empty only when all four claims it may come from are |
| `Claims.DisplayName` | internal/claims/identity.go:20-33 | the display name is the name, else given and family name with a space between, else the one of them that is there, else the email |
| `Login.StampKeepsIdentity` | internal/auth/server.go:335-344 | writing the silo_ keys does not change the identity derived from the claims |
| `Login.GateIff` | internal/auth/server.go:182-233 | a callback gets past the checks exactly when a provider exists, verifier and nonce are given, it is at most ten minutes old or undated, and state and redirect_uri match where stashed; a refusal names the first check that fails |
| `Login.FinishIff` | internal/auth/server.go:262-290 | which answers of the identity provider reach the decision, and the error for each of the others |
| `Login.DecisionIff` | internal/auth/server.go:299-334 | a login succeeds exactly when the id_token has a subject, userinfo names no other, a required email is verified by the id_token, and every filter finds a satisfying claim in the merged claims; a refusal names the first of these that fails |
| `Login.ReturnedClaims` | internal/auth/server.go:292-356 | every returned claim but the plugin's two is userinfo's where userinfo has it, else the id_token's; the identity is read from the returned claims |
| `Login.ReturnedRole` | internal/auth/server.go:335-342 | the returned role is that of the first rule matching the merged claims, or user; an earned link flag is true, any other is the provider's own |
| `Login.SubjectPinned` | internal/auth/server.go:281-315 | a successful login was verified under the stashed nonce and returns the id_token's subject, or the empty one exactly when userinfo blanks it (section 5.3.2 of OpenID Connect Core 1.0) |
| `Login.AttachedClaims` | internal/auth/server.go:335-342 | under an accepted configuration silo_role is user or admin whatever the claims said, besides the exact presence of the link flag |
| `Login.LinkFlagIff` | internal/auth/server.go:336-342 | under any configuration the link flag is returned exactly when the id_token earned it or the identity provider sent a claim of that name |
| `Login.EmptySubjectExample` | internal/auth/server.go:307-313 | a login that succeeds with an empty subject because userinfo sent an empty one |
| `Login.ForeignLinkFlagExample` | internal/auth/server.go:311-342 | a login that returns a link flag only userinfo sent, with linking switched off |
| `Login.SimulatorDriftExample` | internal/admin/server.go:415-419 | claims the simulator lets through and the login refuses |
| `Login.UserinfoNonInterference` | internal/auth/server.go:317-329 | userinfo changes neither the email-verified verdict nor the offer to link |
| `Login.SimulateClaims` | internal/admin/server.go:389-443 | the simulator's verdict, role, identity, email check and the trace of every filter, under saved or unsaved rules |
| `Login.SimulatorFaithfulIff` | internal/admin/server.go:413-426 | simulator and login agree under every configuration if and only if userinfo leaves subject and email-verified verdict alone |
| `Login.SimulatorShowsResponse` | internal/admin/server.go:421-442 | for a login that succeeds the simulator shows the same role, subject, email and name |
| `LoginProtocol.StepKeepsInv` | internal/auth/server.go:187-248 | every step of interleaved calls, prunes and database switches keeps the invariant that ties each database's nonce rows to passed calls |
| `LoginProtocol.NonceSpacing` | internal/store/store.go:111-132 | over every run, two passes with one nonce on one database lie further apart than the retention the first one set |
| `LoginProtocol.TwoPassesMeanDelay` | internal/store/store.go:101-108 | two passes of one flow on one database mean a delay from stale check to insertion longer than the gap from issue to consumption |
| `LoginProtocol.OncePerDatabase` | cmd/silo-plugin-oidc-login/main.go:72-78 | over every interleaving of calls, prunes, ticks and database switches, a flow whose own calls insert within a delay no longer than its time from issue to consumption passes at most once on each database |
| `LoginProtocol.AtMostOneLogin` | internal/auth/server.go:235-248 | hence such a flow passes no more often than there are databases in use during its calls, and at most once if that is a single one, whatever other flows do |
| `LoginProtocol.SettledRunsWithin` | cmd/silo-plugin-oidc-login/main.go:72-78 | in a run whose first step puts a database in use and that never switches to another, every call finds that one |
| `LoginProtocol.LoginsBoundedByFlows` | internal/auth/server.go:145-155 | if every issued flow keeps to a time bound and a database of its own, the logins of issued flows are no more than the InitAuthorize calls |
| `LoginRace.LongerDelayBreaksIt` | internal/auth/server.go:201-208 | for every gap and every longer delay there is a run on one database with two passes of one flow that keeps to those bounds |
| `LoginRace.SwitchBreaksIt` | cmd/silo-plugin-oidc-login/main.go:72-78 | for every gap there is a run with two passes of one flow, without any delay beyond what the gap forces, on two databases or on none |
| `LoginRace.OncePerFlowIff` | internal/auth/server.go:235-248 | bounds on the delay and the gap of a flow's calls and on the databases they find in use make it log in at most once in all runs if and only if the delay does not exceed the gap and there is a single database, or no call can meet the bounds |
| `LoginBounds.TableStaysBounded` | internal/store/store.go:117-119 | right after a prune of a database every row belongs to a call that passed on it within the last stateTTL, so those calls bound the table; later it is larger by at most the number of insertions since, one at the end of an undisturbed call |
| `LoginBounds.ExchangesBounded` | internal/auth/server.go:169-178 | over every run, the token exchanges for one peer's calls of a window number at most 10 plus 5 per minute, the window lengthened by the disorder of the stamps |
| `LoginBounds.FlowStaysUsable` | internal/auth/server.go:187-248 | from every reachable state an honest callback of an issued flow passes exactly when the limiter admits it, the flow is not stale and the database in use holds no unexpired row of its nonce's hash; there is none if no nonce of that hash has passed there |
| `LoginBounds.LoginsVerified` | internal/auth/server.go:261-290 | over every run, a call that ended in a login had passed all checks when checked, and its id_token was verified under the nonce that very call consumed |
| `LoginBounds.IssueOpensGate` | internal/auth/server.go:145-155 | a newly issued provider_state passes the checks exactly for ten minutes and with its own state and redirect_uri |
| `LoginBounds.LimiterKeyIff` | internal/auth/server.go:376-383 | two callers share a bucket exactly when they have the same address or both have none (the literal address unknown counts as none) |
| `AuthServer.Overlay` | internal/auth/server.go:295-313 | the copying loop yields the union in which the later claims win |
| `AuthServer.DecideClaims` | internal/auth/server.go:295-356 | the imperative decision is the function the login properties are about |
| `AuthServer.Server.constructor` | internal/auth/server.go:76-93 | a server starts without a store |
| `AuthServer.Server.InitAuthorize` | internal/auth/server.go:109-156 | fails without a provider or without entropy; the provider_state it issues passes the checks exactly within stateTTL and with matching state and redirect_uri (sections 4.1.3 and 10.12 of RFC 6749) |
| `AuthServer.Server.ExchangeCode` | internal/auth/server.go:166-357 | a denied call touches no row; an admitted one has the effect and the result of checks, replay guard and decision in that order |
| `AuthServer.CallIsSteps` | internal/auth/server.go:187-357 | a call of the step system, at any times in order and including its admission, has the effect on log and rows and the reply that ExchangeCode promises, whichever database is in use or none |
| `Config.TrimSpaceStrips` | internal/runtime/runtime.go:149 | trimming removes the surrounding white space and nothing else |
| `Config.FirstField` | internal/runtime/runtime.go:330-337 | scopes are split into their words |
| `Config.FieldsIff` | internal/runtime/runtime.go:330-337 | the scopes are exactly the words that stand between white space or the ends of the text |
| `Config.SpaceIff` | internal/runtime/runtime.go:149 | which code points count as white space |
| `Config.ValidateConfigIff` | internal/runtime/runtime.go:199-268 | a configuration is accepted if and only if it is well formed |
| `Config.RefusalNamesFirstFault` | internal/runtime/runtime.go:199-268 | a refusal names a fault that is there, all checks before it having passed |
| `Config.RuleFaults` | internal/runtime/runtime.go:226-266 | so does the refusal of a single filter or role rule |
| `Config.IconAllowedIff` | internal/runtime/runtime.go:25-34 | the bundled icons by name; others are up to the URL rules |
| `Config.FirstBadFilter` | internal/runtime/runtime.go:226-244 | the reported filter is the first bad one, with its own error |
| `Config.FirstBadRole` | internal/runtime/runtime.go:245-266 | the reported role rule is the first bad one, with its own error |
| `Config.DefaultWellFormed` | internal/store/store.go:53-60 | the default configuration is accepted |
| `Config.LoadConfig` | internal/runtime/runtime.go:124-197 | the loop over entries is the fold, and what it returns is well formed |
| `Config.LoadedIff` | internal/runtime/runtime.go:124-197 | loading succeeds exactly with what the entries build from the defaults, if that is well formed |
| `Config.LoadAppend` | internal/runtime/runtime.go:132-191 | entries take effect one after the other |
| `Config.TextEntries` | internal/runtime/runtime.go:140-166 | what an entry of each text setting does, whatever its value |
| `Config.OtherEntries` | internal/runtime/runtime.go:167-190 | flags take booleans only; a rule list that does not decode ends the loading |
| `Config.IgnoredEntries` | internal/runtime/runtime.go:133-139 | entries without a value or of an unknown key change nothing |
| `Config.LoadRoundTripIff` | internal/runtime/runtime.go:132-197 | an accepted configuration is loaded back from the entries that spell it out if and only if its issuer is trimmed and its display name and icon are not empty |
| `Config.TrailingSlashKept` | internal/runtime/runtime.go:142-149 | the issuer is kept as given, a trailing slash included |
| `Config.BareLoadIsDefault` | internal/runtime/runtime.go:124-130 | with only a database URL the loaded settings are the stored defaults |
| `Config.StoredRoundTrip` | internal/store/store.go:74-87 | every setting is stored, and reading back a stored configuration gives it back, nil and empty lists kept apart |
| `Config.DecodeIff` | internal/store/store.go:74-80 | what any stored row reads as: each setting as written, its default where absent or null, and an error for another kind |
| `Config.DecodeRuleIff` | internal/runtime/runtime.go:38-51 | which JSON values are filters and role rules |
| `Config.DecodeSliceIff` | internal/runtime/runtime.go:167-182 | null is the nil list, an array the list of its decoded elements, nothing else a list |
| `Store.Store.constructor` | internal/store/store.go:27 | a new database holds neither a row nor a nonce |
| `Store.Store.Migrate` | internal/store/store.go:29-37 | creates the configuration row only where there is none |
| `Store.Store.GetConfig` | internal/store/store.go:62-81 | reads the row over the defaults, creating it if absent |
| `Store.Store.UpdateConfig` | internal/store/store.go:83-99 | writes exactly the well-formed configurations, which then read back unchanged |
| `Store.Store.ImportLegacyConfig` | internal/store/store.go:134-150 | the host's settings are taken over only where the stored ones are the defaults |
| `Store.Store.ConsumeNonce` | internal/store/store.go:111-132 | prunes expired rows, then inserts the nonce's hash unless it is there |
| `Store.ConsumeIff` | internal/store/store.go:117-131 | a nonce is fresh exactly when no unpruned row has its hash; which rows remain, and with which expiry |
| `Plugin.PatchLaws` | internal/admin/server.go:153-187 | a patch that mentions nothing keeps every setting, one that mentions everything replaces all but with an empty secret, and patching twice is patching once |
| `Plugin.OneSettingPatches` | internal/admin/server.go:153-187 | a patch of one setting changes that one alone, trimmed where it is text other than the secret; an empty secret changes nothing |
| `Plugin.PatchInAnyOrder` | internal/admin/server.go:153-187 | a patch is its one-setting patches made one after the other in any order |
| `Plugin.PatchConfig` | internal/admin/server.go:153-187 | overwriting field by field gives the patched configuration those laws are about |
| `Plugin.Process.constructor` | cmd/silo-plugin-oidc-login/main.go:52-59 | a process starts unconfigured |
| `Plugin.Process.ApplyConfig` | cmd/silo-plugin-oidc-login/main.go:97-137 | the live settings change together, and a failed discovery leaves no provider |
| `Plugin.Process.Configure` | internal/runtime/runtime.go:99-113 | a Configure call is the Configure step of the state machine |
| `Plugin.Process.OnConfigure` | cmd/silo-plugin-oidc-login/main.go:139-209 | the callback imports into the target database, applies what is stored there and wires it, or leaves the live settings alone |
| `Plugin.Process.ImportInto` | cmd/silo-plugin-oidc-login/main.go:155-164 | only the target database changes, by exactly the import |
| `Plugin.Process.UpdateConfig` | cmd/silo-plugin-oidc-login/main.go:185-194 | an admin patch is the patch step of the state machine |
| `Plugin.StepKeepsInv` | cmd/silo-plugin-oidc-login/main.go:139-209 | every call keeps the invariant, and afterwards live and persisted agree exactly when the call succeeded, or they agreed before and no read-back was lost |
| `Plugin.ConfigureOutcome` | cmd/silo-plugin-oidc-login/main.go:139-169 | when a Configure call succeeds, what it stores, and what becomes live, from the stored settings, the wanted ones and the database outcomes |
| `Plugin.PatchOutcome` | cmd/silo-plugin-oidc-login/main.go:185-194 | an admin patch succeeds exactly when a database is wired, the patched live settings are well formed and the write succeeds; then they are live and stored, otherwise nothing changes |
| `Plugin.ProviderAfterCall` | cmd/silo-plugin-oidc-login/main.go:97-137 | after a successful call a provider exists exactly when the live settings are complete and discovery worked, and a failure is on record exactly when they are complete and it did not |
| `Plugin.ConfigurationInvariant` | cmd/silo-plugin-oidc-login/main.go:97-209 | over every run the live configuration is well formed, it equals the persisted one exactly when no read-back was lost since the last successful call, and a provider exists exactly when it is complete and that call's discovery worked, built from exactly the live settings |
| `Plugin.ConfigureKeepsNonDefault` | internal/store/store.go:139-141 | a stored configuration that is not the default one is changed by no Configure call |
| `Plugin.ProviderStaysConfiguredIff` | internal/admin/server.go:161-165 | complete stored provider settings stay complete over every run, whatever fails in it, if and only if the process is not running on that database with settings that configure no provider |
| `Plugin.LostReadBackUnconfigures` | internal/store/store.go:146-149 | whatever complete settings the host sends, there is a run in which their import loses its read-back and a patch that changes nothing replaces them by the defaults |
| `Plugin.ImportOnlyOverDefaults` | internal/store/store.go:134-150 | over every run of Configure calls a stored non-default configuration never changes |
| `Plugin.ConfigureIdempotent` | cmd/silo-plugin-oidc-login/main.go:159-169 | repeating a Configure call that succeeded changes neither the stored rows nor the live configuration, whatever fails the second time |
| `Plugin.ConfigureRepeatIff` | cmd/silo-plugin-oidc-login/main.go:159-169 | repeating a Configure call, with any database outcomes both times, changes neither, except exactly when the first attempt failed and the second finds something to import or to make live; with the same outcomes, exactly when the first lost the read-back of an import that was not live |
| `Plugin.RepeatGoesLiveExample` | internal/store/store.go:146-149 | two first Configure calls that fail, one on the read-back and one on the write, and whose repetition makes the imported settings live |
| `Plugin.ExplicitEmptyListEndsImports` | internal/store/store.go:139-145 | an explicitly empty filter list counts as non-default and ends all later imports |
| `Service.LoginsUnderLiveConfig` | internal/auth/server.go:335-342 | over every configuration run each login's role is user or admin, and a link flag in its claims means a mandatory, verified, non-empty email of the id_token, or a claim the identity provider itself sent |
| `Service.OneDatabaseInUse` | cmd/silo-plugin-oidc-login/main.go:139-169 | over every configuration run whose Configure calls lead to one database, no other is ever in use, and it is in use whenever a provider exists |

## Left out

- OIDC discovery, JWKS, signature checks, token and userinfo requests, PKCE challenges and the authorize URL: they belong to other libraries; their results may be anything here.
- URL rules for issuer, icon and fetched URLs, and the dialer that refuses private addresses: arbitrary predicates here.
- Interleavings inside Configure and admin patches, and lost updates between concurrent patches: each is one step.
- Writes that take effect although the database reports a failure: a failed access is one that changed nothing.
- JSON text: objects are maps, so case-insensitive or repeated keys and malformed bodies are not represented; turning the merged claims into a protobuf struct always succeeds.
- The runtime server's own copy of the loaded configuration (`Snapshot`), the manifest, routing, the web pages, audit lines and deriving a peer address from the connection: no property here depends on them.
- LoginBounds.ExchangesBounded: a call waits at most `lag`, up to eight minutes, between reading the clock and taking the limiter's lock; the source sets no limit.
- LoginProtocol.LoginsBoundedByFlows: counts calls whose nonce an InitAuthorize call issued; a callback may carry any nonce, and for others only `NonceSpacing` holds.
- LoginProtocol.AtMostOneLogin: speaks of calls that carry a provider_state as issued; a callback that leaves out `issued_at` skips the stale check, and only `NonceSpacing` bounds it.
- RateSweep.SweepTransparentIff: is stated for whole-number bursts, as both deployed limiters have; for other bursts `SweepTransparency` and `SweepVisible` give a sufficient condition each way, with bursts between them where a difference of less than one token would have to be followed through later waits.
- AuthServer.Server.ExchangeCode: with no store wired the replay guard is skipped, as in the source, and no one-time property applies to such a call; `SwitchBreaksIt` shows it.
