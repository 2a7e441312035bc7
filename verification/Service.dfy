/** The configuration life cycle and the login decision together. */
module Service {
  import opened Basics
  import Json
  import Claims
  import Config
  import Login
  import Store
  import Plugin

  /**
   In every state the configuration life cycle can reach, a login that a provider makes possible
   is decided under an acceptable configuration: its role is user or admin, and a link flag in its
   claims means that a verified, non-empty email was mandatory and given by the id_token, unless the
   identity provider itself sent a claim of that name.
   */
  lemma {:induction false} LoginsUnderLiveConfig(ck: Config.Checks, rx: Claims.Engine, s: Plugin.State,
                                                 events: seq<Plugin.Event>, idClaims: Json.Object,
                                                 userinfo: Option<Json.Object>)
    requires Plugin.Start(ck, s)
    ensures var t := Plugin.Run(ck, s, events);
            t.provider.Some? ==>
              && t.live.Some?
              && var r := Login.Decide(rx, t.live.value, idClaims, userinfo);
                 r.Ok? ==>
                   && Login.ROLE_KEY in r.value.claims
                   && r.value.claims[Login.ROLE_KEY] in {Json.String("user"), Json.String("admin")}
                   && (Login.LINK_KEY in r.value.claims ==>
                         || (t.live.value.emailVerifiedRequired && Claims.EmailVerified(idClaims)
                             && Json.StringAt(idClaims, "email") != "")
                         || Login.LINK_KEY in idClaims
                         || (userinfo.Some? && Login.LINK_KEY in userinfo.value))
  {
    Plugin.ConfigurationInvariant(ck, s, events);
    var t := Plugin.Run(ck, s, events);
    if t.provider.Some? && Login.Decide(rx, t.live.value, idClaims, userinfo).Ok? {
      Login.AttachedClaims(rx, ck, t.live.value, idClaims, userinfo);
    }
  }

  /**
   If no Configure call of a run leads to a database other than d, none but d is ever in use, and
   whenever a provider makes logins possible, d is in use.
   */
  lemma {:induction false} OneDatabaseInUse(ck: Config.Checks, s: Plugin.State, events: seq<Plugin.Event>,
                                            d: Store.DbId)
    requires Plugin.Start(ck, s)
    requires forall e :: e in events && e.Configure? ==> e.target.GetOr(d) == d
    ensures var t := Plugin.Run(ck, s, events);
            t.wired.GetOr(d) == d && (t.provider.Some? ==> t.wired == Some(d))
  {
    Plugin.ConfigurationInvariant(ck, s, events);
    if events != [] {
      hide Plugin.StepConfigure, Plugin.StepPatch;
      var n := |events| - 1;
      assert events[n] in events && forall e :: e in events[..n] ==> e in events;
      OneDatabaseInUse(ck, s, events[..n], d);
      WiredByConfigure(ck, Plugin.Run(ck, s, events[..n]), events[n]);
    }
  }

  /** Only a successful Configure call changes the database in use, to its target. */
  lemma WiredByConfigure(ck: Config.Checks, s: Plugin.State, e: Plugin.Event)
    ensures var (t, ok) := Plugin.Step(ck, s, e);
            t.wired == if e.Configure? && ok then e.target else s.wired
  {
    hide Store.Import, Config.ValidateConfig, Config.Loaded, Plugin.Patched;
  }
}
