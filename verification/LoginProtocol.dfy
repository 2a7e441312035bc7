/**
 The one-time login protocol as a step system. Any number of ExchangeCode calls run interleaved:
 each passes the rate limiter, is checked, stamps the expiry of its nonce row, looks up the database
 in use, inserts the row there, and finally hears from the identity provider. Prunes, clock ticks
 and switches to another database happen at any time.
 */
module LoginProtocol {
  import opened Basics
  import opened Claims
  import opened Config
  import opened Store
  import opened RateLimit
  import opened Login

  type CallId = int

  datatype Phase =
    | Admitted
    | Checked(checkedAt: int)
    | Stamped(checkedAt: int, stampedAt: int)
    | Resolved(checkedAt: int, stampedAt: int, store: Option<DbId>)
    | Passed(checkedAt: int, stampedAt: int, store: Option<DbId>, insertedAt: int,
             outcome: Option<Result<Response, Error>>)
    | Rejected(error: Error)

  /** One admitted ExchangeCode call. */
  datatype Callback = Callback(peer: string, admittedAt: int, req: Request, phase: Phase)

  /** `wired` is the database in use, none before the first Configure; `tables` holds each one's nonce rows. */
  datatype World = World(
    clock: int,
    history: seq<Call>,
    wired: Option<DbId>,
    tables: map<DbId, map<Digest, int>>,
    issued: map<string, ProviderState>,
    calls: map<CallId, Callback>)

  datatype Event =
    | Tick(ns: nat)
    | Issue(verifier: string, nonce: string, state: string, redirectURI: string)
    | Admit(id: CallId, peer: string, req: Request, stamp: int)
    | Check(id: CallId, providerReady: bool)
    | Stamp(id: CallId)
    | Resolve(id: CallId)
    | Prune(store: Option<DbId>)
    | Insert(id: CallId, ok: bool)
    | Conclude(id: CallId, cfg: Config, idp: Idp)
    | Rewire(db: DbId)

  /** The hash and the claim engine in use, and how long a call may wait for the limiter's lock. */
  datatype System = System(hash: string -> Digest, rx: Engine, lag: nat)

  /** Callers without an address share one bucket. */
  function LimiterKey(peer: string): string {
    "exchange:" + if peer == "" then "unknown" else peer
  }

  function Rows(s: World, d: DbId): map<Digest, int> {
    if d in s.tables then s.tables[d] else map[]
  }

  function WithRows(s: World, d: DbId, rows: map<Digest, int>): World {
    s.(tables := s.tables[d := rows])
  }

  function Advance(s: World, id: CallId, phase: Phase): World
    requires id in s.calls
  {
    s.(calls := s.calls[id := s.calls[id].(phase := phase)])
  }

  /** One step; an event that does not apply in s changes nothing. */
  function Next(sys: System, s: World, e: Event): World {
    match e
    case Tick(ns) => s.(clock := s.clock + ns)
    case Issue(verifier, nonce, state, redirectURI) =>
      // InitAuthorize: verifier and nonce are fresh random values.
      if verifier == "" || nonce == "" || nonce in s.issued then s
      else s.(issued := s.issued[nonce := ProviderState(verifier, nonce, state, redirectURI, Some(s.clock))])
    case Admit(id, peer, req, stamp) =>
      // The limiter reads the clock before it takes its lock, so stamps may arrive out of order.
      if id in s.calls || !(s.clock - sys.lag <= stamp <= s.clock) then s
      else
        var c := Call(LimiterKey(peer), stamp);
        var s1 := s.(history := s.history + [c]);
        if Allow(EXCHANGE, Final(EXCHANGE, s.history), c).1.ok
        then s1.(calls := s.calls[id := Callback(peer, stamp, req, Admitted)])
        else s1
    case Check(id, providerReady) =>
      if id !in s.calls || !s.calls[id].phase.Admitted? then s
      else
        var refused := Gate(providerReady, s.calls[id].req, s.clock);
        Advance(s, id, if refused.Some? then Rejected(refused.value) else Checked(s.clock))
    case Stamp(id) =>
      if id !in s.calls || !s.calls[id].phase.Checked? then s
      else Advance(s, id, Phase.Stamped(s.calls[id].phase.checkedAt, s.clock))
    case Resolve(id) =>
      if id !in s.calls || !s.calls[id].phase.Stamped? then s
      else Advance(s, id, Resolved(s.calls[id].phase.checkedAt, s.calls[id].phase.stampedAt, s.wired))
    case Prune(store) =>
      if store.None? then s else WithRows(s, store.value, Unexpired(Rows(s, store.value), s.clock))
    case Insert(id, ok) =>
      if id !in s.calls || !s.calls[id].phase.Resolved? then s
      else
        var c := s.calls[id];
        var h, store := sys.hash(c.req.provider.nonce), c.phase.store;
        var passed := Passed(c.phase.checkedAt, c.phase.stampedAt, store, s.clock, None);
        // Without a database the guard is skipped.
        if store.None? then Advance(s, id, passed)
        else if !ok then Advance(s, id, Rejected(ReplayCheckFailed))
        else if h in Rows(s, store.value) then Advance(s, id, Rejected(ReplayedNonce))
        else
          var rows := Rows(s, store.value)[h := c.phase.stampedAt + STATE_TTL];
          Advance(WithRows(s, store.value, rows), id, passed)
    case Conclude(id, cfg, idp) =>
      if id !in s.calls || !s.calls[id].phase.Passed? || s.calls[id].phase.outcome.Some? then s
      else
        var c := s.calls[id];
        Advance(s, id, c.phase.(outcome := Some(Finish(sys.rx, cfg, c.req.provider.nonce, idp))))
    case Rewire(db) => s.(wired := Some(db))
  }

  const START: World := World(0, [], None, map[], map[], map[])

  function Run(sys: System, events: seq<Event>): World {
    if events == [] then START
    else Next(sys, Run(sys, events[..|events| - 1]), events[|events| - 1])
  }

  // ---------------------------------------------------------------- invariant

  predicate HasPassed(s: World, id: CallId) {
    id in s.calls && s.calls[id].phase.Passed?
  }

  function NonceOf(s: World, id: CallId): string
    requires id in s.calls
  {
    s.calls[id].req.provider.nonce
  }

  /** A call past its checks did satisfy them when checked, and its times are in order. */
  ghost predicate CallOk(s: World, c: Callback) {
    match c.phase
    case Checked(t) => Gate(true, c.req, t).None? && t <= s.clock
    case Stamped(t, u) => Gate(true, c.req, t).None? && t <= u <= s.clock
    case Resolved(t, u, _) => Gate(true, c.req, t).None? && t <= u <= s.clock
    case Passed(t, u, _, v, _) => Gate(true, c.req, t).None? && t <= u <= v <= s.clock
    case _ => true
  }

  /** The database that a passed call left its row in, none if it was not guarded. */
  function StoreOf(s: World, id: CallId): Option<DbId>
    requires HasPassed(s, id)
  {
    s.calls[id].phase.store
  }

  /** The row of a nonce that passed is still there, or its retention is over. */
  ghost predicate Remembered(sys: System, s: World, id: CallId)
    requires HasPassed(s, id)
  {
    var expires := s.calls[id].phase.stampedAt + STATE_TTL;
    var h, store := sys.hash(NonceOf(s, id)), StoreOf(s, id);
    store.Some? ==> s.clock > expires || (h in Rows(s, store.value) && Rows(s, store.value)[h] == expires)
  }

  /** j inserted its row no earlier than i, and only after the retention i had set was over. */
  ghost predicate After(s: World, i: CallId, j: CallId)
    requires HasPassed(s, i) && HasPassed(s, j)
  {
    && s.calls[i].phase.insertedAt <= s.calls[j].phase.insertedAt
    && s.calls[j].phase.insertedAt > s.calls[i].phase.stampedAt + STATE_TTL
  }

  /** Two different calls have passed with one nonce on one database. */
  ghost predicate TwoPasses(s: World, i: CallId, j: CallId) {
    && HasPassed(s, i) && HasPassed(s, j) && i != j && NonceOf(s, i) == NonceOf(s, j)
    && StoreOf(s, i) == StoreOf(s, j) && StoreOf(s, i).Some?
  }

  ghost predicate Apart(s: World, i: CallId, j: CallId)
    requires HasPassed(s, i) && HasPassed(s, j)
  {
    After(s, i, j) || After(s, j, i)
  }

  /** The row of h in database d was left by call id. */
  ghost predicate Owns(sys: System, s: World, id: CallId, d: DbId, h: Digest)
    requires h in Rows(s, d)
  {
    && HasPassed(s, id) && StoreOf(s, id) == Some(d) && sys.hash(NonceOf(s, id)) == h
    && Rows(s, d)[h] == s.calls[id].phase.stampedAt + STATE_TTL
  }

  ghost predicate RowBacked(sys: System, s: World, d: DbId, h: Digest)
    requires h in Rows(s, d)
  {
    exists id :: Owns(sys, s, id, d, h)
  }

  ghost predicate Inv(sys: System, s: World) {
    && (forall id :: id in s.calls ==> CallOk(s, s.calls[id]))
    && (forall id :: HasPassed(s, id) ==> Remembered(sys, s, id))
    && (forall i, j :: TwoPasses(s, i, j) ==> Apart(s, i, j))
    && (forall d, h :: h in Rows(s, d) ==> RowBacked(sys, s, d, h))
    && (forall n :: n in s.issued ==> FlowOk(n, s.issued[n]))
  }

  ghost predicate FlowOk(nonce: string, ps: ProviderState) {
    ps.nonce == nonce && nonce != "" && ps.verifier != "" && ps.issuedAt.Some?
  }

  lemma GateNeedsProvider(providerReady: bool, req: Request, now: int)
    ensures Gate(providerReady, req, now).None? ==> providerReady
  {
  }

  lemma StepKeepsOneCallOk(sys: System, s: World, e: Event, id: CallId)
    requires id in s.calls ==> CallOk(s, s.calls[id])
    ensures var t := Next(sys, s, e); id in t.calls ==> CallOk(t, t.calls[id])
  {
    hide Allow, Final, Finish, Gate;
    if e.Check? && e.id == id && id in s.calls { GateNeedsProvider(e.providerReady, s.calls[id].req, s.clock); }
  }

  lemma StepKeepsCallOk(sys: System, s: World, e: Event)
    requires forall id :: id in s.calls ==> CallOk(s, s.calls[id])
    ensures var t := Next(sys, s, e); forall id :: id in t.calls ==> CallOk(t, t.calls[id])
  {
    hide Next, CallOk;
    forall id | id in Next(sys, s, e).calls ensures CallOk(Next(sys, s, e), Next(sys, s, e).calls[id]) {
      StepKeepsOneCallOk(sys, s, e, id);
    }
  }

  /** Nothing a passed call recorded is ever changed, except its outcome. */
  ghost predicate SamePassed(s: World, t: World, id: CallId) {
    && (HasPassed(t, id) <==> HasPassed(s, id))
    && (HasPassed(s, id) ==>
          t.calls[id] == s.calls[id].(phase := s.calls[id].phase.(outcome := t.calls[id].phase.outcome)))
  }

  lemma QuietStepKeepsPassed(sys: System, s: World, e: Event, id: CallId)
    requires !e.Insert?
    ensures SamePassed(s, Next(sys, s, e), id)
  {
    hide Allow, Final, Finish, Gate;
  }

  lemma QuietStepKeepsRows(sys: System, s: World, e: Event)
    requires !e.Insert?
    ensures var t := Next(sys, s, e);
            && s.clock <= t.clock
            && (forall d, h :: h in Rows(t, d) ==> h in Rows(s, d) && Rows(t, d)[h] == Rows(s, d)[h])
            && (forall d, h :: h in Rows(s, d) && h !in Rows(t, d) ==> Rows(s, d)[h] < t.clock)
  {
    hide Allow, Final, Finish, Gate;
  }

  lemma StepKeepsFlowOk(sys: System, s: World, e: Event)
    requires forall n :: n in s.issued ==> FlowOk(n, s.issued[n])
    ensures var t := Next(sys, s, e); forall n :: n in t.issued ==> FlowOk(n, t.issued[n])
  {
    hide Allow, Final, Finish, Gate;
  }

  /** The passed calls stay, time goes on, and only expired rows go. */
  ghost predicate Quiet(s: World, t: World) {
    && s.clock <= t.clock
    && (forall id :: SamePassed(s, t, id))
    && (forall d, h :: h in Rows(t, d) ==> h in Rows(s, d) && Rows(t, d)[h] == Rows(s, d)[h])
    && (forall d, h :: h in Rows(s, d) && h !in Rows(t, d) ==> Rows(s, d)[h] < t.clock)
  }

  lemma QuietKeepsInv(sys: System, s: World, t: World)
    requires Inv(sys, s) && Quiet(s, t)
    requires forall id :: id in t.calls ==> CallOk(t, t.calls[id])
    requires forall n :: n in t.issued ==> FlowOk(n, t.issued[n])
    ensures Inv(sys, t)
  {
    hide CallOk, FlowOk;
    forall id | HasPassed(t, id) ensures Remembered(sys, t, id) {
      assert SamePassed(s, t, id) && Remembered(sys, s, id);
    }
    forall d, h | h in Rows(t, d) ensures RowBacked(sys, t, d, h) {
      assert RowBacked(sys, s, d, h);
      var id :| Owns(sys, s, id, d, h);
      assert SamePassed(s, t, id) && Owns(sys, t, id, d, h);
    }
    forall i, j | TwoPasses(t, i, j) ensures Apart(t, i, j) {
      assert SamePassed(s, t, i) && SamePassed(s, t, j) && TwoPasses(s, i, j) && Apart(s, i, j);
    }
  }

  lemma QuietStep(sys: System, s: World, e: Event)
    requires !e.Insert?
    ensures Quiet(s, Next(sys, s, e))
  {
    hide Next;
    QuietStepKeepsRows(sys, s, e);
    forall id ensures SamePassed(s, Next(sys, s, e), id) { QuietStepKeepsPassed(sys, s, e, id); }
  }

  /** Call id has left its row where there was none, if a database is in use. */
  ghost predicate RowLeft(sys: System, s: World, t: World, id: CallId)
    requires HasPassed(t, id)
  {
    var h, store := sys.hash(NonceOf(t, id)), StoreOf(t, id);
    if store.None? then t.tables == s.tables
    else
      && h !in Rows(s, store.value)
      && t.tables
         == s.tables[store.value := Rows(s, store.value)[h := t.calls[id].phase.stampedAt + STATE_TTL]]
  }

  /** One more call has passed, and left its row. */
  ghost predicate OneMorePassed(sys: System, s: World, t: World, id: CallId) {
    && HasPassed(t, id) && !HasPassed(s, id) && RowLeft(sys, s, t, id)
    && t.clock == s.clock == t.calls[id].phase.insertedAt
    && forall k :: k != id ==> SamePassed(s, t, k)
  }

  lemma InsertStep(sys: System, s: World, e: Event)
    requires e.Insert?
    ensures var t := Next(sys, s, e); OneMorePassed(sys, s, t, e.id) || Quiet(s, t)
  {
    hide Allow, Final, Finish, Gate;
    var t := Next(sys, s, e);
    if HasPassed(t, e.id) && !HasPassed(s, e.id) {
      assert RowLeft(sys, s, t, e.id) && forall k :: k != e.id ==> SamePassed(s, t, k);
    } else {
      assert t.tables == s.tables && forall k :: SamePassed(s, t, k);
    }
  }

  /** All rows stay, and a new one is the call's own. */
  lemma RowLeftKeepsRows(sys: System, s: World, t: World, id: CallId)
    requires HasPassed(t, id) && RowLeft(sys, s, t, id)
    ensures forall d, h :: h in Rows(s, d) ==> h in Rows(t, d) && Rows(t, d)[h] == Rows(s, d)[h]
    ensures forall d, h :: h in Rows(t, d) && h !in Rows(s, d) ==> Owns(sys, t, id, d, h)
    ensures var h, store := sys.hash(NonceOf(t, id)), StoreOf(t, id);
            store.Some? ==> h !in Rows(s, store.value) && h in Rows(t, store.value)
  {
  }

  lemma OneMoreRemembered(sys: System, s: World, t: World, id: CallId, k: CallId)
    requires OneMorePassed(sys, s, t, id) && HasPassed(t, k)
    requires HasPassed(s, k) ==> Remembered(sys, s, k)
    ensures Remembered(sys, t, k)
  {
    RowLeftKeepsRows(sys, s, t, id);
    hide RowLeft, Rows;
    assert k != id ==> SamePassed(s, t, k);
    if k == id && StoreOf(t, id).Some? {
      assert Owns(sys, t, id, StoreOf(t, id).value, sys.hash(NonceOf(t, id)));
    }
  }

  lemma OneMoreBacked(sys: System, s: World, t: World, id: CallId, d: DbId, h: Digest)
    requires OneMorePassed(sys, s, t, id) && h in Rows(t, d)
    requires h in Rows(s, d) ==> RowBacked(sys, s, d, h)
    ensures RowBacked(sys, t, d, h)
  {
    RowLeftKeepsRows(sys, s, t, id);
    hide RowLeft, Rows;
    if h in Rows(s, d) {
      var k :| Owns(sys, s, k, d, h);
      assert SamePassed(s, t, k) && Owns(sys, t, k, d, h);
    } else {
      assert Owns(sys, t, id, d, h);
    }
  }

  /** An insertion finds no row, so every earlier pass of the nonce is past its retention. */
  lemma OneMoreApart(sys: System, s: World, t: World, id: CallId, k: CallId)
    requires OneMorePassed(sys, s, t, id) && TwoPasses(t, id, k)
    requires HasPassed(s, k) ==> Remembered(sys, s, k) && CallOk(s, s.calls[k])
    ensures After(t, k, id)
  {
    hide Gate;
    assert SamePassed(s, t, k);
  }

  lemma {:induction false} OneMoreKeepsInv(sys: System, s: World, t: World, id: CallId)
    requires Inv(sys, s) && OneMorePassed(sys, s, t, id)
    requires forall k :: k in t.calls ==> CallOk(t, t.calls[k])
    requires forall n :: n in t.issued ==> FlowOk(n, t.issued[n])
    ensures Inv(sys, t)
  {
    hide CallOk, FlowOk, RowLeft, Rows, Remembered, RowBacked, After;
    forall k | HasPassed(t, k) ensures Remembered(sys, t, k) { OneMoreRemembered(sys, s, t, id, k); }
    forall d, h | h in Rows(t, d) ensures RowBacked(sys, t, d, h) { OneMoreBacked(sys, s, t, id, d, h); }
    forall i, j | TwoPasses(t, i, j) ensures Apart(t, i, j) {
      if i == id {
        OneMoreApart(sys, s, t, id, j);
      } else if j == id {
        OneMoreApart(sys, s, t, id, i);
      } else {
        assert SamePassed(s, t, i) && SamePassed(s, t, j) && TwoPasses(s, i, j) && Apart(s, i, j);
        SameApart(s, t, i, j);
      }
    }
  }

  lemma SameApart(s: World, t: World, i: CallId, j: CallId)
    requires SamePassed(s, t, i) && SamePassed(s, t, j) && HasPassed(s, i) && HasPassed(s, j)
    ensures Apart(t, i, j) == Apart(s, i, j)
  {
  }

  /** Every step keeps the invariant. */
  lemma {:induction false} StepKeepsInv(sys: System, s: World, e: Event)
    requires Inv(sys, s)
    ensures Inv(sys, Next(sys, s, e))
  {
    hide Next, CallOk, FlowOk;
    StepKeepsCallOk(sys, s, e);
    StepKeepsFlowOk(sys, s, e);
    var t := Next(sys, s, e);
    if e.Insert? { InsertStep(sys, s, e); } else { QuietStep(sys, s, e); }
    if Quiet(s, t) {
      QuietKeepsInv(sys, s, t);
    } else {
      hide Quiet;
      OneMoreKeepsInv(sys, s, t, e.id);
    }
  }

  lemma {:induction false} RunKeepsInv(sys: System, events: seq<Event>)
    ensures Inv(sys, Run(sys, events))
  {
    if events == [] {
      assert Inv(sys, START);
    } else {
      hide Next, Inv;
      var pre, e := events[..|events| - 1], events[|events| - 1];
      RunKeepsInv(sys, pre);
      StepKeepsInv(sys, Run(sys, pre), e);
    }
  }

  // ---------------------------------------------------------------- at most one login per flow

  /**
   Nonce spacing: two calls that pass with the same nonce on the same database are separated by
   more than the retention the first one set.
   */
  lemma {:induction false} NonceSpacing(sys: System, events: seq<Event>, i: CallId, j: CallId)
    requires var s := Run(sys, events);
             TwoPasses(s, i, j) && s.calls[i].phase.insertedAt < s.calls[j].phase.insertedAt
    ensures var s := Run(sys, events);
            s.calls[j].phase.insertedAt > s.calls[i].phase.stampedAt + STATE_TTL
  {
    hide Run, Gate;
    RunKeepsInv(sys, events);
    var s := Run(sys, events);
    assert CallOk(s, s.calls[i]) && CallOk(s, s.calls[j]) && TwoPasses(s, i, j) && Apart(s, i, j);
  }

  /** How long a passed call took from its stale check to its insertion. */
  function Delay(s: World, id: CallId): int
    requires HasPassed(s, id)
  {
    s.calls[id].phase.insertedAt - s.calls[id].phase.checkedAt
  }

  /** How long after its issue the flow of a passed call had its nonce consumed. */
  function Gap(s: World, id: CallId): int
    requires HasPassed(s, id) && s.calls[id].req.provider.issuedAt.Some?
  {
    s.calls[id].phase.stampedAt - s.calls[id].req.provider.issuedAt.value
  }

  /** Two passes of one flow on one database mean that the later one dawdled past the stale check. */
  lemma TwoPassesMeanDelay(sys: System, s: World, i: CallId, j: CallId)
    requires Inv(sys, s) && TwoPasses(s, i, j)
    requires s.calls[i].req.provider == s.calls[j].req.provider && s.calls[i].req.provider.issuedAt.Some?
    ensures Delay(s, j) > Gap(s, i) || Delay(s, i) > Gap(s, j)
  {
    assert CallOk(s, s.calls[i]) && CallOk(s, s.calls[j]) && Apart(s, i, j);
  }

  /** Calls of one flow past the replay guard. */
  ghost function PassesOf(s: World, nonce: string): set<CallId> {
    set id | id in s.calls && HasPassed(s, id) && NonceOf(s, id) == nonce
  }

  /** The flow was issued, and its callbacks carry its provider_state as issued. */
  ghost predicate Unaltered(s: World, nonce: string) {
    && nonce in s.issued
    && forall id :: id in s.calls && NonceOf(s, id) == nonce ==> s.calls[id].req.provider == s.issued[nonce]
  }

  /**
   Timing of the single calls of a flow: from stale check to insertion none takes longer than
   `delay`, and none has the nonce consumed sooner than `gap` after the issue.
   */
  ghost predicate Timely(s: World, nonce: string, delay: int, gap: int) {
    forall id :: id in PassesOf(s, nonce) ==>
      Delay(s, id) <= delay && (s.calls[id].req.provider.issuedAt.Some? ==> gap <= Gap(s, id))
  }

  /** Each call of the flow found one of `stores` in use. */
  ghost predicate Within(s: World, nonce: string, stores: set<Option<DbId>>) {
    forall id :: id in PassesOf(s, nonce) ==> StoreOf(s, id) in stores
  }

  /** No more than one database, and never none. */
  predicate Single(stores: set<Option<DbId>>) {
    None !in stores && forall a, b :: a in stores && b in stores ==> a == b
  }

  /** What is asked of a flow: an unaltered state, calls within the time bounds, on the given databases. */
  ghost predicate Kept(s: World, nonce: string, delay: int, gap: int, stores: set<Option<DbId>>) {
    Unaltered(s, nonce) && Timely(s, nonce, delay, gap) && Within(s, nonce, stores)
  }

  ghost predicate AtMostOnePass(s: World, nonce: string) {
    forall i, j :: i in PassesOf(s, nonce) && j in PassesOf(s, nonce) ==> i == j
  }

  /**
   A flow whose calls insert within a delay no longer than the time it takes from issue to callback
   passes at most once on each database, however often the database in use is switched.
   */
  lemma {:induction false} OncePerDatabase(sys: System, events: seq<Event>, nonce: string, delay: int, gap: int)
    requires delay <= gap
    ensures var s := Run(sys, events);
            Unaltered(s, nonce) && Timely(s, nonce, delay, gap) ==>
              forall i, j :: i in PassesOf(s, nonce) ==> !TwoPasses(s, i, j)
  {
    hide Run;
    RunKeepsInv(sys, events);
    var s := Run(sys, events);
    if Unaltered(s, nonce) && Timely(s, nonce, delay, gap) {
      assert FlowOk(nonce, s.issued[nonce]);
      forall i, j | i in PassesOf(s, nonce) ensures !TwoPasses(s, i, j) {
        if TwoPasses(s, i, j) {
          assert j in PassesOf(s, nonce);
          TwoPassesMeanDelay(sys, s, i, j);
        }
      }
    }
  }

  /**
   Hence it passes no more often than there are databases in use during its calls, and at most once
   if that is a single one. Other flows may do as they like.
   */
  lemma {:induction false} AtMostOneLogin(sys: System, events: seq<Event>, nonce: string, delay: int, gap: int,
                                          stores: set<Option<DbId>>)
    requires delay <= gap && None !in stores
    ensures var s := Run(sys, events);
            Kept(s, nonce, delay, gap, stores) ==>
              |PassesOf(s, nonce)| <= |stores| && (Single(stores) ==> AtMostOnePass(s, nonce))
  {
    hide Run;
    OncePerDatabase(sys, events, nonce, delay, gap);
    var s := Run(sys, events);
    if Kept(s, nonce, delay, gap, stores) {
      forall i, j | i in PassesOf(s, nonce) && j in PassesOf(s, nonce) && StoreOf(s, i) == StoreOf(s, j)
        ensures i == j
      {
        assert !TwoPasses(s, i, j);
      }
      InjectiveNoLarger(PassesOf(s, nonce), id => if HasPassed(s, id) then StoreOf(s, id) else None, stores);
    }
  }

  /** A process configured before its first call, and never pointed at another database. */
  ghost predicate Settled(events: seq<Event>, d: DbId) {
    events != [] && events[0] == Rewire(d) && forall e :: e in events ==> e.Rewire? ==> e.db == d
  }

  ghost predicate OnlyOn(s: World, d: DbId) {
    s.wired == Some(d) && forall id :: id in s.calls ==>
      match s.calls[id].phase
      case Resolved(_, _, store) => store == Some(d)
      case Passed(_, _, store, _, _) => store == Some(d)
      case _ => true
  }

  lemma StepKeepsOnlyOn(sys: System, s: World, e: Event, d: DbId)
    requires OnlyOn(s, d) && (e.Rewire? ==> e.db == d)
    ensures OnlyOn(Next(sys, s, e), d)
  {
    hide Allow, Final, Finish, Gate;
  }

  /** Then that database is the one every flow's calls find in use. */
  lemma {:induction false} SettledRunsWithin(sys: System, events: seq<Event>, d: DbId)
    requires Settled(events, d)
    ensures OnlyOn(Run(sys, events), d) && forall n :: Within(Run(sys, events), n, {Some(d)})
  {
    var pre, e := events[..|events| - 1], events[|events| - 1];
    assert e in events && forall x :: x in pre ==> x in events;
    if pre == [] {
      assert Run(sys, events) == START.(wired := Some(d));
    } else {
      SettledRunsWithin(sys, pre, d);
      hide Next, Within;
      StepKeepsOnlyOn(sys, Run(sys, pre), e, d);
      OnlyOnWithin(Run(sys, events), d);
    }
  }

  lemma OnlyOnWithin(s: World, d: DbId)
    requires OnlyOn(s, d)
    ensures forall n :: Within(s, n, {Some(d)})
  {
  }

  /** Calls of issued flows past the replay guard. */
  ghost function PassedFlows(s: World): set<CallId> {
    set id | id in s.calls && HasPassed(s, id) && NonceOf(s, id) in s.issued
  }

  /** Calls of issued flows that ended in a login. */
  ghost function Logins(s: World): set<CallId> {
    set id | id in PassedFlows(s) && s.calls[id].phase.outcome.Some? && s.calls[id].phase.outcome.value.Ok?
  }

  /** If every flow keeps to bounds of its own, issued flows see no more logins than InitAuthorize calls. */
  lemma {:induction false} LoginsBoundedByFlows(sys: System, events: seq<Event>, bound: string -> int,
                                                db: string -> DbId)
    ensures var s := Run(sys, events);
            (forall n :: n in s.issued ==> Kept(s, n, bound(n), bound(n), {Some(db(n))})) ==>
              |Logins(s)| <= |PassedFlows(s)| <= |s.issued|
  {
    hide Run, Kept;
    var s := Run(sys, events);
    if forall n :: n in s.issued ==> Kept(s, n, bound(n), bound(n), {Some(db(n))}) {
      forall n | n in s.issued ensures AtMostOnePass(s, n) {
        AtMostOneLogin(sys, events, n, bound(n), bound(n), {Some(db(n))});
      }
      forall i, j | i in PassedFlows(s) && j in PassedFlows(s) && NonceOf(s, i) == NonceOf(s, j) ensures i == j {
        assert i in PassesOf(s, NonceOf(s, i)) && j in PassesOf(s, NonceOf(s, i)) && AtMostOnePass(s, NonceOf(s, i));
      }
      InjectiveNoLarger(PassedFlows(s), id => if id in s.calls then NonceOf(s, id) else "", s.issued.Keys);
      SubsetNoLarger(Logins(s), PassedFlows(s));
    }
  }

  lemma RunThen(sys: System, events: seq<Event>, e: Event)
    ensures Run(sys, events + [e]) == Next(sys, Run(sys, events), e)
  {
    assert (events + [e])[..|events|] == events;
  }

  lemma Then(sys: System, events: seq<Event>, e: Event) returns (more: seq<Event>)
    ensures more == events + [e] && Run(sys, more) == Next(sys, Run(sys, events), e)
  {
    more := events + [e];
    RunThen(sys, events, e);
  }
}
