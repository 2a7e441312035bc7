/**
 The conditions under which a flow logs in at most once are exact: whenever the delay is exceeded,
 the database in use is switched or there is none, some run lets two callbacks of the flow past the
 replay guard.
 */
module LoginRace {
  import opened Basics
  import opened Store
  import opened RateLimit
  import opened Login
  import opened LoginProtocol

  const PS: ProviderState := ProviderState("v", "n", "", "", Some(0))
  const REQ: Request := Request(PS, "", "")

  // ---------------------------------------------------------------- two callbacks of one flow

  /** The phases of the two callbacks. */
  datatype Phases = Phases(first: Phase, second: Phase)

  function Of(p: Phases, id: CallId): Phase {
    if id == 1 then p.first else p.second
  }

  function Put(p: Phases, id: CallId, phase: Phase): Phases {
    if id == 1 then p.(first := phase) else p.(second := phase)
  }

  function Pending(phase: Phase, peer: string): Callback {
    Callback(peer, 0, REQ, phase)
  }

  /** A flow issued at time 0 and two callbacks for it, from two peers. */
  function Duel(history: seq<Call>, clock: int, wired: Option<DbId>, tables: map<DbId, map<Digest, int>>, p: Phases)
    : World
  {
    World(clock, history, wired, tables, map["n" := PS], map[1 := Pending(p.first, "a"), 2 := Pending(p.second, "b")])
  }

  lemma DuelFacts()
    ensures forall h, t, w, m, p {:trigger Duel(h, t, w, m, p)} ::
              var s := Duel(h, t, w, m, p);
              s.history == h && s.clock == t && s.wired == w && s.tables == m
  {
  }

  lemma AdvanceDuel(s: World, p: Phases, id: CallId, phase: Phase)
    requires s == Duel(s.history, s.clock, s.wired, s.tables, p) && id in {1, 2}
    ensures id in s.calls && s.calls[id].req == REQ && s.calls[id].phase == Of(p, id)
    ensures Advance(s, id, phase) == Duel(s.history, s.clock, s.wired, s.tables, Put(p, id, phase))
  {
    assert Advance(s, id, phase).calls == Duel(s.history, s.clock, s.wired, s.tables, Put(p, id, phase)).calls;
  }

  lemma RaceGate(t: int)
    requires t <= STATE_TTL
    ensures Gate(true, REQ, t).None?
  {
  }

  /** Lets the clock run up to t. */
  lemma Wait(sys: System, before: seq<Event>, s: World, p: Phases, t: int) returns (events: seq<Event>)
    requires s == Run(sys, before) == Duel(s.history, s.clock, s.wired, s.tables, p) && s.clock <= t
    ensures Run(sys, events) == Duel(s.history, t, s.wired, s.tables, p)
  {
    hide Run;
    events := Then(sys, before, Tick(t - s.clock));
  }

  lemma CheckOne(sys: System, before: seq<Event>, s: World, p: Phases, id: CallId) returns (events: seq<Event>)
    requires s == Run(sys, before) == Duel(s.history, s.clock, s.wired, s.tables, p) && id in {1, 2}
    requires Of(p, id).Admitted? && s.clock <= STATE_TTL
    ensures Run(sys, events) == Duel(s.history, s.clock, s.wired, s.tables, Put(p, id, Checked(s.clock)))
  {
    hide Run, Gate, Allow, Final, Finish;
    RaceGate(s.clock);
    AdvanceDuel(s, p, id, Checked(s.clock));
    events := Then(sys, before, Check(id, true));
  }

  lemma StampOne(sys: System, before: seq<Event>, s: World, p: Phases, id: CallId) returns (events: seq<Event>)
    requires s == Run(sys, before) == Duel(s.history, s.clock, s.wired, s.tables, p) && id in {1, 2}
    requires Of(p, id).Checked?
    ensures Run(sys, events)
            == Duel(s.history, s.clock, s.wired, s.tables,
                    Put(p, id, Resolved(Of(p, id).checkedAt, s.clock, s.wired)))
  {
    hide Run, Gate, Allow, Final, Finish, Advance, Duel;
    var stamped := Phase.Stamped(Of(p, id).checkedAt, s.clock);
    AdvanceDuel(s, p, id, stamped);
    events := Then(sys, before, Stamp(id));
    var t := Duel(s.history, s.clock, s.wired, s.tables, Put(p, id, stamped));
    DuelFacts();
    AdvanceDuel(t, Put(p, id, stamped), id, Resolved(stamped.checkedAt, s.clock, s.wired));
    events := Then(sys, events, Resolve(id));
  }

  /** The nonce tables after a pass at time t on the given database. */
  function TablesAfter(sys: System, s: World, t: int): map<DbId, map<Digest, int>> {
    if s.wired.None? then s.tables
    else s.tables[s.wired.value := Rows(s, s.wired.value)[sys.hash("n") := t + STATE_TTL]]
  }

  lemma InsertOne(sys: System, before: seq<Event>, s: World, p: Phases, id: CallId) returns (events: seq<Event>)
    requires s == Run(sys, before) == Duel(s.history, s.clock, s.wired, s.tables, p) && id in {1, 2}
    requires Of(p, id).Resolved? && Of(p, id).store == s.wired && Of(p, id).stampedAt == s.clock
    requires s.wired.Some? ==> sys.hash("n") !in Rows(s, s.wired.value)
    ensures Run(sys, events)
            == Duel(s.history, s.clock, s.wired, TablesAfter(sys, s, s.clock),
                    Put(p, id, Passed(Of(p, id).checkedAt, s.clock, s.wired, s.clock, None)))
  {
    hide Run, Gate, Allow, Final, Finish, Advance;
    var passed := Passed(Of(p, id).checkedAt, s.clock, s.wired, s.clock, None);
    AdvanceDuel(s, p, id, passed);
    AdvanceDuel(s.(tables := TablesAfter(sys, s, s.clock)), p, id, passed);
    events := Then(sys, before, Insert(id, true));
  }

  /** A checked callback goes through the replay guard at one instant. */
  lemma PassOne(sys: System, before: seq<Event>, s: World, p: Phases, id: CallId) returns (events: seq<Event>)
    requires s == Run(sys, before) == Duel(s.history, s.clock, s.wired, s.tables, p) && id in {1, 2}
    requires Of(p, id).Checked? && (s.wired.Some? ==> sys.hash("n") !in Rows(s, s.wired.value))
    ensures Run(sys, events)
            == Duel(s.history, s.clock, s.wired, TablesAfter(sys, s, s.clock),
                    Put(p, id, Passed(Of(p, id).checkedAt, s.clock, s.wired, s.clock, None)))
  {
    hide Run;
    events := StampOne(sys, before, s, p, id);
    var q := Put(p, id, Resolved(Of(p, id).checkedAt, s.clock, s.wired));
    events := InsertOne(sys, events, Run(sys, events), q, id);
  }

  /** Switches to the given database, if it is one. */
  lemma Switch(sys: System, before: seq<Event>, s: World, p: Phases, store: Option<DbId>) returns (events: seq<Event>)
    requires s == Run(sys, before) == Duel(s.history, s.clock, s.wired, s.tables, p)
    requires store.None? ==> s.wired.None?
    ensures Run(sys, events) == Duel(s.history, s.clock, store, s.tables, p)
  {
    hide Run;
    events := before;
    if store.Some? { events := Then(sys, before, Rewire(store.value)); }
  }

  // ---------------------------------------------------------------- the opening

  /** A peer without a bucket is admitted. */
  lemma NewPeerAdmitted(s: World, peer: string)
    requires LimiterKey(peer) !in Final(EXCHANGE, s.history).buckets
    ensures Allow(EXCHANGE, Final(EXCHANGE, s.history), Call(LimiterKey(peer), s.clock)).1.ok
  {
  }

  lemma FirstBuckets(c: Call)
    ensures Final(EXCHANGE, []).buckets == map[] && Final(EXCHANGE, [c]).buckets.Keys == {c.key}
  {
    assert [c][..0] == [];
  }

  lemma KeysDiffer()
    ensures LimiterKey("a") != LimiterKey("b")
  {
    assert LimiterKey("a")[9] == 'a' && LimiterKey("b")[9] == 'b';
  }

  /** Both callbacks admitted at time 0, on a process that was never configured. */
  ghost predicate Opened(s: World) {
    s == Duel(s.history, 0, None, map[], Phases(Admitted, Admitted))
  }

  lemma RaceOpening(sys: System) returns (events: seq<Event>)
    ensures Opened(Run(sys, events))
  {
    assert Run(sys, []) == START;
    hide Run, Allow, Final, Gate, Finish, LimiterKey;
    events := Then(sys, [], Issue("v", "n", "", ""));
    assert Run(sys, events).issued == map["n" := PS];
    var c := Call(LimiterKey("a"), 0);
    FirstBuckets(c);
    NewPeerAdmitted(Run(sys, events), "a");
    events := Then(sys, events, Admit(1, "a", REQ, 0));
    assert Run(sys, events).history == [c];
    KeysDiffer();
    NewPeerAdmitted(Run(sys, events), "b");
    events := Then(sys, events, Admit(2, "b", REQ, 0));
    assert Run(sys, events).calls == map[1 := Pending(Admitted, "a"), 2 := Pending(Admitted, "b")];
  }

  // ---------------------------------------------------------------- a delay beyond the gap

  function Min(x: int, y: int): int {
    if x <= y then x else y
  }

  function Max(x: int, y: int): int {
    if x <= y then y else x
  }

  /** A callback that passed g after the issue, checked as late as it may be. */
  function PassedAt(g: nat, store: Option<DbId>): Phase {
    Passed(Min(g, STATE_TTL), g, store, g, None)
  }

  /** The first has passed; the second is checked as late as it may be. */
  ghost predicate HalfWay(sys: System, s: World, g: nat, d: DbId) {
    s == Duel(s.history, Max(g, STATE_TTL), Some(d), map[d := map[sys.hash("n") := g + STATE_TTL]],
              Phases(PassedAt(g, Some(d)), Checked(STATE_TTL)))
  }

  lemma EarlyGap(sys: System, before: seq<Event>, g: nat, d: DbId) returns (events: seq<Event>)
    requires Opened(Run(sys, before)) && g <= STATE_TTL
    ensures HalfWay(sys, Run(sys, events), g, d)
  {
    hide Run, Duel;
    DuelFacts();
    events := Switch(sys, before, Run(sys, before), Phases(Admitted, Admitted), Some(d));
    events := Wait(sys, events, Run(sys, events), Phases(Admitted, Admitted), g);
    events := CheckOne(sys, events, Run(sys, events), Phases(Admitted, Admitted), 1);
    events := PassOne(sys, events, Run(sys, events), Phases(Checked(g), Admitted), 1);
    assert Run(sys, events).tables == map[d := map[sys.hash("n") := g + STATE_TTL]];
    events := Wait(sys, events, Run(sys, events), Phases(PassedAt(g, Some(d)), Admitted), STATE_TTL);
    events := CheckOne(sys, events, Run(sys, events), Phases(PassedAt(g, Some(d)), Admitted), 2);
  }

  /** Both callbacks checked c after the issue, and now it is g after the issue. */
  lemma BothChecked(sys: System, before: seq<Event>, g: nat, store: Option<DbId>) returns (events: seq<Event>)
    requires Opened(Run(sys, before))
    ensures var s, c := Run(sys, events), Min(g, STATE_TTL);
            s == Duel(s.history, g, store, map[], Phases(Checked(c), Checked(c)))
  {
    hide Run, Duel;
    DuelFacts();
    var c := Min(g, STATE_TTL);
    events := Switch(sys, before, Run(sys, before), Phases(Admitted, Admitted), store);
    events := Wait(sys, events, Run(sys, events), Phases(Admitted, Admitted), c);
    events := CheckOne(sys, events, Run(sys, events), Phases(Admitted, Admitted), 1);
    events := CheckOne(sys, events, Run(sys, events), Phases(Checked(c), Admitted), 2);
    events := Wait(sys, events, Run(sys, events), Phases(Checked(c), Checked(c)), g);
  }

  lemma LateGap(sys: System, before: seq<Event>, g: nat, d: DbId) returns (events: seq<Event>)
    requires Opened(Run(sys, before)) && g > STATE_TTL
    ensures HalfWay(sys, Run(sys, events), g, d)
  {
    hide Run, Duel;
    DuelFacts();
    events := BothChecked(sys, before, g, Some(d));
    events := PassOne(sys, events, Run(sys, events), Phases(Checked(STATE_TTL), Checked(STATE_TTL)), 1);
    assert Run(sys, events).tables == map[d := map[sys.hash("n") := g + STATE_TTL]];
  }

  lemma PruneAll(sys: System, before: seq<Event>, s: World, p: Phases, d: DbId) returns (events: seq<Event>)
    requires s == Run(sys, before) == Duel(s.history, s.clock, s.wired, s.tables, p)
    requires forall h :: h in Rows(s, d) ==> Rows(s, d)[h] < s.clock
    ensures Run(sys, events) == Duel(s.history, s.clock, s.wired, s.tables[d := map[]], p)
  {
    hide Run;
    assert Unexpired(Rows(s, d), s.clock) == map[];
    events := Then(sys, before, Prune(Some(d)));
  }

  /** The second waits until the first one's row has expired and is pruned, then inserts. */
  lemma RaceEnd(sys: System, before: seq<Event>, g: nat, d: DbId, delay: nat) returns (events: seq<Event>)
    requires delay > g
    requires HalfWay(sys, Run(sys, before), g, d)
    ensures var s, late := Run(sys, events), STATE_TTL + delay;
            s == Duel(s.history, late, Some(d), s.tables,
                      Phases(PassedAt(g, Some(d)), Passed(STATE_TTL, late, Some(d), late, None)))
  {
    hide Run, Duel;
    DuelFacts();
    var p := Phases(PassedAt(g, Some(d)), Checked(STATE_TTL));
    events := Wait(sys, before, Run(sys, before), p, STATE_TTL + delay);
    events := PruneAll(sys, events, Run(sys, events), p, d);
    events := PassOne(sys, events, Run(sys, events), p, 2);
  }

  lemma DuelOutcome(s: World, p: Phases, delay: nat, gap: nat)
    requires s == Duel(s.history, s.clock, s.wired, s.tables, p) && p.first.Passed? && p.second.Passed?
    ensures HasPassed(s, 1) && HasPassed(s, 2) && s.calls[1].req == s.calls[2].req == REQ
    ensures StoreOf(s, 1) == p.first.store && StoreOf(s, 2) == p.second.store
    ensures Delay(s, 1) == p.first.insertedAt - p.first.checkedAt && Gap(s, 1) == p.first.stampedAt
    ensures Delay(s, 2) == p.second.insertedAt - p.second.checkedAt && Gap(s, 2) == p.second.stampedAt
    ensures Max(Delay(s, 1), Delay(s, 2)) <= delay && gap <= Min(Gap(s, 1), Gap(s, 2)) ==>
              Kept(s, "n", delay, gap, {p.first.store, p.second.store})
    ensures !AtMostOnePass(s, "n")
  {
    assert 1 in PassesOf(s, "n") && 2 in PassesOf(s, "n");
  }

  /**
   For every gap and every longer delay there is a run on one database in which two callbacks of
   one unaltered flow pass. The first consumes the nonce `gap` after the issue, and inserts at once
   when that is within STATE_TTL; the second takes `delay` from its check to its insertion.
   */
  lemma LongerDelayBreaksIt(sys: System, d: DbId, gap: nat, delay: nat) returns (events: seq<Event>)
    requires delay > gap
    ensures var s := Run(sys, events);
            && Kept(s, "n", delay, gap, {Some(d)}) && !AtMostOnePass(s, "n")
            && HasPassed(s, 1) && HasPassed(s, 2) && s.calls[1].req == s.calls[2].req == REQ
            && Gap(s, 1) == gap && Delay(s, 1) == Max(0, gap - STATE_TTL) && Delay(s, 2) == delay
  {
    hide Run, Duel, Kept, AtMostOnePass;
    events := RaceOpening(sys);
    if gap <= STATE_TTL { events := EarlyGap(sys, events, gap, d); } else { events := LateGap(sys, events, gap, d); }
    events := RaceEnd(sys, events, gap, d, delay);
    var late := STATE_TTL + delay;
    DuelFacts();
    DuelOutcome(Run(sys, events), Phases(PassedAt(gap, Some(d)), Passed(STATE_TTL, late, Some(d), late, None)),
                delay, gap);
    assert {Some(d), Some(d)} == {Some(d)};
  }

  // ---------------------------------------------------------------- another database, or none

  /**
   For every gap there is a run in which two callbacks of one unaltered flow pass with no more delay
   than that gap forces on them: one before and one after a switch to another database, or both
   before the first Configure has put any in use.
   */
  lemma SwitchBreaksIt(sys: System, a: Option<DbId>, b: Option<DbId>, gap: nat) returns (events: seq<Event>)
    requires if a.None? then b.None? else b.Some? && a != b
    ensures var s := Run(sys, events);
            && Kept(s, "n", Max(0, gap - STATE_TTL), gap, {a, b}) && !AtMostOnePass(s, "n")
            && HasPassed(s, 1) && HasPassed(s, 2) && s.calls[1].req == s.calls[2].req == REQ
            && StoreOf(s, 1) == a && StoreOf(s, 2) == b
  {
    hide Run, Duel, Kept, AtMostOnePass;
    DuelFacts();
    var c := Min(gap, STATE_TTL);
    events := RaceOpening(sys);
    events := BothChecked(sys, events, gap, a);
    events := PassOne(sys, events, Run(sys, events), Phases(Checked(c), Checked(c)), 1);
    events := Switch(sys, events, Run(sys, events), Phases(PassedAt(gap, a), Checked(c)), b);
    events := PassOne(sys, events, Run(sys, events), Phases(PassedAt(gap, a), Checked(c)), 2);
    DuelOutcome(Run(sys, events), Phases(PassedAt(gap, a), PassedAt(gap, b)), Max(0, gap - STATE_TTL), gap);
  }

  // ---------------------------------------------------------------- the exact condition

  /** Whatever the run, a flow kept within these bounds passes at most once. */
  ghost predicate Safe(sys: System, delay: int, gap: int, stores: set<Option<DbId>>) {
    forall events, n :: Kept(Run(sys, events), n, delay, gap, stores) ==> AtMostOnePass(Run(sys, events), n)
  }

  /** A call that consumes its nonce later than STATE_TTL after the issue was delayed by the difference. */
  lemma GapForcesDelay(sys: System, s: World, id: CallId)
    requires Inv(sys, s) && HasPassed(s, id) && s.calls[id].req.provider.issuedAt.Some?
    ensures Gap(s, id) - STATE_TTL <= Delay(s, id)
  {
    assert CallOk(s, s.calls[id]);
  }

  lemma {:induction false} TooLateForAll(sys: System, events: seq<Event>, n: string, delay: int, gap: int,
                                         stores: set<Option<DbId>>)
    requires delay < gap - STATE_TTL
    ensures Kept(Run(sys, events), n, delay, gap, stores) ==> PassesOf(Run(sys, events), n) == {}
  {
    hide Run;
    RunKeepsInv(sys, events);
    var s := Run(sys, events);
    if id :| Kept(s, n, delay, gap, stores) && id in PassesOf(s, n) {
      assert FlowOk(n, s.issued[n]);
      GapForcesDelay(sys, s, id);
    }
  }

  lemma Widen(s: World, n: string, delay: int, gap: int, stores: set<Option<DbId>>, delay': int,
              stores': set<Option<DbId>>)
    requires Kept(s, n, delay, gap, stores) && delay <= delay' && stores <= stores'
    ensures Kept(s, n, delay', gap, stores')
  {
  }

  lemma {:induction false} UnsafeStores(sys: System, delay: nat, gap: nat, stores: set<Option<DbId>>)
    requires !Single(stores) && gap - STATE_TTL <= delay
    ensures !Safe(sys, delay, gap, stores)
  {
    hide Run, Kept, AtMostOnePass;
    var a, b := None, None;
    if None !in stores { a, b :| a in stores && b in stores && a != b; }
    var events := SwitchBreaksIt(sys, a, b, gap);
    Widen(Run(sys, events), "n", Max(0, gap - STATE_TTL), gap, {a, b}, delay, stores);
  }

  lemma {:induction false} UnsafeDelay(sys: System, delay: nat, gap: nat, stores: set<Option<DbId>>)
    requires Single(stores) && stores != {} && gap < delay
    ensures !Safe(sys, delay, gap, stores)
  {
    hide Run, Kept, AtMostOnePass;
    var store :| store in stores;
    var events := LongerDelayBreaksIt(sys, store.value, gap, delay);
    Widen(Run(sys, events), "n", delay, gap, {store}, delay, stores);
  }

  /**
   The exact condition. Bound the delay of each call of a flow, its gap from issue to consumption,
   and the databases its calls find in use. Whatever the run, such a flow logs in at most once if
   and only if the delay does not exceed the gap and there is a single database; or the bounds allow
   no login at all, because so late a consumption takes a longer delay.
   */
  lemma {:induction false} OncePerFlowIff(sys: System, delay: nat, gap: nat, stores: set<Option<DbId>>)
    requires stores != {}
    ensures Safe(sys, delay, gap, stores) <==> (delay <= gap && Single(stores)) || delay < gap - STATE_TTL
  {
    hide Run, Kept;
    if delay < gap - STATE_TTL {
      forall events, n ensures Kept(Run(sys, events), n, delay, gap, stores) ==> AtMostOnePass(Run(sys, events), n) {
        TooLateForAll(sys, events, n, delay, gap, stores);
      }
    } else if !Single(stores) {
      UnsafeStores(sys, delay, gap, stores);
    } else if gap < delay {
      UnsafeDelay(sys, delay, gap, stores);
    } else {
      forall events, n ensures Kept(Run(sys, events), n, delay, gap, stores) ==> AtMostOnePass(Run(sys, events), n) {
        AtMostOneLogin(sys, events, n, delay, gap, stores);
      }
    }
  }
}
