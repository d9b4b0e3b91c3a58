/** Symbol leases on the live feed (live-grid/app/leases.py): a lease is an
    ordinary registration under a connection id of its own, plus an expiry. */
module Leases {
  import opened Options
  import opened Feeds
  import Text
  import FeedManager

  const PREFIX := "lease:"

  function ConnId(sym: string): string { PREFIX + sym }

  predicate IsLeaseId(id: string) { PREFIX <= id }

  function SymOf(id: string): string
    requires IsLeaseId(id)
  {
    id[|PREFIX|..]
  }

  function Clean(raw: string): string { Text.Upper(Text.Strip(raw)) }

  /** Cleaning a clean symbol changes nothing, so the symbol a lease is filed
      under is the symbol it subscribes. */
  lemma CleanTwice(raw: string)
    ensures Clean(Clean(raw)) == Clean(raw)
  {
    var c := Clean(raw);
    if c != "" {
      var t := Text.Strip(raw);
      assert c[0] == Text.UpperChar(t[0]) && c[|c| - 1] == Text.UpperChar(t[|t| - 1]);
      assert Text.StripLeft(c) == c && Text.StripRight(c) == c;
    }
    assert Text.Upper(c) == c;
  }

  /** Cleaning takes the white space off both ends and puts the rest in capitals. */
  lemma CleanMeans(raw: string) returns (i: nat, j: nat)
    ensures i <= j <= |raw|
    ensures forall k :: 0 <= k < i || j <= k < |raw| ==> Text.IsSpace(raw[k])
    ensures i < j ==> !Text.IsSpace(raw[i]) && !Text.IsSpace(raw[j - 1])
    ensures |Clean(raw)| == j - i
    ensures forall k :: i <= k < j ==>
              Clean(raw)[k - i] == if 'a' <= raw[k] <= 'z' then (raw[k] as int - 32) as char else raw[k]
  {
    var left := Text.StripLeft(raw);
    i := |raw| - |left|;
    j := i + |Text.StripRight(left)|;
    Text.LeftIsSpace(raw);
    Text.RightIsSpace(left);
  }

  /** Which feed carries a symbol, if any does. */
  type Route = string -> Option<Feed>

  function SplitOne(raw: string, route: Route): Wants {
    var s := Clean(raw);
    if s == "" then Wants({}, {}, {}) else
    match route(s)
    case None => Wants({}, {}, {})
    case Some(Us) => Wants({s}, {}, {})
    case Some(Crypto) => Wants({}, {s}, {})
    case Some(Forex) => Wants({}, {}, {s})
  }

  /** A symbol goes to the feed that carries it, and nowhere else. */
  lemma SplitMeans(raw: string, route: Route, feed: Feed)
    ensures SplitOne(raw, route).On(feed)
            == if Clean(raw) != "" && route(Clean(raw)) == Some(feed) then {Clean(raw)} else {}
  {
    hide Clean;
  }

  /** The expiry of every lease beside the manager it registers with. */
  datatype Leased = Leased(expiry: map<string, int>, feeds: State)

  function RenewOne(l: Leased, sym: string, until: int, route: Route): Leased {
    if sym == "" then l
    else
      Leased(l.expiry[sym := until],
             if sym in l.expiry then l.feeds else Register(l.feeds, ConnId(sym), SplitOne(sym, route)))
  }

  function Renewed(l: Leased, symbols: seq<string>, until: int, route: Route): Leased {
    if symbols == [] then l
    else
      var n := |symbols| - 1;
      RenewOne(Renewed(l, symbols[..n], until, route), Clean(symbols[n]), until, route)
  }

  /** The leases that have lapsed. */
  function Lapsed(l: Leased, now: int): set<string> {
    set sym | sym in l.expiry && l.expiry[sym] <= now
  }

  function Ids(syms: set<string>): set<string> {
    set sym | sym in syms :: ConnId(sym)
  }

  function Dropped(l: Leased, dead: set<string>): Leased {
    Leased(l.expiry - dead,
           l.feeds.(conns := l.feeds.conns - Ids(dead), dirty := l.feeds.dirty - Ids(dead),
                    pending := l.feeds.pending || dead != {}))
  }

  function Swept(l: Leased, now: int): Leased {
    Dropped(l, Lapsed(l, now))
  }

  datatype Event =
    | ERenew(symbols: seq<string>, now: int, ttl: int)
    | ESweep(now: int)
    | EFeeds(e: Feeds.Event)

  function Next(l: Leased, e: Event, delay: int, route: Route): Leased {
    match e
    case ERenew(symbols, now, ttl) => Renewed(l, symbols, now + ttl, route)
    case ESweep(now) => Swept(l, now)
    case EFeeds(f) => l.(feeds := Feeds.Next(l.feeds, f, delay))
  }

  function Run(l: Leased, es: seq<Event>, delay: int, route: Route): Leased {
    if es == [] then l
    else Next(Run(l, es[..|es| - 1], delay, route), es[|es| - 1], delay, route)
  }

  const NoLeases := Leased(map[], Initial)

  /** Websocket connections have ids of their own. */
  predicate KeepsOff(e: Event) {
    e.EFeeds? ==>
      (e.e.ERegister? ==> !IsLeaseId(e.e.id)) && (e.e.EUnregister? ==> !IsLeaseId(e.e.id))
  }

  /** Leases and lease registrations are the same thing: each lease holds a
      registration of its symbol, and each such registration has a lease. */
  predicate Held(l: Leased, route: Route) {
    && (forall sym :: sym in l.expiry ==>
          sym == Clean(sym) && ConnId(sym) in l.feeds.conns && l.feeds.conns[ConnId(sym)] == SplitOne(sym, route))
    && (forall id :: id in l.feeds.conns && IsLeaseId(id) ==> SymOf(id) in l.expiry)
  }

  lemma OwnId(sym: string)
    ensures IsLeaseId(ConnId(sym)) && SymOf(ConnId(sym)) == sym
  {
  }

  lemma SameId(id: string)
    requires IsLeaseId(id)
    ensures id == ConnId(SymOf(id))
  {
  }

  lemma RenewOneHolds(l: Leased, raw: string, until: int, route: Route)
    requires Held(l, route) && Inv(l.feeds)
    ensures var l' := RenewOne(l, Clean(raw), until, route); Held(l', route) && Inv(l'.feeds)
  {
    hide Inv, SplitOne, Clean;
    var sym := Clean(raw);
    CleanTwice(raw);
    if sym != "" && sym !in l.expiry {
      StepKeeps(l.feeds, ERegister(ConnId(sym), SplitOne(sym, route)), 0);
      var l' := RenewOne(l, sym, until, route);
      OwnId(sym);
      forall other | other in l.expiry ensures ConnId(other) != ConnId(sym) { OwnId(other); }
      forall id | id in l'.feeds.conns && IsLeaseId(id) ensures SymOf(id) in l'.expiry {
        if id != ConnId(sym) { assert id in l.feeds.conns; }
      }
    }
  }

  lemma {:induction false} RenewHolds(l: Leased, symbols: seq<string>, until: int, route: Route)
    requires Held(l, route) && Inv(l.feeds)
    ensures var l' := Renewed(l, symbols, until, route); Held(l', route) && Inv(l'.feeds)
  {
    hide Inv, Held;
    if symbols != [] {
      var n := |symbols| - 1;
      RenewHolds(l, symbols[..n], until, route);
      RenewOneHolds(Renewed(l, symbols[..n], until, route), symbols[n], until, route);
    }
  }

  lemma InIds(syms: set<string>, id: string)
    ensures id in Ids(syms) <==> IsLeaseId(id) && SymOf(id) in syms
  {
    hide ConnId, IsLeaseId, SymOf;
    forall sym { OwnId(sym); }
    if IsLeaseId(id) { SameId(id); }
  }

  lemma SweepHolds(l: Leased, now: int, route: Route)
    requires Held(l, route) && Inv(l.feeds)
    ensures Held(Swept(l, now), route) && Inv(Swept(l, now).feeds)
  {
    SweepInv(l, now);
    hide Inv, SplitOne, Clean, Ids, ConnId, IsLeaseId, SymOf;
    var dead := Lapsed(l, now);
    var l' := Swept(l, now);
    forall sym | sym in l'.expiry ensures ConnId(sym) !in Ids(dead) {
      InIds(dead, ConnId(sym));
      OwnId(sym);
    }
    forall id | id in l'.feeds.conns && IsLeaseId(id) ensures SymOf(id) in l'.expiry {
      InIds(dead, id);
    }
  }

  lemma SweepInv(l: Leased, now: int)
    requires Inv(l.feeds)
    ensures Inv(Swept(l, now).feeds)
  {
    var l' := Swept(l, now);
    if Lapsed(l, now) == {} {
      assert Ids(Lapsed(l, now)) == {};
      assert l'.feeds == l.feeds;
    } else {
      hide ClientIffActive, Settled;
      PendingKeeps(l.feeds, l'.feeds);
    }
  }

  lemma FeedsHold(l: Leased, e: Feeds.Event, delay: int, route: Route)
    requires Held(l, route) && Inv(l.feeds) && KeepsOff(EFeeds(e))
    ensures var l' := l.(feeds := Feeds.Next(l.feeds, e, delay)); Held(l', route) && Inv(l'.feeds)
  {
    hide Inv, SplitOne, Clean, Feeds.Next, ConnId, SymOf, IsLeaseId, KeepsOff;
    StepKeeps(l.feeds, e, delay);
    LeaseConns(l.feeds, e, delay);
    forall sym | sym in l.expiry ensures IsLeaseId(ConnId(sym)) { OwnId(sym); }
  }

  lemma LeaseConns(s: State, e: Feeds.Event, delay: int)
    requires KeepsOff(EFeeds(e))
    ensures var s' := Feeds.Next(s, e, delay);
            forall id :: IsLeaseId(id) ==>
              (id in s'.conns <==> id in s.conns) && (id in s.conns ==> s'.conns[id] == s.conns[id])
  {
    hide IsLeaseId, Feeds.Next;
    ConnsOfStep(s, e, delay);
  }

  /** What a step does to the connections it does not name. */
  lemma ConnsOfStep(s: State, e: Feeds.Event, delay: int)
    ensures var s' := Feeds.Next(s, e, delay);
            forall id :: !(e.ERegister? && e.id == id) && !(e.EUnregister? && e.id == id) ==>
              (id in s'.conns <==> id in s.conns) && (id in s.conns ==> s'.conns[id] == s.conns[id])
  {
    hide Union, SyncFrom, CheckFrom;
    match e
    case EBeginSync(now, starts) => SyncKeepsMarks(s.(pending := false, lastRebuild := Some(now)), 0, starts, now);
    case EResumeSync(now, starts) =>
      if s.task.Stopping? && s.task.i < |FEEDS| {
        SyncKeepsMarks(StartFeed(s, FEEDS[s.task.i], s.task.want, starts(FEEDS[s.task.i]), now), s.task.i + 1, starts,
                       now);
      }
    case EBeginCheck(now, order, expected) => CheckKeepsMarks(s.(lastLiveness := Some(now)), order, expected, now);
    case EResumeCheck(expected) =>
      if s.task.Killing? {
        CheckKeepsMarks(Buried(s, s.task.feed, s.task.now), s.task.rest, expected, s.task.now);
      }
    case _ =>
  }

  lemma StepHolds(l: Leased, e: Event, delay: int, route: Route)
    requires Held(l, route) && Inv(l.feeds) && KeepsOff(e)
    ensures var l' := Next(l, e, delay, route); Held(l', route) && Inv(l'.feeds)
  {
    hide Held, Inv, Renewed, Swept, Feeds.Next, KeepsOff;
    match e
    case ERenew(symbols, now, ttl) => RenewHolds(l, symbols, now + ttl, route);
    case ESweep(now) => SweepHolds(l, now, route);
    case EFeeds(f) => FeedsHold(l, f, delay, route);
  }

  /** Whatever mixture of renewals, sweeps and feed steps is run, leases and
      lease registrations stay in step, and the feed invariant with them. */
  lemma {:induction false} RunHolds(l: Leased, es: seq<Event>, delay: int, route: Route)
    requires Held(l, route) && Inv(l.feeds)
    requires forall i :: 0 <= i < |es| ==> KeepsOff(es[i])
    ensures Held(Run(l, es, delay, route), route) && Inv(Run(l, es, delay, route).feeds)
  {
    hide Held, Inv, KeepsOff, Next;
    if es != [] {
      RunHolds(l, es[..|es| - 1], delay, route);
      StepHolds(Run(l, es[..|es| - 1], delay, route), es[|es| - 1], delay, route);
    }
  }

  lemma StartsHeld(delay: int, route: Route)
    ensures Held(NoLeases, route) && Inv(NoLeases.feeds)
  {
    RunKeeps([], delay);
  }

  lemma HeldFed(l: Leased, route: Route, sym: string, feed: Feed)
    requires Held(l, route) && Inv(l.feeds) && sym in l.expiry && l.feeds.task == Idle && !l.feeds.pending
    requires route(sym) == Some(feed) && sym != ""
    ensures var s := l.feeds; (sym in Active(s, feed) && feed in s.clients) || (feed in s.failed && feed !in s.clients)
  {
    hide Clean;
    var s := l.feeds;
    assert sym in s.conns[ConnId(sym)].On(feed);
    assert sym in Union(s, feed);
    hide Held, SplitOne;
    assert Settled(s, feed) && ClientIffActive(s, feed);
  }

  /** A sweep drops exactly the leases whose expiry has come. */
  lemma SweepExact(l: Leased, now: int, sym: string)
    ensures sym in Swept(l, now).expiry <==> sym in l.expiry && l.expiry[sym] > now
    ensures ConnId(sym) in Swept(l, now).feeds.conns <==>
            ConnId(sym) in l.feeds.conns && !(sym in l.expiry && l.expiry[sym] <= now)
  {
    InIds(Lapsed(l, now), ConnId(sym));
    OwnId(sym);
  }

  predicate Named(symbols: seq<string>, sym: string) {
    sym != "" && exists i :: 0 <= i < |symbols| && sym == Clean(symbols[i])
  }

  lemma NamedSnoc(symbols: seq<string>, sym: string)
    requires symbols != []
    ensures Named(symbols, sym) <==>
            Named(symbols[..|symbols| - 1], sym) || (sym != "" && sym == Clean(symbols[|symbols| - 1]))
  {
    hide Clean;
    if Named(symbols, sym) {
      var i :| 0 <= i < |symbols| && sym == Clean(symbols[i]);
      assert i < |symbols| - 1 ==> symbols[..|symbols| - 1][i] == symbols[i];
    }
  }

  /** Renewal: every symbol named ends at the new expiry and the others keep theirs. */
  lemma {:induction false} RenewMeans(l: Leased, symbols: seq<string>, until: int, route: Route)
    ensures var l' := Renewed(l, symbols, until, route);
            forall sym ::
              && (sym in l'.expiry <==> sym in l.expiry || Named(symbols, sym))
              && (sym in l'.expiry ==> l'.expiry[sym] == if Named(symbols, sym) then until else l.expiry[sym])
  {
    hide Named, Clean, Register, SplitOne;
    if symbols == [] {
      forall sym ensures !Named(symbols, sym) { NoneNamed(sym); }
    } else {
      RenewMeans(l, symbols[..|symbols| - 1], until, route);
      forall sym { NamedSnoc(symbols, sym); }
    }
  }

  lemma NoneNamed(sym: string)
    ensures !Named([], sym)
  {
  }

  /** Renewing leases that are all held does not touch the feeds, so it calls
      for no rebuild; a lease not held yet does call for one. */
  lemma {:induction false} RenewQuiet(l: Leased, symbols: seq<string>, until: int, route: Route)
    ensures var l' := Renewed(l, symbols, until, route);
            if forall sym :: Named(symbols, sym) ==> sym in l.expiry then l'.feeds == l.feeds else l'.feeds.pending
  {
    hide Named, Clean, SplitOne;
    if symbols == [] {
      forall sym ensures !Named(symbols, sym) { NoneNamed(sym); }
    } else {
      var n := |symbols| - 1;
      RenewQuiet(l, symbols[..n], until, route);
      RenewMeans(l, symbols[..n], until, route);
      forall sym { NamedSnoc(symbols, sym); }
      if sym :| Named(symbols, sym) && sym !in l.expiry {
        assert !Named(symbols[..n], sym) ==> sym == Clean(symbols[n]);
      }
    }
  }

  /** A lease good until `at` is still held, with its registration, after every
      run in which no sweep happens at `at` or later and no renewal shortens it. */
  lemma {:induction false} LeaseLasts(l: Leased, es: seq<Event>, delay: int, route: Route, sym: string, at: int)
    requires Held(l, route) && Inv(l.feeds) && sym in l.expiry && l.expiry[sym] >= at
    requires forall i :: 0 <= i < |es| ==>
               && KeepsOff(es[i]) && (es[i].ESweep? ==> es[i].now < at)
               && (es[i].ERenew? && Named(es[i].symbols, sym) ==> es[i].now + es[i].ttl >= at)
    ensures var l' := Run(l, es, delay, route);
            sym in l'.expiry && l'.expiry[sym] >= at && ConnId(sym) in l'.feeds.conns
  {
    hide Held, Inv, Next, KeepsOff, Named;
    RunHolds(l, es, delay, route);
    if es != [] {
      var n := |es| - 1;
      LeaseLasts(l, es[..n], delay, route, sym, at);
      StillHeld(Run(l, es[..n], delay, route), es[n], delay, route, sym, at);
    }
    HeldConn(Run(l, es, delay, route), route, sym);
  }

  lemma StillHeld(l: Leased, e: Event, delay: int, route: Route, sym: string, at: int)
    requires sym in l.expiry && l.expiry[sym] >= at && (e.ESweep? ==> e.now < at)
    requires e.ERenew? && Named(e.symbols, sym) ==> e.now + e.ttl >= at
    ensures var l' := Next(l, e, delay, route); sym in l'.expiry && l'.expiry[sym] >= at
  {
    hide Named, Feeds.Next, Renewed;
    if e.ERenew? { RenewMeans(l, e.symbols, e.now + e.ttl, route); }
  }

  lemma HeldConn(l: Leased, route: Route, sym: string)
    requires Held(l, route) && sym in l.expiry
    ensures ConnId(sym) in l.feeds.conns
  {
  }

  /** `sym` was last renewed by the `i`-th step, to `at`, and no sweep has come at
      that time or after it since. */
  ghost predicate Granted(es: seq<Event>, i: nat, sym: string, at: int) {
    && i < |es| && es[i].ERenew? && Named(es[i].symbols, sym) && at == es[i].now + es[i].ttl
    && (forall k :: i < k < |es| && es[k].ERenew? ==> !Named(es[k].symbols, sym))
    && (forall k :: i < k < |es| && es[k].ESweep? ==> es[k].now < at)
  }

  /** Which leases a history leaves: those last renewed to a time no sweep since
      has reached. */
  lemma {:induction false} LeaseIs(es: seq<Event>, delay: int, route: Route, sym: string, at: int)
    ensures var l := Run(NoLeases, es, delay, route);
            sym in l.expiry && l.expiry[sym] == at <==> exists i :: Granted(es, i, sym, at)
  {
    if es != [] {
      var n := |es| - 1;
      LeaseIs(es[..n], delay, route, sym, at);
      StepGrants(Run(NoLeases, es[..n], delay, route), es[n], delay, route, sym, at);
      GrantedSnoc(es[..n], es[n], sym, at);
      assert es == es[..n] + [es[n]];
      hide Granted, Next;
    }
  }

  lemma StepGrants(l: Leased, e: Event, delay: int, route: Route, sym: string, at: int)
    ensures var l' := Next(l, e, delay, route);
            sym in l'.expiry && l'.expiry[sym] == at <==>
              if e.ERenew? && Named(e.symbols, sym) then at == e.now + e.ttl
              else sym in l.expiry && l.expiry[sym] == at && (e.ESweep? ==> e.now < at)
  {
    hide Named, Feeds.Next, Renewed;
    if e.ERenew? { RenewMeans(l, e.symbols, e.now + e.ttl, route); }
  }

  lemma GrantedAt(es: seq<Event>, e: Event, sym: string, at: int, i: nat)
    ensures Granted(es + [e], i, sym, at) <==>
            if e.ERenew? && Named(e.symbols, sym) then i == |es| && at == e.now + e.ttl
            else Granted(es, i, sym, at) && (e.ESweep? ==> e.now < at)
  {
    hide Named;
    var all := es + [e];
    assert forall k :: 0 <= k < |es| ==> all[k] == es[k];
    assert all[|es|] == e;
    if i < |es| && es[i].ERenew? && Named(es[i].symbols, sym) && at == es[i].now + es[i].ttl {
      assert (forall k :: i < k < |all| && all[k].ERenew? ==> !Named(all[k].symbols, sym)) <==>
             (forall k :: i < k < |es| && es[k].ERenew? ==> !Named(es[k].symbols, sym))
             && !(e.ERenew? && Named(e.symbols, sym));
      assert (forall k :: i < k < |all| && all[k].ESweep? ==> all[k].now < at) <==>
             (forall k :: i < k < |es| && es[k].ESweep? ==> es[k].now < at) && (e.ESweep? ==> e.now < at);
    }
  }

  lemma GrantedSnoc(es: seq<Event>, e: Event, sym: string, at: int)
    ensures (exists i :: Granted(es + [e], i, sym, at)) <==>
            if e.ERenew? && Named(e.symbols, sym) then at == e.now + e.ttl
            else (exists i :: Granted(es, i, sym, at)) && (e.ESweep? ==> e.now < at)
  {
    hide Named, Granted;
    forall i: nat { GrantedAt(es, e, sym, at, i); }
    if e.ERenew? && Named(e.symbols, sym) { assert at == e.now + e.ttl ==> Granted(es + [e], |es|, sym, at); }
    if i: nat :| Granted(es, i, sym, at) && (e.ESweep? ==> e.now < at) && !(e.ERenew? && Named(e.symbols, sym)) {
      assert Granted(es + [e], i, sym, at);
    }
  }

  /** So a symbol whose lease a history leaves standing is registered under its
      lease's name, and fed once no rebuild is running or due, unless its feed's
      client failed to start. */
  lemma LeaseFed(es: seq<Event>, delay: int, route: Route, sym: string, feed: Feed, i: nat, at: int)
    requires forall i :: 0 <= i < |es| ==> KeepsOff(es[i])
    requires Granted(es, i, sym, at) && route(sym) == Some(feed)
    ensures var s := Run(NoLeases, es, delay, route).feeds;
            && "lease:" + sym in s.conns && s.conns["lease:" + sym].On(feed) == {sym}
            && (s.task == Idle && !s.pending ==>
                  (sym in Active(s, feed) && feed in s.clients) || (feed in s.failed && feed !in s.clients))
  {
    LeaseIs(es, delay, route, sym, at);
    NamedNonEmpty(es[i].symbols, sym);
    hide *;
    StartsHeld(delay, route);
    RunHolds(NoLeases, es, delay, route);
    HeldNamed(Run(NoLeases, es, delay, route), route, sym, feed);
    if Run(NoLeases, es, delay, route).feeds.task == Idle && !Run(NoLeases, es, delay, route).feeds.pending {
      HeldFed(Run(NoLeases, es, delay, route), route, sym, feed);
    }
  }

  lemma NamedNonEmpty(symbols: seq<string>, sym: string)
    requires Named(symbols, sym)
    ensures sym != ""
  {
  }

  lemma HeldNamed(l: Leased, route: Route, sym: string, feed: Feed)
    requires Held(l, route) && sym in l.expiry && route(sym) == Some(feed) && sym != ""
    ensures "lease:" + sym in l.feeds.conns && l.feeds.conns["lease:" + sym].On(feed) == {sym}
  {
    SplitMeans(sym, route, feed);
    hide Clean, SplitOne;
  }

  /** The connections a history must leave alone: those named as leases are. */
  lemma KeepsOffMeans(e: Event)
    ensures KeepsOff(e) <==>
            !(e.EFeeds? && (e.e.ERegister? || e.e.EUnregister?) && |e.e.id| >= 6 && e.e.id[..6] == "lease:")
  {
  }

  // ---- the registry ---------------------------------------------------

  class LeaseRegistry {
    const manager: FeedManager.Manager
    const ttl: int
    ghost const route: Route
    var expiry: map<string, int>

    ghost function L(): Leased
      reads this, manager
    {
      Leased(expiry, manager.S())
    }

    constructor (manager: FeedManager.Manager, ttl: int, ghost route: Route)
      ensures this.manager == manager && this.ttl == ttl && this.route == route && expiry == map[]
    {
      this.manager, this.ttl := manager, ttl;
      this.route := route;
      expiry := map[];
    }

    method Renew(symbols: seq<string>, now: int, lifetime: Option<int>, split: string -> Wants)
      returns (out: map<string, int>)
      requires forall sym :: split(sym) == SplitOne(sym, route)
      modifies this, manager
      ensures var until := now + (if lifetime.Some? then lifetime.value else ttl);
              && L() == Renewed(old(L()), symbols, until, route)
              && forall sym :: (sym in out <==> Named(symbols, sym)) && (sym in out ==> out[sym] == until)
    {
      hide SplitOne, Named, Clean, Register;
      var until := now + (if lifetime.Some? then lifetime.value else ttl);
      out := map[];
      forall sym { NoneNamed(sym); }
      for i := 0 to |symbols|
        invariant L() == Renewed(old(L()), symbols[..i], until, route)
        invariant forall sym :: (sym in out <==> Named(symbols[..i], sym)) && (sym in out ==> out[sym] == until)
      {
        assert symbols[..i + 1][..i] == symbols[..i];
        ghost var upto := symbols[..i + 1];
        forall sym
          ensures Named(upto, sym) <==> Named(upto[..i], sym) || (sym != "" && sym == Clean(upto[i]))
        {
          NamedSnoc(upto, sym);
        }
        var sym := Clean(symbols[i]);
        if sym != "" {
          if sym !in expiry {
            manager.Register(ConnId(sym), split(sym));
          }
          expiry := expiry[sym := until];
          out := out[sym := expiry[sym]];
        }
      }
      assert symbols[..|symbols|] == symbols;
    }

    method Sweep(now: int) returns (dead: set<string>)
      modifies this, manager
      ensures dead == Lapsed(old(L()), now)
      ensures L() == Swept(old(L()), now)
    {
      dead := set sym | sym in expiry && expiry[sym] <= now;
      ghost var was := L();
      var left := dead;
      DroppedNone(was);
      assert dead - left == {};
      while left != {}
        invariant left <= dead
        invariant L() == Dropped(was, dead - left)
        decreases |left|
      {
        hide Dropped;
        var sym :| sym in left;
        DroppedOne(was, dead - left, sym);
        assert dead - (left - {sym}) == dead - left + {sym};
        left := left - {sym};
        expiry := expiry - {sym};
        manager.Unregister(ConnId(sym));
      }
      assert dead - left == dead;
    }
  }

  lemma DroppedNone(l: Leased)
    ensures Dropped(l, {}) == l
  {
    assert Ids({}) == {};
  }

  lemma DroppedOne(l: Leased, dead: set<string>, sym: string)
    ensures var m := Dropped(l, dead);
            Dropped(l, dead + {sym}) == Leased(m.expiry - {sym}, Unregister(m.feeds, ConnId(sym)))
  {
    assert Ids(dead + {sym}) == Ids(dead) + {ConnId(sym)};
  }
}
