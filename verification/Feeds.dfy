/** Live-feed subscriptions (live-grid/app/feeds.py): grid connections come and
    go, and one vendor client per feed is kept on the union of what they want.

    The run loop is one task; connections are handled by others. Control moves
    between them only at an `await`, so each step below ends at one. */
module Feeds {
  import opened Options

  datatype Feed = Us | Crypto | Forex

  const FEEDS := [Us, Crypto, Forex]
  const LIVENESS_INTERVAL := 60
  const STALE_AFTER := 300

  function Rank(feed: Feed): (k: nat)
    ensures k < |FEEDS| && FEEDS[k] == feed
    ensures forall j :: 0 <= j < |FEEDS| && FEEDS[j] == feed ==> j == k
  {
    match feed case Us => 0 case Crypto => 1 case Forex => 2
  }

  /** The symbols of one connection, split by feed. */
  datatype Wants = Wants(us: set<string>, crypto: set<string>, forex: set<string>) {
    function On(feed: Feed): set<string> {
      match feed case Us => us case Crypto => crypto case Forex => forex
    }
  }

  /** Where the run loop stands. `Stopping` and `Killing` are the awaits inside a
      rebuild and inside a liveness teardown; `Closing` is the final shutdown. */
  datatype Task =
    | Idle
    | Stopping(i: nat, want: set<string>)
    | Killing(feed: Feed, rest: seq<Feed>, now: int)
    | Closing
    | Ended

  /** The manager's fields. `failed` is history kept for the statements: the
      feeds whose last start attempt failed. */
  datatype State = State(
    conns: map<string, Wants>, dirty: map<string, set<string>>,
    clients: set<Feed>, active: map<Feed, set<string>>, failed: set<Feed>,
    pending: bool, lastRebuild: Option<int>, lastTick: map<Feed, int>, lastLiveness: Option<int>, task: Task)

  const Initial := State(map[], map[], {}, map[], {}, false, None, map[], None, Idle)

  // ---- connections ----------------------------------------------------

  function Marks(s: State, id: string): set<string> {
    if id in s.dirty then s.dirty[id] else {}
  }

  /** `register` is two statements, the dirty set first. */
  function RegisterDirty(s: State, id: string): State {
    s.(dirty := s.dirty[id := Marks(s, id)])
  }

  function RegisterConn(s: State, id: string, w: Wants): State {
    s.(conns := s.conns[id := w], pending := true)
  }

  function Register(s: State, id: string, w: Wants): State {
    RegisterConn(RegisterDirty(s, id), id, w)
  }

  function Unregister(s: State, id: string): State {
    s.(conns := s.conns - {id}, dirty := s.dirty - {id}, pending := true)
  }

  function PopDirty(s: State, id: string): State {
    if id in s.dirty then s.(dirty := s.dirty[id := {}]) else s
  }

  function Union(s: State, feed: Feed): set<string> {
    set id, x | id in s.conns && x in s.conns[id].On(feed) :: x
  }

  function Active(s: State, feed: Feed): set<string> {
    if feed in s.active then s.active[feed] else {}
  }

  // ---- rebuilds -------------------------------------------------------

  /** Whether the vendor client of each feed comes up, this time round. */
  type Starts = Feed -> bool

  /** Start a feed's client on `want`, with none running. */
  function StartFeed(s: State, feed: Feed, want: set<string>, ok: bool, now: int): State {
    if want == {} then s.(active := s.active[feed := {}])
    else if ok then
      s.(clients := s.clients + {feed}, active := s.active[feed := want], failed := s.failed - {feed},
         lastTick := s.lastTick[feed := now])
    else s.(active := s.active[feed := {}], failed := s.failed + {feed})
  }

  /** The rebuild from feed `i` on, up to its next await or its end. */
  function SyncFrom(s: State, i: nat, starts: Starts, now: int): State
    requires i <= |FEEDS|
    decreases |FEEDS| - i
  {
    if i == |FEEDS| then s.(task := Idle)
    else
      var feed := FEEDS[i];
      var want := Union(s, feed);
      if want == Active(s, feed) then SyncFrom(s, i + 1, starts, now)
      else if feed in s.clients then s.(clients := s.clients - {feed}, task := Stopping(i, want))
      else SyncFrom(StartFeed(s, feed, want, starts(feed), now), i + 1, starts, now)
  }

  function BeginSync(s: State, now: int, delay: int, starts: Starts): State {
    if s.task == Idle && s.pending && (s.lastRebuild.None? || now - s.lastRebuild.value >= delay)
    then SyncFrom(s.(pending := false, lastRebuild := Some(now)), 0, starts, now)
    else s
  }

  function ResumeSync(s: State, starts: Starts, now: int): State {
    if s.task.Stopping? && s.task.i < |FEEDS|
    then SyncFrom(StartFeed(s, FEEDS[s.task.i], s.task.want, starts(FEEDS[s.task.i]), now), s.task.i + 1, starts, now)
    else s
  }

  // ---- ticks ----------------------------------------------------------

  /** What the clients' buffers hold: nothing, or the symbols of the ticks that parsed. */
  type Buffers = Feed -> Option<seq<string>>

  /** The symbols of this drain that a connection asked for. */
  function Marked(s: State, buffers: Buffers, id: string): set<string> {
    if id !in s.conns then {}
    else set feed, x | feed in s.clients && buffers(feed).Some? && x in buffers(feed).value
                       && x in s.conns[id].On(feed) :: x
  }

  function Drain(s: State, buffers: Buffers, now: int): State {
    if s.task != Idle then s else
      s.(dirty := map id | id in s.dirty :: s.dirty[id] + Marked(s, buffers, id),
         lastTick := s.lastTick + map feed | feed in s.clients && buffers(feed).Some? :: now)
  }

  // ---- liveness -------------------------------------------------------

  /** Feeds that ought to be ticking at this hour. */
  type Expected = Feed -> bool

  predicate Silent(s: State, feed: Feed, expected: Expected, now: int) {
    expected(feed) && feed in s.lastTick && now - s.lastTick[feed] >= STALE_AFTER
  }

  /** The check over the feeds still to look at, up to its next await or its end. */
  function CheckFrom(s: State, rest: seq<Feed>, expected: Expected, now: int): State
    decreases rest
  {
    if rest == [] then s.(task := Idle)
    else if !Silent(s, rest[0], expected, now) then CheckFrom(s, rest[1..], expected, now)
    else if rest[0] in s.clients then s.(clients := s.clients - {rest[0]}, task := Killing(rest[0], rest[1..], now))
    else CheckFrom(Buried(s, rest[0], now), rest[1..], expected, now)
  }

  function Buried(s: State, feed: Feed, now: int): State {
    s.(active := s.active - {feed}, lastTick := s.lastTick[feed := now], pending := true)
  }

  /** `order` is the order in which the clients are looked at. */
  function BeginCheck(s: State, now: int, order: seq<Feed>, expected: Expected): State {
    if s.task == Idle && Lists(order, s.clients)
       && (s.lastLiveness.None? || now - s.lastLiveness.value >= LIVENESS_INTERVAL)
    then CheckFrom(s.(lastLiveness := Some(now)), order, expected, now)
    else s
  }

  /** Each of the feeds, once. */
  predicate Lists(order: seq<Feed>, feeds: set<Feed>) {
    && (forall f :: f in order <==> f in feeds)
    && forall i, j :: 0 <= i < j < |order| ==> order[i] != order[j]
  }

  function ResumeCheck(s: State, expected: Expected): State {
    if s.task.Killing?
    then CheckFrom(Buried(s, s.task.feed, s.task.now), s.task.rest, expected, s.task.now)
    else s
  }

  // ---- shutdown -------------------------------------------------------

  /** The run loop is cancelled at whatever await it is in. */
  function Cancel(s: State, feed: Feed): State {
    if s.task.Ended? then s else CloseNext(s.(task := Closing), feed)
  }

  /** Stopping one client after another. */
  function CloseNext(s: State, feed: Feed): State {
    if !s.task.Closing? then s
    else if s.clients == {} then s.(active := map[], task := Ended)
    else s.(clients := s.clients - {feed})
  }

  // ---- events and runs ------------------------------------------------

  datatype Event =
    | ERegister(id: string, w: Wants)
    | EUnregister(id: string)
    | EPopDirty(id: string)
    | EBeginSync(now: int, starts: Starts)
    | EResumeSync(now: int, starts: Starts)
    | EDrain(now: int, buffers: Buffers)
    | EBeginCheck(now: int, order: seq<Feed>, expected: Expected)
    | EResumeCheck(expected: Expected)
    | ECancel(feed: Feed)
    | ECloseNext(feed: Feed)

  function Next(s: State, e: Event, delay: int): State {
    match e
    case ERegister(id, w) => Register(s, id, w)
    case EUnregister(id) => Unregister(s, id)
    case EPopDirty(id) => PopDirty(s, id)
    case EBeginSync(now, starts) => BeginSync(s, now, delay, starts)
    case EResumeSync(now, starts) => ResumeSync(s, starts, now)
    case EDrain(now, buffers) => Drain(s, buffers, now)
    case EBeginCheck(now, order, expected) => BeginCheck(s, now, order, expected)
    case EResumeCheck(expected) => ResumeCheck(s, expected)
    case ECancel(feed) => Cancel(s, feed)
    case ECloseNext(feed) => CloseNext(s, feed)
  }

  function Run(s: State, es: seq<Event>, delay: int): State {
    if es == [] then s else Next(Run(s, es[..|es| - 1], delay), es[|es| - 1], delay)
  }

  // ---- the invariant --------------------------------------------------

  /** Whoever can be seen can be marked. */
  predicate Visible(s: State) {
    s.conns.Keys <= s.dirty.Keys
  }

  /** The feed runs what is wanted, or its last start failed and it runs nothing. */
  predicate Settled(s: State, feed: Feed) {
    Active(s, feed) == Union(s, feed) || (feed in s.failed && Active(s, feed) == {})
  }

  predicate ClientIffActive(s: State, feed: Feed) {
    feed in s.clients <==> Active(s, feed) != {}
  }

  predicate Inv(s: State) {
    && Visible(s)
    && match s.task
       case Idle =>
         && (forall feed :: ClientIffActive(s, feed))
         && (!s.pending ==> forall feed :: Settled(s, feed))
       case Stopping(i, want) =>
         && i < |FEEDS| && FEEDS[i] !in s.clients
         && (forall feed :: feed != FEEDS[i] ==> ClientIffActive(s, feed))
         && (!s.pending ==> want == Union(s, FEEDS[i]))
         && (!s.pending ==> forall feed :: Rank(feed) < i ==> Settled(s, feed))
       case Killing(feed, rest, now) =>
         && feed !in s.clients
         && (forall f :: f != feed ==> ClientIffActive(s, f))
       case Closing => true
       case Ended => s.clients == {} && s.active == map[]
  }

  /** A rebuild from feed `i` keeps the invariant, given that the feeds before
      it are settled. */
  lemma {:induction false} SyncKeeps(s: State, i: nat, starts: Starts, now: int)
    requires i <= |FEEDS| && Visible(s)
    requires forall feed :: ClientIffActive(s, feed)
    requires !s.pending ==> forall feed :: Rank(feed) < i ==> Settled(s, feed)
    ensures Inv(SyncFrom(s, i, starts, now))
    decreases |FEEDS| - i
  {
    if i == |FEEDS| {
      SameFeeds(s, s.(task := Idle));
    } else {
      var feed := FEEDS[i];
      var want := Union(s, feed);
      if want == Active(s, feed) {
        assert forall f :: Rank(f) < i + 1 ==> Rank(f) < i || f == feed;
        SyncKeeps(s, i + 1, starts, now);
      } else if feed !in s.clients {
        StartSettles(s, i, want, starts(feed), now);
        SyncKeeps(StartFeed(s, feed, want, starts(feed), now), i + 1, starts, now);
      } else {
        SameFeeds(s.(clients := s.clients - {feed}), SyncFrom(s, i, starts, now));
        OthersKeep(s, s.(clients := s.clients - {feed}), feed);
      }
    }
  }

  /** Starting a feed that has no client leaves every feed with a client exactly
      if it runs something, and settles that feed beside those already settled. */
  lemma StartSettles(s: State, i: nat, want: set<string>, ok: bool, now: int)
    requires i < |FEEDS| && FEEDS[i] !in s.clients
    requires forall feed :: feed != FEEDS[i] ==> ClientIffActive(s, feed)
    requires !s.pending ==> want == Union(s, FEEDS[i])
    requires !s.pending ==> forall feed :: Rank(feed) < i ==> Settled(s, feed)
    ensures var s' := StartFeed(s, FEEDS[i], want, ok, now);
            && (forall feed :: ClientIffActive(s', feed))
            && s'.conns == s.conns && s'.dirty == s.dirty && s'.pending == s.pending
            && (!s'.pending ==> forall feed :: Rank(feed) < i + 1 ==> Settled(s', feed))
  {
    var feed, s' := FEEDS[i], StartFeed(s, FEEDS[i], want, ok, now);
    StartedFeed(s, s', feed, want, ok, now);
    StartAlone(s, s', feed, want, ok, now);
    hide *;
    RankOf(i);
    OthersKeep(s, s', feed);
  }

  lemma RankOf(i: nat)
    requires i < |FEEDS|
    ensures forall feed :: Rank(feed) == i <==> feed == FEEDS[i]
  {
  }

  lemma StartAlone(s: State, s': State, feed: Feed, want: set<string>, ok: bool, now: int)
    requires s' == StartFeed(s, feed, want, ok, now)
    ensures s'.conns == s.conns && s'.dirty == s.dirty && s'.pending == s.pending
    ensures forall f :: f != feed ==> (f in s'.clients <==> f in s.clients) && (f in s'.failed <==> f in s.failed)
    ensures forall f :: f != feed ==>
      (f in s'.active <==> f in s.active) && (f in s.active ==> s'.active[f] == s.active[f])
  {
    if want == {} {
    } else if ok {
    } else {
    }
  }

  lemma StartedFeed(s: State, s': State, feed: Feed, want: set<string>, ok: bool, now: int)
    requires s' == StartFeed(s, feed, want, ok, now) && feed !in s.clients
    ensures ClientIffActive(s', feed)
    ensures want == Union(s, feed) ==> Settled(s', feed)
  {
    hide Union;
    UnionOfConns(s, s');
  }

  /** What is said of the other feeds does not change with this one. */
  lemma OthersKeep(s: State, s': State, feed: Feed)
    requires s'.conns == s.conns
    requires forall f :: f != feed ==> (f in s'.clients <==> f in s.clients) && (f in s'.failed <==> f in s.failed)
    requires forall f :: f != feed ==>
      (f in s'.active <==> f in s.active) && (f in s.active ==> s'.active[f] == s.active[f])
    ensures forall f :: f != feed ==>
      (ClientIffActive(s', f) <==> ClientIffActive(s, f)) && (Settled(s', f) <==> Settled(s, f))
  {
    hide Union;
    UnionOfConns(s, s');
  }

  lemma {:induction false} CheckKeeps(s: State, rest: seq<Feed>, expected: Expected, now: int)
    requires Visible(s)
    requires forall feed :: ClientIffActive(s, feed)
    requires !s.pending ==> forall feed :: Settled(s, feed)
    ensures Inv(CheckFrom(s, rest, expected, now))
    decreases |rest|
  {
    hide Settled, ClientIffActive, Union, Active;
    if rest == [] {
      SameFeeds(s, s.(task := Idle));
    } else if !Silent(s, rest[0], expected, now) {
      CheckKeeps(s, rest[1..], expected, now);
    } else if rest[0] !in s.clients {
      BuriedKeeps(s, rest[0], now);
      CheckKeeps(Buried(s, rest[0], now), rest[1..], expected, now);
    } else {
      OthersKeep(s, CheckFrom(s, rest, expected, now), rest[0]);
    }
  }

  lemma BuriedKeeps(s: State, feed: Feed, now: int)
    requires Visible(s) && feed !in s.clients
    requires forall f :: f != feed ==> ClientIffActive(s, f)
    ensures var s' := Buried(s, feed, now); Visible(s') && s'.pending && forall f :: ClientIffActive(s', f)
  {
    OthersKeep(s, Buried(s, feed, now), feed);
  }

  /** Marking and clock steps. */
  lemma ConnsOnly(s: State, s': State)
    requires s'.conns == s.conns && s'.active == s.active && s'.clients == s.clients && s'.failed == s.failed
    requires s'.pending == s.pending && s'.task == s.task && Inv(s) && Visible(s')
    ensures Inv(s')
  {
    hide Settled, ClientIffActive, Union;
    UnionOfConns(s, s');
    SameFeeds(s, s');
  }

  /** Steps that leave a rebuild due. */
  lemma PendingKeeps(s: State, s': State)
    requires s'.active == s.active && s'.clients == s.clients && s'.failed == s.failed
    requires s'.pending && s'.task == s.task && Inv(s) && Visible(s')
    ensures Inv(s')
  {
    assert forall feed :: ClientIffActive(s', feed) <==> ClientIffActive(s, feed);
  }

  /** Every atomic step keeps the invariant. */
  lemma StepKeeps(s: State, e: Event, delay: int)
    requires Inv(s)
    ensures Inv(Next(s, e, delay))
  {
    hide Settled, ClientIffActive, Union, Active, SyncFrom, CheckFrom, StartFeed, Buried;
    match e
    case ERegister(id, w) => PendingKeeps(s, Register(s, id, w));
    case EUnregister(id) => PendingKeeps(s, Unregister(s, id));
    case EPopDirty(id) => ConnsOnly(s, PopDirty(s, id));
    case EBeginSync(now, starts) =>
      if BeginSync(s, now, delay, starts) != s {
        var s' := s.(pending := false, lastRebuild := Some(now));
        SameFeeds(s, s');
        SyncKeeps(s', 0, starts, now);
      }
    case EResumeSync(now, starts) =>
      if s.task.Stopping? {
        var i := s.task.i;
        StartSettles(s, i, s.task.want, starts(FEEDS[i]), now);
        SyncKeeps(StartFeed(s, FEEDS[i], s.task.want, starts(FEEDS[i]), now), i + 1, starts, now);
      }
    case EDrain(now, buffers) => ConnsOnly(s, Drain(s, buffers, now));
    case EBeginCheck(now, order, expected) =>
      if BeginCheck(s, now, order, expected) != s {
        var s' := s.(lastLiveness := Some(now));
        SameFeeds(s, s');
        CheckKeeps(s', order, expected, now);
      }
    case EResumeCheck(expected) =>
      if s.task.Killing? {
        BuriedKeeps(s, s.task.feed, s.task.now);
        CheckKeeps(Buried(s, s.task.feed, s.task.now), s.task.rest, expected, s.task.now);
      }
    case ECancel(feed) =>
    case ECloseNext(feed) =>
  }

  lemma SameFeeds(s: State, s': State)
    requires s'.conns == s.conns && s'.active == s.active && s'.clients == s.clients && s'.failed == s.failed
    ensures forall feed ::
      (ClientIffActive(s', feed) <==> ClientIffActive(s, feed)) && (Settled(s', feed) <==> Settled(s, feed))
  {
    hide Union;
    UnionOfConns(s, s');
  }

  /** The main safety result: along every run, a visible connection can be
      marked; and whenever no rebuild or teardown is running or due, each feed
      runs exactly the union of what is wanted or failed its last start, and a
      client exists exactly for the feeds that run something. */
  lemma {:induction false} RunKeeps(es: seq<Event>, delay: int)
    ensures var s := Run(Initial, es, delay);
            && Inv(s) && Visible(s)
            && (s.task == Idle && !s.pending ==>
                  forall feed :: Settled(s, feed) && ClientIffActive(s, feed))
  {
    if es != [] {
      RunKeeps(es[..|es| - 1], delay);
      StepKeeps(Run(Initial, es[..|es| - 1], delay), es[|es| - 1], delay);
    }
  }

  // ---- what a rebuild achieves ----------------------------------------

  /** A rebuild run to its end with nobody interfering. */
  function SyncAll(s: State, i: nat, starts: Starts, now: int): State
    requires i <= |FEEDS|
    decreases |FEEDS| - i
  {
    var s' := SyncFrom(s, i, starts, now);
    if s'.task.Stopping? && i <= s'.task.i < |FEEDS|
    then SyncAll(StartFeed(s', FEEDS[s'.task.i], s'.task.want, starts(FEEDS[s'.task.i]), now), s'.task.i + 1, starts,
                 now)
    else s'
  }

  /** One feed's part in an undisturbed rebuild. */
  predicate Rebuilt(s: State, s': State, feed: Feed, starts: Starts) {
    if Union(s, feed) == Active(s, feed) then
      Active(s', feed) == Active(s, feed) && (feed in s'.clients <==> feed in s.clients)
    else if starts(feed) then
      Active(s', feed) == Union(s, feed) && (feed in s'.clients <==> Union(s, feed) != {})
    else Active(s', feed) == {} && feed !in s'.clients
  }

  /** Nothing of this feed has changed. */
  predicate Untouched(s: State, s': State, feed: Feed) {
    Active(s', feed) == Active(s, feed) && (feed in s'.clients <==> feed in s.clients)
  }

  /** A rebuild from feed `i` up to its next await, or its end. */
  predicate Progress(s: State, s': State, i: nat, starts: Starts) {
    && s'.conns == s.conns && s'.pending == s.pending
    && (s'.task == Idle || (s'.task.Stopping? && i <= s'.task.i < |FEEDS|))
    && var upto := if s'.task == Idle then |FEEDS| else s'.task.i;
    && (forall f :: i <= Rank(f) < upto ==> Rebuilt(s, s', f, starts))
    && (forall f :: Rank(f) < i || Rank(f) > upto ==> Untouched(s, s', f))
    && (s'.task.Stopping? ==>
          var f := FEEDS[upto];
          f !in s'.clients && Active(s', f) == Active(s, f)
          && s'.task.want == Union(s, f) && Union(s, f) != Active(s, f))
  }

  lemma {:induction false} SyncFromMeans(s: State, i: nat, starts: Starts, now: int)
    requires i <= |FEEDS|
    ensures Progress(s, SyncFrom(s, i, starts, now), i, starts)
    decreases |FEEDS| - i
  {
    hide Union;
    if i < |FEEDS| {
      hide Active, Progress, Rebuilt;
      var feed := FEEDS[i];
      var want := Union(s, feed);
      if want == Active(s, feed) {
        SyncFromMeans(s, i + 1, starts, now);
        RebuiltHere(s, s, SyncFrom(s, i, starts, now), i, starts);
      } else if feed !in s.clients {
        var s1 := StartFeed(s, feed, want, starts(feed), now);
        StartedOne(s, s1, feed, want, starts(feed), now);
        SyncFromMeans(s1, i + 1, starts, now);
        RebuiltHere(s, s1, SyncFrom(s, i, starts, now), i, starts);
      } else {
        StopsHere(s, SyncFrom(s, i, starts, now), i, starts);
      }
    }
  }

  lemma StopsHere(s: State, s': State, i: nat, starts: Starts)
    requires i < |FEEDS| && Union(s, FEEDS[i]) != Active(s, FEEDS[i])
    requires s' == s.(clients := s.clients - {FEEDS[i]}, task := Stopping(i, Union(s, FEEDS[i])))
    ensures Progress(s, s', i, starts)
  {
    hide Union, Rebuilt;
  }

  /** A rebuild that has dealt with feed `i` and goes on from there. */
  lemma RebuiltHere(s: State, s1: State, s': State, i: nat, starts: Starts)
    requires i < |FEEDS| && s1.conns == s.conns && s1.pending == s.pending
    requires if Union(s, FEEDS[i]) == Active(s, FEEDS[i]) then s1 == s
             else Active(s1, FEEDS[i]) == (if starts(FEEDS[i]) then Union(s, FEEDS[i]) else {})
                  && (FEEDS[i] in s1.clients <==> starts(FEEDS[i]) && Union(s, FEEDS[i]) != {})
    requires forall f :: f != FEEDS[i] ==> Untouched(s, s1, f)
    requires Progress(s1, s', i + 1, starts)
    ensures Progress(s, s', i, starts)
  {
    hide Union, Active;
    UnionOfConns(s, s1);
    var upto := if s'.task == Idle then |FEEDS| else s'.task.i;
    forall f
      ensures i <= Rank(f) < upto ==> Rebuilt(s, s', f, starts)
      ensures Rank(f) < i || Rank(f) > upto ==> Untouched(s, s', f)
    {
      if f == FEEDS[i] { assert Untouched(s1, s', f); }
      else {
        assert Untouched(s, s1, f);
        if i <= Rank(f) < upto { assert Rebuilt(s1, s', f, starts); }
        else if Rank(f) < i || Rank(f) > upto { assert Untouched(s1, s', f); }
      }
    }
    assert s'.task.Stopping? ==> Untouched(s, s1, FEEDS[upto]);
  }

  /** Undisturbed, a rebuild puts every feed on the union of what is wanted, or
      leaves it down if its client fails to start, and does not touch the
      client of a feed whose wanted set is unchanged. */
  lemma {:induction false} SyncReaches(s: State, i: nat, starts: Starts, now: int)
    requires i <= |FEEDS|
    ensures var s' := SyncAll(s, i, starts, now);
            && s'.task == Idle && s'.pending == s.pending && s'.conns == s.conns
            && (forall f :: i <= Rank(f) ==> Rebuilt(s, s', f, starts))
            && (forall f :: Rank(f) < i ==> Untouched(s, s', f))
    decreases |FEEDS| - i
  {
    hide Union, Active, Rebuilt, Untouched;
    SyncFromMeans(s, i, starts, now);
    var s' := SyncFrom(s, i, starts, now);
    if s'.task.Stopping? && i <= s'.task.i < |FEEDS| {
      var feed := FEEDS[s'.task.i];
      var s1 := StartFeed(s', feed, s'.task.want, starts(feed), now);
      SyncReaches(s1, s'.task.i + 1, starts, now);
      Reached(s, s', s1, SyncAll(s, i, starts, now), i, starts, now);
    }
  }

  lemma Reached(s: State, s': State, s1: State, end: State, i: nat, starts: Starts, now: int)
    requires Progress(s, s', i, starts) && s'.task.Stopping?
    requires s1 == StartFeed(s', FEEDS[s'.task.i], s'.task.want, starts(FEEDS[s'.task.i]), now)
    requires forall f :: s'.task.i + 1 <= Rank(f) ==> Rebuilt(s1, end, f, starts)
    requires forall f :: Rank(f) < s'.task.i + 1 ==> Untouched(s1, end, f)
    ensures forall f :: i <= Rank(f) ==> Rebuilt(s, end, f, starts)
    ensures forall f :: Rank(f) < i ==> Untouched(s, end, f)
  {
    hide Union, Active;
    var feed := FEEDS[s'.task.i];
    UnionOfConns(s, s');
    UnionOfConns(s, s1);
    StartedOne(s', s1, feed, s'.task.want, starts(feed), now);
    forall f ensures if i <= Rank(f) then Rebuilt(s, end, f, starts) else Untouched(s, end, f) {
      if f != feed {
        assert Untouched(s', s1, f);
        if i <= Rank(f) < s'.task.i { assert Rebuilt(s, s', f, starts) && Untouched(s1, end, f); }
        else if Rank(f) < i { assert Untouched(s, s', f) && Untouched(s1, end, f); }
        else { assert Rank(f) > s'.task.i; assert Untouched(s, s', f) && Rebuilt(s1, end, f, starts); }
      } else {
        assert Untouched(s1, end, f);
      }
    }
  }

  lemma StartedOne(s: State, s1: State, feed: Feed, want: set<string>, ok: bool, now: int)
    requires s1 == StartFeed(s, feed, want, ok, now) && feed !in s.clients
    ensures s1.conns == s.conns && s1.pending == s.pending
    ensures forall f :: f != feed ==> Untouched(s, s1, f)
    ensures Active(s1, feed) == (if ok then want else {})
    ensures feed in s1.clients <==> ok && want != {}
  {
  }

  lemma UnionOfConns(s: State, s': State)
    requires s'.conns == s.conns
    ensures forall f :: Union(s', f) == Union(s, f)
  {
  }

  // ---- ticks are not lost ---------------------------------------------

  /** The marks a run hands to the reader of `id`, and those its drains make. */
  function Popped(s: State, es: seq<Event>, delay: int, id: string): set<string> {
    if es == [] then {} else
      var n := |es| - 1;
      Popped(s, es[..n], delay, id) +
      if es[n] == EPopDirty(id) then Marks(Run(s, es[..n], delay), id) else {}
  }

  function Made(s: State, es: seq<Event>, delay: int, id: string): set<string> {
    if es == [] then {} else
      var n := |es| - 1;
      Made(s, es[..n], delay, id) +
      if es[n].EDrain? && Run(s, es[..n], delay).task == Idle
      then Marked(Run(s, es[..n], delay), es[n].buffers, id) else {}
  }

  /** While a connection stays registered, what its reader has popped and what
      is still marked are together exactly what was marked at first and what
      the drains marked since: no tick is lost and none invented. */
  lemma {:induction false} NoMarkLost(s: State, es: seq<Event>, delay: int, id: string)
    requires Inv(s) && id in s.conns
    requires forall i :: 0 <= i < |es| ==> es[i] != EUnregister(id)
    ensures var s' := Run(s, es, delay);
            && id in s'.conns && Inv(s')
            && Popped(s, es, delay, id) + Marks(s', id) == Marks(s, id) + Made(s, es, delay, id)
  {
    if es != [] {
      var n := |es| - 1;
      NoMarkLost(s, es[..n], delay, id);
      var mid := Run(s, es[..n], delay);
      StepKeeps(mid, es[n], delay);
      MarksOfStep(mid, es[n], delay, id);
    }
  }

  lemma MarksOfStep(s: State, e: Event, delay: int, id: string)
    requires Inv(s) && id in s.conns && e != EUnregister(id)
    ensures var s' := Next(s, e, delay);
            && id in s'.conns
            && Marks(s', id) == if e == EPopDirty(id) then {}
                                else if e.EDrain? && s.task == Idle then Marks(s, id) + Marked(s, e.buffers, id)
                                else Marks(s, id)
  {
    hide SyncFrom, CheckFrom;
    match e
    case EBeginSync(now, starts) => SyncKeepsMarks(s.(pending := false, lastRebuild := Some(now)), 0, starts, now);
    case EResumeSync(now, starts) =>
      if s.task.Stopping? {
        SyncKeepsMarks(StartFeed(s, FEEDS[s.task.i], s.task.want, starts(FEEDS[s.task.i]), now), s.task.i + 1, starts,
                       now);
      }
    case EBeginCheck(now, order, expected) =>
      CheckKeepsMarks(s.(lastLiveness := Some(now)), order, expected, now);
    case EResumeCheck(expected) =>
      if s.task.Killing? {
        CheckKeepsMarks(Buried(s, s.task.feed, s.task.now), s.task.rest, expected, s.task.now);
      }
    case _ =>
  }

  lemma {:induction false} SyncKeepsMarks(s: State, i: nat, starts: Starts, now: int)
    requires i <= |FEEDS|
    ensures var s' := SyncFrom(s, i, starts, now); s'.conns == s.conns && s'.dirty == s.dirty
    decreases |FEEDS| - i
  {
    hide Union, Active;
    if i < |FEEDS| {
      SyncKeepsMarks(s, i + 1, starts, now);
      SyncKeepsMarks(StartFeed(s, FEEDS[i], Union(s, FEEDS[i]), starts(FEEDS[i]), now), i + 1, starts, now);
    }
  }

  lemma {:induction false} CheckKeepsMarks(s: State, rest: seq<Feed>, expected: Expected, now: int)
    ensures var s' := CheckFrom(s, rest, expected, now); s'.conns == s.conns && s'.dirty == s.dirty
    decreases |rest|
  {
    if rest != [] {
      CheckKeepsMarks(s, rest[1..], expected, now);
      CheckKeepsMarks(Buried(s, rest[0], now), rest[1..], expected, now);
    }
  }

  // ---- zombie feeds ---------------------------------------------------

  /** A client that ought to be ticking and has not been heard for five minutes. */
  ghost predicate Zombie(s: State, feed: Feed, expected: Expected, now: int) {
    feed in s.clients && expected(feed) && feed in s.lastTick && now - s.lastTick[feed] >= 300
  }

  /** What is said of one feed since `s0`, torn down or left alone. */
  ghost predicate Handled(s0: State, s: State, feed: Feed, torn: bool, now: int) {
    if torn then feed !in s.clients && feed !in s.active && feed in s.lastTick && s.lastTick[feed] == now && s.pending
    else
      && (feed in s.clients <==> feed in s0.clients)
      && (feed in s.active <==> feed in s0.active) && (feed in s.active ==> s.active[feed] == s0.active[feed])
      && (feed in s.lastTick <==> feed in s0.lastTick)
      && (feed in s.lastTick ==> s.lastTick[feed] == s0.lastTick[feed])
  }

  /** The first `n` of the clients listed have been looked at. */
  ghost predicate Looked(s0: State, s: State, order: seq<Feed>, n: nat, expected: Expected, now: int) {
    && n <= |order|
    && forall f :: Handled(s0, s, f, f in order[..n] && Zombie(s0, f, expected, now), now)
  }

  /** The check has ended, or awaits the stop of one zombie's client. */
  ghost predicate Underway(s0: State, s: State, order: seq<Feed>, expected: Expected, now: int) {
    match s.task
    case Idle => Looked(s0, s, order, |order|, expected, now)
    case Killing(feed, rest, at) =>
      && at == now && |rest| < |order|
      && var n := |order| - |rest| - 1;
         && order[n] == feed && order[n + 1..] == rest && Zombie(s0, feed, expected, now) && feed !in s.clients
         && Looked(s0, s.(clients := s.clients + {feed}), order, n, expected, now)
    case _ => false
  }

  /** How often the check can still wait. */
  function Waits(s: State): nat {
    if s.task.Killing? then |s.task.rest| + 1 else 0
  }

  lemma {:induction false} LooksOn(s0: State, s: State, order: seq<Feed>, n: nat, expected: Expected, now: int)
    requires n <= |order| && Lists(order, s0.clients) && Looked(s0, s, order, n, expected, now)
    ensures var s' := CheckFrom(s, order[n..], expected, now);
            Underway(s0, s', order, expected, now) && Waits(s') <= |order| - n && s'.lastLiveness == s.lastLiveness
    decreases |order| - n
  {
    hide Zombie, Handled, Silent, Looked;
    var rest := order[n..];
    if rest == [] {
      LookedSame(s0, s, s.(task := Idle), order, n, expected, now);
    } else {
      assert rest[0] == order[n] && rest[1..] == order[n + 1..];
      StillThere(s0, s, order, n, expected, now);
      if Silent(s, order[n], expected, now) {
        KillingNow(s0, s, order, n, expected, now);
      } else {
        LooksOn(s0, s, order, n + 1, expected, now);
      }
    }
  }

  lemma StillThere(s0: State, s: State, order: seq<Feed>, n: nat, expected: Expected, now: int)
    requires Lists(order, s0.clients) && Looked(s0, s, order, n, expected, now) && n < |order|
    ensures order[n] in s.clients
    ensures Silent(s, order[n], expected, now) <==> Zombie(s0, order[n], expected, now)
    ensures !Zombie(s0, order[n], expected, now) ==> Looked(s0, s, order, n + 1, expected, now)
  {
    var f := order[n];
    assert f in order && f !in order[..n] && order[..n + 1] == order[..n] + [f];
    assert Handled(s0, s, f, f in order[..n] && Zombie(s0, f, expected, now), now);
  }

  lemma KillingNow(s0: State, s: State, order: seq<Feed>, n: nat, expected: Expected, now: int)
    requires Looked(s0, s, order, n, expected, now) && n < |order| && order[n] in s.clients
    requires Zombie(s0, order[n], expected, now)
    ensures Underway(s0, s.(clients := s.clients - {order[n]}, task := Killing(order[n], order[n + 1..], now)), order,
                     expected, now)
  {
    var s' := s.(clients := s.clients - {order[n]}, task := Killing(order[n], order[n + 1..], now));
    assert s'.clients + {order[n]} == s.clients;
  }

  lemma {:induction false} ResumesOn(s0: State, s: State, order: seq<Feed>, expected: Expected, now: int)
    requires Lists(order, s0.clients) && Underway(s0, s, order, expected, now) && s.task.Killing?
    ensures var s' := ResumeCheck(s, expected);
            Underway(s0, s', order, expected, now) && Waits(s') < Waits(s) && s'.lastLiveness == s.lastLiveness
  {
    var f, rest := s.task.feed, s.task.rest;
    var n := |order| - |rest| - 1;
    var buried := Buried(s, f, now);
    assert order[..n + 1] == order[..n] + [f];
    forall g ensures Handled(s0, buried, g, g in order[..n + 1] && Zombie(s0, g, expected, now), now) {
      assert Handled(s0, s.(clients := s.clients + {f}), g, g in order[..n] && Zombie(s0, g, expected, now), now);
    }
    LooksOn(s0, buried, order, n + 1, expected, now);
  }

  /** What may happen while a check waits: connections come, go and are read. */
  predicate OfConns(e: Event) {
    e.ERegister? || e.EUnregister? || e.EPopDirty?
  }

  lemma ConnsPass(s0: State, s: State, order: seq<Feed>, expected: Expected, now: int, e: Event, delay: int)
    requires Underway(s0, s, order, expected, now) && OfConns(e)
    ensures var s' := Next(s, e, delay);
            Underway(s0, s', order, expected, now) && Waits(s') == Waits(s) && s'.lastLiveness == s.lastLiveness
  {
    var s' := Next(s, e, delay);
    assert s'.clients == s.clients && s'.active == s.active && s'.lastTick == s.lastTick && s'.task == s.task;
    assert (s.pending ==> s'.pending) && s'.lastLiveness == s.lastLiveness;
    hide Next, Zombie, OfConns;
    if s.task.Killing? {
      var f := s.task.feed;
      LookedSame(s0, s.(clients := s.clients + {f}), s'.(clients := s'.clients + {f}), order,
                 |order| - |s.task.rest| - 1, expected, now);
    } else {
      LookedSame(s0, s, s', order, |order|, expected, now);
    }
  }

  lemma LookedSame(s0: State, s: State, s': State, order: seq<Feed>, n: nat, expected: Expected, now: int)
    requires Looked(s0, s, order, n, expected, now) && (s.pending ==> s'.pending)
    requires s'.clients == s.clients && s'.active == s.active && s'.lastTick == s.lastTick
    ensures Looked(s0, s', order, n, expected, now)
  {
    hide Zombie;
    forall f ensures Handled(s0, s', f, f in order[..n] && Zombie(s0, f, expected, now), now) {
      assert Handled(s0, s, f, f in order[..n] && Zombie(s0, f, expected, now), now);
    }
  }

  function Resumes(es: seq<Event>): nat {
    if es == [] then 0 else Resumes(es[..|es| - 1]) + if es[|es| - 1].EResumeCheck? then 1 else 0
  }

  lemma {:induction false} ResumesAre(es: seq<Event>)
    ensures Resumes(es) == |set k | 0 <= k < |es| && es[k].EResumeCheck?|
  {
    var all := set k | 0 <= k < |es| && es[k].EResumeCheck?;
    if es == [] {
      assert all == {};
    } else {
      var n := |es| - 1;
      ResumesAre(es[..n]);
      var before := set k | 0 <= k < n && es[..n][k].EResumeCheck?;
      assert all == before + if es[n].EResumeCheck? then {n} else {};
    }
  }

  lemma {:induction false} CheckRuns(s0: State, now: int, order: seq<Feed>, expected: Expected, es: seq<Event>,
                                     delay: int)
    requires s0.task == Idle && Lists(order, s0.clients)
    requires s0.lastLiveness.None? || now - s0.lastLiveness.value >= 60
    requires forall i :: 0 <= i < |es| ==> OfConns(es[i]) || es[i] == EResumeCheck(expected)
    ensures var s := Run(Next(s0, EBeginCheck(now, order, expected), delay), es, delay);
            && Underway(s0, s, order, expected, now) && s.lastLiveness == Some(now)
            && (s.task == Idle || Waits(s) + Resumes(es) <= |order|)
  {
    hide Underway, CheckFrom, Lists;
    if es == [] {
      BeginsLooking(s0, now, order, expected, delay);
    } else {
      var n := |es| - 1;
      CheckRuns(s0, now, order, expected, es[..n], delay);
      var s := Run(Next(s0, EBeginCheck(now, order, expected), delay), es[..n], delay);
      if OfConns(es[n]) {
        ConnsPass(s0, s, order, expected, now, es[n], delay);
      } else if s.task.Killing? {
        ResumesOn(s0, s, order, expected, now);
      } else {
        UnderwayTask(s0, s, order, expected, now);
      }
    }
  }

  lemma UnderwayTask(s0: State, s: State, order: seq<Feed>, expected: Expected, now: int)
    requires Underway(s0, s, order, expected, now)
    ensures s.task.Idle? || s.task.Killing?
  {
  }

  lemma BeginsLooking(s0: State, now: int, order: seq<Feed>, expected: Expected, delay: int)
    requires s0.task == Idle && Lists(order, s0.clients)
    requires s0.lastLiveness.None? || now - s0.lastLiveness.value >= 60
    ensures var s := Next(s0, EBeginCheck(now, order, expected), delay);
            Underway(s0, s, order, expected, now) && s.lastLiveness == Some(now) && Waits(s) <= |order|
  {
    hide CheckFrom;
    var s := s0.(lastLiveness := Some(now));
    assert order[0..] == order;
    assert Looked(s0, s, order, 0, expected, now);
    LooksOn(s0, s, order, 0, expected, now);
  }

  /** A check, a minute after the last one at least, tears down exactly the zombies:
      once it has ended, whoever registered or left meanwhile, a client is gone,
      its feed empty, its clock set and a rebuild due if it ought to tick and has
      not for five minutes, and every other feed is as it was. It ends after at
      most one wait a client; a check too soon does nothing. */
  lemma ZombiesFall(s0: State, now: int, order: seq<Feed>, expected: Expected, es: seq<Event>, delay: int, f: Feed)
    requires s0.task == Idle && Lists(order, s0.clients)
    requires forall i :: 0 <= i < |es| ==>
               es[i].ERegister? || es[i].EUnregister? || es[i].EPopDirty? || es[i] == EResumeCheck(expected)
    ensures s0.lastLiveness.Some? && now - s0.lastLiveness.value < 60 ==>
      Next(s0, EBeginCheck(now, order, expected), delay) == s0
    ensures s0.lastLiveness.None? || now - s0.lastLiveness.value >= 60 ==>
      var s := Run(Next(s0, EBeginCheck(now, order, expected), delay), es, delay);
      var zombie := f in s0.clients && expected(f) && f in s0.lastTick && now - s0.lastTick[f] >= 300;
      && s.lastLiveness == Some(now)
      && (|set k | 0 <= k < |es| && es[k].EResumeCheck?| >= |order| ==> s.task == Idle)
      && (s.task == Idle && zombie ==>
          f !in s.clients && f !in s.active && f in s.lastTick && s.lastTick[f] == now && s.pending)
      && (s.task == Idle && !zombie ==>
          && (f in s.clients <==> f in s0.clients)
          && (f in s.active <==> f in s0.active) && (f in s.active ==> s.active[f] == s0.active[f])
          && (f in s.lastTick <==> f in s0.lastTick) && (f in s.lastTick ==> s.lastTick[f] == s0.lastTick[f]))
  {
    if s0.lastLiveness.None? || now - s0.lastLiveness.value >= 60 {
      hide CheckFrom;
      CheckRuns(s0, now, order, expected, es, delay);
      ResumesAre(es);
      var s := Run(Next(s0, EBeginCheck(now, order, expected), delay), es, delay);
      hide Run, Next;
      if s.task == Idle {
        assert order[..|order|] == order;
        assert Handled(s0, s, f, f in order[..|order|] && Zombie(s0, f, expected, now), now);
      }
    }
  }

  // ---- between the statements of register ------------------------------

  /** The order of the two statements matters: marking first keeps every
      connection markable in between, the other order does not. */
  lemma RegisterOrder(s: State, id: string, w: Wants)
    requires Visible(s)
    ensures Visible(RegisterDirty(s, id)) && Visible(Register(s, id, w))
    ensures Visible(RegisterConn(s, id, w)) <==> id in s.dirty
  {
  }

  // ---- churn is bounded -----------------------------------------------

  /** `feed` was last heard, started or torn down at `at` or later, and the
      check under way, if any, is of that time too and tears down another feed. */
  predicate Fresh(s: State, feed: Feed, at: int) {
    && feed in s.lastTick && s.lastTick[feed] >= at
    && (s.task.Killing? ==> s.task.feed != feed && at <= s.task.now < at + STALE_AFTER)
  }

  lemma {:induction false} CheckWaits(s: State, rest: seq<Feed>, expected: Expected, now: int, feed: Feed, at: int)
    requires feed in s.lastTick && s.lastTick[feed] >= at && at <= now < at + STALE_AFTER
    ensures var s' := CheckFrom(s, rest, expected, now);
            && Fresh(s', feed, at) && (feed in s.clients ==> feed in s'.clients)
    decreases |rest|
  {
    if rest != [] {
      if !Silent(s, rest[0], expected, now) {
        CheckWaits(s, rest[1..], expected, now, feed, at);
      } else if rest[0] !in s.clients {
        CheckWaits(Buried(s, rest[0], now), rest[1..], expected, now, feed, at);
      }
    }
  }

  /** Starting a feed sets no clock back. */
  lemma StartTicks(s: State, started: Feed, want: set<string>, ok: bool, now: int, feed: Feed, at: int)
    requires feed in s.lastTick && s.lastTick[feed] >= at && at <= now
    ensures var s' := StartFeed(s, started, want, ok, now); feed in s'.lastTick && s'.lastTick[feed] >= at
  {
  }

  lemma {:induction false} SyncFresh(s: State, i: nat, starts: Starts, now: int, feed: Feed, at: int)
    requires i <= |FEEDS| && feed in s.lastTick && s.lastTick[feed] >= at && at <= now
    ensures Fresh(SyncFrom(s, i, starts, now), feed, at)
    decreases |FEEDS| - i
  {
    hide Union, Active, StartFeed;
    if i < |FEEDS| {
      SyncFresh(s, i + 1, starts, now, feed, at);
      StartTicks(s, FEEDS[i], Union(s, FEEDS[i]), starts(FEEDS[i]), now, feed, at);
      SyncFresh(StartFeed(s, FEEDS[i], Union(s, FEEDS[i]), starts(FEEDS[i]), now), i + 1, starts, now, feed, at);
    }
  }

  /** The event reads its clock, if at all, in the five minutes from `at` on. */
  ghost predicate Within(e: Event, at: int) {
    e.EBeginSync? || e.EResumeSync? || e.EDrain? || e.EBeginCheck? ==> at <= e.now < at + 300
  }

  /** A teardown resets the clock of its feed. */
  lemma TeardownResets(s: State, expected: Expected)
    requires s.task.Killing?
    ensures Fresh(ResumeCheck(s, expected), s.task.feed, s.task.now)
  {
    CheckWaits(Buried(s, s.task.feed, s.task.now), s.task.rest, expected, s.task.now, s.task.feed, s.task.now);
  }

  lemma {:induction false} StaysFresh(s: State, es: seq<Event>, delay: int, feed: Feed, at: int)
    requires Fresh(s, feed, at)
    requires forall i :: 0 <= i < |es| ==> Within(es[i], at)
    ensures Fresh(Run(s, es, delay), feed, at)
  {
    if es != [] {
      var n := |es| - 1;
      StaysFresh(s, es[..n], delay, feed, at);
      assert Within(es[n], at);
      StepFresh(Run(s, es[..n], delay), es[n], delay, feed, at);
    }
  }

  /** So churn is bounded: whatever happens, no feed is torn down within five
      minutes of its last tick, start or teardown. */
  lemma NoEarlyTeardown(s: State, es: seq<Event>, delay: int, feed: Feed, at: int)
    requires feed in s.lastTick && s.lastTick[feed] >= at
    requires s.task.Killing? ==> s.task.feed != feed && at <= s.task.now < at + 300
    requires forall i ::
               0 <= i < |es| && (es[i].EBeginSync? || es[i].EResumeSync? || es[i].EDrain? || es[i].EBeginCheck?) ==>
                 at <= es[i].now < at + 300
    ensures var s' := Run(s, es, delay);
            && feed in s'.lastTick && s'.lastTick[feed] >= at
            && (s'.task.Killing? ==> s'.task.feed != feed)
  {
    hide Run;
    StaysFresh(s, es, delay, feed, at);
  }

  lemma StepFresh(s: State, e: Event, delay: int, feed: Feed, at: int)
    requires Fresh(s, feed, at) && Within(e, at)
    ensures Fresh(Next(s, e, delay), feed, at)
  {
    hide Union, SyncFrom, CheckFrom, StartFeed;
    match e
    case EBeginSync(now, starts) => SyncFresh(s.(pending := false, lastRebuild := Some(now)), 0, starts, now, feed, at);
    case EResumeSync(now, starts) =>
      if s.task.Stopping? && s.task.i < |FEEDS| {
        StartTicks(s, FEEDS[s.task.i], s.task.want, starts(FEEDS[s.task.i]), now, feed, at);
        SyncFresh(StartFeed(s, FEEDS[s.task.i], s.task.want, starts(FEEDS[s.task.i]), now), s.task.i + 1, starts, now,
                  feed, at);
      }
    case EBeginCheck(now, order, expected) => CheckWaits(s.(lastLiveness := Some(now)), order, expected, now, feed, at);
    case EResumeCheck(expected) =>
      if s.task.Killing? {
        CheckWaits(Buried(s, s.task.feed, s.task.now), s.task.rest, expected, s.task.now, feed, at);
      }
    case _ =>
  }

  // ---- the rules in plain terms ---------------------------------------

  /** Some connection wants the symbol. */
  ghost predicate Asked(s: State, feed: Feed, x: string) {
    exists id :: id in s.conns && x in s.conns[id].On(feed)
  }

  /** Along every run: a connection can be marked; with the loop at rest a client
      exists exactly for the feeds that run something; with no rebuild due either,
      each feed runs exactly the symbols some connection asks for, or nothing if
      its last start failed; a client being stopped is gone, and so is every
      client and subscription after shutdown. */
  lemma RunMeans(es: seq<Event>, delay: int, feed: Feed)
    ensures var s := Run(Initial, es, delay);
            var running := if feed in s.active then s.active[feed] else {};
            && (forall id :: id in s.conns ==> id in s.dirty)
            && (s.task == Idle ==> (feed in s.clients <==> running != {}))
            && (s.task == Idle && !s.pending ==>
                  (forall x :: x in running <==> Asked(s, feed, x)) || (feed in s.failed && running == {}))
            && (s.task.Stopping? ==> s.task.i < 3 && [Us, Crypto, Forex][s.task.i] !in s.clients)
            && (s.task.Stopping? && !s.pending ==>
                  forall x :: x in s.task.want <==> Asked(s, [Us, Crypto, Forex][s.task.i], x))
            && (s.task.Killing? ==> s.task.feed !in s.clients)
            && (s.task == Ended ==> s.clients == {} && s.active == map[])
  {
    RunKeeps(es, delay);
    hide Run;
    var s := Run(Initial, es, delay);
    assert ClientIffActive(s, feed) <==> (feed in s.clients <==> Active(s, feed) != {});
    forall f, x ensures x in Union(s, f) <==> Asked(s, f, x) { }
    hide Union;
    if s.task == Idle && !s.pending { assert Settled(s, feed); }
  }

  /** What starting a feed does, and that it does nothing else. */
  lemma StartMeans(s: State, feed: Feed, want: set<string>, ok: bool, now: int)
    ensures var s' := StartFeed(s, feed, want, ok, now);
            && s' == s.(active := s'.active, clients := s'.clients, failed := s'.failed, lastTick := s'.lastTick)
            && s'.active == s.active[feed := if ok then want else {}]
            && s'.clients == (if ok && want != {} then s.clients + {feed} else s.clients)
            && s'.lastTick == (if ok && want != {} then s.lastTick[feed := now] else s.lastTick)
            && (feed in s'.failed <==> if want == {} then feed in s.failed else !ok)
            && (forall f :: f != feed ==> (f in s'.failed <==> f in s.failed))
  {
  }

  /** A reader takes the marks of its connection and leaves it none. */
  lemma PopMeans(s: State, id: string)
    ensures id !in s.dirty ==> PopDirty(s, id) == s
    ensures id in s.dirty ==>
      PopDirty(s, id) == s.(dirty := PopDirty(s, id).dirty) && PopDirty(s, id).dirty == s.dirty[id := {}]
  {
  }

  /** A check begins exactly when the loop is at rest and the last one a minute
      ago; it looks at each client once. */
  lemma CheckDue(s: State, now: int, order: seq<Feed>, expected: Expected, delay: int)
    ensures var s' := Next(s, EBeginCheck(now, order, expected), delay);
            if && s.task == Idle && (s.lastLiveness.None? || now - s.lastLiveness.value >= 60)
               && (forall f :: f in order <==> f in s.clients)
               && (forall i, j :: 0 <= i < j < |order| ==> order[i] != order[j])
            then s'.lastLiveness == Some(now) else s' == s
  {
    hide CheckFrom;
    if BeginCheck(s, now, order, expected) != s {
      assert order[0..] == order;
      assert Looked(s, s.(lastLiveness := Some(now)), order, 0, expected, now);
      LooksOn(s, s.(lastLiveness := Some(now)), order, 0, expected, now);
    } else if s.task == Idle && Lists(order, s.clients)
              && (s.lastLiveness.None? || now - s.lastLiveness.value >= LIVENESS_INTERVAL) {
      assert order[0..] == order;
      assert Looked(s, s.(lastLiveness := Some(now)), order, 0, expected, now);
      LooksOn(s, s.(lastLiveness := Some(now)), order, 0, expected, now);
    }
  }

  // ---- a rebuild through the loop -------------------------------------

  /** A rebuild goes on from feed `i`. */
  lemma ProgressOn(s: State, s': State, s2: State, starts: Starts, now: int)
    requires Progress(s, s', 0, starts) && s'.task.Stopping?
    requires s2 == ResumeSync(s', starts, now)
    ensures Progress(s, s2, 0, starts) && (s2.task.Stopping? ==> s2.task.i > s'.task.i)
  {
    var i := s'.task.i;
    var feed := FEEDS[i];
    var s1 := StartFeed(s', feed, s'.task.want, starts(feed), now);
    SyncFromMeans(s1, i + 1, starts, now);
    hide Union, Active, SyncFrom, StartFeed;
    StartedOne(s', s1, feed, s'.task.want, starts(feed), now);
    UnionOfConns(s, s');
    UnionOfConns(s, s1);
    var upto := if s2.task == Idle then |FEEDS| else s2.task.i;
    forall f
      ensures 0 <= Rank(f) < upto ==> Rebuilt(s, s2, f, starts)
      ensures Rank(f) > upto ==> Untouched(s, s2, f)
      ensures Rank(f) == upto ==> Active(s2, f) == Active(s, f)
    {
      RebuiltOn(s, s', s1, s2, f, starts);
    }
    hide Rebuilt, Untouched;
  }

  lemma RebuiltOn(s: State, s': State, s1: State, s2: State, f: Feed, starts: Starts)
    requires Progress(s, s', 0, starts) && s'.task.Stopping? && Progress(s1, s2, s'.task.i + 1, starts)
    requires forall g :: g != FEEDS[s'.task.i] ==> Untouched(s', s1, g)
    requires forall g :: Union(s', g) == Union(s, g) && Union(s1, g) == Union(s, g)
    requires Active(s1, FEEDS[s'.task.i]) == (if starts(FEEDS[s'.task.i]) then s'.task.want else {})
    requires FEEDS[s'.task.i] in s1.clients <==> starts(FEEDS[s'.task.i]) && s'.task.want != {}
    ensures var upto := if s2.task == Idle then |FEEDS| else s2.task.i;
            && (Rank(f) < upto ==> Rebuilt(s, s2, f, starts))
            && (Rank(f) > upto ==> Untouched(s, s2, f))
            && (Rank(f) == upto ==> Active(s2, f) == Active(s, f))
  {
    hide Union, Active;
    var i := s'.task.i;
    var upto := if s2.task == Idle then |FEEDS| else s2.task.i;
    if Rank(f) < i {
      assert Rebuilt(s, s', f, starts) && Untouched(s', s1, f) && Untouched(s1, s2, f);
    } else if f == FEEDS[i] {
      assert Untouched(s1, s2, f);
    } else {
      assert Untouched(s, s', f) && Untouched(s', s1, f);
      if Rank(f) < upto { assert Rebuilt(s1, s2, f, starts); }
      else if Rank(f) > upto { assert Untouched(s1, s2, f); }
    }
  }

  lemma {:induction false} RebuildRuns(s: State, now: int, delay: int, starts: Starts, nows: seq<int>)
    requires s.task == Idle && s.pending && (s.lastRebuild.None? || now - s.lastRebuild.value >= delay)
    ensures var s0 := s.(pending := false, lastRebuild := Some(now));
            var s' := Run(Next(s, EBeginSync(now, starts), delay),
                          seq(|nows|, i requires 0 <= i < |nows| => EResumeSync(nows[i], starts)), delay);
            && Progress(s0, s', 0, starts) && (s'.task.Stopping? ==> s'.task.i >= |nows|)
  {
    hide SyncFrom;
    var s0 := s.(pending := false, lastRebuild := Some(now));
    var es := seq(|nows|, i requires 0 <= i < |nows| => EResumeSync(nows[i], starts));
    if nows == [] {
      hide Progress;
      SyncFromMeans(s0, 0, starts, now);
      ProgressFrom(s0, SyncFrom(s0, 0, starts, now), starts);
    } else {
      var n := |nows| - 1;
      RebuildRuns(s, now, delay, starts, nows[..n]);
      assert es[..n] == seq(n, i requires 0 <= i < n => EResumeSync(nows[..n][i], starts));
      hide Progress, ResumeSync, BeginSync;
      var s' := Run(Next(s, EBeginSync(now, starts), delay), es[..n], delay);
      if s'.task.Stopping? {
        ProgressOn(s0, s', ResumeSync(s', starts, nows[n]), starts, nows[n]);
      } else {
        NotStopping(s', starts, nows[n]);
      }
    }
  }

  lemma ProgressFrom(s: State, s': State, starts: Starts)
    requires Progress(s, s', 0, starts)
    ensures s'.task.Stopping? ==> s'.task.i >= 0
  {
  }

  lemma NotStopping(s: State, starts: Starts, now: int)
    requires !s.task.Stopping?
    ensures ResumeSync(s, starts, now) == s
  {
  }

  /** A rebuild begins exactly when the loop is at rest, one is due and the last one
      is `delay` ago; left alone it ends after three waits at most. Then a feed
      that already ran what is asked for is as it was; any other runs exactly that,
      with a client if it is anything, or is down if its client did not start. */
  lemma RebuildMeans(s: State, now: int, delay: int, starts: Starts, nows: seq<int>, f: Feed)
    ensures !(s.task == Idle && s.pending && (s.lastRebuild.None? || now - s.lastRebuild.value >= delay)) ==>
      Next(s, EBeginSync(now, starts), delay) == s
    ensures s.task == Idle && s.pending && (s.lastRebuild.None? || now - s.lastRebuild.value >= delay)
            && |nows| >= 3 ==>
      var s' := Run(Next(s, EBeginSync(now, starts), delay),
                    seq(|nows|, i requires 0 <= i < |nows| => EResumeSync(nows[i], starts)), delay);
      var was := if f in s.active then s.active[f] else {};
      var runs := if f in s'.active then s'.active[f] else {};
      && s'.task == Idle && !s'.pending && s'.conns == s.conns
      && if forall x :: x in was <==> Asked(s, f, x) then runs == was && (f in s'.clients <==> f in s.clients)
         else if starts(f) then
           (forall x :: x in runs <==> Asked(s, f, x)) && (f in s'.clients <==> exists x :: Asked(s, f, x))
         else runs == {} && f !in s'.clients
  {
    hide Run, Next, Progress, Asked;
    if s.task == Idle && s.pending && (s.lastRebuild.None? || now - s.lastRebuild.value >= delay) {
      if |nows| >= 3 {
        RebuildRuns(s, now, delay, starts, nows);
        var s0 := s.(pending := false, lastRebuild := Some(now));
        var s' := Run(Next(s, EBeginSync(now, starts), delay),
                      seq(|nows|, i requires 0 <= i < |nows| => EResumeSync(nows[i], starts)), delay);
        ProgressEnds(s0, s', starts, f);
        RebuiltMeans(s, s0, s', f, starts);
      }
    } else {
      NotDue(s, now, delay, starts);
    }
  }

  lemma NotDue(s: State, now: int, delay: int, starts: Starts)
    requires !(s.task == Idle && s.pending && (s.lastRebuild.None? || now - s.lastRebuild.value >= delay))
    ensures Next(s, EBeginSync(now, starts), delay) == s
  {
  }

  lemma ProgressEnds(s: State, s': State, starts: Starts, f: Feed)
    requires Progress(s, s', 0, starts) && (s'.task.Stopping? ==> s'.task.i >= 3)
    ensures s'.task == Idle && s'.conns == s.conns && s'.pending == s.pending && Rebuilt(s, s', f, starts)
  {
    hide Rebuilt, Untouched;
  }

  lemma RebuiltMeans(s: State, s0: State, s': State, f: Feed, starts: Starts)
    requires Rebuilt(s0, s', f, starts) && s0.conns == s.conns && s0.clients == s.clients && s0.active == s.active
    ensures var was := if f in s.active then s.active[f] else {};
            var runs := if f in s'.active then s'.active[f] else {};
            if forall x :: x in was <==> Asked(s, f, x) then runs == was && (f in s'.clients <==> f in s.clients)
            else if starts(f) then
              (forall x :: x in runs <==> Asked(s, f, x)) && (f in s'.clients <==> exists x :: Asked(s, f, x))
            else runs == {} && f !in s'.clients
  {
    AskedIsUnion(s, s0, f);
    hide Union, Asked;
    var was := if f in s.active then s.active[f] else {};
    assert was == Union(s0, f) <==> forall x :: x in was <==> Asked(s, f, x);
    if x :| x in Union(s0, f) { assert Asked(s, f, x); }
    if x :| Asked(s, f, x) { assert x in Union(s0, f); }
  }

  lemma AskedIsUnion(s: State, s0: State, f: Feed)
    requires s0.conns == s.conns
    ensures forall x :: x in Union(s0, f) <==> Asked(s, f, x)
  {
  }

  // ---- shutdown -------------------------------------------------------

  /** The clients named so far are gone; the loop has ended if they were all of them. */
  ghost predicate Closed(s: State, s': State, named: seq<Feed>) {
    && (forall f :: f in s'.clients ==> f in s.clients && f !in named)
    && (s'.task == Closing || (s'.task == Ended && s'.clients == {} && s'.active == map[]))
  }

  lemma CloseOne(s: State, s': State, named: seq<Feed>, f: Feed)
    requires Closed(s, s', named)
    ensures Closed(s, CloseNext(s', f), named + [f])
    ensures (forall g :: g in s.clients ==> g in named) ==> CloseNext(s', f).task == Ended
  {
    if forall g :: g in s.clients ==> g in named { assert s'.clients == {}; }
  }

  lemma {:induction false} Closes(s: State, feeds: seq<Feed>, delay: int)
    requires s.task != Ended && feeds != []
    ensures var s' := Run(Next(s, ECancel(feeds[0]), delay),
                          seq(|feeds| - 1, i requires 0 <= i < |feeds| - 1 => ECloseNext(feeds[i + 1])), delay);
            && Closed(s, s', feeds)
            && ((forall f :: f in s.clients ==> f in feeds[..|feeds| - 1]) ==> s'.task == Ended)
  {
    var n := |feeds| - 1;
    var es := seq(n, i requires 0 <= i < n => ECloseNext(feeds[i + 1]));
    assert feeds == feeds[..n] + [feeds[n]];
    if n > 0 {
      Closes(s, feeds[..n], delay);
      assert es[..n - 1] == seq(n - 1, i requires 0 <= i < n - 1 => ECloseNext(feeds[..n][i + 1]));
      hide Closed, CloseNext, Cancel;
      CloseOne(s, Run(Next(s, ECancel(feeds[0]), delay), es[..n - 1], delay), feeds[..n], feeds[n]);
    } else {
      hide CloseNext;
      assert Closed(s, s.(task := Closing), []);
      CloseOne(s, s.(task := Closing), [], feeds[0]);
      assert feeds[..n] == [] && [] + [feeds[0]] == feeds;
    }
  }

  /** Cancelled at whatever await, the loop stops its clients one after another;
      once each was named, the next step ends it with nothing running. */
  lemma ShutsDown(s: State, feeds: seq<Feed>, delay: int)
    requires s.task != Ended && feeds != [] && forall f :: f in s.clients ==> f in feeds[..|feeds| - 1]
    ensures var s' := Run(Next(s, ECancel(feeds[0]), delay),
                          seq(|feeds| - 1, i requires 0 <= i < |feeds| - 1 => ECloseNext(feeds[i + 1])), delay);
            s'.task == Ended && s'.clients == {} && s'.active == map[]
  {
    hide Run, Next;
    Closes(s, feeds, delay);
    assert feeds == feeds[..|feeds| - 1] + [feeds[|feeds| - 1]];
  }

  // ---- ticks in plain terms -------------------------------------------

  /** The `k`-th step hands the symbol to the reader of `id`. */
  ghost predicate HandsOver(s: State, es: seq<Event>, delay: int, id: string, x: string, k: nat) {
    k < |es| && es[k] == EPopDirty(id) && var m := Run(s, es[..k], delay); id in m.dirty && x in m.dirty[id]
  }

  /** The `k`-th step drains, with the loop at rest, a tick of the symbol from a feed
      on which `id` asks for it. */
  ghost predicate Ticks(s: State, es: seq<Event>, delay: int, id: string, x: string, k: nat) {
    && k < |es| && es[k].EDrain?
    && var m := Run(s, es[..k], delay);
       && m.task == Idle && id in m.conns
       && exists feed :: feed in m.clients && es[k].buffers(feed).Some? && x in es[k].buffers(feed).value
                         && x in m.conns[id].On(feed)
  }

  lemma {:induction false} PoppedIs(s: State, es: seq<Event>, delay: int, id: string, x: string)
    ensures x in Popped(s, es, delay, id) <==> exists k :: HandsOver(s, es, delay, id, x, k)
  {
    if es != [] {
      var n := |es| - 1;
      PoppedIs(s, es[..n], delay, id, x);
      hide Run;
      forall k | 0 <= k < n
        ensures HandsOver(s, es, delay, id, x, k) <==> HandsOver(s, es[..n], delay, id, x, k)
      {
        assert es[..n][..k] == es[..k];
      }
      assert x in Popped(s, es, delay, id) <==> x in Popped(s, es[..n], delay, id) || HandsOver(s, es, delay, id, x, n);
      if k :| HandsOver(s, es[..n], delay, id, x, k) { assert HandsOver(s, es, delay, id, x, k); }
    }
  }

  lemma {:induction false} MadeIs(s: State, es: seq<Event>, delay: int, id: string, x: string)
    ensures x in Made(s, es, delay, id) <==> exists k :: Ticks(s, es, delay, id, x, k)
  {
    if es != [] {
      var n := |es| - 1;
      MadeIs(s, es[..n], delay, id, x);
      hide Run;
      forall k | 0 <= k < n ensures Ticks(s, es, delay, id, x, k) <==> Ticks(s, es[..n], delay, id, x, k) {
        assert es[..n][..k] == es[..k];
      }
      assert x in Made(s, es, delay, id) <==> x in Made(s, es[..n], delay, id) || Ticks(s, es, delay, id, x, n);
      if k :| Ticks(s, es[..n], delay, id, x, k) { assert Ticks(s, es, delay, id, x, k); }
    }
  }

  /** No tick is lost and none invented: while a connection stays, a symbol is
      marked at the end or was handed to its reader exactly if it was marked at the
      start or a tick of it was drained since. */
  lemma NoTickLost(s: State, es: seq<Event>, delay: int, id: string, x: string)
    requires Inv(s) && id in s.conns
    requires forall i :: 0 <= i < |es| ==> es[i] != EUnregister(id)
    ensures id in s.dirty && id in Run(s, es, delay).dirty
    ensures x in Run(s, es, delay).dirty[id] || (exists k :: HandsOver(s, es, delay, id, x, k)) <==>
            x in s.dirty[id] || exists k :: Ticks(s, es, delay, id, x, k)
  {
    NoMarkLost(s, es, delay, id);
    PoppedIs(s, es, delay, id, x);
    MadeIs(s, es, delay, id, x);
    hide Run, Popped, Made, HandsOver, Ticks;
    assert x in Popped(s, es, delay, id) + Marks(Run(s, es, delay), id) <==>
           x in Marks(s, id) + Made(s, es, delay, id);
  }
}
