/** The feed manager as the object it is (live-grid/app/feeds.py): its methods,
    each run from one await to the next, are proved to take the steps of
    `Feeds`, over which the results about all interleavings are stated. */
module FeedManager {
  import opened Options
  import opened Feeds

  class Manager {
    var conns: map<string, Wants>
    var dirty: map<string, set<string>>
    var clients: set<Feed>
    var active: map<Feed, set<string>>
    var pending: bool
    var lastRebuild: Option<int>
    var lastTick: map<Feed, int>
    var lastLiveness: Option<int>
    var task: Task
    ghost var failed: set<Feed>
    const rebuildDelay: int

    ghost function S(): State
      reads this
    {
      State(conns, dirty, clients, active, failed, pending, lastRebuild, lastTick, lastLiveness, task)
    }

    constructor (delay: int)
      ensures S() == Initial && rebuildDelay == delay
      ensures conns == map[] && dirty == map[] && clients == {} && active == map[] && lastTick == map[] && !pending
              && lastRebuild.None? && lastLiveness.None? && task == Idle
    {
      conns, dirty, clients, active, lastTick := map[], map[], {}, map[], map[];
      pending, lastRebuild, lastLiveness, task := false, None, None, Idle;
      rebuildDelay := delay;
      failed := {};
    }

    method Register(id: string, w: Wants)
      modifies this
      ensures S() == Feeds.Register(old(S()), id, w)
    {
      if id !in dirty { dirty := dirty[id := {}]; }
      assert S() == RegisterDirty(old(S()), id);
      conns := conns[id := w];
      pending := true;
    }

    method Unregister(id: string)
      modifies this
      ensures S() == Feeds.Unregister(old(S()), id)
    {
      conns := conns - {id};
      dirty := dirty - {id};
      pending := true;
    }

    method PopDirty(id: string) returns (out: set<string>)
      modifies this
      ensures S() == Feeds.PopDirty(old(S()), id)
      ensures out == Marks(old(S()), id)
    {
      if id !in dirty || dirty[id] == {} {
        assert id in dirty ==> dirty[id := {}] == dirty;
        return {};
      }
      out := dirty[id];
      dirty := dirty[id := {}];
    }

    method UnionOf(feed: Feed) returns (out: set<string>)
      ensures out == Union(S(), feed)
    {
      out := {};
      var left := conns.Keys;
      while left != {}
        invariant left <= conns.Keys
        invariant forall x :: x in out <==> exists id :: id in conns && id !in left && x in conns[id].On(feed)
        decreases |left|
      {
        var id :| id in left;
        left := left - {id};
        out := out + conns[id].On(feed);
      }
    }

    method Start(feed: Feed, want: set<string>, starts: Starts, now: int)
      modifies this
      ensures S() == StartFeed(old(S()), feed, want, starts(feed), now)
    {
      var running := want;
      if want != {} {
        if starts(feed) {
          clients := clients + {feed};
          lastTick := lastTick[feed := now];
          failed := failed - {feed};
        } else {
          running := {};
          failed := failed + {feed};
        }
      }
      active := active[feed := running];
    }

    /** The rebuild loop from feed `from` to its next await or its end. */
    method SyncFeeds(from: nat, starts: Starts, now: int)
      requires from <= |FEEDS|
      modifies this
      ensures S() == SyncFrom(old(S()), from, starts, now)
    {
      var i := from;
      while i < |FEEDS|
        invariant i <= |FEEDS|
        invariant SyncFrom(S(), i, starts, now) == SyncFrom(old(S()), from, starts, now)
      {
        var feed := FEEDS[i];
        var want := UnionOf(feed);
        if want != (if feed in active then active[feed] else {}) {
          if feed in clients {
            clients := clients - {feed};
            task := Stopping(i, want);
            return;
          }
          Start(feed, want, starts, now);
        }
        i := i + 1;
      }
      task := Idle;
    }

    method BeginSync(now: int, starts: Starts)
      requires task == Idle
      modifies this
      ensures S() == Feeds.BeginSync(old(S()), now, rebuildDelay, starts)
    {
      if pending && (lastRebuild.None? || now - lastRebuild.value >= rebuildDelay) {
        pending := false;
        lastRebuild := Some(now);
        SyncFeeds(0, starts, now);
      }
    }

    method ResumeSync(now: int, starts: Starts)
      requires task.Stopping? && task.i < |FEEDS|
      modifies this
      ensures S() == Feeds.ResumeSync(old(S()), starts, now)
    {
      var i := task.i;
      Start(FEEDS[i], task.want, starts, now);
      SyncFeeds(i + 1, starts, now);
    }

    /** One parsed tick marks every connection that wants its symbol there. */
    method MarkTick(feed: Feed, sym: string)
      requires conns.Keys <= dirty.Keys
      modifies `dirty
      ensures dirty.Keys == old(dirty.Keys)
      ensures forall id :: id in dirty ==> dirty[id] == old(dirty)[id] + MarkedBy(conns, feed, [sym], id)
    {
      hide Ticking, MarkedBy;
      ghost var was := dirty;
      var left := conns.Keys;
      TickStart(dirty, conns, feed, sym);
      assert conns.Keys - left == {};
      while left != {}
        invariant left <= conns.Keys && dirty.Keys == was.Keys
        invariant Ticking(was, dirty, conns, conns.Keys - left, feed, sym)
        decreases |left|
      {
        var id :| id in left;
        ghost var done := conns.Keys - left;
        left := left - {id};
        assert conns.Keys - left == done + {id};
        TickStep(was, dirty, conns, done, feed, sym, id);
        if sym in conns[id].On(feed) { dirty := dirty[id := dirty[id] + {sym}]; }
      }
      assert conns.Keys - left == conns.Keys;
      TickDone(was, dirty, conns, feed, sym);
    }

    /** `after` is `before` with one tick marked on the connections in `done`. */
    ghost static predicate Ticking(before: map<string, set<string>>, after: map<string, set<string>>,
                                   conns: map<string, Wants>, done: set<string>, feed: Feed, sym: string) {
      && after.Keys == before.Keys
      && forall id :: id in after ==>
           after[id] == if id in conns && id in done && sym in conns[id].On(feed) then before[id] + {sym}
             else before[id]
    }

    static lemma TickStart(marks: map<string, set<string>>, conns: map<string, Wants>, feed: Feed, sym: string)
      ensures Ticking(marks, marks, conns, {}, feed, sym)
    {
    }

    static lemma TickStep(before: map<string, set<string>>, after: map<string, set<string>>,
                          conns: map<string, Wants>, done: set<string>, feed: Feed, sym: string, id: string)
      requires Ticking(before, after, conns, done, feed, sym) && id in conns && id in after && id !in done
      ensures Ticking(before, if sym in conns[id].On(feed) then after[id := after[id] + {sym}] else after,
                      conns, done + {id}, feed, sym)
    {
    }

    static lemma TickDone(before: map<string, set<string>>, after: map<string, set<string>>,
                          conns: map<string, Wants>, feed: Feed, sym: string)
      requires Ticking(before, after, conns, conns.Keys, feed, sym)
      ensures forall id :: id in after ==> after[id] == before[id] + MarkedBy(conns, feed, [sym], id)
    {
    }

    /** What the ticks of one client mark on a connection. */
    static function MarkedBy(conns: map<string, Wants>, feed: Feed, syms: seq<string>, id: string): set<string> {
      if id !in conns then {} else set x | x in syms && x in conns[id].On(feed)
    }

    method DrainOne(feed: Feed, syms: seq<string>)
      requires conns.Keys <= dirty.Keys
      modifies `dirty
      ensures dirty.Keys == old(dirty.Keys)
      ensures forall id :: id in dirty ==> dirty[id] == old(dirty)[id] + MarkedBy(conns, feed, syms, id)
    {
      for k := 0 to |syms|
        invariant dirty.Keys == old(dirty.Keys)
        invariant forall id :: id in dirty ==> dirty[id] == old(dirty)[id] + MarkedBy(conns, feed, syms[..k], id)
      {
        MarkTick(feed, syms[k]);
        assert syms[..k + 1] == syms[..k] + [syms[k]];
      }
      assert syms[..|syms|] == syms;
    }

    method DrainAll(now: int, buffers: Buffers)
      requires task == Idle && Visible(S())
      modifies `dirty, `lastTick
      ensures S() == Drain(old(S()), buffers, now)
    {
      hide Draining, Drain;
      ghost var was := S();
      DrainStarts(was, buffers, now);
      DrainClients(was, now, buffers);
      DrainEnds(was, dirty, lastTick, buffers, now);
    }

    method DrainClients(ghost was: State, now: int, buffers: Buffers)
      requires conns == was.conns && conns.Keys <= dirty.Keys
      requires Draining(was, dirty, lastTick, {}, buffers, now)
      modifies `dirty, `lastTick
      ensures Draining(was, dirty, lastTick, clients, buffers, now)
    {
      hide Draining;
      var left := clients;
      assert clients - left == {};
      while left != {}
        invariant left <= clients && conns.Keys <= dirty.Keys
        invariant Draining(was, dirty, lastTick, clients - left, buffers, now)
        decreases |left|
      {
        var feed :| feed in left;
        ghost var seen := clients - left;
        left := left - {feed};
        assert clients - left == seen + {feed};
        DrainFeed(was, seen, feed, now, buffers);
      }
      assert clients - left == clients;
    }

    static lemma DrainStarts(was: State, buffers: Buffers, now: int)
      ensures Draining(was, was.dirty, was.lastTick, {}, buffers, now)
    {
      forall id ensures MarkedSo(was, {}, buffers, id) == {} { }
    }

    static lemma DrainEnds(was: State, dirty: map<string, set<string>>, lastTick: map<Feed, int>, buffers: Buffers,
                           now: int)
      requires was.task == Idle && Draining(was, dirty, lastTick, was.clients, buffers, now)
      ensures Drain(was, buffers, now) == was.(dirty := dirty, lastTick := lastTick)
    {
      hide Marked;
      assert was.(clients := was.clients) == was;
    }

    /** The marks and clocks once the buffers of `seen` are drained. */
    ghost static predicate Draining(was: State, dirty: map<string, set<string>>, lastTick: map<Feed, int>,
                                    seen: set<Feed>, buffers: Buffers, now: int) {
      && dirty.Keys == was.dirty.Keys
      && (forall id :: id in dirty ==> dirty[id] == was.dirty[id] + MarkedSo(was, seen, buffers, id))
      && lastTick == was.lastTick + map feed | feed in seen && buffers(feed).Some? :: now
    }

    method DrainFeed(ghost was: State, ghost seen: set<Feed>, feed: Feed, now: int, buffers: Buffers)
      requires conns == was.conns && conns.Keys <= dirty.Keys
      requires Draining(was, dirty, lastTick, seen, buffers, now)
      modifies `dirty, `lastTick
      ensures dirty.Keys == old(dirty.Keys)
      ensures Draining(was, dirty, lastTick, seen + {feed}, buffers, now)
    {
      forall id { OneMore(was, seen, feed, buffers, id); }
      hide MarkedSo, MarkedBy;
      if buffers(feed).Some? {
        lastTick := lastTick[feed := now];
        DrainOne(feed, buffers(feed).value);
      }
    }

    /** The check over the clients listed, to its next await or its end. */
    method CheckFeeds(order: seq<Feed>, expected: Expected, now: int)
      modifies this
      ensures S() == CheckFrom(old(S()), order, expected, now)
    {
      var i := 0;
      while i < |order|
        invariant i <= |order|
        invariant CheckFrom(S(), order[i..], expected, now) == CheckFrom(old(S()), order, expected, now)
      {
        var feed := order[i];
        assert order[i..][1..] == order[i + 1..];
        if expected(feed) && feed in lastTick && now - lastTick[feed] >= STALE_AFTER {
          if feed in clients {
            clients := clients - {feed};
            task := Killing(feed, order[i + 1..], now);
            return;
          }
          Bury(feed, now);
        }
        i := i + 1;
      }
      task := Idle;
    }

    method Bury(feed: Feed, now: int)
      modifies this
      ensures S() == Buried(old(S()), feed, now)
    {
      active := active - {feed};
      lastTick := lastTick[feed := now];
      pending := true;
    }

    method BeginCheck(now: int, expected: Expected) returns (order: seq<Feed>)
      requires task == Idle
      modifies this
      ensures Lists(order, old(clients))
      ensures S() == Feeds.BeginCheck(old(S()), now, order, expected)
    {
      order := ListClients();
      if lastLiveness.None? || now - lastLiveness.value >= LIVENESS_INTERVAL {
        lastLiveness := Some(now);
        CheckFeeds(order, expected, now);
      }
    }

    method ListClients() returns (order: seq<Feed>)
      ensures Lists(order, clients)
    {
      order := [];
      var left := clients;
      while left != {}
        invariant left <= clients && Lists(order, clients - left)
        decreases |left|
      {
        var feed :| feed in left;
        left := left - {feed};
        order := order + [feed];
      }
    }

    method ResumeCheck(expected: Expected)
      requires task.Killing?
      modifies this
      ensures S() == Feeds.ResumeCheck(old(S()), expected)
    {
      var feed, rest, now := task.feed, task.rest, task.now;
      Bury(feed, now);
      CheckFeeds(rest, expected, now);
    }

    /** Shutdown: one client after another, each `stop` an await. */
    method CloseStep() returns (feed: Feed)
      requires task == Closing
      modifies this
      ensures old(clients) != {} ==> feed in old(clients)
      ensures S() == CloseNext(old(S()), feed)
    {
      if clients == {} {
        active := map[];
        task := Ended;
        feed := Us;
      } else {
        feed :| feed in clients;
        clients := clients - {feed};
      }
    }
  }

  /** What these feeds' buffers mark on a connection. */
  ghost function MarkedSo(s: State, feeds: set<Feed>, buffers: Buffers, id: string): set<string> {
    Marked(s.(clients := feeds), buffers, id)
  }

  lemma OneMore(s: State, feeds: set<Feed>, feed: Feed, buffers: Buffers, id: string)
    ensures MarkedSo(s, feeds + {feed}, buffers, id)
         == MarkedSo(s, feeds, buffers, id)
            + if buffers(feed).Some? then Manager.MarkedBy(s.conns, feed, buffers(feed).value, id) else {}
  {
  }
}
