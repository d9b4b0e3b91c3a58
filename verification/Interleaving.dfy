/** Requests for different keys at once (openbb-kdb/openbb_kdb/cache.py). The lock
    is per key and every provider call is an await, so a pass is cut there: other
    requests may evict its entry, and q may die, between its reading of coverage
    and its serving of bars. The steps here are what happens between two awaits. */
module Interleaving {
  import opened Options
  import opened Ranges
  import opened KdbStore
  import opened Cache

  /** A pass under way: `next` of its gaps are stored, and `backstop` says that it may
      still find history rewritten. `lost` and `seen` are history kept for the
      statements: whether the entry has gone since the pass began, and the rows
      it has stored since it last did. */
  datatype Flight = Flight(
    window: Range, step: int, boundary: int, effective: seq<Range>, gaps: seq<Range>, backstop: bool,
    next: nat, seen: seq<Row>, lost: bool)

  datatype State = State(db: Tables, torn: set<Key>, flights: map<Key, Flight>, now: int)

  /** How the storing of a reply ends: the pass goes on; or a statement failed, with
      nothing done, the rows written, or coverage recorded too; or history was
      rewritten and the drop failed after so many statements, or went through and
      a second pass begins with these gaps. */
  datatype Landing = Goes | Halts(stage: nat) | Rewrites(done: nat) | Restarts(gaps: seq<Range>)

  datatype Event =
    | EBegin(k: Key, window: Range, now: int, effective: seq<Range>, gaps: seq<Range>)
    | ELand(k: Key, rows: seq<Row>, wire: Range, landing: Landing)
    | EGiveUp(k: Key)
    | EServe(k: Key, at: int, order: seq<Key>, n: nat, done: nat)
    | ERespawn

  // ---- steps ----------------------------------------------------------

  /** These keys' entries have gone. */
  function Bereft(flights: map<Key, Flight>, gone: set<Key>): map<Key, Flight> {
    map k | k in flights :: if k in gone then flights[k].(lost := true, seen := []) else flights[k]
  }

  /** The keys an eviction drops, the last perhaps not to the end. */
  function Taken(order: seq<Key>, n: nat, done: nat): set<Key>
    requires n <= |order|
  {
    (set i | 0 <= i < n :: order[i]) + if n < |order| && done > 0 then {order[n]} else {}
  }

  function Cut(db: Tables, order: seq<Key>, n: nat, done: nat): Tables
    requires n <= |order|
  {
    if n < |order| then Dropped(EvictedDb(db, order, n), order[n], done) else EvictedDb(db, order, n)
  }

  function CutTorn(torn: set<Key>, order: seq<Key>, n: nat, done: nat): set<Key>
    requires n <= |order|
  {
    var left := torn - (set i | 0 <= i < n :: order[i]);
    if n < |order| then TornBy(left, order[n], done) else left
  }

  function Begun(e: Event, step: int, boundary: int): Flight
    requires e.EBegin?
  {
    Flight(e.window, step, boundary, e.effective, e.gaps, true, 0, [], false)
  }

  function Landed(s: State, e: Event): State
    requires e.ELand? && e.k in s.flights
  {
    var f := s.flights[e.k];
    var db := Stored(s.db, e.k, e.rows, e.wire, f.boundary);
    match e.landing
    case Goes => s.(db := db, flights := s.flights[e.k := f.(next := f.next + 1, seen := f.seen + e.rows)])
    case Halts(stage) => s.(db := Halted(s.db, e.k, e.rows, e.wire, f.boundary, stage), flights := s.flights - {e.k})
    case Rewrites(done) => State(Dropped(db, e.k, done), TornBy(s.torn, e.k, done), s.flights - {e.k}, s.now)
    case Restarts(gaps) =>
      State(Dropped(db, e.k, 3), s.torn - {e.k}, s.flights[e.k := Again(f, gaps)], s.now)
  }

  /** The tables when the storing of a reply fails. */
  function Halted(db: Tables, k: Key, rows: seq<Row>, wire: Range, boundary: int, stage: nat): Tables {
    if stage == 0 then db else if stage == 1 then Written(db, k, rows) else Stored(db, k, rows, wire, boundary)
  }

  /** The second pass, from nothing. */
  function Again(f: Flight, gaps: seq<Range>): Flight {
    Flight(f.window, f.step, f.boundary, [], gaps, false, 0, [], false)
  }

  function Next(s: State, e: Event, widths: Widths): State
    requires Enabled(s, e, widths)
  {
    match e
    case EBegin(k, _, now, _, _) =>
      var step := widths(k.interval).value;
      s.(flights := s.flights[k := Begun(e, step, LastCompleteBoundary(step, now))], now := now)
    case ELand(_, _, _, _) => Landed(s, e)
    case EGiveUp(k) => s.(flights := s.flights - {k})
    case EServe(k, at, order, n, done) =>
      State(Cut(Touched(s.db, k, at), order, n, done), CutTorn(s.torn, order, n, done),
            Bereft(s.flights - {k}, Taken(order, n, done)), s.now)
    case ERespawn => State(Tables(map[], map[], map[]), {}, Bereft(s.flights, s.flights.Keys), s.now)
  }

  /** What the code lets happen: one pass a key, each gap stored in turn, and
      serving once all are. */
  predicate Enabled(s: State, e: Event, widths: Widths) {
    match e
    case EBegin(k, window, now, effective, gaps) =>
      k !in s.flights && s.now <= now && widths(k.interval).Some? && widths(k.interval).value > 0
    case ELand(k, _, _, landing) =>
      && k in s.flights && s.flights[k].next < |s.flights[k].gaps|
      && (landing.Rewrites? || landing.Restarts? ==> s.flights[k].backstop)
    case EGiveUp(k) => k in s.flights
    case EServe(k, _, order, n, _) => k in s.flights && s.flights[k].next == |s.flights[k].gaps| && n <= |order|
    case ERespawn => true
  }

  /** What the store and an honest provider make of it: gaps as planned from the
      coverage read, replies that are true and complete for a range that holds
      the gap, and the access order, the key served now being the newest. */
  ghost predicate True(s: State, e: Event, keys: set<Key>, widths: Widths, final: History)
    requires Enabled(s, e, widths)
  {
    match e
    case EBegin(k, window, now, effective, gaps) =>
      var step := widths(k.interval).value;
      k in keys && Planned(s.db, k, window, effective, gaps, step, LastCompleteBoundary(step, now))
    case ELand(k, rows, wire, landing) =>
      var f := s.flights[k];
      && f.step > 0 && Replies(f, rows, wire, k, final)
      && (landing.Restarts? ==> Planned(Landed(s, e).db, k, f.window, [], landing.gaps, f.step, f.boundary))
    case EServe(k, at, order, _, _) =>
      (forall o :: o in s.db.lru ==> s.db.lru[o] < at) && IsAccessOrder(order, Touched(s.db, k, at).lru)
    case _ => true
  }

  /** An honest reply for the next gap. */
  ghost predicate Replies(f: Flight, rows: seq<Row>, wire: Range, k: Key, final: History)
    requires f.step > 0 && f.next < |f.gaps|
  {
    var gap := f.gaps[f.next];
    && On(wire.lo, f.step) && On(wire.hi, f.step) && wire.lo <= wire.hi
    && (forall t :: On(t, f.step) && gap.lo <= t <= gap.hi ==> In(t, wire))
    && TrueRows(rows, k, final, f.step, f.boundary)
    && CompleteRows(rows, k, final, f.step, f.boundary, wire.lo / DAY, wire.hi / DAY)
  }

  // ---- the invariant --------------------------------------------------

  /** A flight's claim on its key: sound unless torn; if the entry has not gone,
      what was covered and what was fetched is up to date; if it has, what is
      held is what was stored since. */
  ghost predicate FlightOk(db: Tables, torn: set<Key>, k: Key, f: Flight, widths: Widths, final: History, now: int) {
    && f.step > 0 && GridWidth(f.step) && widths(k.interval) == Some(f.step)
    && On(f.boundary, f.step) && f.boundary <= LastCompleteBoundary(f.step, now)
    && f.next <= |f.gaps| && Gaps(f.gaps, f.window, f.effective, f.step)
    && TrueRows(f.seen, k, final, f.step, f.boundary)
    && (k !in torn ==> Good(db, k, final, f.step, f.boundary))
    && (f.lost ==> BarsOf(db, k) == Upsert(map[], f.seen))
    && (!f.lost && k !in torn ==> UpToDate(db, k, f, final))
  }

  ghost predicate UpToDate(db: Tables, k: Key, f: Flight, final: History)
    requires f.step > 0 && f.next <= |f.gaps|
  {
    && (forall j :: 0 <= j < |f.effective| ==> Fresh(db, k, f.effective[j], final, f.step, f.boundary))
    && (forall j :: 0 <= j < f.next ==> Fresh(db, k, f.gaps[j], final, f.step, f.boundary))
  }

  ghost predicate Inv(s: State, keys: set<Key>, widths: Widths, final: History) {
    && WidthsOk(widths) && NamesDistinct(keys) && Shapes(s.db, keys, widths)
    && s.db.lru.Keys <= keys && s.flights.Keys <= keys
    && AllGood(s.db, s.torn, keys, widths, final, s.now)
    && forall k :: k in s.flights ==> FlightOk(s.db, s.torn, k, s.flights[k], widths, final, s.now)
  }

  /** Nothing of this flight's key has changed. */
  lemma FlightSame(db: Tables, db': Tables, torn: set<Key>, torn': set<Key>, k: Key, f: Flight, widths: Widths,
                   final: History, now: int, later: int)
    requires FlightOk(db, torn, k, f, widths, final, now) && SameEntry(db, db', k) && now <= later
    requires k !in torn' ==> k !in torn
    ensures FlightOk(db', torn', k, f, widths, final, later)
  {
    hide On, GridWidth, Good, Gaps, TrueRows, BarsOf, CoverageOf, LastCompleteBoundary, Upsert;
    BoundaryGrows(f.step, now, later);
    GoodSame(db, db', k, final, f.step, f.boundary);
  }

  /** The entry has gone, its bars at least. */
  lemma FlightBereft(db: Tables, torn: set<Key>, torn': set<Key>, db': Tables, k: Key, f: Flight, widths: Widths,
                     final: History, now: int)
    requires FlightOk(db, torn, k, f, widths, final, now) && BarsOf(db', k) == map[]
    requires k !in torn' ==> Gone(db', k)
    ensures FlightOk(db', torn', k, f.(lost := true, seen := []), widths, final, now)
  {
    hide On, GridWidth, Good, Gaps, BarsOf, CoverageOf, LastCompleteBoundary, Gone;
    if k !in torn' { GoneIsGood(db', k, final, f.step, f.boundary); }
  }

  // ---- storing a reply ------------------------------------------------

  /** The tables after a reply is written, and perhaps recorded. */
  lemma StoredKeeps(db: Tables, keys: set<Key>, widths: Widths, k: Key, rows: seq<Row>, wire: Range,
                    final: History, step: int, boundary: int)
    requires WidthsOk(widths) && NamesDistinct(keys) && k in keys && Shapes(db, keys, widths)
             && widths(k.interval) == Some(step)
    requires On(boundary, step) && On(wire.lo, step) && On(wire.hi, step) && wire.lo <= wire.hi
    requires TrueRows(rows, k, final, step, boundary)
    requires CompleteRows(rows, k, final, step, boundary, wire.lo / DAY, wire.hi / DAY)
    ensures var db' := Stored(db, k, rows, wire, boundary);
            && Keeps(db, db', keys, widths, k, final, step, boundary)
            && BarsOf(db', k) == Upsert(BarsOf(db, k), rows)
            && (Good(db, k, final, step, boundary) ==> Updates(db, db', k, wire, final, step, boundary))
  {
    hide On, Good, Fresh, TrueRows, CompleteRows, Upsert, BarsOf, CoverageOf, Shape, Shapes, Written, Recorded,
         TrimTail, Latest, SameEntry;
    var mid := if rows == [] then db else Written(db, k, rows);
    var db' := Stored(db, k, rows, wire, boundary);
    UpsertNothing(BarsOf(db, k));
    WrittenMeans(db, keys, k, rows);
    WrittenLru(db, k, rows);
    AfterWrite(db, mid, keys, widths, k, [], rows, wire, final, step, boundary);
    if wire.lo <= boundary {
      RecordedMeans(mid, keys, k, TrimTail(wire, boundary).value);
      RecordedLru(mid, k, TrimTail(wire, boundary).value);
      AfterRecord(mid, db', keys, widths, k, [], wire, final, step, boundary);
    }
    forall o | o in keys && o != k ensures SameEntry(db, db', o) { SameThrough(db, mid, db', o); }
  }

  /** A failure on the way keeps as much. */
  lemma HaltKeeps(db: Tables, stage: nat, keys: set<Key>, widths: Widths, k: Key, rows: seq<Row>, wire: Range,
                  final: History, step: int, boundary: int)
    requires WidthsOk(widths) && NamesDistinct(keys) && k in keys && Shapes(db, keys, widths)
    requires widths(k.interval) == Some(step) && step > 0 && TrueRows(rows, k, final, step, boundary)
    requires On(boundary, step) && On(wire.lo, step) && On(wire.hi, step) && wire.lo <= wire.hi
    requires CompleteRows(rows, k, final, step, boundary, wire.lo / DAY, wire.hi / DAY)
    ensures Keeps(db, Halted(db, k, rows, wire, boundary, stage), keys, widths, k, final, step, boundary)
  {
    hide On, Good, Fresh, TrueRows, CompleteRows, Upsert, BarsOf, CoverageOf, Shape, Shapes, Written, Latest, SameEntry,
         Stored;
    if stage == 0 {
      forall o { SameIs(db, o); }
    } else if stage == 1 {
      WrittenLru(db, k, rows);
      AfterWrite(db, Written(db, k, rows), keys, widths, k, [], rows, wire, final, step, boundary);
    } else {
      StoredKeeps(db, keys, widths, k, rows, wire, final, step, boundary);
    }
  }

  lemma SameThrough(a: Tables, b: Tables, c: Tables, k: Key)
    requires SameEntry(a, b, k) && SameEntry(b, c, k)
    ensures SameEntry(a, c, k)
  {
  }

  lemma WrittenLru(db: Tables, k: Key, rows: seq<Row>)
    ensures Written(db, k, rows).lru == db.lru
  {
  }

  lemma RecordedLru(db: Tables, k: Key, r: Range)
    ensures Recorded(db, k, r).lru == db.lru
  {
  }

  /** Other keys are as they were, and this one is sound if it was. */
  ghost predicate Keeps(db: Tables, db': Tables, keys: set<Key>, widths: Widths, k: Key, final: History, step: int,
                        boundary: int)
    requires WidthsOk(widths) && step > 0
  {
    && db'.lru == db.lru && Shapes(db', keys, widths)
    && (forall o :: o in keys && o != k ==> SameEntry(db, db', o))
    && (Good(db, k, final, step, boundary) ==> Good(db', k, final, step, boundary))
  }

  /** The wire range is up to date, and whatever was still is. */
  ghost predicate Updates(db: Tables, db': Tables, k: Key, wire: Range, final: History, step: int, boundary: int)
    requires step > 0
  {
    && Fresh(db', k, wire, final, step, boundary)
    && forall r :: Fresh(db, k, r, final, step, boundary) ==> Fresh(db', k, r, final, step, boundary)
  }

  /** The flight itself goes on. */
  lemma FlightGoes(db: Tables, db': Tables, torn: set<Key>, k: Key, f: Flight, rows: seq<Row>, wire: Range,
                   widths: Widths, final: History, now: int)
    requires FlightOk(db, torn, k, f, widths, final, now) && f.next < |f.gaps| && Replies(f, rows, wire, k, final)
    requires BarsOf(db', k) == Upsert(BarsOf(db, k), rows)
    requires Good(db, k, final, f.step, f.boundary) ==>
      Good(db', k, final, f.step, f.boundary) && Updates(db, db', k, wire, final, f.step, f.boundary)
    ensures FlightOk(db', torn, k, f.(next := f.next + 1, seen := f.seen + rows), widths, final, now)
  {
    hide On, GridWidth, Good, Gaps, Fresh, CompleteRows, BarsOf, Upsert, LastCompleteBoundary;
    UpsertJoin(map[], f.seen, rows);
    TrueJoin(f.seen, rows, k, final, f.step, f.boundary);
    if !f.lost && k !in torn { FreshPart(db', k, wire, f.gaps[f.next], final, f.step, f.boundary); }
  }

  lemma TrueJoin(a: seq<Row>, b: seq<Row>, k: Key, final: History, step: int, boundary: int)
    requires step > 0 && TrueRows(a, k, final, step, boundary) && TrueRows(b, k, final, step, boundary)
    ensures TrueRows(a + b, k, final, step, boundary)
  {
    hide On;
  }

  /** A step that touches one key's entry alone, and takes its flight off or leaves
      it with a claim that holds. */
  lemma OneKeyKeeps(s: State, s': State, k: Key, keys: set<Key>, widths: Widths, final: History)
    requires Inv(s, keys, widths, final) && k in keys
    requires s'.now == s.now && s'.db.lru.Keys <= keys && Shapes(s'.db, keys, widths)
    requires forall o :: o in keys && o != k ==> SameEntry(s.db, s'.db, o) && (o in s'.torn <==> o in s.torn)
    requires forall o :: o in s'.flights && o != k ==> o in s.flights && s'.flights[o] == s.flights[o]
    requires k in s'.flights ==> FlightOk(s'.db, s'.torn, k, s'.flights[k], widths, final, s.now)
    requires k !in s'.torn && widths(k.interval).Some? ==>
      var step := widths(k.interval).value; Good(s'.db, k, final, step, LastCompleteBoundary(step, s.now))
    ensures Inv(s', keys, widths, final)
  {
    hide FlightOk, SameEntry, Good, LastCompleteBoundary, Shapes, NamesDistinct;
    forall o | o in s'.flights ensures FlightOk(s'.db, s'.torn, o, s'.flights[o], widths, final, s.now) {
      if o != k { FlightSame(s.db, s'.db, s.torn, s'.torn, o, s.flights[o], widths, final, s.now, s.now); }
    }
    forall o | o in keys && o !in s'.torn && widths(o.interval).Some?
      ensures var step := widths(o.interval).value; Good(s'.db, o, final, step, LastCompleteBoundary(step, s.now))
    {
      var step := widths(o.interval).value;
      if o != k { GoodSame(s.db, s'.db, o, final, step, LastCompleteBoundary(step, s.now)); }
    }
  }

  /** Sound as of the flight's time is sound now. */
  lemma SoundNow(db: Tables, torn: set<Key>, k: Key, f: Flight, widths: Widths, final: History, now: int, db': Tables)
    requires FlightOk(db, torn, k, f, widths, final, now) && Good(db', k, final, f.step, f.boundary)
    ensures Good(db', k, final, f.step, LastCompleteBoundary(f.step, now))
  {
    hide On, GridWidth, Good, Gaps, TrueRows, BarsOf, Upsert, LastCompleteBoundary, UpToDate;
    GoodLater(db', k, final, f.step, f.boundary, LastCompleteBoundary(f.step, now));
  }

  /** A reply that lands keeps the invariant, however its storing ends. */
  lemma LandKeeps(s: State, e: Event, keys: set<Key>, widths: Widths, final: History)
    requires Inv(s, keys, widths, final) && e.ELand? && Enabled(s, e, widths) && True(s, e, keys, widths, final)
    ensures Inv(Next(s, e, widths), keys, widths, final)
  {
    hide Inv, FlightOk, Replies, Stored, Written, Dropped;
    match e.landing
    case Goes => GoesKeeps(s, e, keys, widths, final);
    case Halts(stage) => HaltsKeeps(s, e, stage, keys, widths, final);
    case Rewrites(done) => RewritesKeeps(s, e, done, keys, widths, final);
    case Restarts(gaps) => RestartsKeeps(s, e, gaps, keys, widths, final);
  }

  lemma GoesKeeps(s: State, e: Event, keys: set<Key>, widths: Widths, final: History)
    requires Inv(s, keys, widths, final) && e.ELand? && Enabled(s, e, widths) && True(s, e, keys, widths, final)
             && e.landing.Goes?
    ensures Inv(Next(s, e, widths), keys, widths, final)
  {
    hide Inv, Good, Gaps, TrueRows, CompleteRows, BarsOf, Upsert, LastCompleteBoundary, UpToDate, Updates, Shapes,
         Stored, SameEntry, NamesDistinct;
    var k, f := e.k, s.flights[e.k];
    InvParts(s, keys, widths, final);
    FlightIn(s, k, keys, widths, final);
    StoredKeeps(s.db, keys, widths, k, e.rows, e.wire, final, f.step, f.boundary);
    hide On, GridWidth;
    var s' := Next(s, e, widths);
    FlightGoes(s.db, s'.db, s.torn, k, f, e.rows, e.wire, widths, final, s.now);
    if k !in s.torn { SoundNow(s.db, s.torn, k, f, widths, final, s.now, s'.db); }
    hide FlightOk, Replies;
    OneKeyKeeps(s, s', k, keys, widths, final);
  }

  lemma HaltsKeeps(s: State, e: Event, stage: nat, keys: set<Key>, widths: Widths, final: History)
    requires Inv(s, keys, widths, final) && e.ELand? && Enabled(s, e, widths) && True(s, e, keys, widths, final)
    requires e.landing == Halts(stage)
    ensures Inv(Next(s, e, widths), keys, widths, final)
  {
    hide Inv, Good, Gaps, TrueRows, CompleteRows, BarsOf, LastCompleteBoundary, UpToDate, Shapes, Written, SameEntry,
         NamesDistinct;
    var k, f := e.k, s.flights[e.k];
    InvParts(s, keys, widths, final);
    FlightIn(s, k, keys, widths, final);
    HaltKeeps(s.db, stage, keys, widths, k, e.rows, e.wire, final, f.step, f.boundary);
    hide On, GridWidth;
    var s' := Next(s, e, widths);
    if k !in s.torn { SoundNow(s.db, s.torn, k, f, widths, final, s.now, s'.db); }
    hide FlightOk, Replies;
    OneKeyKeeps(s, s', k, keys, widths, final);
  }

  lemma RewritesKeeps(s: State, e: Event, done: nat, keys: set<Key>, widths: Widths, final: History)
    requires Inv(s, keys, widths, final) && e.ELand? && Enabled(s, e, widths) && True(s, e, keys, widths, final)
    requires e.landing == Rewrites(done)
    ensures Inv(Next(s, e, widths), keys, widths, final)
  {
    hide Inv, Good, Gaps, TrueRows, CompleteRows, BarsOf, LastCompleteBoundary, UpToDate, Updates, Shapes, Stored,
         SameEntry, NamesDistinct, Dropped, Gone;
    var k, f := e.k, s.flights[e.k];
    InvParts(s, keys, widths, final);
    FlightIn(s, k, keys, widths, final);
    StoredKeeps(s.db, keys, widths, k, e.rows, e.wire, final, f.step, f.boundary);
    hide On, GridWidth;
    var db := Stored(s.db, k, e.rows, e.wire, f.boundary);
    var s' := Next(s, e, widths);
    AfterDrop(db, keys, widths, k, done, final, f.step, f.boundary);
    DroppedLru(db, k, done);
    forall o | o in keys && o != k ensures SameEntry(s.db, s'.db, o) { SameThrough(s.db, db, s'.db, o); }
    if k !in s'.torn { SoundNow(s.db, s.torn, k, f, widths, final, s.now, s'.db); }
    hide FlightOk, Replies;
    OneKeyKeeps(s, s', k, keys, widths, final);
  }

  lemma RestartsKeeps(s: State, e: Event, gaps: seq<Range>, keys: set<Key>, widths: Widths, final: History)
    requires Inv(s, keys, widths, final) && e.ELand? && Enabled(s, e, widths) && True(s, e, keys, widths, final)
    requires e.landing == Restarts(gaps)
    ensures Inv(Next(s, e, widths), keys, widths, final)
  {
    hide Inv, Good, Gaps, TrueRows, CompleteRows, BarsOf, LastCompleteBoundary, UpToDate, Updates, Shapes, Stored,
         SameEntry, NamesDistinct, Dropped, Gone, Effective, Floor;
    var k, f := e.k, s.flights[e.k];
    InvParts(s, keys, widths, final);
    FlightIn(s, k, keys, widths, final);
    StoredKeeps(s.db, keys, widths, k, e.rows, e.wire, final, f.step, f.boundary);
    hide On, GridWidth;
    var db := Stored(s.db, k, e.rows, e.wire, f.boundary);
    var s' := Next(s, e, widths);
    AfterDrop(db, keys, widths, k, 3, final, f.step, f.boundary);
    DroppedLru(db, k, 3);
    forall o | o in keys && o != k ensures SameEntry(s.db, s'.db, o) { SameThrough(s.db, db, s'.db, o); }
    SoundNow(s.db, s.torn, k, f, widths, final, s.now, s'.db);
    FlightAgain(s.db, s.torn, s'.db, s'.torn, k, f, gaps, widths, final, s.now);
    hide FlightOk, Replies, Again;
    OneKeyKeeps(s, s', k, keys, widths, final);
  }

  /** The second pass starts from nothing, and knows it. */
  lemma FlightAgain(db: Tables, torn: set<Key>, db': Tables, torn': set<Key>, k: Key, f: Flight, gaps: seq<Range>,
                    widths: Widths, final: History, now: int)
    requires FlightOk(db, torn, k, f, widths, final, now) && Good(db', k, final, f.step, f.boundary)
    requires Gaps(gaps, f.window, [], f.step)
    ensures FlightOk(db', torn', k, Again(f, gaps), widths, final, now)
  {
    hide On, GridWidth, Good, Gaps, BarsOf, Upsert, LastCompleteBoundary, Fresh;
  }

  lemma FlightIn(s: State, k: Key, keys: set<Key>, widths: Widths, final: History)
    requires Inv(s, keys, widths, final) && k in s.flights
    ensures k in keys && FlightOk(s.db, s.torn, k, s.flights[k], widths, final, s.now)
  {
    hide FlightOk, AllGood, Shapes, NamesDistinct;
  }

  lemma InvParts(s: State, keys: set<Key>, widths: Widths, final: History)
    requires Inv(s, keys, widths, final)
    ensures WidthsOk(widths) && NamesDistinct(keys) && Shapes(s.db, keys, widths)
    ensures s.db.lru.Keys <= keys && s.flights.Keys <= keys
  {
    hide FlightOk, AllGood, Shapes, NamesDistinct;
  }

  lemma DroppedLru(db: Tables, k: Key, done: nat)
    ensures Dropped(db, k, done).lru.Keys <= db.lru.Keys
  {
    hide TableName;
  }

  // ---- the other steps ------------------------------------------------

  lemma BeginKeeps(s: State, e: Event, keys: set<Key>, widths: Widths, final: History)
    requires Inv(s, keys, widths, final) && e.EBegin? && Enabled(s, e, widths) && True(s, e, keys, widths, final)
    ensures Inv(Next(s, e, widths), keys, widths, final)
  {
    hide On, Good, LastCompleteBoundary, Shapes, NamesDistinct, BarsOf, CoverageOf, Upsert, AllGood, Planned, FlightOk,
         GridWidth;
    var s' := Next(s, e, widths);
    AllGoodLater(s.db, s.torn, keys, widths, final, s.now, e.now);
    forall o | o in s'.flights ensures FlightOk(s'.db, s'.torn, o, s'.flights[o], widths, final, e.now) {
      if o == e.k {
        FlightBegins(s, e, keys, widths, final);
      } else {
        SameIs(s.db, o);
        FlightSame(s.db, s'.db, s.torn, s'.torn, o, s.flights[o], widths, final, s.now, e.now);
      }
    }
  }

  lemma SameIs(db: Tables, k: Key)
    ensures SameEntry(db, db, k)
  {
  }

  lemma FlightBegins(s: State, e: Event, keys: set<Key>, widths: Widths, final: History)
    requires WidthsOk(widths) && e.EBegin? && Enabled(s, e, widths) && True(s, e, keys, widths, final)
    requires AllGood(s.db, s.torn, keys, widths, final, e.now)
    ensures var step := widths(e.k.interval).value;
            FlightOk(s.db, s.torn, e.k, Begun(e, step, LastCompleteBoundary(step, e.now)), widths, final, e.now)
  {
    hide On, Good, BarsOf, CoverageOf, Upsert, Effective, Gaps;
    var step := widths(e.k.interval).value;
    BoundaryMeans(step, e.now);
    AllGoodAt(s.db, s.torn, keys, widths, final, e.now, e.k);
    hide AllGood, LastCompleteBoundary;
    if e.k !in s.torn { EffectiveFresh(s.db, e.k, e.effective, final, step, LastCompleteBoundary(step, e.now)); }
  }

  lemma GiveUpKeeps(s: State, k: Key, keys: set<Key>, widths: Widths, final: History)
    requires Inv(s, keys, widths, final)
    ensures Inv(s.(flights := s.flights - {k}), keys, widths, final)
  {
    hide FlightOk, AllGood, Shapes, NamesDistinct;
  }

  /** What an eviction, cut short or not, leaves of each key. */
  lemma CutMeans(db: Tables, torn: set<Key>, keys: set<Key>, order: seq<Key>, n: nat, done: nat, k: Key)
    requires NamesDistinct(keys) && n <= |order| && KeySet(order) <= keys && k in keys
    requires forall i, j :: 0 <= i < j < |order| ==> order[i] != order[j]
    ensures var db' := Cut(db, order, n, done);
            var torn' := CutTorn(torn, order, n, done);
            if k in Taken(order, n, done) then BarsOf(db', k) == map[] && (k !in torn' ==> Gone(db', k))
            else SameEntry(db, db', k) && (k in torn' <==> k in torn)
  {
    hide Dropped, BarsOf, CoverageOf, NamesDistinct, EvictedDb;
    EvictionMeans(db, keys, order, n);
    var mid := EvictedDb(db, order, n);
    assert k in order[..n] <==> exists i :: 0 <= i < n && order[i] == k;
    if n < |order| {
      assert order[n] in KeySet(order);
      DropMeans(mid, keys, order[n], done);
    }
  }

  lemma {:induction false} CutLru(db: Tables, order: seq<Key>, n: nat, done: nat)
    requires n <= |order|
    ensures Cut(db, order, n, done).lru.Keys <= db.lru.Keys
  {
    hide Dropped;
    EvictedLru(db, order, n);
    if n < |order| { DroppedLru(EvictedDb(db, order, n), order[n], done); }
  }

  /** A step after which each entry is as it was, or has gone, its bars at least;
      flights of the latter know. */
  lemma LossKeeps(s: State, s': State, gone: set<Key>, keys: set<Key>, widths: Widths, final: History)
    requires Inv(s, keys, widths, final) && s'.now == s.now && s'.db.lru.Keys <= keys
    requires forall o :: o in keys ==>
      if o in gone then BarsOf(s'.db, o) == map[] && (o !in s'.torn ==> Gone(s'.db, o)) && Trimmed(s.db, s'.db, o)
      else SameEntry(s.db, s'.db, o) && (o in s'.torn <==> o in s.torn)
    requires forall o :: o in s'.flights ==>
      o in s.flights && s'.flights[o] == if o in gone then s.flights[o].(lost := true, seen := []) else s.flights[o]
    ensures Inv(s', keys, widths, final)
  {
    hide FlightOk, Good, LastCompleteBoundary, NamesDistinct, BarsOf, CoverageOf, Gone, SameEntry, Shape, On, Trimmed;
    forall o | o in s'.flights ensures FlightOk(s'.db, s'.torn, o, s'.flights[o], widths, final, s.now) {
      FlightIn(s, o, keys, widths, final);
      if o in gone {
        FlightBereft(s.db, s.torn, s'.torn, s'.db, o, s.flights[o], widths, final, s.now);
      } else {
        FlightSame(s.db, s'.db, s.torn, s'.torn, o, s.flights[o], widths, final, s.now, s.now);
      }
    }
    forall o | o in keys && widths(o.interval).Some?
      ensures var step := widths(o.interval).value;
              && Shape(CoverageOf(s'.db, o), step)
              && (o !in s'.torn ==> Good(s'.db, o, final, step, LastCompleteBoundary(step, s.now)))
    {
      var step := widths(o.interval).value;
      if o in gone {
        TrimmedShape(s.db, s'.db, o, step);
        if o !in s'.torn { GoneIsGood(s'.db, o, final, step, LastCompleteBoundary(step, s.now)); }
      } else {
        SameShape(s.db, s'.db, o, step);
        GoodSame(s.db, s'.db, o, final, step, LastCompleteBoundary(step, s.now));
      }
    }
  }

  /** Coverage is as it was, or gone. */
  predicate Trimmed(db: Tables, db': Tables, k: Key) {
    CoverageOf(db', k) == CoverageOf(db, k) || CoverageOf(db', k) == []
  }

  lemma TrimmedShape(db: Tables, db': Tables, k: Key, step: int)
    requires step > 0 && Shape(CoverageOf(db, k), step) && Trimmed(db, db', k)
    ensures Shape(CoverageOf(db', k), step)
  {
    hide On;
  }

  lemma SameShape(db: Tables, db': Tables, k: Key, step: int)
    requires step > 0 && Shape(CoverageOf(db, k), step) && SameEntry(db, db', k)
    ensures Shape(CoverageOf(db', k), step)
  {
    hide On;
  }

  lemma CutTrims(db: Tables, keys: set<Key>, order: seq<Key>, n: nat, done: nat, k: Key)
    requires NamesDistinct(keys) && n <= |order| && KeySet(order) <= keys && k in keys
    ensures Trimmed(db, Cut(db, order, n, done), k)
  {
    hide Dropped, BarsOf, CoverageOf, NamesDistinct, EvictedDb;
    EvictionMeans(db, keys, order, n);
    var mid := EvictedDb(db, order, n);
    if n < |order| {
      assert order[n] in KeySet(order);
      DropMeans(mid, keys, order[n], done);
    }
  }

  lemma ServeKeeps(s: State, e: Event, keys: set<Key>, widths: Widths, final: History)
    requires Inv(s, keys, widths, final) && e.EServe? && Enabled(s, e, widths) && True(s, e, keys, widths, final)
    ensures Inv(Next(s, e, widths), keys, widths, final)
  {
    hide Inv, Cut, CutTorn, Taken, BarsOf, CoverageOf, NamesDistinct, Shapes, Gone, WidthsOk, SameEntry, Trimmed, Clip,
         Touched;
    InvParts(s, keys, widths, final);
    FlightIn(s, e.k, keys, widths, final);
    var db := Touched(s.db, e.k, e.at);
    TouchedMeans(s.db, keys, e.k, e.at);
    var s' := Next(s, e, widths);
    assert KeySet(e.order) <= keys;
    CutLru(db, e.order, e.n, e.done);
    forall o | o in keys
      ensures if o in Taken(e.order, e.n, e.done)
              then BarsOf(s'.db, o) == map[] && (o !in s'.torn ==> Gone(s'.db, o)) && Trimmed(s.db, s'.db, o)
              else SameEntry(s.db, s'.db, o) && (o in s'.torn <==> o in s.torn)
    {
      CutFromTouched(s.db, e.k, e.at, s.torn, keys, e.order, e.n, e.done, o);
    }
    LossKeeps(s, s', Taken(e.order, e.n, e.done), keys, widths, final);
  }

  lemma TouchedMeans(db: Tables, keys: set<Key>, k: Key, at: int)
    requires db.lru.Keys <= keys && k in keys
    ensures Touched(db, k, at).lru.Keys <= keys
    ensures forall o :: SameEntry(db, Touched(db, k, at), o)
  {
    hide TableName;
  }

  /** What serving leaves of each key. */
  lemma CutFromTouched(db: Tables, touched: Key, at: int, torn: set<Key>, keys: set<Key>, order: seq<Key>, n: nat,
                       done: nat, k: Key)
    requires NamesDistinct(keys) && n <= |order| && KeySet(order) <= keys && k in keys
    requires forall i, j :: 0 <= i < j < |order| ==> order[i] != order[j]
    ensures var db' := Cut(Touched(db, touched, at), order, n, done);
            var torn' := CutTorn(torn, order, n, done);
            if k in Taken(order, n, done)
              then BarsOf(db', k) == map[] && (k !in torn' ==> Gone(db', k)) && Trimmed(db, db', k)
            else SameEntry(db, db', k) && (k in torn' <==> k in torn)
  {
    hide Cut, CutTorn, Taken, NamesDistinct, Gone;
    CutMeans(Touched(db, touched, at), torn, keys, order, n, done, k);
    CutTrims(Touched(db, touched, at), keys, order, n, done, k);
  }

  lemma RespawnKeeps(s: State, keys: set<Key>, widths: Widths, final: History)
    requires Inv(s, keys, widths, final)
    ensures Inv(Next(s, ERespawn, widths), keys, widths, final)
  {
    var s' := Next(s, ERespawn, widths);
    hide Inv;
    FlightKeys(s, keys, widths, final);
    LossKeeps(s, s', keys, keys, widths, final);
  }

  lemma FlightKeys(s: State, keys: set<Key>, widths: Widths, final: History)
    requires Inv(s, keys, widths, final)
    ensures s.flights.Keys <= keys
  {
  }

  /** Every step keeps the invariant. */
  lemma StepKeeps(s: State, e: Event, keys: set<Key>, widths: Widths, final: History)
    requires Inv(s, keys, widths, final) && Enabled(s, e, widths) && True(s, e, keys, widths, final)
    ensures Inv(Next(s, e, widths), keys, widths, final)
  {
    hide Inv, True, Landed;
    match e
    case EBegin(_, _, _, _, _) => BeginKeeps(s, e, keys, widths, final);
    case ELand(_, _, _, _) => LandKeeps(s, e, keys, widths, final);
    case EGiveUp(k) => GiveUpKeeps(s, k, keys, widths, final);
    case EServe(_, _, _, _, _) => ServeKeeps(s, e, keys, widths, final);
    case ERespawn => RespawnKeeps(s, keys, widths, final);
  }

  ghost predicate RunOf(states: seq<State>, events: seq<Event>, keys: set<Key>, widths: Widths, final: History) {
    && |states| == |events| + 1
    && forall i :: 0 <= i < |events| ==>
         && Enabled(states[i], events[i], widths) && True(states[i], events[i], keys, widths, final)
         && states[i + 1] == Next(states[i], events[i], widths)
  }

  /** However requests for different keys, failures and deaths of q interleave, the
      promise of every key that is not torn stands, and every pass under way
      knows what it holds. */
  lemma {:induction false} RunKeeps(states: seq<State>, events: seq<Event>, keys: set<Key>, widths: Widths,
                                    final: History, i: nat)
    requires RunOf(states, events, keys, widths, final) && i <= |events| && Inv(states[0], keys, widths, final)
    ensures Inv(states[i], keys, widths, final)
    decreases i
  {
    hide Inv, True, Next, Enabled;
    if i > 0 {
      RunKeeps(states, events, keys, widths, final, i - 1);
      StepKeeps(states[i - 1], events[i - 1], keys, widths, final);
    }
  }

  // ---- answers --------------------------------------------------------

  /** What is served, the eviction having gone through. */
  function Served(s: State, e: Event): Bars
    requires e.EServe? && e.k in s.flights && e.n <= |e.order|
  {
    Clip(BarsOf(Cut(Touched(s.db, e.k, e.at), e.order, e.n, 0), e.k), s.flights[e.k].window)
  }

  /** Every completed upstream bar of the window was stored since the entry went. */
  ghost predicate Refilled(f: Flight, k: Key, final: History)
    requires f.step > 0
  {
    forall t :: On(t, f.step) && In(t, f.window) && t <= f.boundary && final(k, t).Some? ==> HasStamp(f.seen, t)
  }

  /** No wrong bar. */
  ghost predicate NoneWrong(rows: Bars, k: Key, f: Flight, final: History) {
    forall t :: t in rows ==> In(t, f.window) && final(k, t).Some? && (t <= f.boundary ==> rows[t] == final(k, t).value)
  }

  /** Whatever went on meanwhile, a served answer has no wrong bar; and it is
      exactly upstream's if and only if the entry has not gone since the pass
      began, or all it needs was stored since it went. */
  lemma ServeIff(s: State, e: Event, keys: set<Key>, widths: Widths, final: History)
    requires Inv(s, keys, widths, final) && e.EServe? && Enabled(s, e, widths) && True(s, e, keys, widths, final)
    requires e.k !in s.torn && e.k !in Taken(e.order, e.n, 0)
    ensures var f := s.flights[e.k];
            && f.step > 0 && NoneWrong(Served(s, e), e.k, f, final)
            && (Exact(Served(s, e), e.k, f.window, final, f.step, f.boundary) <==> !f.lost || Refilled(f, e.k, final))
  {
    hide Inv, Cut, Touched, CutTorn, Taken, BarsOf, CoverageOf, On, NamesDistinct, Shapes, GridWidth, WidthsOk, Clip,
         Gone, Trimmed, Gaps, Good, TrueRows, UpToDate, NoneWrong, Exact, Refilled, Upsert, LastCompleteBoundary;
    InvParts(s, keys, widths, final);
    FlightIn(s, e.k, keys, widths, final);
    TouchedMeans(s.db, keys, e.k, e.at);
    assert KeySet(e.order) <= keys;
    CutFromTouched(s.db, e.k, e.at, s.torn, keys, e.order, e.n, 0, e.k);
    var f := s.flights[e.k];
    assert Served(s, e) == Clip(BarsOf(s.db, e.k), f.window);
    hide True, Served;
    if f.lost { LostAnswer(s.db, e.k, f, final); } else { KeptAnswer(s.db, e.k, f, final); }
  }

  lemma KeptAnswer(db: Tables, k: Key, f: Flight, final: History)
    requires f.step > 0 && f.next == |f.gaps| && Gaps(f.gaps, f.window, f.effective, f.step)
    requires Good(db, k, final, f.step, f.boundary) && UpToDate(db, k, f, final)
    ensures Exact(Clip(BarsOf(db, k), f.window), k, f.window, final, f.step, f.boundary)
    ensures NoneWrong(Clip(BarsOf(db, k), f.window), k, f, final)
  {
    hide On, Gaps, Fresh, BarsOf, CoverageOf, Clip;
    WindowFresh(db, k, f.window, f.effective, f.gaps, final, f.step, f.boundary);
    GoodKnown(db, k, final, f.step, f.boundary);
    ClipMeans(db, k, f.window, [], final, f.step, f.boundary);
  }

  lemma LostAnswer(db: Tables, k: Key, f: Flight, final: History)
    requires f.step > 0 && BarsOf(db, k) == Upsert(map[], f.seen) && TrueRows(f.seen, k, final, f.step, f.boundary)
    ensures NoneWrong(Clip(BarsOf(db, k), f.window), k, f, final)
    ensures Exact(Clip(BarsOf(db, k), f.window), k, f.window, final, f.step, f.boundary) <==> Refilled(f, k, final)
  {
    hide On, Upsert, BarsOf;
    var rows := Clip(BarsOf(db, k), f.window);
    forall t ensures t in rows <==> In(t, f.window) && HasStamp(f.seen, t)
             ensures t in rows ==> Row(t, rows[t]) in f.seen
    {
      UpsertMeans(map[], f.seen, t);
    }
  }

  // ---- a hole ---------------------------------------------------------

  /** Two keys of daily bars; upstream has two bars of the first, none of the other. */
  function Had(a: Key, bar: Bar): History {
    (k, t) => if k == a && (t == 0 || t == DAY) then Some(bar) else None
  }

  /** The first bar is held and covered; both keys have been accessed. */
  function Holding(a: Key, b: Key, bar: Bar): State {
    State(Tables(map[TableName(a) := map[0 := bar]], map[a := [Range(0, 0)], b := [Range(0, 0)]], map[a := 1, b := 2]),
          {}, map[], 2 * DAY)
  }

  function BeginA(a: Key): Event { EBegin(a, Range(0, DAY), 2 * DAY, [Range(0, 0)], [Range(DAY, DAY)]) }

  function BeginB(b: Key): Event { EBegin(b, Range(0, 0), 2 * DAY, [Range(0, 0)], []) }

  function ServeB(a: Key, b: Key): Event { EServe(b, 3, [a, b], 1, 0) }

  function LandA(a: Key, bar: Bar): Event { ELand(a, [Row(DAY, bar)], Range(DAY, DAY), Goes) }

  function ServeA(a: Key, b: Key): Event { EServe(a, 4, [b, a], 0, 0) }

  ghost predicate Pair(a: Key, b: Key, widths: Widths) {
    a != b && NamesDistinct({a, b}) && WidthsOk(widths) && widths(a.interval) == widths(b.interval) == Some(DAY)
  }

  lemma OneCovered(r: Range, t: int)
    ensures Covered([r], t) <==> In(t, r)
  {
    CoveredEmpty(t);
    assert [r][..0] == [];
  }

  lemma DailyStamps(t: int)
    ensures On(t, DAY) && 0 <= t <= DAY ==> t == 0 || t == DAY
    ensures On(0, DAY) && On(DAY, DAY)
  {
  }

  lemma DailyClock()
    ensures LastCompleteBoundary(DAY, 2 * DAY) == DAY && Floor(DAY, DAY) == DAY
  {
  }

  lemma HeldBars(a: Key, b: Key, bar: Bar)
    requires a != b && NamesDistinct({a, b})
    ensures var db := Holding(a, b, bar).db;
            && BarsOf(db, a) == map[0 := bar] && BarsOf(db, b) == map[]
            && CoverageOf(db, a) == CoverageOf(db, b) == [Range(0, 0)]
  {
    hide TableName;
  }

  lemma HeldGood(db: Tables, k: Key, a: Key, bar: Bar)
    requires CoverageOf(db, k) == [Range(0, 0)] && BarsOf(db, k) == if k == a then map[0 := bar] else map[]
    ensures Good(db, k, Had(a, bar), DAY, DAY)
  {
    hide BarsOf, CoverageOf, Covered, On;
    DailyStamps(0);
    forall t ensures Covered([Range(0, 0)], t) <==> t == 0 { OneCovered(Range(0, 0), t); }
  }

  lemma StartsRight(a: Key, b: Key, bar: Bar, widths: Widths)
    requires Pair(a, b, widths)
    ensures Inv(Holding(a, b, bar), {a, b}, widths, Had(a, bar))
  {
    hide Inv, NamesDistinct, Good, Shapes, BarsOf, CoverageOf, Had, AllGood, WidthsOk, GridWidth, On;
    var s := Holding(a, b, bar);
    HeldBars(a, b, bar);
    HeldGood(s.db, a, a, bar);
    HeldGood(s.db, b, a, bar);
    DailyShapes(s.db, a, b, widths);
    DailyGood(s.db, a, b, widths, Had(a, bar));
    assert s.db.lru.Keys == {a, b};
    NoFlights(s, {a, b}, widths, Had(a, bar));
  }

  lemma NoFlights(s: State, keys: set<Key>, widths: Widths, final: History)
    requires WidthsOk(widths) && NamesDistinct(keys) && Shapes(s.db, keys, widths)
    requires s.db.lru.Keys <= keys && s.flights == map[] && AllGood(s.db, s.torn, keys, widths, final, s.now)
    ensures Inv(s, keys, widths, final)
  {
    hide WidthsOk, NamesDistinct, Shapes, AllGood, FlightOk;
  }

  lemma DailyGood(db: Tables, a: Key, b: Key, widths: Widths, final: History)
    requires Pair(a, b, widths) && Good(db, a, final, DAY, DAY) && Good(db, b, final, DAY, DAY)
    ensures AllGood(db, {}, {a, b}, widths, final, 2 * DAY)
  {
    hide NamesDistinct, Good, WidthsOk, LastCompleteBoundary, Floor, DayStart, On;
    DailyClock();
    forall k | k in {a, b} && widths(k.interval).Some?
      ensures var step := widths(k.interval).value; Good(db, k, final, step, LastCompleteBoundary(step, 2 * DAY))
    {
      assert widths(k.interval).value == DAY;
    }
  }

  lemma DailyShapes(db: Tables, a: Key, b: Key, widths: Widths)
    requires Pair(a, b, widths) && CoverageOf(db, a) == CoverageOf(db, b) == [Range(0, 0)]
    ensures Shapes(db, {a, b}, widths)
  {
    hide NamesDistinct, BarsOf, CoverageOf, On, GridWidth;
    DailyStamps(0);
  }

  lemma DailyCover(t: int)
    ensures Covered([Range(0, 0)], t) <==> t == 0
    ensures Covered([Range(DAY, DAY)], t) <==> t == DAY
    ensures !Covered([], t)
  {
    OneCovered(Range(0, 0), t);
    OneCovered(Range(DAY, DAY), t);
  }

  /** The first key's plan is to fetch the second day, the other's is to fetch nothing. */
  lemma PlansRight(db: Tables, k: Key)
    requires CoverageOf(db, k) == [Range(0, 0)]
    ensures Planned(db, k, Range(0, DAY), [Range(0, 0)], [Range(DAY, DAY)], DAY, DAY)
    ensures Planned(db, k, Range(0, 0), [Range(0, 0)], [], DAY, DAY)
  {
    hide Covered, CoverageOf, On, Floor, Gaps;
    DailyGaps();
    DailyStamps(0);
    DailyClock();
    forall t ensures Covered([Range(0, 0)], t) <==> t == 0 { DailyCover(t); }
  }

  lemma DailyGaps()
    ensures Gaps([Range(DAY, DAY)], Range(0, DAY), [Range(0, 0)], DAY) && Gaps([], Range(0, 0), [Range(0, 0)], DAY)
  {
    hide Covered, On, Floor;
    DailyStamps(0);
    DailyClock();
    forall t | On(t, DAY)
      ensures Covered([Range(DAY, DAY)], t) <==> In(t, Range(0, DAY)) && !Covered([Range(0, 0)], t)
      ensures Covered([], t) <==> In(t, Range(0, 0)) && !Covered([Range(0, 0)], t)
    {
      DailyCover(t);
      DailyStamps(t);
    }
  }

  lemma OrderAB(a: Key, b: Key, db: Tables)
    requires a != b && db.lru == map[a := 1, b := 2]
    ensures forall o :: o in db.lru ==> db.lru[o] < 3
    ensures IsAccessOrder([a, b], Touched(db, b, 3).lru)
  {
    var lru := Touched(db, b, 3).lru;
    assert lru == map[a := 1, b := 3] && [a, b][0] == a && [a, b][1] == b;
  }

  lemma OrderBA(a: Key, b: Key, db: Tables)
    requires a != b && db.lru == map[b := 3]
    ensures forall o :: o in db.lru ==> db.lru[o] < 4
    ensures IsAccessOrder([b, a], Touched(db, a, 4).lru)
  {
    var lru := Touched(db, a, 4).lru;
    assert lru == map[b := 3, a := 4] && [b, a][0] == b && [b, a][1] == a;
  }

  /** The bar missing is what the provider sends. */
  lemma OneBar(a: Key, bar: Bar, f: Flight)
    requires f.step == DAY && f.boundary == DAY && f.gaps == [Range(DAY, DAY)] && f.next == 0
    ensures Replies(f, [Row(DAY, bar)], Range(DAY, DAY), a, Had(a, bar))
  {
    var rows := [Row(DAY, bar)];
    assert On(DAY, DAY) && rows[0].t == DAY;
    assert HasStamp(rows, DAY);
    assert forall t :: DAY / DAY <= t / DAY <= DAY / DAY && t <= DAY ==> t == DAY;
  }

  /** The first eviction takes one key, and only it. */
  lemma OneTaken(a: Key, b: Key, db: Tables)
    requires a != b && db.lru == map[a := 1, b := 2]
    ensures Taken([a, b], 1, 0) == {a} && Taken([b, a], 0, 0) == {} && CutTorn({}, [a, b], 1, 0) == {}
    ensures Cut(Touched(db, b, 3), [a, b], 1, 0).lru == map[b := 3]
  {
    hide TableName;
    assert (set i | 0 <= i < 1 :: [a, b][i]) == {a} by { assert [a, b][0] == a; }
    var was := Touched(db, b, 3);
    assert was.lru == map[a := 1, b := 3];
    assert EvictedDb(was, [a, b], 1) == Dropped(EvictedDb(was, [a, b], 0), a, 3) == Dropped(was, a, 3);
    assert map[a := 1, b := 3] - {a} == map[b := 3];
  }

  function FlightA(lost: bool): Flight {
    Flight(Range(0, DAY), DAY, DAY, [Range(0, 0)], [Range(DAY, DAY)], true, 0, [], lost)
  }

  function FlightB(): Flight { Flight(Range(0, 0), DAY, DAY, [Range(0, 0)], [], true, 0, [], false) }

  /** Both requests have made their plan. */
  lemma BothBegin(a: Key, b: Key, bar: Bar, widths: Widths) returns (s1: State, s2: State)
    requires Pair(a, b, widths)
    ensures var s0 := Holding(a, b, bar);
            && Enabled(s0, BeginA(a), widths) && True(s0, BeginA(a), {a, b}, widths, Had(a, bar))
            && s1 == Next(s0, BeginA(a), widths)
            && Enabled(s1, BeginB(b), widths) && True(s1, BeginB(b), {a, b}, widths, Had(a, bar))
            && s2 == Next(s1, BeginB(b), widths) && s2 == s0.(flights := map[a := FlightA(false), b := FlightB()])
  {
    hide LastCompleteBoundary, Floor, NamesDistinct, Planned, TableName, BarsOf, CoverageOf, On, GridWidth, Had;
    var s0 := Holding(a, b, bar);
    HeldBars(a, b, bar);
    PlansRight(s0.db, a);
    PlansRight(s0.db, b);
    DailyClock();
    s1 := s0.(flights := map[a := FlightA(false)]);
    s2 := s0.(flights := map[a := FlightA(false), b := FlightB()]);
  }

  /** Serving the second request evicts the first one's key. */
  lemma ServesB(a: Key, b: Key, s2: State, widths: Widths, final: History) returns (s3: State)
    requires a != b && s2.flights == map[a := FlightA(false), b := FlightB()] && s2.torn == {}
    requires s2.db.lru == map[a := 1, b := 2]
    ensures Enabled(s2, ServeB(a, b), widths) && True(s2, ServeB(a, b), {a, b}, widths, final)
    ensures s3 == Next(s2, ServeB(a, b), widths) && s3.flights == map[a := FlightA(true)] && s3.torn == {}
    ensures s3.db.lru == map[b := 3]
  {
    hide Cut, CutTorn, Taken, IsAccessOrder, Touched;
    OrderAB(a, b, s2.db);
    OneTaken(a, b, s2.db);
    s3 := Next(s2, ServeB(a, b), widths);
    assert s3.flights == map[a := FlightA(true)];
  }

  /** The first request's reply lands. */
  lemma LandsA(a: Key, b: Key, bar: Bar, s3: State, widths: Widths) returns (s4: State)
    requires a != b && s3.flights == map[a := FlightA(true)] && s3.torn == {} && s3.db.lru == map[b := 3]
    ensures Enabled(s3, LandA(a, bar), widths) && True(s3, LandA(a, bar), {a, b}, widths, Had(a, bar))
    ensures s4 == Next(s3, LandA(a, bar), widths) && s4.torn == {} && s4.db.lru == map[b := 3]
    ensures s4.flights == map[a := FlightA(true).(next := 1, seen := [Row(DAY, bar)])]
  {
    hide Stored, Replies, Had;
    OneBar(a, bar, FlightA(true));
    StoredLru(s3.db, a, [Row(DAY, bar)], Range(DAY, DAY), DAY);
    s4 := Next(s3, LandA(a, bar), widths);
    assert [] + [Row(DAY, bar)] == [Row(DAY, bar)];
    assert s4.flights == map[a := FlightA(true).(next := 1, seen := [Row(DAY, bar)])];
  }

  lemma StoredLru(db: Tables, k: Key, rows: seq<Row>, wire: Range, boundary: int)
    ensures Stored(db, k, rows, wire, boundary).lru == db.lru
  {
    hide TableName, Upsert, TrimTail;
  }

  /** A key's request served while another waits for its provider evicts the
      other's entry: the other is then served without the bar it had held, and
      no bypass. */
  lemma HoleHappens(a: Key, b: Key, bar: Bar, widths: Widths) returns (states: seq<State>, events: seq<Event>)
    requires Pair(a, b, widths)
    ensures events == [BeginA(a), BeginB(b), ServeB(a, b), LandA(a, bar), ServeA(a, b)]
    ensures RunOf(states, events, {a, b}, widths, Had(a, bar)) && Inv(states[0], {a, b}, widths, Had(a, bar))
    ensures a in states[4].flights
            && !Exact(Served(states[4], events[4]), a, Range(0, DAY), Had(a, bar), DAY, DAY)
  {
    hide Next, Landed, Inv, Exact, Served, Refilled, On, NamesDistinct, WidthsOk, Had, IsAccessOrder, Touched, True,
         Enabled, Taken, GridWidth, LastCompleteBoundary, NoneWrong, BarsOf, CoverageOf, TableName;
    var final, keys := Had(a, bar), {a, b};
    StartsRight(a, b, bar, widths);
    var s1, s2 := BothBegin(a, b, bar, widths);
    var s3 := ServesB(a, b, s2, widths, final);
    var s4 := LandsA(a, b, bar, s3, widths);
    ServesA(a, b, s4, widths, final);
    var e4 := ServeA(a, b);
    states := [Holding(a, b, bar), s1, s2, s3, s4, Next(s4, e4, widths)];
    events := [BeginA(a), BeginB(b), ServeB(a, b), LandA(a, bar), e4];
    RunKeeps(states, events, keys, widths, final, 4);
    NotRefilled(a, bar);
    ServeIff(s4, e4, keys, widths, final);
  }

  lemma ServesA(a: Key, b: Key, s4: State, widths: Widths, final: History)
    requires a != b && s4.db.lru == map[b := 3] && a in s4.flights && s4.flights[a].next == |s4.flights[a].gaps|
    ensures Enabled(s4, ServeA(a, b), widths) && True(s4, ServeA(a, b), {a, b}, widths, final)
    ensures a !in Taken([b, a], 0, 0)
  {
    hide Touched, IsAccessOrder;
    OrderBA(a, b, s4.db);
  }

  lemma NotRefilled(a: Key, bar: Bar)
    ensures !Refilled(FlightA(true).(next := 1, seen := [Row(DAY, bar)]), a, Had(a, bar))
  {
    hide On;
    DailyStamps(0);
    assert Had(a, bar)(a, 0) == Some(bar);
    assert !HasStamp([Row(DAY, bar)], 0);
  }
}
