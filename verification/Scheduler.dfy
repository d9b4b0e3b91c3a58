/** The backfill's scheduler (scripts/sip_backfill.py, _cycle): one decision a
    cycle, walking back from the newest complete week to a floor. Days are
    counted from a Monday, times in seconds from its midnight. */
module Scheduler {
  import opened Options
  import opened Backfill
  import opened WeekLoader

  const DAY := 86400
  const HOUR := 3600

  predicate IsMonday(day: int) { day % 7 == 0 }

  /** A week is complete from its Saturday 08:00 on. */
  predicate Complete(monday: int, now: int) { (monday + 5) * DAY + 8 * HOUR <= now }

  /** The newest complete week: every Monday's week is complete exactly if it is
      this one or an older one. */
  function LatestCompleteMonday(now: int): (m: int)
    ensures IsMonday(m)
    ensures forall k :: IsMonday(k) ==> (Complete(k, now) <==> k <= m)
  {
    var day := now / DAY;
    var weekday := day % 7;
    var monday := day - weekday;
    if weekday < 5 || (weekday == 5 && now % DAY / HOUR < 8) then monday - 7 else monday
  }

  type Weeks = map<int, Week>

  function At(weeks: Weeks, m: int): Week { if m in weeks then weeks[m] else Untouched }

  predicate Open(weeks: Weeks, m: int) { At(weeks, m).finished.None? }

  /** First pass over, not settled, and fetched before a settle point that has come. */
  predicate DueForSettle(w: Week, monday: int, lag: int, now: int) {
    w.finished.Some? && w.settled.None? && w.started.Some? && w.started.value < (monday + 4 + lag) * DAY <= now
  }

  predicate DueForRetry(w: Week, retryMax: nat, now: int) {
    w.finished.Some? && Retryable(w, retryMax) != {} && (w.retriedAt.None? || w.retriedAt.value <= now - DAY)
  }

  datatype Job = Daily | Pass(mode: Mode, week: int) | Nothing

  datatype Settings = Settings(floor: int, lag: int, retryMax: nat)

  /** The newest known week that is due. */
  predicate NewestDue(weeks: Weeks, m: int, due: int -> bool) {
    m in weeks && due(m) && forall k :: k in weeks && due(k) ==> k <= m
  }

  predicate NoneDue(weeks: Weeks, due: int -> bool) {
    forall k :: k in weeks ==> !due(k)
  }

  /** Mondays from `m` back to the floor whose first pass is not over. */
  function Backlog(weeks: Weeks, m: int, floor: int): nat
    decreases m - floor
  {
    if m < floor then 0 else (if Open(weeks, m) then 1 else 0) + Backlog(weeks, m - 7, floor)
  }

  /** What a cycle may pick. */
  ghost predicate Picks(weeks: Weeks, job: Job, daily: bool, now: int, s: Settings) {
    var newest := LatestCompleteMonday(now);
    var settle := m => m in weeks && DueForSettle(weeks[m], m, s.lag, now);
    var retry := m => m in weeks && DueForRetry(weeks[m], s.retryMax, now);
    if daily then job == Daily
    else if Open(weeks, newest) then job == Pass(Load, newest)
    else if !NoneDue(weeks, settle) then job.Pass? && job.mode == Settle && NewestDue(weeks, job.week, settle)
    else if !NoneDue(weeks, retry) then job.Pass? && job.mode == Retry && NewestDue(weeks, job.week, retry)
    else if Backlog(weeks, newest, s.floor) == 0 then job == Nothing
    else job.Pass? && job.mode == Load && NextBack(weeks, job.week, newest, s.floor)
  }

  /** The newest Monday, walking back, that is open. */
  predicate NextBack(weeks: Weeks, m: int, from: int, floor: int) {
    && floor <= m <= from && (from - m) % 7 == 0 && Open(weeks, m)
    && forall k :: m < k <= from && (from - k) % 7 == 0 ==> !Open(weeks, k)
  }

  datatype DailyBooks = DailyBooks(whole: map<string, Loaded>, partial: map<string, string>, oldEnough: bool)

  function AfterDaily(weeks: Weeks, books: map<int, DailyBooks>, now: int): Weeks {
    weeks + map m | m in books :: Finalized(At(weeks, m), books[m].whole, books[m].partial, now, books[m].oldEnough)
  }

  /** What a cycle finds outside: the time, whether a daily pass is due and what it
      books, who belongs to a week, who was in the index when, how each load ends. */
  datatype Outside = Outside(now: int, end: int, daily: Option<map<int, DailyBooks>>, members: int -> set<string>,
                             tenure: Tenure, out: Outcomes)

  /** The files that outlive a cycle: the weeks' progress and the blacklist. */
  datatype Files = Files(weeks: Weeks, black: map<string, seq<int>>)

  /** A week's members but for those blacklisted for it. */
  function Wanted(members: set<string>, black: map<string, seq<int>>, m: int): set<string> {
    set sym | sym in members && !Blocks(WeekLoader.Weeks(black, sym), m)
  }

  /** A pass of a week: over exactly the symbols due in that mode, in some order; a
      load pass seen through puts its unservable failures on the blacklist. */
  ghost predicate Passed(f: Files, f': Files, mode: Mode, m: int, cut: bool, o: Outside, retryMax: nat,
                         order: seq<string>) {
    && Orders(order, Todo(At(f.weeks, m), Wanted(o.members(m), f.black, m), mode, retryMax, false))
    && cut == Interrupted(order, o.out)
    && f'.weeks == f.weeks[m := Backfill.Pass(At(f.weeks, m), mode, o.now, o.end, order, o.out)]
    && if mode == Load && !cut then Noted(f.black, f'.black, m, At(f'.weeks, m).failed, o.tenure)
       else f'.black == f.black
  }

  /** What the cycle's work does to the files. */
  ghost predicate Worked(f: Files, f': Files, job: Job, cut: bool, o: Outside, retryMax: nat) {
    match job
    case Nothing => f' == f && !cut
    case Daily => o.daily.Some? && !cut && f' == f.(weeks := AfterDaily(f.weeks, o.daily.value, o.now))
    case Pass(mode, m) => exists order :: Passed(f, f', mode, m, cut, o, retryMax, order)
  }

  lemma {:induction false} BacklogChange(weeks: Weeks, weeks': Weeks, m: int, floor: int, k: int)
    requires forall x :: x != k ==> (Open(weeks', x) <==> Open(weeks, x))
    requires Open(weeks', k) ==> Open(weeks, k)
    ensures Backlog(weeks', m, floor) + (if floor <= k <= m && (m - k) % 7 == 0 && Open(weeks, k) && !Open(weeks', k)
                                         then 1 else 0)
         == Backlog(weeks, m, floor)
    decreases m - floor
  {
    hide Open;
    if m >= floor {
      BacklogChange(weeks, weeks', m - 7, floor, k);
      assert (m - k) % 7 == (m - 7 - k) % 7;
    }
  }

  lemma {:induction false} BacklogShrinks(weeks: Weeks, weeks': Weeks, m: int, floor: int)
    requires forall x :: Open(weeks', x) ==> Open(weeks, x)
    ensures Backlog(weeks', m, floor) <= Backlog(weeks, m, floor)
    decreases m - floor
  {
    hide Open;
    if m >= floor { BacklogShrinks(weeks, weeks', m - 7, floor); }
  }

  /** A load pass seen through closes its week; no work ever opens one. */
  lemma WorkCloses(f: Files, f': Files, job: Job, cut: bool, o: Outside, retryMax: nat, floor: int, newest: int)
    requires Worked(f, f', job, cut, o, retryMax)
    ensures forall x :: Open(f'.weeks, x) ==> Open(f.weeks, x)
    ensures job.Pass? && job.mode == Load && !cut ==> !Open(f'.weeks, job.week)
    ensures job.Pass? && job.mode == Load && !cut && Open(f.weeks, job.week) && floor <= job.week <= newest
            && (newest - job.week) % 7 == 0 ==>
              Backlog(f'.weeks, newest, floor) == Backlog(f.weeks, newest, floor) - 1
    ensures Backlog(f'.weeks, newest, floor) <= Backlog(f.weeks, newest, floor)
  {
    hide Blocks, Backlog, Noted;
    match job
    case Pass(mode, m) =>
      var order :| Passed(f, f', mode, m, cut, o, retryMax, order);
      PassMeans(At(f.weeks, m), mode, o.now, o.end, order, o.out, "");
      BacklogChange(f.weeks, f'.weeks, newest, floor, m);
      BacklogShrinks(f.weeks, f'.weeks, newest, floor);
    case Daily => BacklogShrinks(f.weeks, f'.weeks, newest, floor);
    case Nothing =>
  }

  /** So a load pass seen through has every member on its books who is not
      blacklisted for the week, and has not fetched one who is. */
  lemma LoadCovers(f: Files, f': Files, m: int, o: Outside, retryMax: nat, order: seq<string>, sym: string)
    requires Passed(f, f', Load, m, false, o, retryMax, order)
    requires forall s :: s in order && o.out(s).Got? ==> o.out(s).loaded.added.None?
    ensures sym in o.members(m) && !Blocks(WeekLoader.Weeks(f.black, sym), m) ==> Accounted(f'.weeks[m], sym)
    ensures Blocks(WeekLoader.Weeks(f.black, sym), m) || Settled(At(f.weeks, m), sym) ==> sym !in order
  {
    hide Backfill.Pass, Accounted, Interrupted, Blocks;
    var wanted := Wanted(o.members(m), f.black, m);
    assert Todo(At(f.weeks, m), wanted, Load, retryMax, false) == Todo(At(f.weeks, m), wanted, Load, 0, false);
    if sym in wanted { LoadAccounts(At(f.weeks, m), wanted, o.now, o.end, order, o.out, sym); }
  }

  lemma {:induction false} BacklogOpen(weeks: Weeks, m: int, floor: int, k: int)
    requires floor <= k <= m && (m - k) % 7 == 0 && Open(weeks, k)
    ensures Backlog(weeks, m, floor) > 0
    decreases m - k
  {
    if k != m { BacklogOpen(weeks, m - 7, floor, k); }
  }

  /** Nothing to do means caught up: every Monday from the newest complete one
      back to the floor has had its first pass, and no week is due for another. */
  lemma NothingMeansCaughtUp(weeks: Weeks, now: int, s: Settings, m: int)
    requires Picks(weeks, Nothing, false, now, s)
    requires IsMonday(m) && s.floor <= m && Complete(m, now)
    ensures !Open(weeks, m)
    ensures m in weeks ==> !DueForSettle(weeks[m], m, s.lag, now) && !DueForRetry(weeks[m], s.retryMax, now)
  {
    var newest := LatestCompleteMonday(now);
    assert (newest - m) % 7 == 0;
    if Open(weeks, m) { BacklogOpen(weeks, newest, s.floor, m); }
  }

  // ---- the rules in plain terms ---------------------------------------

  /** The week's first pass is not over. */
  ghost predicate Unloaded(weeks: Weeks, m: int) { m !in weeks || weeks[m].finished.None? }

  /** First pass over, not settled, and begun before midnight of its Friday and
      `lag` days more, which has come. */
  ghost predicate Unsettled(weeks: Weeks, m: int, lag: int, now: int) {
    && m in weeks && weeks[m].finished.Some? && weeks[m].settled.None? && weeks[m].started.Some?
    && weeks[m].started.value < (m + 4 + lag) * 86400 <= now
  }

  /** First pass over, a failure with tries left, and no retry pass for a day. */
  ghost predicate Failing(weeks: Weeks, m: int, retryMax: nat, now: int) {
    && m in weeks && weeks[m].finished.Some?
    && (exists sym :: sym in weeks[m].failed
                      && (if sym in weeks[m].retries then weeks[m].retries[sym] else 0) < retryMax)
    && (weeks[m].retriedAt.None? || now - weeks[m].retriedAt.value >= 86400)
  }

  ghost predicate Quiet(weeks: Weeks, now: int, s: Settings) {
    forall k :: !Unsettled(weeks, k, s.lag, now) && !Failing(weeks, k, s.retryMax, now)
  }

  /** What a cycle picks, and when: a daily pass that is due; or the newest
      complete week if it was never loaded; or the newest week due for a settle
      pass; or, with none, the newest due for a retry; or, with none, the newest
      Monday back to the floor that was never loaded; or nothing. */
  lemma PicksMeans(weeks: Weeks, job: Job, daily: bool, now: int, s: Settings) returns (newest: int)
    requires Picks(weeks, job, daily, now, s)
    ensures newest % 7 == 0 && (newest + 5) * 86400 + 28800 <= now < (newest + 12) * 86400 + 28800
    ensures job == Daily <==> daily
    ensures !daily ==> (job == Pass(Load, newest) <==> Unloaded(weeks, newest))
    ensures job.Pass? && job.mode == Settle ==>
      Unsettled(weeks, job.week, s.lag, now) && forall k :: Unsettled(weeks, k, s.lag, now) ==> k <= job.week
    ensures job.Pass? && job.mode == Retry ==>
      && (forall k :: !Unsettled(weeks, k, s.lag, now))
      && Failing(weeks, job.week, s.retryMax, now) && forall k :: Failing(weeks, k, s.retryMax, now) ==> k <= job.week
    ensures job.Pass? && job.mode == Load && job.week != newest ==>
      && Quiet(weeks, now, s) && job.week % 7 == 0 && s.floor <= job.week < newest && Unloaded(weeks, job.week)
      && forall k :: job.week < k <= newest && k % 7 == 0 ==> !Unloaded(weeks, k)
    ensures job == Nothing ==>
      Quiet(weeks, now, s) && forall k :: s.floor <= k <= newest && k % 7 == 0 ==> !Unloaded(weeks, k)
  {
    newest := LatestCompleteMonday(now);
    NewestIs(now, newest);
    hide LatestCompleteMonday;
    forall k
      ensures Unloaded(weeks, k) <==> Open(weeks, k)
      ensures Unsettled(weeks, k, s.lag, now) <==> k in weeks && DueForSettle(weeks[k], k, s.lag, now)
      ensures Failing(weeks, k, s.retryMax, now) <==> k in weeks && DueForRetry(weeks[k], s.retryMax, now)
    {
      DueMeans(weeks, k, s, now);
    }
    hide Open, Unloaded, DueForSettle, DueForRetry, Unsettled, Failing;
    hide IsMonday, Backlog, NextBack;
    if job == Nothing {
      forall k | s.floor <= k <= newest && k % 7 == 0 ensures !Unloaded(weeks, k) {
        SameDay(newest, k);
        if Open(weeks, k) { BacklogOpen(weeks, newest, s.floor, k); }
      }
    } else if job.Pass? && job.mode == Load && job.week != newest {
      NextBackMeans(weeks, job.week, newest, s.floor);
    }
  }

  lemma SameDay(newest: int, k: int)
    requires newest % 7 == 0
    ensures (newest - k) % 7 == 0 <==> k % 7 == 0
  {
  }

  lemma NextBackMeans(weeks: Weeks, m: int, newest: int, floor: int)
    requires NextBack(weeks, m, newest, floor) && newest % 7 == 0
    ensures m % 7 == 0 && floor <= m <= newest && Open(weeks, m)
    ensures forall k :: m < k <= newest && k % 7 == 0 ==> !Open(weeks, k)
  {
    hide Open;
    SameDay(newest, m);
    forall k | m < k <= newest && k % 7 == 0 ensures !Open(weeks, k) { SameDay(newest, k); }
  }

  lemma NewestIs(now: int, newest: int)
    requires newest == LatestCompleteMonday(now)
    ensures newest % 7 == 0 && (newest + 5) * 86400 + 28800 <= now < (newest + 12) * 86400 + 28800
  {
    hide LatestCompleteMonday;
    assert IsMonday(newest) && IsMonday(newest + 7);
    assert Complete(newest, now) && !Complete(newest + 7, now);
  }

  lemma DueMeans(weeks: Weeks, k: int, s: Settings, now: int)
    ensures Unloaded(weeks, k) <==> Open(weeks, k)
    ensures Unsettled(weeks, k, s.lag, now) <==> k in weeks && DueForSettle(weeks[k], k, s.lag, now)
    ensures Failing(weeks, k, s.retryMax, now) <==> k in weeks && DueForRetry(weeks[k], s.retryMax, now)
  {
    if k in weeks {
      var w := weeks[k];
      forall sym | sym in w.failed
        ensures sym in Retryable(w, s.retryMax)
                <==> (if sym in w.retries then w.retries[sym] else 0) < s.retryMax
      {
      }
    }
  }

  /** The Mondays back to the floor whose first pass is not over. */
  ghost function Behind(weeks: Weeks, m: int, floor: int): set<int> {
    set k | floor <= k <= m && (m - k) % 7 == 0 && (k !in weeks || weeks[k].finished.None?)
  }

  lemma {:induction false} BacklogIs(weeks: Weeks, m: int, floor: int)
    ensures Backlog(weeks, m, floor) == |Behind(weeks, m, floor)|
    decreases m - floor
  {
    if m < floor {
      assert Behind(weeks, m, floor) == {};
    } else {
      BacklogIs(weeks, m - 7, floor);
      BehindGrows(weeks, m, floor);
    }
  }

  lemma BehindGrows(weeks: Weeks, m: int, floor: int)
    requires m >= floor
    ensures m !in Behind(weeks, m - 7, floor)
    ensures Behind(weeks, m, floor) == Behind(weeks, m - 7, floor) + if Open(weeks, m) then {m} else {}
  {
    var all, rest := Behind(weeks, m, floor), Behind(weeks, m - 7, floor);
    forall k | k in all && k != m ensures k in rest { SevenApart(m, k); }
    forall k | k in rest ensures k in all { SevenApart(m, k); }
  }

  lemma SevenApart(m: int, k: int)
    ensures (m - k) % 7 == (m - 7 - k) % 7 && (m - 7 < k < m ==> (m - k) % 7 != 0)
  {
  }

  /** A daily pass books each week it touches and leaves the others alone. */
  lemma DailyMeans(f: Files, f': Files, cut: bool, o: Outside, retryMax: nat, m: int)
    requires Worked(f, f', Daily, cut, o, retryMax)
    ensures f'.black == f.black && o.daily.Some?
    ensures m !in o.daily.value ==> (m in f'.weeks <==> m in f.weeks) && (m in f.weeks ==> f'.weeks[m] == f.weeks[m])
    ensures m in o.daily.value ==>
      var b, w := o.daily.value[m], if m in f.weeks then f.weeks[m] else Untouched;
      m in f'.weeks && f'.weeks[m] == Finalized(w, b.whole, b.partial, o.now, b.oldEnough)
  {
    hide Finalized;
  }

  // ---- runs -----------------------------------------------------------

  datatype Cycle = Cycle(job: Job, cut: bool, outside: Outside)

  /** One cycle, with `newest` the newest complete week. */
  ghost predicate CycleStep(f: Files, f': Files, c: Cycle, newest: int, s: Settings) {
    && LatestCompleteMonday(c.outside.now) == newest
    && Picks(f.weeks, c.job, c.outside.daily.Some?, c.outside.now, s)
    && Worked(f, f', c.job, c.cut, c.outside, s.retryMax)
  }

  ghost predicate RunsOf(fs: seq<Files>, cycles: seq<Cycle>, newest: int, s: Settings) {
    && |fs| == |cycles| + 1
    && forall i :: 0 <= i < |cycles| ==> CycleStep(fs[i], fs[i + 1], cycles[i], newest, s)
  }

  predicate IsLoad(c: Cycle) { c.job.Pass? && c.job.mode == Load && !c.cut }

  /** Load cycles seen through. */
  function Loads(cycles: seq<Cycle>): nat {
    if cycles == [] then 0
    else Loads(cycles[..|cycles| - 1]) + if IsLoad(cycles[|cycles| - 1]) then 1 else 0
  }

  lemma CycleLowers(f: Files, f': Files, c: Cycle, newest: int, s: Settings)
    requires CycleStep(f, f', c, newest, s) && s.floor <= newest
    ensures Backlog(f'.weeks, newest, s.floor) <= Backlog(f.weeks, newest, s.floor)
    ensures IsLoad(c) ==> Backlog(f'.weeks, newest, s.floor) == Backlog(f.weeks, newest, s.floor) - 1
  {
    hide Picks, Worked, Backlog;
    if IsLoad(c) { PickedIsOpen(f.weeks, c.job, c.outside.daily.Some?, c.outside.now, s); }
    WorkCloses(f, f', c.job, c.cut, c.outside, s.retryMax, s.floor, newest);
  }

  lemma {:induction false} LoadsLower(fs: seq<Files>, cycles: seq<Cycle>, newest: int, s: Settings)
    requires RunsOf(fs, cycles, newest, s) && s.floor <= newest
    ensures Loads(cycles) + Backlog(fs[|cycles|].weeks, newest, s.floor) <= Backlog(fs[0].weeks, newest, s.floor)
  {
    hide CycleStep, Backlog, IsLoad;
    if cycles != [] {
      var n := |cycles| - 1;
      LoadsLower(fs[..n + 1], cycles[..n], newest, s);
      CycleLowers(fs[n], fs[n + 1], cycles[n], newest, s);
    }
  }

  /** The cycles that saw a load pass through. */
  ghost function LoadCycles(cycles: seq<Cycle>): set<int> {
    set i | 0 <= i < |cycles| && cycles[i].job.Pass? && cycles[i].job.mode == Load && !cycles[i].cut
  }

  lemma {:induction false} LoadsAre(cycles: seq<Cycle>)
    ensures Loads(cycles) == |LoadCycles(cycles)|
  {
    if cycles == [] {
      assert LoadCycles(cycles) == {};
    } else {
      var n := |cycles| - 1;
      LoadsAre(cycles[..n]);
      assert n !in LoadCycles(cycles[..n]);
      assert LoadCycles(cycles) == LoadCycles(cycles[..n]) + if IsLoad(cycles[n]) then {n} else {};
    }
  }

  /** While the newest complete week stays the same, a run has no more load cycles
      seen through than Mondays it takes off the backlog -- so the number of load
      cycles to catching up is at most the backlog. */
  lemma CatchingUp(fs: seq<Files>, cycles: seq<Cycle>, newest: int, s: Settings)
    requires RunsOf(fs, cycles, newest, s) && s.floor <= newest
    ensures |LoadCycles(cycles)| + |Behind(fs[|cycles|].weeks, newest, s.floor)|
            <= |Behind(fs[0].weeks, newest, s.floor)|
  {
    LoadsLower(fs, cycles, newest, s);
    LoadsAre(cycles);
    BacklogIs(fs[|cycles|].weeks, newest, s.floor);
    BacklogIs(fs[0].weeks, newest, s.floor);
  }

  lemma PickedIsOpen(weeks: Weeks, job: Job, daily: bool, now: int, s: Settings)
    requires Picks(weeks, job, daily, now, s) && job.Pass? && job.mode == Load
    ensures var newest := LatestCompleteMonday(now);
            Open(weeks, job.week) && job.week <= newest && (newest - job.week) % 7 == 0
            && (job.week == newest || s.floor <= job.week)
  {
  }

  // ---- the cycle ------------------------------------------------------

  class Loader {
    /** The progress files, by week. */
    var weeks: Weeks
    const blacklist: Blacklist

    function F(): Files
      reads this, blacklist
    {
      Files(weeks, blacklist.unservable)
    }

    constructor (blacklist: Blacklist)
      ensures weeks == map[] && this.blacklist == blacklist
    {
      weeks, this.blacklist := map[], blacklist;
    }

    /** Weeks that have a file, newest first. */
    method KnownWeeks() returns (known: seq<int>)
      ensures forall m :: m in known <==> m in weeks
      ensures forall i, j :: 0 <= i < j < |known| ==> known[i] > known[j]
    {
      known := [];
      var left := weeks.Keys;
      while left != {}
        invariant left <= weeks.Keys
        invariant forall m :: m in known <==> m in weeks && m !in left
        invariant forall i, j :: 0 <= i < j < |known| ==> known[i] > known[j]
        invariant forall m, k :: m in left && k in known ==> m < k
        decreases |left|
      {
        var m := Newest(left);
        assert forall k :: k in known ==> m < k;
        left := left - {m};
        assert forall i :: 0 <= i < |known| ==> known[i] in known;
        known := known + [m];
      }
    }

    static method Newest(days: set<int>) returns (m: int)
      requires days != {}
      ensures m in days && forall d :: d in days ==> d <= m
    {
      NonEmpty(days);
      m :| m in days;
      var left := days - {m};
      while left != {}
        invariant left < days && m in days && forall d :: d in days && d !in left ==> d <= m
        decreases |left|
      {
        NonEmpty(left);
        var d :| d in left;
        left := left - {d};
        if d > m { m := d; }
      }
    }

    method FirstDue(known: seq<int>, due: int -> bool) returns (m: Option<int>)
      requires forall k :: k in known <==> k in weeks
      requires forall i, j :: 0 <= i < j < |known| ==> known[i] > known[j]
      ensures m.None? ==> NoneDue(weeks, due)
      ensures m.Some? ==> NewestDue(weeks, m.value, due)
    {
      for i := 0 to |known|
        invariant forall j :: 0 <= j < i ==> !due(known[j])
      {
        if due(known[i]) { return Some(known[i]); }
      }
      return None;
    }

    method SearchBack(newest: int, floor: int) returns (m: Option<int>)
      ensures m.None? ==> Backlog(weeks, newest, floor) == 0
      ensures m.Some? ==> NextBack(weeks, m.value, newest, floor) && Backlog(weeks, newest, floor) > 0
    {
      var monday := newest;
      while monday >= floor
        invariant monday <= newest && (newest - monday) % 7 == 0
        invariant forall k :: monday < k <= newest && (newest - k) % 7 == 0 ==> !Open(weeks, k)
        invariant Backlog(weeks, newest, floor) == Backlog(weeks, monday, floor)
        decreases monday - floor
      {
        if Open(weeks, monday) { return Some(monday); }
        monday := monday - 7;
      }
      return None;
    }

    method Choose(daily: bool, now: int, s: Settings) returns (job: Job)
      ensures Picks(weeks, job, daily, now, s)
    {
      if daily { return Daily; }
      var newest := LatestCompleteMonday(now);
      if Open(weeks, newest) { return Pass(Load, newest); }
      var known := KnownWeeks();
      var files := weeks;
      var m := FirstDue(known, m => m in files && DueForSettle(files[m], m, s.lag, now));
      if m.Some? { return Pass(Settle, m.value); }
      m := FirstDue(known, m => m in files && DueForRetry(files[m], s.retryMax, now));
      if m.Some? { return Pass(Retry, m.value); }
      m := SearchBack(newest, s.floor);
      if m.None? { return Nothing; }
      return Pass(Load, m.value);
    }

    method RunWeek(m: int, mode: Mode, o: Outside, retryMax: nat) returns (cut: bool)
      requires blacklist.Valid(o.tenure)
      modifies this, blacklist
      ensures blacklist.Valid(o.tenure) && Worked(old(F()), F(), Pass(mode, m), cut, o, retryMax)
    {
      hide Todo, Noted, Orders, Interrupted, Backfill.Pass, Blocks, Wanted;
      var p := new Progress(if m in weeks then Some(weeks[m]) else None);
      var blocked := blacklist.BlockedFor(m);
      var members := o.members(m);
      var wanted := set sym | sym in members && sym !in blocked;
      WantedAre(blacklist.unservable, m, members, blocked, wanted);
      ghost var order;
      cut, order := p.LoadWeek(wanted, mode, retryMax, false, o.now, o.end, o.out);
      weeks := weeks[m := p.W()];
      if mode == Load && !cut { blacklist.NoteWeek(m, p.failed, o.tenure); }
      assert Passed(old(F()), F(), mode, m, cut, o, retryMax, order);
    }

    method Run(o: Outside, s: Settings) returns (job: Job, cut: bool)
      requires blacklist.Valid(o.tenure)
      modifies this, blacklist
      ensures blacklist.Valid(o.tenure) && Picks(old(weeks), job, o.daily.Some?, o.now, s)
      ensures Worked(old(F()), F(), job, cut, o, s.retryMax)
    {
      hide Picks, Passed;
      cut := false;
      job := Choose(o.daily.Some?, o.now, s);
      DailyOnlyIfDue(weeks, job, o.daily.Some?, o.now, s);
      match job {
        case Daily => weeks := AfterDaily(weeks, o.daily.value, o.now);
        case Pass(mode, m) => cut := RunWeek(m, mode, o, s.retryMax);
        case Nothing =>
      }
    }
  }

  lemma BlockedAre(black: map<string, seq<int>>, m: int, blocked: set<string>)
    requires forall sym :: sym in blocked <==>
               |WeekLoader.Weeks(black, sym)| >= THRESHOLD && exists x :: x in WeekLoader.Weeks(black, sym) && m <= x
    ensures forall sym :: sym in blocked <==> Blocks(WeekLoader.Weeks(black, sym), m)
  {
    forall sym ensures sym in blocked <==> Blocks(WeekLoader.Weeks(black, sym), m) {
      var weeks := WeekLoader.Weeks(black, sym);
      if weeks != [] { assert Newest(weeks) in weeks; }
    }
  }

  lemma WantedAre(black: map<string, seq<int>>, m: int, members: set<string>, blocked: set<string>, wanted: set<string>)
    requires forall sym :: sym in blocked <==>
               |WeekLoader.Weeks(black, sym)| >= THRESHOLD && exists x :: x in WeekLoader.Weeks(black, sym) && m <= x
    requires wanted == set sym | sym in members && sym !in blocked
    ensures wanted == Wanted(members, black, m)
  {
    hide Blocks;
    BlockedAre(black, m, blocked);
  }

  lemma NonEmpty(days: set<int>)
    requires days != {}
    ensures exists d :: d in days
  {
    assert (forall d :: d !in days) ==> days == {};
  }

  lemma DailyOnlyIfDue(weeks: Weeks, job: Job, daily: bool, now: int, s: Settings)
    requires Picks(weeks, job, daily, now, s)
    ensures job == Daily ==> daily
  {
  }
}
