/** Fetching a span of days from a vendor that refuses what is too big
    (scripts/sip_backfill.py, fetch_span): spans are halved until they are
    served, and the size that works is remembered for the symbol. */
module SpanFetch {

  const DAY := 86400

  /** What one data request comes back with. `Refused` is a server failure, slow
      or quick; `NotFound` and `Forbidden` are HTTP 404 and 403; `Throttled` is
      a 429 that lasts. */
  datatype Reply = Rows(frame: int) | Empty | Refused | NotFound | Forbidden | Throttled

  /** What the control request says of one day. */
  datatype Control = Served | ServedToNobody | NoAnswer

  /** The vendor: any answers at all, told apart by how many data requests went
      before. */
  datatype Vendor = Vendor(reply: (nat, int, int) -> Reply, alive: nat -> bool, control: (nat, int) -> Control)

  datatype Verdict = Kept(frame: int) | KeptEmpty | Skipped | Halved | Unserved | Blocked

  datatype Request = Request(pos: nat, span: nat, verdict: Verdict) {
    predicate Accepted() { verdict.Kept? || verdict.KeptEmpty? || verdict.Skipped? }
    predicate Fatal() { verdict.Unserved? || verdict.Blocked? }
  }

  function Lo(frm: int, pos: nat): int { frm + pos * DAY }

  /** The upper end is inclusive, so it stops a second short. */
  function Hi(frm: int, pos: nat, span: nat): int { frm + (pos + span) * DAY - 1 }

  /** What becomes of the `k`-th data request. */
  function Judge(v: Vendor, k: nat, frm: int, pos: nat, span: nat): Verdict {
    match v.reply(k, Lo(frm, pos), Hi(frm, pos, span))
    case Rows(f) => Kept(f)
    case Empty => if span > 1 && !v.alive(k) then Blocked else KeptEmpty
    case NotFound => Unserved
    case Forbidden => if v.alive(k) then Unserved else Blocked
    case Throttled => Blocked
    case Refused =>
      if span > 1 then Halved else
      match v.control(k, Lo(frm, pos))
      case Served => Unserved
      case ServedToNobody => Skipped
      case NoAnswer => Blocked
  }

  // ---- the log of a fetch ---------------------------------------------

  function Min(a: int, b: int): int { if a <= b then a else b }

  function Half(span: nat): nat { (span + 1) / 2 }

  /** The day reached by the accepted requests. */
  function Reached(log: seq<Request>): nat {
    if log == [] then 0
    else Reached(log[..|log| - 1]) + if log[|log| - 1].Accepted() then log[|log| - 1].span else 0
  }

  function FramesOf(log: seq<Request>): seq<int> {
    if log == [] then []
    else
      var r := log[|log| - 1];
      FramesOf(log[..|log| - 1]) + if r.verdict.Kept? then [r.verdict.frame] else []
  }

  function Halvings(log: seq<Request>): nat {
    if log == [] then 0
    else Halvings(log[..|log| - 1]) + if log[|log| - 1].verdict.Halved? then 1 else 0
  }

  /** The span in use: the last one halved, or the first. */
  function Working(log: seq<Request>, first: nat): nat {
    if log == [] then first
    else if log[|log| - 1].verdict.Halved? then Half(log[|log| - 1].span)
    else Working(log[..|log| - 1], first)
  }

  datatype Job = Job(frm: int, ndays: nat, first: nat, v: Vendor)

  /** `r` is the request a fetch makes after `log`. */
  predicate Follows(log: seq<Request>, r: Request, j: Job) {
    && (log == [] || !log[|log| - 1].Fatal())
    && Reached(log) < j.ndays
    && r.pos == Reached(log)
    && r.span == Min(Working(log, j.first), j.ndays - Reached(log))
    && r.verdict == Judge(j.v, |log|, j.frm, r.pos, r.span)
  }

  /** A fetch as far as it has gone. */
  predicate Trace(log: seq<Request>, j: Job) {
    log == [] || (Trace(log[..|log| - 1], j) && Follows(log[..|log| - 1], log[|log| - 1], j))
  }

  lemma TraceSnoc(log: seq<Request>, r: Request, j: Job)
    requires Trace(log, j) && Follows(log, r, j)
    ensures Trace(log + [r], j)
    ensures Reached(log + [r]) == Reached(log) + if r.Accepted() then r.span else 0
    ensures Halvings(log + [r]) == Halvings(log) + if r.verdict.Halved? then 1 else 0
    ensures FramesOf(log + [r]) == FramesOf(log) + if r.verdict.Kept? then [r.verdict.frame] else []
    ensures Working(log + [r], j.first) == if r.verdict.Halved? then Half(r.span) else Working(log, j.first)
  {
    assert (log + [r])[..|log|] == log;
  }

  // ---- how many requests ----------------------------------------------

  function CeilLog2(n: nat): nat {
    if n <= 1 then 0 else 1 + CeilLog2(Half(n))
  }

  function Pow2(k: nat): nat {
    if k == 0 then 1 else 2 * Pow2(k - 1)
  }

  /** Halving, rounding up, takes the binary logarithm, rounded up, to get to one. */
  lemma {:induction false} CeilLog2Means(n: nat)
    requires n > 0
    ensures n <= Pow2(CeilLog2(n)) && (n > 1 ==> Pow2(CeilLog2(n) - 1) < n)
  {
    if n > 1 { CeilLog2Means(Half(n)); }
  }

  lemma {:induction false} CeilLog2Grows(a: nat, b: nat)
    requires a <= b
    ensures CeilLog2(a) <= CeilLog2(b)
    decreases b
  {
    if b > 1 && a > 1 { CeilLog2Grows(Half(a), Half(b)); }
  }

  lemma {:induction false} TraceCounts(log: seq<Request>, j: Job)
    requires Trace(log, j) && 1 <= j.first
    ensures Reached(log) <= j.ndays && 1 <= Working(log, j.first) <= j.first
    ensures |log| <= Reached(log) + Halvings(log) + if log != [] && log[|log| - 1].Fatal() then 1 else 0
    ensures Halvings(log) + CeilLog2(Working(log, j.first)) <= CeilLog2(j.first)
    ensures log != [] && log[|log| - 1].Fatal() ==> Reached(log) < j.ndays
  {
    if log != [] {
      var n := |log| - 1;
      TraceCounts(log[..n], j);
      if log[n].verdict.Halved? { CeilLog2Grows(log[n].span, Working(log[..n], j.first)); }
    }
  }

  /** However the vendor answers, a fetch makes no more data requests than there
      are days plus the binary logarithm of that. */
  lemma RequestBound(log: seq<Request>, j: Job)
    requires Trace(log, j) && 1 <= j.first <= j.ndays
    ensures |log| <= j.ndays + CeilLog2(j.ndays)
  {
    TraceCounts(log, j);
    CeilLog2Grows(j.first, j.ndays);
  }

  /** Spans only shrink along a fetch, only a single day is ever skipped, and a
      day is given up on only alone. */
  lemma {:induction false} SpansShrink(log: seq<Request>, j: Job, a: nat, b: nat)
    requires Trace(log, j) && 1 <= j.first && a <= b < |log|
    ensures 1 <= log[b].span <= log[a].span <= j.first
    ensures log[b].verdict.Skipped? ==> log[b].span == 1
    ensures a < b && log[a].verdict.Halved? ==> log[b].span < log[a].span
  {
    hide Judge;
    var n := |log| - 1;
    if b < n {
      SpansShrink(log[..n], j, a, b);
    } else if a < b {
      SpansShrink(log[..n], j, a, n - 1);
      NextShrinks(log, j);
    } else {
      LastMeans(log, j);
    }
  }

  lemma LastMeans(log: seq<Request>, j: Job)
    requires Trace(log, j) && 1 <= j.first && log != []
    ensures var r := log[|log| - 1];
            1 <= r.span <= j.first && (r.verdict.Skipped? ==> r.span == 1) && (r.verdict.Halved? ==> r.span > 1)
  {
    TraceCounts(log[..|log| - 1], j);
  }

  lemma NextShrinks(log: seq<Request>, j: Job)
    requires Trace(log, j) && 1 <= j.first && |log| > 1
    ensures var n := |log| - 1;
            && 1 <= log[n].span <= log[n - 1].span && (log[n].verdict.Skipped? ==> log[n].span == 1)
            && (log[n - 1].verdict.Halved? ==> log[n].span < log[n - 1].span)
  {
    var n := |log| - 1;
    LastMeans(log, j);
    LastMeans(log[..n], j);
    TraceCounts(log[..n][..n - 1], j);
    hide Judge;
    assert log[..n][n - 1] == log[n - 1];
  }

  // ---- tiling ---------------------------------------------------------

  predicate Covers(r: Request, frm: int, t: int) {
    r.Accepted() && Lo(frm, r.pos) <= t <= Hi(frm, r.pos, r.span)
  }

  lemma {:induction false} CoversBelow(log: seq<Request>, j: Job, k: nat, t: int)
    requires Trace(log, j) && 1 <= j.first && k < |log| && Covers(log[k], j.frm, t)
    ensures j.frm <= t < j.frm + Reached(log) * DAY
  {
    if k < |log| - 1 { CoversBelow(log[..|log| - 1], j, k, t); }
  }

  /** Accepted requests tile the stretch they reach: every second of it lies in
      exactly one of them, and no second outside it in any. */
  lemma {:induction false} TileOnce(log: seq<Request>, j: Job, t: int) returns (k: nat)
    requires Trace(log, j) && 1 <= j.first && j.frm <= t < j.frm + Reached(log) * DAY
    ensures k < |log| && Covers(log[k], j.frm, t)
    ensures forall i :: 0 <= i < |log| && i != k ==> !Covers(log[i], j.frm, t)
  {
    var n := |log| - 1;
    TraceCounts(log[..n], j);
    if t < j.frm + Reached(log[..n]) * DAY {
      k := TileOnce(log[..n], j, t);
    } else {
      k := n;
      forall i | 0 <= i < n ensures !Covers(log[i], j.frm, t) {
        if Covers(log[i], j.frm, t) { CoversBelow(log[..n], j, i, t); }
      }
    }
  }

  // ---- the rules of a fetch -------------------------------------------

  /** What the `k`-th request, of `span` days from day `pos`, comes to. */
  ghost predicate Judged(v: Vendor, k: nat, frm: int, r: Request) {
    var lo, hi := frm + r.pos * 86400, frm + (r.pos + r.span) * 86400 - 1;
    var reply := v.reply(k, lo, hi);
    && (reply.Rows? ==> r.verdict == Kept(reply.frame))
    && (reply.Empty? ==> r.verdict == if r.span == 1 || v.alive(k) then KeptEmpty else Blocked)
    && (reply.NotFound? ==> r.verdict == Unserved)
    && (reply.Forbidden? ==> r.verdict == if v.alive(k) then Unserved else Blocked)
    && (reply.Throttled? ==> r.verdict == Blocked)
    && (reply.Refused? && r.span > 1 ==> r.verdict == Halved)
    && (reply.Refused? && r.span == 1 && v.control(k, lo).Served? ==> r.verdict == Unserved)
    && (reply.Refused? && r.span == 1 && v.control(k, lo).ServedToNobody? ==> r.verdict == Skipped)
    && (reply.Refused? && r.span == 1 && v.control(k, lo).NoAnswer? ==> r.verdict == Blocked)
  }

  /** The request after `was`: half the span, rounded up, from the same day when
      that was refused; else the same span, or what is left, from the day reached. */
  ghost predicate Goes(was: Request, r: Request, ndays: nat) {
    var left := ndays - (was.pos + was.span);
    && !was.verdict.Unserved? && !was.verdict.Blocked?
    && if was.verdict.Halved? then r.pos == was.pos && r.span == (was.span + 1) / 2
       else r.pos == was.pos + was.span && left > 0 && r.span == if was.span <= left then was.span else left
  }

  ghost predicate Asks(log: seq<Request>, frm: int, ndays: nat, first: nat, v: Vendor) {
    && (log != [] ==> log[0].pos == 0 && log[0].span == first)
    && forall i :: 0 <= i < |log| ==>
         && log[i].span >= 1 && log[i].pos + log[i].span <= ndays && Judged(v, i, frm, log[i])
         && (i > 0 ==> Goes(log[i - 1], log[i], ndays))
  }

  lemma JudgeMeans(v: Vendor, k: nat, frm: int, r: Request)
    requires r.verdict == Judge(v, k, frm, r.pos, r.span) && r.span >= 1
    ensures Judged(v, k, frm, r)
  {
  }

  /** Where a fetch stands: the day it has reached and the span it uses next. */
  ghost predicate Stands(log: seq<Request>, ndays: nat, first: nat, reached: nat, working: nat) {
    if log == [] then reached == 0 && working == first
    else
      var r := log[|log| - 1];
      && reached == (if r.Accepted() then r.pos + r.span else r.pos)
      && (r.verdict.Halved? ==> working == (r.span + 1) / 2)
      && (r.Accepted() && reached < ndays ==> working == r.span)
  }

  lemma {:induction false} TraceMeans(log: seq<Request>, j: Job)
    requires Trace(log, j) && 1 <= j.first <= j.ndays
    ensures Asks(log, j.frm, j.ndays, j.first, j.v)
    ensures Stands(log, j.ndays, j.first, Reached(log), Working(log, j.first))
  {
    if log != [] {
      var n := |log| - 1;
      TraceMeans(log[..n], j);
      TraceCounts(log[..n], j);
      JudgedLast(log, j);
      StandsOn(log, j);
      hide Trace, Judged, Stands, Reached, Working, Follows;
      AsksSnoc(log[..n], log[n], j);
      assert log == log[..n] + [log[n]];
    }
  }

  lemma StandsOn(log: seq<Request>, j: Job)
    requires Trace(log, j) && 1 <= j.first <= j.ndays && log != []
    requires Stands(log[..|log| - 1], j.ndays, j.first, Reached(log[..|log| - 1]), Working(log[..|log| - 1], j.first))
    ensures Stands(log, j.ndays, j.first, Reached(log), Working(log, j.first))
  {
    var n := |log| - 1;
    var r := log[n];
    TraceCounts(log[..n], j);
    hide Judge, Trace;
    JudgedLast(log, j);
  }

  lemma AsksSnoc(log: seq<Request>, r: Request, j: Job)
    requires 1 <= j.first <= j.ndays && Asks(log, j.frm, j.ndays, j.first, j.v) && Follows(log, r, j)
    requires Judged(j.v, |log|, j.frm, r) && 1 <= Working(log, j.first)
    requires Stands(log, j.ndays, j.first, Reached(log), Working(log, j.first))
    ensures Asks(log + [r], j.frm, j.ndays, j.first, j.v)
  {
    hide Judge, Judged, Reached, Working;
    if log != [] {
      assert Goes(log[|log| - 1], r, j.ndays);
    }
    hide Goes, Stands, Follows;
  }

  lemma ReachedMeans(log: seq<Request>, j: Job)
    requires Stands(log, j.ndays, j.first, Reached(log), Working(log, j.first)) && j.ndays > 0
    requires Asks(log, j.frm, j.ndays, j.first, j.v)
    ensures Reached(log) == j.ndays <==>
            log != [] && var l := log[|log| - 1]; l.Accepted() && l.pos + l.span == j.ndays
  {
    hide Reached, Working, Judged;
  }

  lemma JudgedLast(log: seq<Request>, j: Job)
    requires Trace(log, j) && 1 <= j.first && log != []
    ensures var n := |log| - 1;
            && Trace(log[..n], j) && Follows(log[..n], log[n], j) && Judged(j.v, n, j.frm, log[n])
            && (log[n].verdict.Halved? ==> log[n].span > 1)
  {
    TraceCounts(log[..|log| - 1], j);
    JudgeMeans(j.v, |log| - 1, j.frm, log[|log| - 1]);
  }

  /** The memory after a fetch: as it was if nothing was halved, else half, rounded
      up, of the last span that was. */
  ghost predicate Learned(now: map<string, nat>, was: map<string, nat>, sym: string, log: seq<Request>) {
    && ((forall i :: 0 <= i < |log| ==> !log[i].verdict.Halved?) ==> now == was)
    && forall i :: 0 <= i < |log| && log[i].verdict.Halved?
                   && (forall k :: i < k < |log| ==> !log[k].verdict.Halved?) ==>
         now == was[sym := (log[i].span + 1) / 2]
  }

  lemma {:induction false} LearnedMeans(now: map<string, nat>, was: map<string, nat>, sym: string, log: seq<Request>,
                                        first: nat)
    requires Remembers(now, was, sym, log, first)
    ensures Learned(now, was, sym, log)
  {
    NoneHalved(log);
    forall i | 0 <= i < |log| && log[i].verdict.Halved? && (forall k :: i < k < |log| ==> !log[k].verdict.Halved?)
      ensures now == was[sym := (log[i].span + 1) / 2]
    {
      WorkingIs(log, first, i);
    }
  }

  lemma {:induction false} NoneHalved(log: seq<Request>)
    ensures Halvings(log) == 0 <==> forall i :: 0 <= i < |log| ==> !log[i].verdict.Halved?
  {
    if log != [] {
      var n := |log| - 1;
      NoneHalved(log[..n]);
      assert forall i :: 0 <= i < n ==> log[..n][i] == log[i];
    }
  }

  lemma {:induction false} WorkingIs(log: seq<Request>, first: nat, i: nat)
    requires i < |log| && log[i].verdict.Halved? && forall k :: i < k < |log| ==> !log[k].verdict.Halved?
    ensures Working(log, first) == (log[i].span + 1) / 2 && Halvings(log) > 0
  {
    if i < |log| - 1 { WorkingIs(log[..|log| - 1], first, i); }
  }

  // ---- the fetcher ----------------------------------------------------

  datatype Outcome = Frames(frames: seq<int>) | Unservable | Budget

  /** What the symbol's memory is after `log`. */
  predicate Remembers(spans: map<string, nat>, was: map<string, nat>, sym: string, log: seq<Request>, first: nat) {
    spans == if Halvings(log) == 0 then was else was[sym := Working(log, first)]
  }

  function FirstOf(spans: map<string, nat>, sym: string, ndays: nat): nat {
    Min(ndays, if sym in spans then spans[sym] else ndays)
  }

  lemma FirstMeans(spans: map<string, nat>, sym: string, ndays: nat)
    ensures var kept := if sym in spans then spans[sym] else ndays;
            FirstOf(spans, sym, ndays) == if kept <= ndays then kept else ndays
  {
  }

  lemma FetchFacts(log: seq<Request>, j: Job, now: map<string, nat>, was: map<string, nat>, sym: string)
    requires Trace(log, j) && 1 <= j.first == FirstOf(was, sym, j.ndays) && Remembers(now, was, sym, log, j.first)
    ensures |log| <= j.ndays + CeilLog2(j.ndays)
    ensures Asks(log, j.frm, j.ndays, j.first, j.v) && Learned(now, was, sym, log)
    ensures Reached(log) == j.ndays <==>
            log != [] && var l := log[|log| - 1]; l.Accepted() && l.pos + l.span == j.ndays
    ensures FirstOf(now, sym, j.ndays) <= j.first
    ensures sym in was ==> sym in now && now[sym] <= was[sym]
    ensures forall x :: x in now ==> now[x] >= 1 || (x in was && was[x] == now[x])
  {
    TraceCounts(log, j);
    hide Trace, Asks, Learned, Judge, Judged, Goes, Reached, Working, Halvings, FramesOf, CeilLog2, Stands;
    RequestBound(log, j);
    TraceMeans(log, j);
    LearnedMeans(now, was, sym, log, j.first);
    ReachedMeans(log, j);
  }

  lemma RememberStep(spans: map<string, nat>, was: map<string, nat>, sym: string, log: seq<Request>, r: Request, j: Job)
    requires Trace(log, j) && Follows(log, r, j) && Remembers(spans, was, sym, log, j.first)
    ensures Remembers(if r.verdict.Halved? then spans[sym := Half(r.span)] else spans, was, sym, log + [r], j.first)
  {
    TraceSnoc(log, r, j);
    hide Halvings, Working, Trace, Follows;
  }

  /** A fetch between two requests, `spans` being the memory. */
  predicate Going(log: seq<Request>, job: Job, was: map<string, nat>, spans: map<string, nat>, sym: string,
                  pos: nat, working: nat, made: nat) {
    && Trace(log, job) && made == |log| && (log == [] || !log[|log| - 1].Fatal())
    && pos == Reached(log) < job.ndays && 1 <= working == Working(log, job.first)
    && Remembers(spans, was, sym, log, job.first)
  }

  /** A stretch dealt with. */
  predicate Ended(done: seq<Request>, log: seq<Request>, job: Job, was: map<string, nat>, spans: map<string, nat>,
                  sym: string, pos: nat, working: nat, made: nat, span: nat, verdict: Verdict) {
    && Trace(log, job) && made == |log| > 0 && log[|log| - 1].verdict == verdict && !verdict.Halved?
    && Remembers(spans, was, sym, log, job.first)
    && 1 <= working == Working(log, job.first) && 1 <= span && pos + span <= job.ndays
    && Reached(log) == Reached(done) + (if log[|log| - 1].Accepted() then span else 0)
    && FramesOf(log) == FramesOf(done) + if verdict.Kept? then [verdict.frame] else []
  }

  lemma FirstSpan(log: seq<Request>, job: Job, was: map<string, nat>, spans: map<string, nat>, sym: string, pos: nat,
                  working: nat, made: nat)
    requires Going(log, job, was, spans, sym, pos, working, made)
    ensures pos < job.ndays && 1 <= working
  {
  }

  lemma GoingStep(done: seq<Request>, log: seq<Request>, job: Job, was: map<string, nat>, spans: map<string, nat>,
                  sym: string, pos: nat, working: nat, made: nat, span: nat)
    requires Going(log, job, was, spans, sym, pos, working, made) && FramesOf(log) == FramesOf(done)
             && Reached(log) == Reached(done)
    requires 1 <= span && pos + span <= job.ndays && span == if working <= job.ndays - pos then working
             else job.ndays - pos
    ensures var verdict := Judge(job.v, made, job.frm, pos, span);
            var log' := log + [Request(pos, span, verdict)];
            if verdict.Halved? then
              && Going(log', job, was, spans[sym := Half(span)], sym, pos, Half(span), made + 1)
              && FramesOf(log') == FramesOf(done) && Reached(log') == Reached(done)
              && 1 <= Half(span) < span && pos + Half(span) <= job.ndays
            else Ended(done, log', job, was, spans, sym, pos, working, made + 1, span, verdict)
  {
    var verdict := Judge(job.v, made, job.frm, pos, span);
    var r := Request(pos, span, verdict);
    HalvedIsMany(job.v, made, job.frm, pos, span);
    assert Follows(log, r, job);
    TraceSnoc(log, r, job);
    RememberStep(spans, was, sym, log, r, job);
    hide Trace, Reached, Working, FramesOf, Halvings, Judge, Remembers, Follows;
  }

  class Fetcher {
    /** For each symbol, the largest span known to succeed. */
    var spans: map<string, nat>

    ghost predicate Valid()
      reads this
    {
      forall sym :: sym in spans ==> spans[sym] >= 1
    }

    constructor ()
      ensures Valid() && spans == map[]
    {
      spans := map[];
    }

    /** The first span to try. */
    function First(sym: string, ndays: nat): nat
      reads this
    {
      FirstOf(spans, sym, ndays)
    }

    /** One stretch: halve until it is served, skipped or given up on. */
    method FetchChunk(sym: string, pos: nat, startSpan: nat, count: nat, ghost was: map<string, nat>,
                      ghost done: seq<Request>, frm: int, ndays: nat, v: Vendor, ghost job: Job)
        returns (verdict: Verdict, span: nat, working: nat, made: nat, ghost log: seq<Request>)
      requires job == Job(frm, ndays, job.first, v)
      requires Going(done, job, was, spans, sym, pos, startSpan, count)
      modifies this
      ensures Ended(done, log, job, was, spans, sym, pos, working, made, span, verdict)
    {
      hide *;
      working, made, log := startSpan, count, done;
      FirstSpan(done, job, was, spans, sym, pos, working, made);
      span := if working <= ndays - pos then working else ndays - pos;
      while true
        invariant Going(log, job, was, spans, sym, pos, working, made) && FramesOf(log) == FramesOf(done)
                  && Reached(log) == Reached(done)
        invariant 1 <= span && pos + span <= ndays && span == if working <= ndays - pos then working else ndays - pos
        decreases span
      {
        verdict := Judge(v, made, frm, pos, span);
        GoingStep(done, log, job, was, spans, sym, pos, working, made, span);
        log := log + [Request(pos, span, verdict)];
        made := made + 1;
        if !verdict.Halved? { return; }
        span := Half(span);
        working := span;
        spans := spans[sym := span];
      }
    }

    /** `log` lists the data requests made, on every way out. */
    method FetchSpan(sym: string, frm: int, ndays: nat, v: Vendor) returns (r: Outcome, ghost log: seq<Request>)
      requires Valid()
      modifies this
      ensures Valid()
      ensures Trace(log, Job(frm, ndays, old(First(sym, ndays)), v)) && |log| <= ndays + CeilLog2(ndays)
      ensures r.Frames? <==> Reached(log) == ndays
      ensures r.Frames? ==> r.frames == FramesOf(log)
      ensures r.Unservable? <==> log != [] && log[|log| - 1].verdict.Unserved?
      ensures r.Budget? <==> log != [] && log[|log| - 1].verdict.Blocked?
      ensures var kept := if sym in old(spans) then old(spans[sym]) else ndays;
              Asks(log, frm, ndays, if kept <= ndays then kept else ndays, v)
      ensures Learned(spans, old(spans), sym, log)
      ensures r.Frames? <==>
              ndays == 0 || (log != [] && var l := log[|log| - 1]; l.Accepted() && l.pos + l.span == ndays)
      ensures First(sym, ndays) <= old(First(sym, ndays))
      ensures sym in old(spans) ==> sym in spans && spans[sym] <= old(spans[sym])
    {
      if ndays == 0 { return Frames([]), []; }
      r, log := FetchDays(sym, frm, ndays, v);
      ghost var job := Job(frm, ndays, old(First(sym, ndays)), v);
      hide Trace, Asks, Learned, Judge, Reached, Working, FramesOf, CeilLog2, Remembers, FirstOf;
      FetchFacts(log, job, spans, old(spans), sym);
      FirstMeans(old(spans), sym, ndays);
    }

    /** The same, for at least one day. */
    method FetchDays(sym: string, frm: int, ndays: nat, v: Vendor) returns (r: Outcome, ghost log: seq<Request>)
      requires Valid() && ndays > 0
      modifies this
      ensures Trace(log, Job(frm, ndays, old(First(sym, ndays)), v))
      ensures r.Frames? <==> Reached(log) == ndays
      ensures r.Frames? ==> r.frames == FramesOf(log)
      ensures r.Unservable? <==> log != [] && log[|log| - 1].verdict.Unserved?
      ensures r.Budget? <==> log != [] && log[|log| - 1].verdict.Blocked?
      ensures Remembers(spans, old(spans), sym, log, old(First(sym, ndays)))
    {
      hide Trace, Working, FramesOf;
      var startSpan := First(sym, ndays);
      ghost var job := Job(frm, ndays, startSpan, v);
      var frames := [];
      var pos, count := 0, 0;
      log := [];
      EmptyTrace(job);
      while pos < ndays
        invariant pos == Reached(log) <= ndays && count == |log| && Trace(log, job)
        invariant startSpan == Working(log, job.first) && (ndays > 0 ==> startSpan >= 1)
        invariant frames == FramesOf(log)
        invariant log != [] ==> !log[|log| - 1].Fatal()
        invariant Remembers(spans, old(spans), sym, log, job.first)
        decreases ndays - pos
      {
        hide Remembers, Reached;
        var verdict, span;
        verdict, span, startSpan, count, log :=
          FetchChunk(sym, pos, startSpan, count, old(spans), log, frm, ndays, v, job);
        assert frames + [] == frames;
        match verdict {
          case Unserved => return Unservable, log;
          case Blocked => return Budget, log;
          case Kept(frame) => frames := frames + [frame];
          case _ =>
        }
        pos := pos + span;
      }
      return Frames(frames), log;
    }
  }

  lemma HalvedIsMany(v: Vendor, k: nat, frm: int, pos: nat, span: nat)
    ensures Judge(v, k, frm, pos, span).Halved? ==> span > 1
  {
  }

  lemma EmptyTrace(j: Job)
    ensures Trace([], j) && Working([], j.first) == j.first && FramesOf([]) == []
  {
  }
}
