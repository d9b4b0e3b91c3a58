/** The week loader as it runs (scripts/sip_backfill.py): the progress and
    blacklist objects and the pass over a week's symbols. */
module WeekLoader {
  import opened Options
  import opened Backfill

  class Progress {
    var done: map<string, Option<Loaded>>
    var failed: map<string, string>
    var empty: set<string>
    var retries: map<string, nat>
    var started: Option<int>
    var finished: Option<int>
    var retriedAt: Option<int>
    var settled: Option<int>
    var settleAdded: map<string, nat>

    function W(): Week
      reads this
    {
      Week(done, failed, empty, retries, started, finished, retriedAt, settled, settleAdded)
    }

    constructor (saved: Option<Week>)
      ensures W() == if saved.Some? then saved.value else Untouched
    {
      var w := if saved.Some? then saved.value else Untouched;
      done, failed, empty, retries := w.done, w.failed, w.empty, w.retries;
      started, finished, retriedAt, settled, settleAdded := w.started, w.finished, w.retriedAt, w.settled,
      w.settleAdded;
    }

    method Record(sym: string, result: Option<Loaded>, error: Option<string>)
      modifies this
      ensures W() == Recorded(old(W()), sym, result, error)
    {
      failed := failed - {sym};
      if error.Some? && error.value != "" {
        failed := failed[sym := if |error.value| > ERROR_CUT then error.value[..ERROR_CUT] else error.value];
        retries := retries[sym := (if sym in retries then retries[sym] else 0) + 1];
      } else if result.Some? && result.value.added.Some? {
        settleAdded := settleAdded[sym := result.value.added.value];
      } else if result.Some? && result.value.rows == 0 {
        empty := empty + {sym};
      } else {
        done := done[sym := result];
      }
    }

    /** The loads come back in any order; the first one out of budget ends the
        pass with nothing recorded for it. */
    method RunPass(todo: set<string>, out: Outcomes) returns (cut: bool, ghost order: seq<string>)
      modifies this
      ensures Orders(order, todo)
      ensures cut <==> Interrupted(order, out)
      ensures W() == Booked(old(W()), order[..Stop(order, out)], out)
    {
      ghost var was := W();
      ghost var left;
      cut, order, left := RunLoads(todo, out, was);
      hide Recorded, Booked, Orders, Stop;
      Abandon(order, todo, left, out);
      order := order + ListOf(left);
    }

    method RunLoads(todo: set<string>, out: Outcomes, ghost was: Week)
        returns (cut: bool, ghost order: seq<string>, ghost left: set<string>)
      requires W() == was
      modifies this
      ensures left <= todo && Orders(order, todo - left) && (left != {} ==> cut)
      ensures cut <==> Interrupted(order, out)
      ensures W() == Booked(was, order[..Stop(order, out)], out)
    {
      hide Recorded, Booked, Orders, Stop;
      order := [];
      cut := false;
      var waiting := todo;
      NoneYet(was, todo, out);
      while waiting != {} && !cut
        invariant waiting <= todo && Orders(order, todo - waiting)
        invariant cut <==> Interrupted(order, out)
        invariant W() == Booked(was, order[..Stop(order, out)], out)
        decreases |waiting|
      {
        var sym :| sym in waiting;
        OrderSnoc(was, order, todo, waiting, sym, out);
        waiting := waiting - {sym};
        order := order + [sym];
        cut := BookOne(sym, out(sym));
      }
      left := waiting;
    }

    method BookOne(sym: string, o: Outcome) returns (cut: bool)
      modifies this
      ensures cut <==> o.OutOfBudget?
      ensures W() == Took(old(W()), sym, o)
    {
      cut := false;
      match o {
        case Got(loaded) => Record(sym, Some(loaded), None);
        case Broke(_, _) => Record(sym, None, Some(ErrorText(o)));
        case OutOfBudget => cut := true;
      }
    }

    /** `load_week` up to the blacklist's part in it. */
    method LoadWeek(symbols: set<string>, mode: Mode, retryMax: nat, forced: bool, now: int, end: int, out: Outcomes)
        returns (cut: bool, ghost order: seq<string>)
      modifies this
      ensures Orders(order, Todo(old(W()), symbols, mode, retryMax, forced))
      ensures cut <==> Interrupted(order, out)
      ensures W() == Pass(old(W()), mode, now, end, order, out)
    {
      var todo := Todo(W(), symbols, mode, retryMax, forced);
      if mode == Retry { retriedAt := Some(now); }
      if started.None? { started := Some(now); }
      cut, order := RunPass(todo, out);
      if !cut {
        if mode == Settle { settled := Some(end); }
        if mode == Load { finished := Some(end); }
      }
    }
  }

  ghost function ListOf(left: set<string>): (l: seq<string>)
    ensures Orders(l, left)
  {
    if left == {} then [] else
      var s :| s in left;
      [s] + ListOf(left - {s})
  }

  lemma NoneYet(w: Week, todo: set<string>, out: Outcomes)
    ensures Orders([], todo - todo) && !Interrupted([], out) && Booked(w, [][..Stop([], out)], out) == w
  {
  }

  lemma OrderSnoc(w: Week, order: seq<string>, todo: set<string>, left: set<string>, sym: string, out: Outcomes)
    requires left <= todo && Orders(order, todo - left) && sym in left && !Interrupted(order, out)
    ensures Orders(order + [sym], todo - (left - {sym}))
    ensures Interrupted(order + [sym], out) <==> out(sym).OutOfBudget?
    ensures Booked(w, (order + [sym])[..Stop(order + [sym], out)], out)
         == Took(Booked(w, order[..Stop(order, out)], out), sym, out(sym))
  {
    hide Took;
    var l := order + [sym];
    assert l[..|order|] == order && l[..|order| + 1] == l && order[..|order|] == order;
    assert Stop(l, out) == |order| + if out(sym).OutOfBudget? then 0 else 1;
    assert out(sym).OutOfBudget? ==>
      Took(Booked(w, order, out), sym, out(sym))
        == Booked(w, order, out) by { TookNothing(Booked(w, order, out), sym); }
  }

  lemma TookNothing(w: Week, sym: string)
    ensures Took(w, sym, OutOfBudget) == w
  {
  }

  lemma Abandon(order: seq<string>, todo: set<string>, left: set<string>, out: Outcomes)
    requires left <= todo && Orders(order, todo - left) && (left != {} ==> Interrupted(order, out))
    ensures var all := order + ListOf(left);
            Orders(all, todo) && Stop(all, out) == Stop(order, out)
              && (Interrupted(all, out) <==> Interrupted(order, out))
            && all[..Stop(all, out)] == order[..Stop(order, out)]
  {
    var rest := ListOf(left);
    StopKeeps(order, rest, out);
    var all := order + rest;
    forall i, j | 0 <= i < j < |all| ensures all[i] != all[j] {
      if i < |order| <= j { assert order[i] in order && rest[j - |order|] in rest; }
    }
    if left != {} { Nonempty(left); }
  }

  lemma Nonempty(left: set<string>)
    requires left != {}
    ensures ListOf(left) != []
  {
  }

  /** What is still under way when the pass stops is never recorded. */
  lemma {:induction false} StopKeeps(order: seq<string>, rest: seq<string>, out: Outcomes)
    requires Interrupted(order, out) || rest == []
    ensures Stop(order + rest, out) == Stop(order, out)
    ensures (order + rest)[..Stop(order, out)] == order[..Stop(order, out)]
  {
    if rest == [] {
      assert order + rest == order;
    } else {
      var n := |rest| - 1;
      StopKeeps(order, rest[..n], out);
      assert (order + rest)[..|order + rest| - 1] == order + rest[..n];
    }
  }

  // ---- the blacklist --------------------------------------------------

  const THRESHOLD := 5

  /** Whether the symbol was in the index in the week. */
  type Tenure = (string, int) -> bool

  predicate IsUnservable(error: string) { "unservable" <= error }

  function Weeks(unservable: map<string, seq<int>>, sym: string): seq<int> {
    if sym in unservable then unservable[sym] else []
  }

  function Newest(weeks: seq<int>): (m: int)
    requires weeks != []
    ensures m in weeks && forall w :: w in weeks ==> w <= m
  {
    if |weeks| == 1 then weeks[0]
    else
      var m := Newest(weeks[1..]);
      assert weeks == [weeks[0]] + weeks[1..];
      if weeks[0] > m then weeks[0] else m
  }

  class Blacklist {
    var unservable: map<string, seq<int>>

    ghost predicate Valid(inTenure: Tenure)
      reads this
    {
      forall sym :: sym in unservable ==>
        Dated(unservable[sym]) && forall m :: m in unservable[sym] ==> inTenure(sym, m)
    }

    constructor ()
      ensures unservable == map[]
    {
      unservable := map[];
    }

    /** Blocked in a week: on record as unservable in enough weeks, this one or
        a later one among them. */
    method BlockedFor(monday: int) returns (blocked: set<string>)
      ensures forall sym :: sym in blocked <==>
                |Weeks(unservable, sym)| >= THRESHOLD && exists m :: m in Weeks(unservable, sym) && monday <= m
    {
      blocked := set sym | sym in unservable && |unservable[sym]| >= THRESHOLD && monday <= Newest(unservable[sym]);
    }

    /** `note_week`: the unservable failures of symbols in their tenure go on
        record, a week once, and nothing else changes. */
    method NoteWeek(monday: int, failed: map<string, string>, inTenure: Tenure)
      requires Valid(inTenure)
      modifies this
      ensures Valid(inTenure)
      ensures Noted(old(unservable), unservable, monday, failed, inTenure)
    {
      var left := failed.Keys;
      ghost var was := unservable;
      while left != {}
        invariant left <= failed.Keys && Valid(inTenure)
        invariant forall sym ::
                    Weeks(unservable, sym)
                    == if sym in failed && sym !in left && IsUnservable(failed[sym]) && inTenure(sym, monday)
                      && monday !in Weeks(was, sym)
                       then Weeks(was, sym) + [monday] else Weeks(was, sym)
        decreases |left|
      {
        var sym :| sym in left;
        left := left - {sym};
        if IsUnservable(failed[sym]) && inTenure(sym, monday) {
          NoteOne(sym, monday, inTenure);
        }
      }
    }

    method NoteOne(sym: string, monday: int, inTenure: Tenure)
      requires Valid(inTenure) && inTenure(sym, monday)
      modifies this
      ensures Valid(inTenure)
      ensures forall other :: other != sym ==> Weeks(unservable, other) == Weeks(old(unservable), other)
      ensures Weeks(unservable, sym)
           == if monday !in Weeks(old(unservable), sym) then Weeks(old(unservable), sym) + [monday]
             else Weeks(old(unservable), sym)
    {
      var weeks := if sym in unservable then unservable[sym] else [];
      if monday !in weeks { weeks := weeks + [monday]; }
      unservable := unservable[sym := weeks];
    }
  }

  /** The records after a week's unservable failures are noted. */
  ghost predicate Noted(was: map<string, seq<int>>, now: map<string, seq<int>>, monday: int,
                        failed: map<string, string>, inTenure: Tenure) {
    forall sym ::
      Weeks(now, sym)
      == if sym in failed && IsUnservable(failed[sym]) && inTenure(sym, monday) && monday !in Weeks(was, sym)
         then Weeks(was, sym) + [monday] else Weeks(was, sym)
  }

  predicate Dated(weeks: seq<int>) {
    forall i, j :: 0 <= i < j < |weeks| ==> weeks[i] != weeks[j]
  }

  predicate Blocks(weeks: seq<int>, monday: int) {
    |weeks| >= THRESHOLD && monday <= Newest(weeks)
  }

  /** Blocked: on record for five weeks or more, this one or a later one among them. */
  lemma BlocksMeans(weeks: seq<int>, monday: int)
    ensures Blocks(weeks, monday) <==> |weeks| >= 5 && exists m :: m in weeks && monday <= m
  {
    if weeks != [] { assert Newest(weeks) in weeks; }
  }

  /** What is noted of a symbol: the week, at the end, if its failure says
      unservable and it was in the index then; a week once, and nothing else. */
  lemma NotedMeans(was: map<string, seq<int>>, now: map<string, seq<int>>, monday: int, failed: map<string, string>,
                   inTenure: Tenure, sym: string)
    requires Noted(was, now, monday, failed, inTenure)
    ensures var before, after := if sym in was then was[sym] else [], if sym in now then now[sym] else [];
            var verdict := sym in failed && |failed[sym]| >= 10 && failed[sym][..10] == "unservable"
                           && inTenure(sym, monday);
            && (before == after || after == before + [monday])
            && (monday in after <==> monday in before || verdict)
            && (monday in before ==> after == before)
            && ((forall i, j :: 0 <= i < j < |before| ==> before[i] != before[j]) ==>
                  forall i, j :: 0 <= i < j < |after| ==> after[i] != after[j])
  {
    assert Weeks(was, sym) == if sym in was then was[sym] else [];
    assert Weeks(now, sym) == if sym in now then now[sym] else [];
    if sym in failed { assert IsUnservable(failed[sym]) <==> |failed[sym]| >= 10 && failed[sym][..10] == "unservable"; }
  }

  /** One more week on record never unblocks a symbol, and blocks it for a week
      it was not blocked for only from the threshold on. */
  lemma NotingBlocks(weeks: seq<int>, at: int, monday: int)
    ensures Blocks(weeks, monday) ==> Blocks(weeks + [at], monday)
    ensures Blocks(weeks + [at], monday) && !Blocks(weeks, monday) ==> monday <= at || |weeks| == THRESHOLD - 1
  {
    var more := weeks + [at];
    if weeks != [] { assert Newest(weeks) in more; }
    assert Newest(more) in weeks || Newest(more) == at;
  }
}
