/** The resumable tick history loader (scripts/sip_backfill.py): one progress
    file per week, a blacklist of symbols the vendor does not serve, and the
    scheduler that walks back from the newest complete week. */
module Backfill {
  import opened Options

  // ---- one week's progress --------------------------------------------

  /** What loading a symbol returns; `added` is there when the pass compares
      against rows already stored. */
  datatype Loaded = Loaded(rows: nat, added: Option<nat>)

  /** How one symbol's load ends. */
  datatype Outcome = Got(loaded: Loaded) | OutOfBudget | Broke(message: string, unservable: bool)

  type Outcomes = string -> Outcome

  datatype Week = Week(
    done: map<string, Option<Loaded>>, failed: map<string, string>, empty: set<string>, retries: map<string, nat>,
    started: Option<int>, finished: Option<int>, retriedAt: Option<int>, settled: Option<int>,
    settleAdded: map<string, nat>)

  const Untouched := Week(map[], map[], {}, map[], None, None, None, None, map[])

  const ERROR_CUT := 300

  function Tries(w: Week, sym: string): nat { if sym in w.retries then w.retries[sym] else 0 }

  /** `Progress.record`; an empty error counts as none. */
  function Recorded(w: Week, sym: string, result: Option<Loaded>, error: Option<string>): Week {
    var v := w.(failed := w.failed - {sym});
    if error.Some? && error.value != "" then
      v.(failed := v.failed[sym := if |error.value| > ERROR_CUT then error.value[..ERROR_CUT] else error.value],
         retries := v.retries[sym := Tries(w, sym) + 1])
    else if result.Some? && result.value.added.Some? then
      v.(settleAdded := v.settleAdded[sym := result.value.added.value])
    else if result.Some? && result.value.rows == 0 then v.(empty := v.empty + {sym})
    else v.(done := v.done[sym := result])
  }

  function ErrorText(o: Outcome): string
    requires o.Broke?
  {
    (if o.unservable then "unservable: " else "") + o.message
  }

  function Took(w: Week, sym: string, o: Outcome): Week {
    match o
    case Got(loaded) => Recorded(w, sym, Some(loaded), None)
    case Broke(_, _) => Recorded(w, sym, None, Some(ErrorText(o)))
    case OutOfBudget => w
  }

  predicate Settled(w: Week, sym: string) { sym in w.done || sym in w.empty }

  /** The symbol is somewhere in the week's books. */
  predicate Accounted(w: Week, sym: string) { Settled(w, sym) || sym in w.failed }

  /** Recording books the symbol, unless it is a comparing pass that succeeds
      with a symbol so far only among the failures: that one drops out. */
  lemma TookAccounts(w: Week, sym: string, o: Outcome)
    requires !o.OutOfBudget?
    ensures Accounted(Took(w, sym, o), sym) <==> Settled(w, sym) || !(o.Got? && o.loaded.added.Some?)
    ensures forall other :: other != sym ==> (Accounted(Took(w, sym, o), other) <==> Accounted(w, other))
    ensures forall other :: Settled(w, other) ==> Settled(Took(w, sym, o), other)
    ensures forall other :: other != sym ==> (Settled(Took(w, sym, o), other) <==> Settled(w, other))
    ensures forall other :: Tries(Took(w, sym, o), other)
                         == Tries(w, other) + if other == sym && o.Broke? && ErrorText(o) != "" then 1 else 0
    ensures var v := Took(w, sym, o);
            v.started == w.started && v.finished == w.finished && v.settled == w.settled && v.retriedAt == w.retriedAt
  {
  }

  /** Where each result goes, and that nothing else moves: an error among the
      failures, cut to three hundred characters and counted; a compared result
      among the comparisons; one without rows among the empty; any other among
      the done. */
  lemma TookGoes(w: Week, sym: string, o: Outcome)
    requires !o.OutOfBudget?
    ensures var v := Took(w, sym, o);
            var text := if o.Got? then "" else (if o.unservable then "unservable: " else "") + o.message;
            var compared := o.Got? && o.loaded.added.Some?;
            && v.done == (if o.Got? && !compared && o.loaded.rows > 0 then w.done[sym := Some(o.loaded)]
                          else if o.Broke? && text == "" then w.done[sym := None] else w.done)
            && v.empty == (if o.Got? && !compared && o.loaded.rows == 0 then w.empty + {sym} else w.empty)
            && v.settleAdded == (if compared then w.settleAdded[sym := o.loaded.added.value] else w.settleAdded)
            && (forall x :: x in v.failed <==> if x == sym then text != "" else x in w.failed)
            && (forall x :: x in v.failed && x != sym ==> v.failed[x] == w.failed[x])
            && (text != "" ==> v.failed[sym] == if |text| > 300 then text[..300] else text)
            && (if text == "" then v.retries == w.retries
                else v.retries == w.retries[sym := (if sym in w.retries then w.retries[sym] else 0) + 1])
            && v.started == w.started && v.finished == w.finished && v.settled == w.settled
            && v.retriedAt == w.retriedAt
  {
    match o
    case Got(loaded) => if loaded.added.Some? { } else if loaded.rows == 0 { } else { }
    case Broke(_, _) => if ErrorText(o) == "" { } else { }
  }

  // ---- passes ---------------------------------------------------------

  datatype Mode = Load | Settle | Retry

  function Pending(w: Week, symbols: set<string>): set<string> {
    set s | s in symbols && !Settled(w, s)
  }

  function Retryable(w: Week, retryMax: nat): set<string> {
    set s | s in w.failed && Tries(w, s) < retryMax
  }

  function Todo(w: Week, symbols: set<string>, mode: Mode, retryMax: nat, forced: bool): set<string> {
    match mode
    case Settle => set s | s in symbols && (s in w.done || s in Retryable(w, retryMax))
    case Retry => set s | s in symbols && s in Retryable(w, retryMax)
    case Load => if forced then symbols else Pending(w, symbols)
  }

  /** Whom a pass is over: a load, those neither done nor empty, or everyone if
      forced; a settle pass, the done and the failures with tries left; a retry
      pass, those failures. */
  lemma TodoMeans(w: Week, symbols: set<string>, mode: Mode, retryMax: nat, forced: bool, sym: string)
    ensures var tries := if sym in w.retries then w.retries[sym] else 0;
            var failing := sym in w.failed && tries < retryMax;
            sym in Todo(w, symbols, mode, retryMax, forced) <==>
              && sym in symbols
              && match mode
                 case Load => forced || (sym !in w.done && sym !in w.empty)
                 case Settle => sym in w.done || failing
                 case Retry => failing
  {
  }

  function Begun(w: Week, mode: Mode, now: int): Week {
    w.(retriedAt := if mode == Retry then Some(now) else w.retriedAt,
       started := if w.started.None? then Some(now) else w.started)
  }

  function Ended(w: Week, mode: Mode, now: int): Week {
    match mode
    case Settle => w.(settled := Some(now))
    case Load => w.(finished := Some(now))
    case Retry => w
  }

  /** The symbols' results, in the order they come in. */
  function Booked(w: Week, order: seq<string>, out: Outcomes): Week {
    if order == [] then w
    else Took(Booked(w, order[..|order| - 1], out), order[|order| - 1], out(order[|order| - 1]))
  }

  /** Where the pass runs out of budget, if it does. */
  function Stop(order: seq<string>, out: Outcomes): (k: nat)
    ensures k <= |order| && (k < |order| ==> out(order[k]).OutOfBudget?)
    ensures forall i :: 0 <= i < k ==> !out(order[i]).OutOfBudget?
  {
    if order == [] then 0
    else
      var k := Stop(order[..|order| - 1], out);
      if k < |order| - 1 then k else if out(order[|order| - 1]).OutOfBudget? then k else |order|
  }

  predicate Distinct(order: seq<string>) {
    forall i, j :: 0 <= i < j < |order| ==> order[i] != order[j]
  }

  ghost predicate Orders(order: seq<string>, todo: set<string>) {
    && Distinct(order)
    && (forall s :: s in order <==> s in todo)
  }

  predicate Interrupted(order: seq<string>, out: Outcomes) { Stop(order, out) < |order| }

  /** A pass begun at `now` over the symbols of `order`, ended at `end` if no
      budget failure cuts it short. */
  function Pass(w: Week, mode: Mode, now: int, end: int, order: seq<string>, out: Outcomes): Week {
    var v := Booked(Begun(w, mode, now), order[..Stop(order, out)], out);
    if Interrupted(order, out) then v else Ended(v, mode, end)
  }

  /** The symbol's load was seen through. */
  predicate Fetched(order: seq<string>, out: Outcomes, sym: string) { sym in order[..Stop(order, out)] }

  lemma {:induction false} BookedMeans(w: Week, order: seq<string>, out: Outcomes, sym: string)
    requires forall i :: 0 <= i < |order| ==> !out(order[i]).OutOfBudget?
    requires Distinct(order)
    ensures var v := Booked(w, order, out);
            && v.started == w.started && v.finished == w.finished && v.settled == w.settled
               && v.retriedAt == w.retriedAt
            && (Settled(w, sym) ==> Settled(v, sym))
            && (sym !in order ==>
                (Settled(v, sym) <==> Settled(w, sym)) && (Accounted(v, sym) <==> Accounted(w, sym))
                  && Tries(v, sym) == Tries(w, sym))
            && (sym in order ==>
                (Accounted(v, sym) <==> Settled(w, sym) || !(out(sym).Got? && out(sym).loaded.added.Some?)))
            && (sym in order ==>
                Tries(v, sym) == Tries(w, sym) + if out(sym).Broke? && ErrorText(out(sym)) != "" then 1 else 0)
  {
    if order != [] {
      var n := |order| - 1;
      BookedMeans(w, order[..n], out, sym);
      assert order == order[..n] + [order[n]];
      assert sym == order[n] ==> sym !in order[..n];
      TookAccounts(Booked(w, order[..n], out), order[n], out(order[n]));
      hide Took, Settled, Accounted, Tries, ErrorText, Distinct;
    }
  }

  /** What a pass does to the week's books: its stamps, and each symbol. */
  lemma PassMeans(w: Week, mode: Mode, now: int, end: int, order: seq<string>, out: Outcomes, sym: string)
    requires Distinct(order)
    ensures var v := Pass(w, mode, now, end, order, out);
            && v.finished == (if mode == Load && !Interrupted(order, out) then Some(end) else w.finished)
            && v.settled == (if mode == Settle && !Interrupted(order, out) then Some(end) else w.settled)
            && v.started == (if w.started.Some? then w.started else Some(now))
            && v.retriedAt == (if mode == Retry then Some(now) else w.retriedAt)
            && (Settled(w, sym) ==> Settled(v, sym))
            && (Accounted(v, sym) <==>
                  if Fetched(order, out, sym) then Settled(w, sym) || !(out(sym).Got? && out(sym).loaded.added.Some?)
                  else Accounted(w, sym))
            && Tries(v, sym) == Tries(w, sym)
                 + if Fetched(order, out, sym) && out(sym).Broke? && ErrorText(out(sym)) != "" then 1 else 0
  {
    BookedMeans(Begun(w, mode, now), order[..Stop(order, out)], out, sym);
  }

  /** An uninterrupted load pass finishes the week and leaves every symbol it
      was to load -- done, empty or failed. */
  lemma LoadAccounts(w: Week, symbols: set<string>, now: int, end: int, order: seq<string>, out: Outcomes, sym: string)
    requires Orders(order, Todo(w, symbols, Load, 0, false)) && !Interrupted(order, out) && sym in symbols
    requires forall s :: s in order && out(s).Got? ==> out(s).loaded.added.None?
    ensures Accounted(Pass(w, Load, now, end, order, out), sym)
    ensures Pass(w, Load, now, end, order, out).finished == Some(end)
  {
    PassMeans(w, Load, now, end, order, out, sym);
    assert order[..|order|] == order;
  }

  /** A pass keeps all its symbols in the books exactly if it is not one that
      compares and succeeds with a symbol that only the failures held. */
  lemma PassKeepsBooks(w: Week, symbols: set<string>, mode: Mode, now: int, end: int, order: seq<string>, out: Outcomes)
    requires Distinct(order)
    requires forall s :: s in symbols ==> Accounted(w, s)
    ensures (forall s :: s in symbols ==> Accounted(Pass(w, mode, now, end, order, out), s)) <==>
            forall s :: s in symbols && Fetched(order, out, s) && !Settled(w, s) ==>
              !(out(s).Got? && out(s).loaded.added.Some?)
  {
    forall s ensures Accounted(Pass(w, mode, now, end, order, out), s) <==>
                     if Fetched(order, out, s) then Settled(w, s) || !(out(s).Got? && out(s).loaded.added.Some?)
                     else Accounted(w, s) {
      PassMeans(w, mode, now, end, order, out, s);
    }
    hide Pass, Fetched, Accounted, Settled;
  }

  /** The failing case happens: a settle pass that succeeds with a failed
      symbol leaves it out of every list, so nothing picks it up again. */
  lemma SettleDropsFailure(sym: string, at: int, now: int, rows: nat, added: nat, out: Outcomes)
    requires out(sym) == Got(Loaded(rows, Some(added)))
    ensures var w := Untouched.(failed := map[sym := "timeout"], finished := Some(at));
            && Orders([sym], Todo(w, {sym}, Settle, 3, false))
            && var v := Pass(w, Settle, now, now, [sym], out);
               !Accounted(v, sym) && v.finished.Some? && Retryable(v, 3) == {}
  {
    var w := Untouched.(failed := map[sym := "timeout"], finished := Some(at));
    assert Todo(w, {sym}, Settle, 3, false) == {sym};
    assert Stop([sym], out) == 1;
    assert [sym][..1] == [sym] && [sym][..0] == [];
    var b := Begun(w, Settle, now);
    assert Booked(b, [sym], out) == Took(b, sym, out(sym));
    assert Pass(w, Settle, now, now, [sym], out) == Ended(Took(b, sym, out(sym)), Settle, now);
    assert b.failed - {sym} == map[];
  }

  // ---- runs over one week ---------------------------------------------

  /** A load ends up among the failures exactly if it breaks with a message. */
  lemma TookFails(w: Week, sym: string, o: Outcome)
    requires !o.OutOfBudget?
    ensures sym in Took(w, sym, o).failed <==> o.Broke? && ErrorText(o) != ""
    ensures o.Broke? && ErrorText(o) == "" ==> sym in Took(w, sym, o).done
  {
  }

  /** A load that breaks without a message is recorded as done. */
  lemma SilentBreakIsDone(w: Week, sym: string)
    ensures var v := Took(w, sym, Broke("", false));
            sym in v.done && sym !in v.failed && Tries(v, sym) == Tries(w, sym)
  {
  }

  /** The daily passes book a week too (`finalize_weeks`): symbols with every
      trading day are done, others not in the books are failures. */
  datatype Event =
    | EPass(mode: Mode, symbols: set<string>, retryMax: nat, now: int, end: int, order: seq<string>, out: Outcomes)
    | EDaily(whole: map<string, Loaded>, partial: map<string, string>, now: int, oldEnough: bool)

  function Finalized(w: Week, whole: map<string, Loaded>, partial: map<string, string>, now: int,
                     oldEnough: bool): Week {
    w.(done := (map s | s in whole :: Some(whole[s])) + w.done,
       failed := (map s | s in partial && s !in whole && s !in w.done
                  && s !in w.empty :: partial[s]) + (w.failed - whole.Keys),
       started := if w.started.None? then Some(now) else w.started,
       finished := if w.finished.None? then Some(now) else w.finished,
       settled := if oldEnough && w.settled.None? then Some(now) else w.settled)
  }

  /** What the daily passes book: a symbol with every trading day is done, and no
      failure any more; one that lacks a day fails unless the week has its books
      closed; what the week already says stays, and its first stamps stay. */
  lemma FinalizedMeans(w: Week, whole: map<string, Loaded>, partial: map<string, string>, now: int, oldEnough: bool,
                       sym: string)
    ensures var v := Finalized(w, whole, partial, now, oldEnough);
            && (sym in v.done <==> sym in w.done || sym in whole)
            && (sym in w.done ==> v.done[sym] == w.done[sym])
            && (sym in whole && sym !in w.done ==> v.done[sym] == Some(whole[sym]))
            && (sym in v.failed <==>
                  sym !in whole && (sym in w.failed || (sym in partial && sym !in w.done && sym !in w.empty)))
            && (sym in v.failed ==> v.failed[sym] == if sym in w.failed then w.failed[sym] else partial[sym])
            && v.empty == w.empty && v.retries == w.retries && v.retriedAt == w.retriedAt
            && v.settleAdded == w.settleAdded
            && v.started == (if w.started.Some? then w.started else Some(now))
            && v.finished == (if w.finished.Some? then w.finished else Some(now))
            && v.settled == (if w.settled.Some? then w.settled else if oldEnough then Some(now) else None)
  {
  }

  ghost function Next(w: Week, e: Event): Week {
    match e
    case EPass(mode, symbols, retryMax, now, end, order, out) =>
      if Orders(order, Todo(w, symbols, mode, retryMax, false)) then Pass(w, mode, now, end, order, out) else w
    case EDaily(whole, partial, now, oldEnough) => Finalized(w, whole, partial, now, oldEnough)
  }

  ghost function Run(w: Week, es: seq<Event>): Week {
    if es == [] then w else Next(Run(w, es[..|es| - 1]), es[|es| - 1])
  }

  lemma StepKeeps(w: Week, e: Event, sym: string)
    ensures w.finished.Some? ==> Next(w, e).finished.Some?
    ensures w.settled.Some? ==> Next(w, e).settled.Some?
    ensures Settled(w, sym) ==> Settled(Next(w, e), sym)
    ensures Tries(Next(w, e), sym) >= Tries(w, sym)
  {
    if e.EPass? && Orders(e.order, Todo(w, e.symbols, e.mode, e.retryMax, false)) {
      PassMeans(w, e.mode, e.now, e.end, e.order, e.out, sym);
    }
  }

  /** Over any run, cut short anywhere: `finished` is never cleared, and a symbol
      once done or empty stays so and no load pass fetches it again. */
  lemma {:induction false} NeverAgain(w: Week, es: seq<Event>, sym: string)
    ensures w.finished.Some? ==> Run(w, es).finished.Some?
    ensures Settled(w, sym) ==> Settled(Run(w, es), sym)
    ensures Settled(w, sym) ==> forall symbols :: sym !in Todo(Run(w, es), symbols, Load, 0, false)
    ensures Tries(Run(w, es), sym) >= Tries(w, sym)
  {
    if es != [] {
      NeverAgain(w, es[..|es| - 1], sym);
      StepKeeps(Run(w, es[..|es| - 1]), es[|es| - 1], sym);
    }
  }

  /** The retry passes that fetched the symbol and failed. */
  ghost function RetriesSpent(w: Week, es: seq<Event>, retryMax: nat, sym: string): nat {
    if es == [] then 0
    else
      var v := Run(w, es[..|es| - 1]);
      var e := es[|es| - 1];
      RetriesSpent(w, es[..|es| - 1], retryMax, sym)
      + if e.EPass? && e.mode == Retry && e.retryMax == retryMax
           && Orders(e.order, Todo(v, e.symbols, Retry, retryMax, false))
           && Fetched(e.order, e.out, sym) && e.out(sym).Broke? && ErrorText(e.out(sym)) != "" then 1 else 0
  }

  /** Whatever else happens to the week, retry passes fail on a symbol no more
      often than the retries it has left. */
  lemma {:induction false} RetriesBounded(w: Week, es: seq<Event>, retryMax: nat, sym: string)
    ensures var spent := RetriesSpent(w, es, retryMax, sym);
            if Tries(w, sym) >= retryMax then spent == 0
            else Tries(w, sym) + spent <= retryMax && Tries(w, sym) + spent <= Tries(Run(w, es), sym)
  {
    NeverAgain(w, es, sym);
    if es != [] {
      var n := |es| - 1;
      RetriesBounded(w, es[..n], retryMax, sym);
      NeverAgain(w, es[..n], sym);
      var v, e := Run(w, es[..n]), es[n];
      StepKeeps(v, e, sym);
      if e.EPass? && e.mode == Retry && e.retryMax == retryMax
        && Orders(e.order, Todo(v, e.symbols, Retry, retryMax, false))
         && Fetched(e.order, e.out, sym) {
        assert sym in e.order;
        PassMeans(v, Retry, e.now, e.end, e.order, e.out, sym);
      }
    }
  }
}
