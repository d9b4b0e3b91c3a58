# Verified models of the market-data platform

This project models, in Dafny, the stateful and algorithmic heart of a market-data
platform: the kdb read-through cache, the live feed manager, the capped-API calendar
walk, the tick history backfill, the technical-analysis engine with its delta pushes,
and the code that must keep data's shape (roll-ups, bounded tail reads, the credentials
file). `dafny verify dfyconfig.toml` checks everything.

Objects whose methods change their fields are classes here too, and loops are loops;
each method's postcondition ties it to a function or a state machine on values, and the
laws are lemmas about those. Time is an integer number of seconds, a frame of bars a map
from stamp to bar or a sequence, and every outside party (provider, q, vendor, server)
answers as it likes: a parameter or a nondeterministic outcome. The feed manager's machine
may take its steps in any order, so what holds of it holds of the run loop, whatever the
events between.

## The files

| files | what they cover |
|---|---|
| `Ranges`, `KdbStore`, `Cache` | The interval arithmetic of coverage, the store whose every statement may fail before or after it takes effect, and the cache over them. The main result is `ReadThroughCache.Run`: for any sequence of requests at non-decreasing times, one after another, every answer agrees with upstream unless its key is torn by a failed drop or q's heap leaves the key no room; `NothingFails` draws the plain conclusion for runs without failures. |
| `Interleaving` | The same cache with passes for different keys under way at once, as a machine whose steps end at each provider call; `RunKeeps` says what survives any interleaving, `ServeIff` when an answer is exact. |
| `Feeds`, `FeedManager`, `Leases` | The subscription protocol as a machine whose steps end at each `await`, the manager object that takes these steps, and the leases that are its clients. The main results are `RunMeans`, `NoTickLost`, `ZombiesFall` and `LeaseIs`. |
| `Calendar`, `Arith` | Windowed pagination against a server that truncates. `LosslessIff` and `ExactIff` say for all inputs when it loses or repeats nothing. |
| `SpanFetch`, `Backfill`, `WeekLoader`, `Scheduler` | The span-halving fetcher and its request bound, the resumable week, its loader and blacklist, and the scheduler: what it picks (`PicksMeans`) and its progress. |
| `Iterative`, `SeriesDelta` | Parabolic SAR and Supertrend with their trailing-stop laws, and the delta pushes for which their causality is needed. |
| `Columns`, `Compute`, `Catalogue`, `Readings` | Column naming, evaluation of many requests with shared sub-series, a part of the registry, and what its formulas come to in arithmetic. The main result is `NonInterference`. |
| `Rollup`, `Tail`, `Credfile`, `Text` | OHLCV and VWAP roll-up, the bounded tail read, the credentials file. |
| `Options` | A value that may be missing. |

## Where the code does not do what one would expect

The model follows the code. Where a law fails, a lemma gives an input for which it does and
another says for all inputs when it holds.

* A request that starts between two bars can get an inverted gap, because `subtract`
  leaves its loop early without the final filter (`InvertedGapExists`; exactly when:
  `Subtract`). The cache fetches such a gap like any other and stays right.
* Two symbols can share a bar table (`NamesCollide`), so the cache's laws need keys in
  use to have different table names.
* A drop that stops after its first statement leaves coverage without bars; the key then
  answers wrongly (`DropBreaks`; exactly when: `DropKeepsPromise`). The same happens if q dies
  between the write and the recording of a gap (`RespawnBreaks`; exactly when:
  `RespawnBeforeRecord`).
* A request that waits for its provider can have its entry evicted by a request for another
  key, or lost with q, and is then served with holes and no bypass (`HoleHappens`; exactly
  when: `ServeIff`).
* `_dedupe` and the store's upsert keep one row per stamp; with an unstable sort which of
  several fetched rows is kept is not determined, so only that it is one of them is promised.
* The calendar walk loses rows where a day of an exact multiple of the page cap precedes a
  day that fills a page (`MultipleLoses`; exactly when: `LosslessIff`) and repeats rows
  where a big day ends in a short page (`ShortPageRepeats`; exactly when: `ExactIff`).
* A settle pass that succeeds for a failed symbol removes it from every list
  (`SettleDropsFailure`; exactly when: `PassKeepsBooks`), because `record` files a result
  with an `added` count elsewhere. An exception without a message is recorded as done
  (`SilentBreakIsDone`; exactly when: `TookFails`).
* The blacklist's documentation says three weeks; the code's default threshold is five.
* Right after a flip Parabolic SAR can move away from price (`FirstMoveHappens`; exactly
  when: `FirstMove`), and Supertrend's line can retreat right after a turn
  (`StRetreatHappens`; exactly when: `StRetreats`).
* With business-day windows a delta misses rows when a session rolls over between pushes
  (`RolloverMisses`; exactly when, for the sessions' closes: `CloseDeltaIff`); a displaced
  series can move plot times already sent (`DisplacedMoves`; exactly when: `DisplacedIff`).
* Reading only the newest files is wrong if file date ranges overlap (`OverlapMisses`), and
  can be if the log lacks bounds for some file with rows (`UnboundedMisses`); exactly when:
  `TailIff`.
* The documentation of `set_value` says a value with an inline comment mark does not round
  trip; one that begins with `#` does (`ReadValueIff`). Setting a variable the file assigns
  twice has no effect on what is read (`SetLost`; exactly when: `SetIff`).

## Model

| member | source | states |
|---|---|---|
| `Ranges.Coalesce` | kdb-store/kdb_store/ranges.py:44-61 | The blocks returned are sorted with more than one bar between neighbours; nothing covered is lost, whatever the input, and on the grid they hold exactly the bar stamps the input held. |
| `Ranges.CoalescedMeans` | kdb-store/kdb_store/ranges.py:44-61 | What the merging loop keeps of the sorted ranges is true of the ranges as they were given, in any order and with any overlaps. |
| `Ranges.CanonicalForm` | kdb-store/kdb_store/ranges.py:44-61 | Separated blocks are a canonical form: two such lists that hold the same bar stamps are the same list, so the result depends on the stamps covered alone. |
| `Ranges.MergeStamps` | kdb-store/kdb_store/ranges.py:52-60 | Folding a range that starts no more than one bar after the last block into it adds no stamp of its own and loses none. |
| `Ranges.Subtract` | kdb-store/kdb_store/ranges.py:64-83 | For any request and any grid-aligned coverage, the gaps are ordered, disjoint, inside the request, and hold exactly the requested bar stamps not covered; each ends at the request's end or where a covered bar follows, and starts at the request's start or right after a covered bar; one of them is inverted if and only if the request starts between two bars of which only the later is covered and its last bar is covered too. |
| `Ranges.EarlyReturn` | kdb-store/kdb_store/ranges.py:79-80 | Leaving the loop early, without the final filter, is right about the stamps, and leaves an inverted gap exactly in the stated case. |
| `Ranges.NormalReturn` | kdb-store/kdb_store/ranges.py:81-83 | Leaving the loop at its end is right about the stamps, and the stated case cannot then hold. |
| `Ranges.FilterGaps` | kdb-store/kdb_store/ranges.py:81-83 | Dropping the inverted gaps changes no stamp and leaves proper gaps only. |
| `Ranges.InvertedGapExists` | kdb-store/kdb_store/ranges.py:79-83 | A concrete request off the grid that gets an inverted gap, and the same request on the grid that does not. |
| `Ranges.TrimTail` | kdb-store/kdb_store/ranges.py:86-95 | What is left of a range is exactly its stamps up to the boundary, and nothing exactly if it starts after it. |
| `KdbStore.NamesCollide` | kdb-store/kdb_store/store.py:108-112 | Sanitising is not injective: two spellings of one share class land in one table, so keys in use must be assumed apart. |
| `KdbStore.PlainNames` | kdb-store/kdb_store/store.py:108-112 | Keys whose symbols are capitals and digits, and intervals letters and digits, have tables of their own, named after both. |
| `KdbStore.UpsertMeans` | kdb-store/kdb_store/store.py:139-161 | After a write a stamp is held if it was or a row brought it; a stamp a row brought has the value of one of the rows for it, every other its old one. |
| `KdbStore.WrittenMeans` | kdb-store/kdb_store/store.py:139-161 | A write changes the bars of its own key alone and no coverage. |
| `KdbStore.RecordedMeans` | kdb-store/kdb_store/store.py:175-185 | Recording coverage adds one range to its own key's coverage, touches no bars and no other key. |
| `KdbStore.DropMeans` | kdb-store/kdb_store/store.py:194-212 | A drop leaves the key whole, or gone, or, stopped after its first statement, without bars and with its coverage; other keys never change. |
| `KdbStore.WholeOrGoneAfterDrop` | kdb-store/kdb_store/store.py:194-212 | One more drop keeps every key whole or gone except those whose drop was torn. |
| `KdbStore.EvictionMeans` | kdb-store/kdb_store/store.py:214-251 | Evicting the first keys of the access order takes exactly those keys' entries, each as a whole, and leaves every other entry, access row included, as it was. |
| `KdbStore.NewestGoesLast` | kdb-store/kdb_store/store.py:214-251 | If the key touched last is evicted, every other key went before it. |
| `KdbStore.Store.constructor` | kdb-store/kdb_store/store.py:84-97 | A new store holds no bars, no coverage and no access rows. |
| `KdbStore.Store.ReadBars` | kdb-store/kdb_store/store.py:118-137 | A read that succeeds returns the held bars of the closed window, all of them and no others. |
| `KdbStore.Store.ReadCoverage` | kdb-store/kdb_store/store.py:163-173 | A read that succeeds returns the key's recorded ranges. |
| `KdbStore.Store.WriteBars` | kdb-store/kdb_store/store.py:139-161 | A write takes effect as a whole or not at all; success means it did; a failure leaves open which. |
| `KdbStore.Store.RecordCoverage` | kdb-store/kdb_store/store.py:175-185 | The same for one coverage range. |
| `KdbStore.Store.Touch` | kdb-store/kdb_store/store.py:187-192 | The same for an access stamp, which is later than every access before it. |
| `KdbStore.Store.Drop` | kdb-store/kdb_store/store.py:194-212 | A drop may stop after any of its statements; what is left, and whether its key is torn, is told by how many were done; success means all were and no statement failed. |
| `KdbStore.Store.Respawn` | kdb-store/kdb_store/store.py:84-106 | A q process that died comes back with nothing, which tears no key. |
| `KdbStore.Store.Heap` | kdb-store/kdb_store/store.py:114-116 | Every answer of q to the heap question is on record. |
| `KdbStore.Store.AccessOrder` | kdb-store/kdb_store/store.py:214-251 | The keys of the access table, each once, oldest access first. |
| `KdbStore.Store.EvictUntilBelow` | kdb-store/kdb_store/store.py:214-251 | On every way out the keys dropped as whole entries are a prefix of the access order; q answered over budget before every drop; success means its last answer is within budget or no key is left, and the names returned are those of the tables that existed; a statement that fails stops it inside the next drop at most, which is the only key it can tear. |
| `KdbStore.DropTears` | kdb-store/kdb_store/store.py:194-212 | A drop tears its own key alone, and only by stopping after its first statement, when the bars are gone. |
| `KdbStore.EvictingCut` | kdb-store/kdb_store/store.py:214-251 | A drop that stops inside an eviction leaves the keys before it gone, the keys after it as they were, and no key but its own newly torn. |
| `KdbStore.Store.Exists` | kdb-store/kdb_store/store.py:108-112 | A key's table exists under its sanitised name. |
| `Cache.BoundaryMeans` | openbb-kdb/openbb_kdb/cache.py:85-111 | The boundary is on the grid, and a bar is complete, its end reached, exactly if its stamp is not after the boundary. |
| `Cache.BoundaryGrows` | openbb-kdb/openbb_kdb/cache.py:85-111 | A later clock never has an earlier boundary. |
| `Cache.DayRangeMeans` | openbb-kdb/openbb_kdb/cache.py:359-380 | The range put on the wire is proper, on the grid, holds every bar of the gap and spans the same civil dates. |
| `Cache.WidthsMean` | openbb-kdb/openbb_kdb/cache.py:114-141 | In numbers: the widths are those that divide 86400 seconds; the boundary is one bar before the bar the clock is in; daily gaps go on the wire as they are, others as whole days. |
| `Cache.OverlapMeans` | openbb-kdb/openbb_kdb/cache.py:287-290 | The comparison looks at the stamps from three bars before the gap up to one before it that are not past the boundary and not before all coverage. |
| `Cache.AlarmMeans` | openbb-kdb/openbb_kdb/cache.py:399-432 | Against an honest reply to a range that holds them, history counts as rewritten if and only if upstream's close of a bar held there has moved by more than a millionth. |
| `Cache.NoticedLater` | openbb-kdb/openbb_kdb/cache.py:284-311 | Rows of upstream's own stored meanwhile make no difference but for the bars they replace. |
| `Cache.RewroteNow` | openbb-kdb/openbb_kdb/cache.py:284-328 | So at the last gap the question is put to what was held at first, with what was replied for the gaps before. |
| `Cache.TrimAllMeans` | openbb-kdb/openbb_kdb/cache.py:264-267 | Effective coverage is exactly the covered stamps up to the boundary. |
| `Cache.DedupeMeans` | openbb-kdb/openbb_kdb/cache.py:501-509 | One row per fetched stamp, and each is one of the fetched rows for it. |
| `Cache.LogGrows` | openbb-kdb/openbb_kdb/cache.py:114-125 | The fetch log keeps its promise with each call: true rows, and every completed upstream bar of the ranges it lists. |
| `Cache.WriteKeeps` | openbb-kdb/openbb_kdb/cache.py:312-313 | Writing the rows of a wire range keeps every promise about covered bars, brings that range up to date and leaves every range up to date that was. |
| `Cache.RecordKeeps` | openbb-kdb/openbb_kdb/cache.py:314-320 | Recording the completed part of a range that is up to date keeps the promise: covered means final, and no unfinished bar is covered. |
| `Cache.DropKeepsPromise` | kdb-store/kdb_store/store.py:194-212 | A sound key is sound after a drop if and only if the drop did not stop after its first statement, or no covered stamp has a bar upstream. |
| `Cache.DropBreaks` | kdb-store/kdb_store/store.py:194-212 | A drop that stops there, of a covered bar upstream has: the key then promises what it does not hold. |
| `Cache.RespawnBeforeRecord` | openbb-kdb/openbb_kdb/cache.py:312-320 | If q came back empty between the write and the recording of a range, the promise holds if and only if upstream has no completed bar in it. |
| `Cache.RespawnBreaks` | openbb-kdb/openbb_kdb/cache.py:312-320 | Such a death, of a range with one bar. |
| `Cache.NoFalseAlarm` | openbb-kdb/openbb_kdb/cache.py:399-432 | Over covered bars an honest provider never sets off the rewritten-history check. |
| `Cache.WindowFresh` | openbb-kdb/openbb_kdb/cache.py:254-336 | With the effective coverage and every gap up to date, every completed bar of the window is. |
| `Cache.EvictedKey` | openbb-kdb/openbb_kdb/cache.py:331-334 | Eviction reaches the key being served only by taking every key with it; otherwise that key's bars are as they were. |
| `Cache.AfterEvict` | openbb-kdb/openbb_kdb/cache.py:331-334 | Eviction keeps the promise of every key but those a stopped drop tore. |
| `Cache.NothingNext` | openbb-kdb/openbb_kdb/cache.py:213-232 | One more gap fetched on the bypass holds no bar stamp of any range this call had fetched before. |
| `Cache.BypassRows` | openbb-kdb/openbb_kdb/cache.py:213-232 | The log after the bypass has one row for every completed upstream bar of the window. |
| `Cache.ReadThroughCache.Fetch` | openbb-kdb/openbb_kdb/cache.py:338-348 | A provider call that answers adds its rows and its range to the log and one to the gap count; one that fails changes none of them. |
| `Cache.ReadThroughCache.StoreGap` | openbb-kdb/openbb_kdb/cache.py:312-320 | If nothing fails the rows are written, the completed part is recorded and nothing else changes, so the range is up to date and earlier ones stay so; whatever fails, the key's promise survives. |
| `Cache.ReadThroughCache.DropRewritten` | openbb-kdb/openbb_kdb/cache.py:323-328 | After rewritten history either the key is gone altogether or one statement failed; only that key can be torn, having lost its bars; in every other case its promise stands. |
| `Cache.ReadThroughCache.FetchFrom` | openbb-kdb/openbb_kdb/cache.py:284-307 | The fetch starts at the later of three bars before the gap and the start of coverage, if history is to be compared and that is before the gap, else at the gap; what goes on the wire is on the grid and holds every bar from there to the end of the gap. |
| `Cache.ReadThroughCache.StoreReply` | openbb-kdb/openbb_kdb/cache.py:299-328 | The key is dropped exactly if the comparison with what was held before the write finds history rewritten; otherwise the reply is stored and the gap up to date; one statement failed exactly if it raises. |
| `Cache.ReadThroughCache.FillGap` | openbb-kdb/openbb_kdb/cache.py:270-328 | One gap, one provider call: the key is dropped exactly if, on the comparing pass, upstream no longer has a bar held in the three bars before the gap, within coverage and not past the boundary; filled means up to date, its completed part covered and the rows logged those replied; a failure keeps the promise and is the store's or the provider's. |
| `Cache.ReadThroughCache.FillGaps` | openbb-kdb/openbb_kdb/cache.py:270-328 | All gaps up to date if none failed, with one provider call per gap, each for a range that holds the gap; a restart exactly if, on the comparing pass, upstream no longer has a bar held in the three bars before the last gap, and then with the key gone. |
| `Cache.ReadThroughCache.Serve` | openbb-kdb/openbb_kdb/cache.py:330-336 | The served rows are the window's bars as they were held and the key is the newest access, unless eviction reached it: then q had answered over budget and the answer and the access table are empty; q's last answer is within budget unless nothing is left to drop; no key becomes torn unless a statement failed. |
| `Cache.ReadThroughCache.FindGaps` | openbb-kdb/openbb_kdb/cache.py:254-268 | The effective coverage is the covered bars up to the boundary, and the gaps are the rest of the window, each fit to be fetched. |
| `Cache.ReadThroughCache.Pass` | openbb-kdb/openbb_kdb/cache.py:254-336 | From a sound key the pass answers exactly upstream's bars of the window; it restarts exactly if, comparing and nothing failing, upstream no longer has a bar held in the three bars before the last gap, within coverage and not past the boundary, and that leaves nothing held; every stamp of the window that was not complete was asked for in this pass, what the provider then replied is what is served for it; afterwards the window is covered as far as it is complete, and a window that already was costs no call; it fails only with one failed statement or a refused call, otherwise no statement failed, and without a failed one no key becomes torn. |
| `Cache.ReadThroughCache.ReadThrough` | openbb-kdb/openbb_kdb/cache.py:239-252 | At most two passes: the second runs exactly if upstream no longer has a bar held in the three bars before the last gap; it starts from nothing, so its answer is exactly upstream's whatever was held before, and it cannot restart again. |
| `Cache.ReadThroughCache.BypassStore` | openbb-kdb/openbb_kdb/cache.py:200-237 | The bypass answer has every completed upstream bar of the window once, no bar stamp of an earlier range is asked for again, every bar of the window, forming ones included, is among the ranges this call asked for, its rows are one for each stamp of what was replied to them, and the gap count is that of the calls answered. |
| `Cache.ReadThroughCache.AttributeRows` | openbb-kdb/openbb_kdb/cache.py:469-480 | The two counts are those of the served stamps this call fetched and of those it did not. |
| `Cache.ReadThroughCache.Get` | openbb-kdb/openbb_kdb/cache.py:166-252 | One request, whatever fails in it: held history counts as rewritten exactly if upstream no longer has a bar held in the three bars before the last gap; from a sound key or after a rewrite a served answer is exactly upstream's, what was still forming was asked for in this very request, a bypassed answer has every completed bar and asked in this request for every bar of the window, its rows being one for each stamp of the replies, cache rows and upstream rows add up to the rows returned, the gap count is the number of provider calls, short by one exactly if a refused call ended the read-through, a window of whole completed bars once served costs no call while it is held; a known width is bypassed only if one store statement failed or a provider call of this request was refused, only such a refused call can fail it, and a served answer met no failed statement and tears no key. |
| `Cache.ReadThroughCache.Step` | openbb-kdb/openbb_kdb/cache.py:166-336 | One request or death of q is told by what the cache has to show before and after it, and keeps the promise of every key that is not torn; a key torn before is promised again once a drop of it completes or q comes back empty. |
| `Cache.ReadThroughCache.Run` | openbb-kdb/openbb_kdb/cache.py:166-336 | Over any sequence of requests at non-decreasing times and deaths of q between them, whatever fails: before and after every event each covered stamp of a key that is not torn is complete and held as upstream finally has it; a failed reply has a refused call of that request, a bypass one failed statement or a refused call of it, every completed bar, and rows replied in that request for the whole window; any other answer comes of no failure and is, where its key was not torn, exactly upstream's completed bars with the forming ones as upstream replied in that request, or else is empty because q answered over budget and nothing is left to drop; only a failed statement tears a key, one at most. |
| `Cache.NothingFails` | openbb-kdb/openbb_kdb/cache.py:166-336 | Over a sequence in which no statement fails, every request of a known width to a provider that answers is served by the cache, exactly upstream's, or is empty with q over budget and nothing left to drop. |
| `Cache.NothingTorn` | openbb-kdb/openbb_kdb/cache.py:166-336 | While no statement fails no key is torn. |
| `Cache.LeavesTrace` | openbb-kdb/openbb_kdb/cache.py:166-336 | No request is answered for nothing: it has asked the provider, or read q's heap, or met a statement that failed. |
| `Cache.AlarmIff` | openbb-kdb/openbb_kdb/cache.py:399-432 | Against an honest provider the comparison finds rewritten history if and only if a complete bar held in the overlap has a close that is no longer upstream's. |
| `Cache.AlarmIs` | openbb-kdb/openbb_kdb/cache.py:284-311 | Comparing only where the overlap reaches before the gap is comparing the whole overlap: where it does not there is nothing to compare. |
| `Cache.StoredCovers` | openbb-kdb/openbb_kdb/cache.py:312-320 | Storing a wire range leaves coverage grown, with every completed bar of the gap in it. |
| `Cache.WindowHeld` | openbb-kdb/openbb_kdb/cache.py:264-320 | With every gap stored the whole window is covered as far as it is complete. |
| `Cache.HeldHits` | openbb-kdb/openbb_kdb/cache.py:264-268 | A window of whole completed bars that is covered leaves no gap, so a request for it is a hit. |
| `Cache.AfterFill` | openbb-kdb/openbb_kdb/cache.py:254-336 | When every gap is filled the window is covered, its unfinished bars were asked for, and what is held of it is upstream's. |
| `Cache.BlamesNext` | openbb-kdb/openbb_kdb/cache.py:184-198 | Blame composes: over steps one after another something was raised only by one failed statement or a refused call of one of them, and if nothing was raised no statement failed. |
| `Cache.TailMeans` | openbb-kdb/openbb_kdb/cache.py:264-267 | Coverage ends at the boundary, so every bar of the window not yet complete is among the ranges this pass asks for. |
| `Cache.AskedNext` | openbb-kdb/openbb_kdb/cache.py:270-328 | One gap more: the calls so far are one a gap, each for a range that holds its gap, and the rows logged are what those calls replied, in order. |
| `Cache.GrewNext` | openbb-kdb/openbb_kdb/cache.py:338-348 | Over calls one after another, the ranges and rows logged are those of the calls answered, in order. |
| `Cache.GrantedAll` | openbb-kdb/openbb_kdb/cache.py:338-348 | All ranges asked for were answered if and only if no call was refused. |
| `Cache.BypassAsks` | openbb-kdb/openbb_kdb/cache.py:213-232 | What this call had fetched before and what the bypass asks for cover every bar of the window. |
| `Cache.AllGoodLater` | openbb-kdb/openbb_kdb/cache.py:85-111 | The invariant as of one time is the invariant as of any later time. |
| `Cache.AllGoodStep` | openbb-kdb/openbb_kdb/cache.py:254-336 | A request for one key keeps the invariant of all keys, torn ones coming back once their drop completes. |
| `Interleaving.RunKeeps` | openbb-kdb/openbb_kdb/cache.py:127-336 | However passes for different keys, failures and deaths of q interleave between provider calls, every covered stamp of a key that is not torn is complete and held as upstream finally has it, and each pass under way knows what it holds: while its entry has not gone, what was covered and what it has stored is up to date; once it has, exactly what it stored since. |
| `Interleaving.StepKeeps` | openbb-kdb/openbb_kdb/cache.py:127-336 | Every step between two awaits keeps that. |
| `Interleaving.BeginKeeps` | openbb-kdb/openbb_kdb/cache.py:254-268 | Beginning a pass keeps that, whatever others are under way. |
| `Interleaving.LandKeeps` | openbb-kdb/openbb_kdb/cache.py:292-328 | Storing a reply keeps that, however far it gets, the drop of rewritten history and the second pass included. |
| `Interleaving.ServeKeeps` | openbb-kdb/openbb_kdb/cache.py:330-336 | Serving a key keeps that, though it may evict others: their passes know that their entry has gone. |
| `Interleaving.RespawnKeeps` | kdb-store/kdb_store/session.py:248-262 | So does a q that died and came back with nothing under every pass. |
| `Interleaving.CutMeans` | kdb-store/kdb_store/store.py:214-251 | An eviction, cut short or not, takes the bars of exactly the keys it reached, and their coverage too unless it tore the last. |
| `Interleaving.ServeIff` | openbb-kdb/openbb_kdb/cache.py:330-336 | Whatever went on meanwhile a served answer has no wrong bar, and it is exactly upstream's if and only if its entry has not gone since the pass began, or every completed upstream bar of the window was stored since it went. |
| `Interleaving.HoleHappens` | openbb-kdb/openbb_kdb/cache.py:254-336 | Two keys: serving the one evicts the other while that waits for its provider, which is then served without a bar it had held, and no bypass. |
| `Feeds.SyncKeeps` | live-grid/app/feeds.py:175-199 | A rebuild going on from any feed, up to its next await, keeps the invariant if the feeds before are settled. |
| `Feeds.StartSettles` | live-grid/app/feeds.py:186-198 | Starting a feed that has no client leaves each feed with a client exactly if its active set is not empty, and this one on what is wanted or failed and empty. |
| `Feeds.CheckKeeps` | live-grid/app/feeds.py:227-266 | A liveness check over any clients left to look at, up to its next await, keeps the invariant. |
| `Feeds.BuriedKeeps` | live-grid/app/feeds.py:255-266 | A torn-down feed is empty and without client, and a rebuild is due. |
| `Feeds.StepKeeps` | live-grid/app/feeds.py:129-299 | Every atomic step, a registration between two awaits of a rebuild included, keeps the invariant. |
| `Feeds.RunKeeps` | live-grid/app/feeds.py:129-299 | Along every interleaving a visible connection has its dirty set; when nothing is under way or due, each feed's active set is the union of what is wanted or its last start failed and it is empty, and a client exists exactly for the feeds with a non-empty active set. |
| `Feeds.SyncFromMeans` | live-grid/app/feeds.py:175-199 | One stretch of a rebuild leaves every feed before its stop as wanted or failed and the ones after untouched. |
| `Feeds.SyncReaches` | live-grid/app/feeds.py:175-199 | Left undisturbed, a rebuild ends with every feed on what is wanted, or, where its start failed, on nothing, and changes no connection. |
| `Feeds.NoMarkLost` | live-grid/app/feeds.py:145-151 | While a connection stays registered, what its reader has popped together with what is still marked is exactly what was marked before and what the drains marked since: no update is lost and none invented. |
| `Feeds.MarksOfStep` | live-grid/app/feeds.py:201-225 | Only a drain adds marks and only a pop takes them. |
| `Feeds.RegisterOrder` | live-grid/app/feeds.py:129-138 | Making the dirty set first keeps every visible connection markable between the two statements; the other order does so exactly if the set was there already. |
| `Feeds.CheckWaits` | live-grid/app/feeds.py:240-254 | A check tears down no client whose clock is younger than the stale limit. |
| `Feeds.TeardownResets` | live-grid/app/feeds.py:255-266 | A teardown sets the clock of its feed anew. |
| `Feeds.NoEarlyTeardown` | live-grid/app/feeds.py:227-266 | Churn is bounded: for three hundred seconds after a feed was heard, started or torn down, no sequence of steps tears it down or sets its clock back. |
| `Feeds.ZombiesFall` | live-grid/app/feeds.py:227-266 | A check, a minute after the last at least, tears down exactly the clients that ought to tick and were not heard for three hundred seconds, whoever registers or leaves while it waits: such a client is gone, its feed empty, its clock set, a rebuild due, and every other feed as it was; it ends after at most one wait a client, and a check too soon does nothing. |
| `Feeds.CheckDue` | live-grid/app/feeds.py:227-240 | A check begins exactly when the loop is at rest and the last one a minute ago, over each client once. |
| `Feeds.RunMeans` | live-grid/app/feeds.py:129-299 | Along every interleaving, by connections and symbols: who is registered can be marked; at rest a client exists exactly for the feeds that run something; with no rebuild due either a feed runs exactly the symbols some connection asks for, or nothing if its last start failed; a client being stopped is gone, and after shutdown all are. |
| `Feeds.RebuildMeans` | live-grid/app/feeds.py:153-199 | A rebuild begins exactly when the loop is at rest, one is due and the delay is over; left alone it ends after at most three waits; a feed that ran what is asked for is as it was, any other runs exactly that, with a client if it is anything, or is down if its start failed. |
| `Feeds.StartMeans` | live-grid/app/feeds.py:186-198 | A start sets the feed's active set, and its client and clock if it succeeds with anything wanted, and touches nothing else. |
| `Feeds.PopMeans` | live-grid/app/feeds.py:145-151 | A pop takes the marks of its connection and makes no connection known. |
| `Feeds.NoTickLost` | live-grid/app/feeds.py:145-225 | By symbols: while a connection stays, a symbol is marked at the end or was handed over exactly if it was marked at first or a tick of it, on a feed where the connection asks for it, was drained since. |
| `Feeds.ShutsDown` | live-grid/app/feeds.py:268-299 | Cancelled at whatever await, the loop stops its clients one after another and then ends with nothing running. |
| `Feeds.StepFresh` | live-grid/app/feeds.py:129-299 | Each step keeps a feed safe from teardown within that time. |
| `FeedManager.Manager.constructor` | live-grid/app/feeds.py:94-127 | A new manager has no connections, clients or active sets. |
| `FeedManager.Manager.Register` | live-grid/app/feeds.py:129-138 | The whole new state is that of the step proved to keep the invariant: connection and empty dirty set added, a rebuild due. |
| `FeedManager.Manager.Unregister` | live-grid/app/feeds.py:140-143 | The connection and its marks are gone, a rebuild is due, all else stays. |
| `FeedManager.Manager.PopDirty` | live-grid/app/feeds.py:145-151 | The reader gets exactly the marks, which are empty after, and a connection unknown stays unknown. |
| `FeedManager.Manager.UnionOf` | live-grid/app/feeds.py:168-172 | The symbols some connection wants on the feed. |
| `FeedManager.Manager.Start` | live-grid/app/feeds.py:186-198 | The feed runs what is wanted and has its clock set, or runs nothing and counts as failed. |
| `FeedManager.Manager.SyncFeeds` | live-grid/app/feeds.py:175-199 | The loop over the feeds reaches the state of the rebuild step for which the invariant is proved, stopping where it awaits. |
| `FeedManager.Manager.BeginSync` | live-grid/app/feeds.py:175-199 | A rebuild starts only if one is due and the delay since the last one is over. |
| `FeedManager.Manager.ResumeSync` | live-grid/app/feeds.py:186-199 | After the awaited stop the rebuild goes on with the set it had decided on, though the connections may have changed. |
| `FeedManager.Manager.MarkTick` | live-grid/app/feeds.py:214-225 | A tick marks its symbol on exactly the connections that want it on that feed. |
| `FeedManager.Manager.DrainOne` | live-grid/app/feeds.py:201-225 | All ticks of one client mark what they would mark one by one. |
| `FeedManager.Manager.DrainAll` | live-grid/app/feeds.py:201-225 | The drain of all clients, in whatever order, gives the state of the drain step. |
| `FeedManager.Manager.CheckFeeds` | live-grid/app/feeds.py:240-266 | The loop over the clients reaches the state of the check step, stopping where it awaits. |
| `FeedManager.Manager.Bury` | live-grid/app/feeds.py:255-266 | The feed's active set goes, its clock is set, a rebuild is due. |
| `FeedManager.Manager.BeginCheck` | live-grid/app/feeds.py:227-240 | The clients looked at are those there when the check begins, each once. |
| `FeedManager.Manager.ResumeCheck` | live-grid/app/feeds.py:255-266 | After the awaited stop the check buries the feed and goes on. |
| `FeedManager.Manager.CloseStep` | live-grid/app/feeds.py:268-272 | Shutdown stops a client that is there, until none is. |
| `Leases.CleanTwice` | live-grid/app/leases.py:49-64 | Cleaning a symbol twice is cleaning it once, so the symbol a lease is filed under is the one it subscribes. |
| `Leases.CleanMeans` | live-grid/app/leases.py:49-64 | Cleaning takes the white space off both ends and puts the rest in capitals. |
| `Leases.SplitMeans` | live-grid/app/leases.py:49-64 | A symbol is registered on the feed that carries it and nowhere else, a blank one nowhere. |
| `Leases.RenewHolds` | live-grid/app/leases.py:49-64 | Renewal keeps leases and lease registrations the same set, each for its one symbol, and the feed invariant. |
| `Leases.SweepHolds` | live-grid/app/leases.py:66-75 | So does a sweep. |
| `Leases.FeedsHold` | live-grid/app/feeds.py:129-299 | So does every step of the feeds that keeps off lease ids. |
| `Leases.StepHolds` | live-grid/app/leases.py:49-75 | So does every step of the combined system. |
| `Leases.RunHolds` | live-grid/app/leases.py:49-75 | Along every mixture of renewals, sweeps and feed steps, a lease is held exactly where its registration is, and the feed invariant stands. |
| `Leases.LeaseIs` | live-grid/app/leases.py:49-75 | After every mixture of renewals, sweeps and feed steps a lease is held, and to which time, exactly as its last renewal says, if no sweep since has come at that time or later. |
| `Leases.LeaseFed` | live-grid/app/leases.py:24-75 | A symbol last renewed to a time no sweep has reached since is registered, alone, under its lease's name; and with nothing under way or due it is among what its feed runs, or the feed's last start failed. |
| `Leases.SweepExact` | live-grid/app/leases.py:66-75 | A sweep drops exactly the leases whose expiry has come, and their registrations. |
| `Leases.RenewMeans` | live-grid/app/leases.py:49-64 | The symbols named, and no others, end at the new expiry; a blank one is not a lease. |
| `Leases.RenewQuiet` | live-grid/app/leases.py:49-64 | Renewing leases that are all held leaves the feeds alone; a new one makes a rebuild due. |
| `Leases.LeaseLasts` | live-grid/app/leases.py:49-75 | A lease good until some time is held, and registered, through every sequence of steps that sweeps no later than that. |
| `Leases.LeaseRegistry.Renew` | live-grid/app/leases.py:49-64 | Registry and manager end in the state of the renewal step, and the answer names each cleaned symbol with its new expiry. |
| `Leases.LeaseRegistry.Sweep` | live-grid/app/leases.py:66-75 | The answer is exactly the lapsed symbols; registry and manager end in the state of the sweep step. |
| `Calendar.FetchWindowed` | openbb-eodhd/openbb_eodhd/models/calendar.py:396-479 | The walk over pages collects exactly the pieces of the specification's walk, at most twenty of them, with a warning exactly if there were more; the answer is the ordered collection itself with no limit or a zero one, its first rows up to a positive limit, and for a negative limit all but that many at the end; it fails as unauthorized exactly if a request it makes is refused, as empty exactly if the first answer has no rows. |
| `Calendar.WalkKeeps` | openbb-eodhd/openbb_eodhd/models/calendar.py:396-479 | From inside a day of which whole pages are taken, the walk collects every later row if and only if the condition on the sizes of the later days holds. |
| `Calendar.LosslessIff` | openbb-eodhd/openbb_eodhd/models/calendar.py:396-479 | No row is lost if and only if the condition on day sizes holds: it fails where a day of an exact multiple of the cap comes before a day of a page or more, but for the cases it names. |
| `Calendar.ExactIff` | openbb-eodhd/openbb_eodhd/models/calendar.py:396-479 | Every row comes exactly once, in the server's order, if and only if the stronger condition on day sizes holds. |
| `Calendar.WalkTiles` | openbb-eodhd/openbb_eodhd/models/calendar.py:396-479 | From inside a day the remaining pieces lie end to end up to the last row if and only if that condition holds. |
| `Calendar.SmallDays` | openbb-eodhd/openbb_eodhd/models/calendar.py:396-479 | It holds if every day has fewer rows than the cap. |
| `Calendar.NoMultiples` | openbb-eodhd/openbb_eodhd/models/calendar.py:396-479 | No row is lost if no day holds an exact multiple of the cap. |
| `Calendar.MultipleLoses` | openbb-eodhd/openbb_eodhd/models/calendar.py:466-471 | At the page cap of one thousand, a day of exactly a thousand rows before one of a thousand and one: the offset carries over and the last row is never fetched. |
| `Calendar.ShortPageRepeats` | openbb-eodhd/openbb_eodhd/models/calendar.py:453-464 | At that cap, a day of fifteen hundred rows before one of a single row: the short page carries that row, which is then asked for again and comes twice. |
| `Calendar.PastStays` | openbb-eodhd/openbb_eodhd/models/calendar.py:396-479 | A row the walk has gone past is never collected later, so what it skips is lost. |
| `Calendar.WalkInRange` | openbb-eodhd/openbb_eodhd/models/calendar.py:396-479 | Nothing outside the requested range is collected. |
| `Calendar.CollectMeans` | openbb-eodhd/openbb_eodhd/models/calendar.py:396-479 | Cut short by the budget or not, the rows collected are exactly those of the pieces taken. |
| `Calendar.HitsCount` | openbb-eodhd/openbb_eodhd/models/calendar.py:396-479 | If every row of the range is in some piece, each is collected at least as often as it occurs. |
| `Calendar.SortedMeans` | openbb-eodhd/openbb_eodhd/models/calendar.py:478-479 | The collection is put in ascending order and has the same rows as often as collected. |
| `Calendar.AnswerMeans` | openbb-eodhd/openbb_eodhd/models/calendar.py:396-479 | Within the budget the answer is ordered and of the range; with small days it has exactly the range's rows as often as they occur; with no day of an exact multiple of a thousand it has every one of them at least as often as it occurs. |
| `Calendar.SortedStable` | openbb-eodhd/openbb_eodhd/models/calendar.py:478-479 | Rows of one date keep the order they came in. |
| `Calendar.LimitedMeans` | openbb-eodhd/openbb_eodhd/models/calendar.py:479-479 | The limit cuts the answer's end, never its start, and none or zero cuts nothing. |
| `Calendar.PageOf` | openbb-eodhd/openbb_eodhd/models/calendar.py:443-476 | What each page, empty, short, of one date or of several, tells of the rows to keep and of the next request. |
| `Calendar.TilesCollect` | openbb-eodhd/openbb_eodhd/models/calendar.py:396-479 | Pieces that lie end to end are the stretch they span. |
| `SpanFetch.CeilLog2Means` | scripts/sip_backfill.py:376-429 | Halving, rounded up, reaches one day after as many steps as the binary logarithm rounded up. |
| `SpanFetch.TraceCounts` | scripts/sip_backfill.py:376-429 | Along every fetch the requests are paid for by the days accepted and the halvings, and the halvings by the logarithm of the first span. |
| `SpanFetch.RequestBound` | scripts/sip_backfill.py:376-429 | However the vendor answers, a fetch makes no more data requests than days plus the binary logarithm of the days rounded up. |
| `SpanFetch.SpansShrink` | scripts/sip_backfill.py:376-429 | Spans never grow along a fetch, shrink at every halving, and only a single day is ever skipped. |
| `SpanFetch.CoversBelow` | scripts/sip_backfill.py:376-429 | Accepted requests stay within the stretch reached. |
| `SpanFetch.TileOnce` | scripts/sip_backfill.py:376-429 | Every second of the stretch reached lies in exactly one accepted request. |
| `SpanFetch.GoingStep` | scripts/sip_backfill.py:393-428 | One data request moves the fetch to the next state: halved and still going, or ended with this verdict. |
| `SpanFetch.TraceMeans` | scripts/sip_backfill.py:376-429 | Along every fetch each request follows from the one before by those rules. |
| `SpanFetch.LearnedMeans` | scripts/sip_backfill.py:419-425 | What is remembered after a fetch is half, rounded up, of the last span refused, and nothing new if none was. |
| `SpanFetch.Fetcher.FetchChunk` | scripts/sip_backfill.py:393-428 | Ends with a verdict other than a halving, the requests made being a fetch of the specification. |
| `SpanFetch.Fetcher.FetchSpan` | scripts/sip_backfill.py:376-429 | Normal return exactly if no day is asked for or the last request was accepted and ends at the last day, with the accepted frames in order; the two failures exactly if the last request was unserved or blocked; the first request is of the remembered span, each one after half of a refused one, rounded up, from the same day, or the same span, or what is left, from the day reached, each judged by the vendor's answers to its own window; the memory ends as half of the last span refused, or as it was; the request bound holds. |
| `SpanFetch.Fetcher.FetchDays` | scripts/sip_backfill.py:376-429 | The same for at least one day. |
| `Backfill.TookAccounts` | scripts/sip_backfill.py:299-312 | Recording books the symbol unless it is a comparing pass that succeeds for a symbol so far only failed; nobody else's booking changes and a failure counts once. |
| `Backfill.TookGoes` | scripts/sip_backfill.py:299-312 | Where a result goes: an error among the failures, cut to three hundred characters and counted; a compared result among the comparisons; one without rows among the empty; any other among the done; and nothing else moves. |
| `Backfill.TodoMeans` | scripts/sip_backfill.py:511-516 | A pass is over exactly: a load, those neither done nor empty, or everyone if forced; a settle, the done and the failures with tries left; a retry, those failures. |
| `Backfill.BookedMeans` | scripts/sip_backfill.py:500-560 | What the results of a whole pass do to each symbol's booking and tries, in any order. |
| `Backfill.PassMeans` | scripts/sip_backfill.py:500-560 | A pass stamps the week as finished or settled only if no budget failure cut it short, as begun only the first time and as retried only in that mode, keeps everything settled, and books just the symbols seen through. |
| `Backfill.LoadAccounts` | scripts/sip_backfill.py:500-560 | An uninterrupted load pass finishes the week and leaves each of its symbols done, empty or failed. |
| `Backfill.PassKeepsBooks` | scripts/sip_backfill.py:500-560 | A pass keeps all symbols in the books if and only if it does not succeed in comparing mode for one that is not settled. |
| `Backfill.SettleDropsFailure` | scripts/sip_backfill.py:299-312 | A settle pass that succeeds for a failed symbol takes it out of every list, and no retry will see it. |
| `Backfill.TookFails` | scripts/sip_backfill.py:299-312 | A load that ended, for any reason but the budget, is recorded as failed if and only if it broke with a message; one that broke without is recorded as done. |
| `Backfill.SilentBreakIsDone` | scripts/sip_backfill.py:299-312 | A load that breaks with an empty message is recorded as done, and counts no try. |
| `Backfill.StepKeeps` | scripts/sip_backfill.py:668-710 | A pass or the daily books never take back a finish, a settle or a settled symbol. |
| `Backfill.NeverAgain` | scripts/sip_backfill.py:500-560 | Over any passes cut short anywhere and daily books between them, finished is never cleared and a symbol once done or empty is never in a load pass again. |
| `Backfill.RetriesBounded` | scripts/sip_backfill.py:318-325 | Whatever else happens to a week, retry passes fail on a symbol no more often than the limit. |
| `Backfill.FinalizedMeans` | scripts/sip_backfill.py:668-710 | The daily books add the symbols with every trading day to the done, take them from the failures, list the others that the books did not have, and keep everything said and every stamp set before. |
| `WeekLoader.Progress.constructor` | scripts/sip_backfill.py:280-292 | The saved week, or an untouched one. |
| `WeekLoader.Progress.Record` | scripts/sip_backfill.py:299-312 | The books change as the recording proved about. |
| `WeekLoader.Progress.RunPass` | scripts/sip_backfill.py:524-547 | Whatever order the loads come in, exactly those before the first budget failure are booked. |
| `WeekLoader.Progress.RunLoads` | scripts/sip_backfill.py:524-547 | The loop books each load once and leaves the rest when the budget is out. |
| `WeekLoader.Progress.BookOne` | scripts/sip_backfill.py:529-544 | A budget failure is never booked; anything else is. |
| `WeekLoader.Progress.LoadWeek` | scripts/sip_backfill.py:500-560 | The pass over the symbols still due is a pass of the specification, for which the properties above are proved. |
| `WeekLoader.StopKeeps` | scripts/sip_backfill.py:536-547 | Loads under way when the budget is out are never recorded. |
| `WeekLoader.Abandon` | scripts/sip_backfill.py:536-547 | Leaving the rest unloaded is the same pass as one in which the rest would come later. |
| `WeekLoader.Newest` | scripts/sip_backfill.py:255-257 | The newest Monday on record. |
| `WeekLoader.Blacklist.BlockedFor` | scripts/sip_backfill.py:259-260 | Blocked for a week are exactly the symbols unservable in enough weeks of which one is that week or a later one. |
| `WeekLoader.Blacklist.NoteWeek` | scripts/sip_backfill.py:265-276 | Exactly the unservable failures of symbols in their tenure go on record, once per week, so nothing outside a tenure ever does. |
| `WeekLoader.Blacklist.NoteOne` | scripts/sip_backfill.py:270-272 | A week goes on record once. |
| `WeekLoader.NotingBlocks` | scripts/sip_backfill.py:255-276 | One more week on record never unblocks, and newly blocks only weeks up to it or reaches the threshold. |
| `WeekLoader.BlocksMeans` | scripts/sip_backfill.py:255-260 | Blocked for a week is who is on record for five weeks or more, that one or a later one among them. |
| `WeekLoader.NotedMeans` | scripts/sip_backfill.py:265-276 | The week goes on a symbol's record, at the end and once, exactly if its failure begins with the word unservable and it was in tenure then. |
| `Scheduler.LatestCompleteMonday` | scripts/sip_backfill.py:713-721 | A Monday's week is complete, its Saturday 08:00 passed, exactly if it is this Monday or an older one. |
| `Scheduler.Loader.KnownWeeks` | scripts/sip_backfill.py:724-735 | Exactly the weeks that have a file, newest first. |
| `Scheduler.Loader.FirstDue` | scripts/sip_backfill.py:810-819 | The newest known week that is due, or none if none is. |
| `Scheduler.Loader.SearchBack` | scripts/sip_backfill.py:820-831 | The newest open Monday from the newest back to the floor, or none exactly if no Monday there is open. |
| `Scheduler.Loader.Choose` | scripts/sip_backfill.py:796-831 | The cycle's pick by precedence: daily pass, the newest week, settle, retry, then the newest open Monday. |
| `Scheduler.Loader.RunWeek` | scripts/sip_backfill.py:500-560 | A week's work is one pass of its mode over exactly the members due in it who are not blacklisted for the week; a load pass seen through puts exactly its unservable failures in tenure on the blacklist. |
| `Scheduler.Loader.Run` | scripts/sip_backfill.py:796-831 | A cycle does the work it picked, and no other, to the progress files and the blacklist. |
| `Scheduler.BacklogChange` | scripts/sip_backfill.py:820-831 | Closing one week lowers the count of open Mondays by one exactly if it is between floor and newest and was open. |
| `Scheduler.WorkCloses` | scripts/sip_backfill.py:796-831 | A load pass seen through closes its week; no work opens one. |
| `Scheduler.LoadCovers` | scripts/sip_backfill.py:500-560 | A load pass seen through has every member on the books who is not blacklisted for the week, and fetched nobody who is, nor anybody done or empty before. |
| `Scheduler.NothingMeansCaughtUp` | scripts/sip_backfill.py:796-831 | A cycle that finds nothing to do means each complete Monday from the floor on is finished and none is due for settling or retry. |
| `Scheduler.CycleLowers` | scripts/sip_backfill.py:796-831 | No cycle raises the count of open Mondays and each load cycle seen through lowers it by one. |
| `Scheduler.CatchingUp` | scripts/sip_backfill.py:796-831 | Over any sequence of cycles with the same newest week, the load cycles seen through are at most as many as the Mondays that left the backlog. |
| `Scheduler.PickedIsOpen` | scripts/sip_backfill.py:796-831 | A load pass is only ever picked for an open week no newer than the newest complete one, and below the floor only for that one. |
| `Scheduler.PicksMeans` | scripts/sip_backfill.py:321-335 | What a cycle picks, in plain rules: a daily pass that is due; the newest week complete on its Saturday at eight, if never loaded; the newest week begun before the settle point that has come; the newest with a failure that has tries left and no retry for a day; the newest Monday back to the floor never loaded; or nothing, and each only if none before applies. |
| `Scheduler.BacklogIs` | scripts/sip_backfill.py:820-831 | The backlog is the number of Mondays back to the floor whose first pass is not over. |
| `Scheduler.DailyMeans` | scripts/sip_backfill.py:668-710 | A daily pass books each week it touches and leaves the others alone. |
| `Iterative.ParabolicSar` | live-grid/app/ta/iterative.py:21-57 | The loop's values are those of the recurrence of which the trend properties are proved; the first bar has none. |
| `Iterative.SarRules` | live-grid/app/ta/iterative.py:38-54 | The stop goes the acceleration's share of the way to the extreme point, held back by the lows, or highs, of the two bars before; the trend turns exactly if the bar goes through that. |
| `Iterative.SarStarts` | live-grid/app/ta/iterative.py:29-36 | The first bar gives the low as stop and the high as extreme point, rising. |
| `Iterative.Advances` | live-grid/app/ta/iterative.py:38-45 | The stop moves strictly if and only if the extreme lies beyond it and both bars before leave room. |
| `Iterative.TrendState` | live-grid/app/ta/iterative.py:29-56 | Along a trend the extreme point is the true running extreme since its first bar, and the acceleration is that of the count of new extremes, between step and cap. |
| `Iterative.AccelMeans` | live-grid/app/ta/iterative.py:47-54 | That acceleration is the step times one more than the count, capped. |
| `Iterative.FlipValue` | live-grid/app/ta/iterative.py:38-54 | At a flip the trend turns and the stop jumps to the extreme of the trend that ended. |
| `Iterative.KeepsItsSide` | live-grid/app/ta/iterative.py:33-45 | At every bar but the flips the stop is on its side of that bar and of the two before. |
| `Iterative.Room` | live-grid/app/ta/iterative.py:29-56 | The extreme point is never on the wrong side of the stop. |
| `Iterative.Ratchets` | live-grid/app/ta/iterative.py:29-56 | Inside a trend after its first bar the stop moves only toward price. |
| `Iterative.FirstMove` | live-grid/app/ta/iterative.py:38-54 | Right after the flip it moves away if and only if the flip bar went beyond the stop it was given. |
| `Iterative.FirstMoveHappens` | live-grid/app/ta/iterative.py:38-54 | Four bars for which it does. |
| `Iterative.SarCausal` | live-grid/app/ta/iterative.py:21-57 | The value at a bar depends on the bars up to it alone. |
| `Iterative.NoSilentCross` | live-grid/app/ta/iterative.py:60-111 | The close is across the line only at a bar that turns it, and a turn means the close was beyond the other band. |
| `Iterative.StRetreats` | live-grid/app/ta/iterative.py:60-111 | Between drawn bars on one side the line retreats if and only if the bar before closed across it and this bar's own band lies behind it, which makes the bar before a turn. |
| `Iterative.StRetreatHappens` | live-grid/app/ta/iterative.py:60-111 | Four bars, closing within their ranges and with their own true range, for which the line retreats: from 17.9 to 77.169 while it is above. |
| `Iterative.RunningCausal` | live-grid/app/ta/iterative.py:66-80 | The smoothed true range depends on the bars up to its own alone, gaps in it included. |
| `Iterative.StCausal` | live-grid/app/ta/iterative.py:60-111 | So do the bands and whether a bar has a line. |
| `Iterative.AtrOf` | live-grid/app/ta/iterative.py:66-80 | The loop's values are those of the smoothing recurrence, none where the range has none. |
| `Iterative.TrueRangeMeans` | live-grid/app/ta/exprs.py:39-46 | A bar's range reaches from the lower of its low and the close before to the higher of its high and that close. |
| `Iterative.AtrMeans` | live-grid/app/ta/iterative.py:76-80 | The average starts with the first range there is and passes over gaps. |
| `Iterative.AtrMoves` | live-grid/app/ta/iterative.py:76-80 | Each range after moves it by its share: period times the new is one less than period times the old, and the range. |
| `Iterative.BandRules` | live-grid/app/ta/iterative.py:90-111 | A band is the bar's own, or the one before where that is tighter and the close before did not pass it; the side changes exactly where the close passes the band that is its line. |
| `Iterative.Supertrend` | live-grid/app/ta/iterative.py:60-111 | The loop's line and direction are those of the recurrence for every bar, none where the range has none. |
| `SeriesDelta.RunningSessionStart` | live-grid/app/ta/session.py:129-150 | The first row of the last row's session; the last row itself if its date did not parse; the start if there is no row. |
| `SeriesDelta.MergeExact` | live-grid/app/ta/series_payload.py:101-157 | A delta merged onto the previous push is the new full push if and only if no series moved before the start. |
| `SeriesDelta.RevisedMeans` | live-grid/app/ta/payload.py:277-287 | The start is the previous last row exactly if there was one and all its frame's dates still stand, and the first row otherwise. |
| `SeriesDelta.TailMovedMeans` | live-grid/app/ta/payload.py:277-287 | What is assumed of a push answered with a delta: if the old dates stand, no row but the last has changed. |
| `SeriesDelta.DeltaExact` | live-grid/app/ta/payload.py:277-304 | For causal undisplaced columns the delta carries the whole truth when only the tail moved. |
| `SeriesDelta.SessionPrefix` | live-grid/app/ta/session.py:153-185 | Rows from a session's first row on never change the sessions before it. |
| `SeriesDelta.ByDayBefore` | live-grid/app/ta/sources.py:82-118 | A business-day value before that row depends on the rows before it alone: closed sessions do not move. |
| `SeriesDelta.StartOpens` | live-grid/app/ta/payload.py:290-304 | Where a widened delta starts a session starts, in the old frame and in the new. |
| `SeriesDelta.DayDeltaExact` | live-grid/app/ta/payload.py:290-304 | With business-day windows the widened delta carries the whole truth when the previous last row is in the running session, or began its own. |
| `SeriesDelta.SessionBar` | live-grid/app/ta/session.py:153-185 | A session's row opens with its first bar, closes with its last, whose date and average it has, and holds their highest, lowest and summed volume, over exactly its own stretch of bars. |
| `SeriesDelta.OwnSession` | live-grid/app/ta/sources.py:82-118 | The backward join by session finds each bar's own session, whose close is that of its last bar. |
| `SeriesDelta.ByDayClose` | live-grid/app/ta/sources.py:82-118 | So the shortest business-day window reads its session's close. |
| `SeriesDelta.CloseDeltaIff` | live-grid/app/ta/payload.py:290-304 | For the sessions' closes the delta is the whole truth if and only if the previous last row is in the running session, or began its own, or its session closed at the value last sent. |
| `SeriesDelta.RolloverMisses` | live-grid/app/ta/payload.py:290-304 | Two frames for which it is not: the session went on to another close before the next one began. |
| `SeriesDelta.RolledOverSame` | live-grid/app/ta/payload.py:290-304 | At a roll-over the points before the previous last row stay if and only if the session closed at the value last sent. |
| `SeriesDelta.DisplacedMoves` | live-grid/app/ta/panes.py:127-168 | A displaced series for which a new bar moves a plot time already sent, so the merge is not the full push. |
| `SeriesDelta.ShiftMeans` | live-grid/app/ta/panes.py:127-168 | A displaced value stands at the time of the bar it is moved to, or past the ends at as many of the smallest steps from the last, or first, time known; nowhere if none is known or none steps up. |
| `SeriesDelta.DisplacedIff` | live-grid/app/ta/panes.py:127-168 | For causal series, displaced or not, the delta carries the whole truth if and only if no plot time already sent has moved, which the two lists of dates alone decide. |
| `SeriesDelta.SarColumnCausal` | live-grid/app/ta/iterative.py:21-57 | Parabolic SAR as a chart column is causal: proved, not assumed. |
| `SeriesDelta.StopColumnCausal` | live-grid/app/ta/iterative.py:60-111 | So is Supertrend, its true range included. |
| `SeriesDelta.StopsDeltaExact` | live-grid/app/ta/payload.py:290-304 | So a chart of the two, one over sessions, gets the whole truth from deltas. |
| `SeriesDelta.ClientExact` | live-grid/app/main.py:563-626 | However many deltas follow the first push, the client holds what a full push would send; sessions have to be in order, and the tail in the running one, only if some pane has a business-day window. |
| `SeriesDelta.SeriesOf` | live-grid/app/ta/series_payload.py:46-98 | The loop over a pane's series makes one plot of each, in order, with every time and value in place. |
| `SeriesDelta.CloseCausal` | live-grid/app/ta/session.py:153-185 | The close as a column is causal. |
| `Columns.DigitsInjective` | live-grid/app/ta/registry.py:218-225 | Different numbers are written differently. |
| `Columns.FirstCut` | live-grid/app/ta/exprs.py:57-59 | Text is cut in one way at the first separator. |
| `Columns.KeyInjective` | live-grid/app/ta/exprs.py:49-59 | Different sub-series have different keys. |
| `Columns.PartInjective` | live-grid/app/ta/registry.py:218-222 | A parameter's name, value and unit can be told from its text, a written-out fraction wearing a unit included. |
| `Columns.JoinInjective` | live-grid/app/ta/registry.py:218-225 | The list of parts can be told from the joined text. |
| `Columns.SuffixInjective` | live-grid/app/ta/registry.py:202-225 | A request's suffix tells its parameters, their units and its explicit source. |
| `Columns.ColumnInjective` | live-grid/app/ta/registry.py:202-225 | A column name tells the output and the request behind it. |
| `Columns.BareColumn` | live-grid/app/ta/registry.py:202-225 | A request without parameters or source keeps the output's own name, and no other does. |
| `Columns.ColumnNotKey` | live-grid/app/ta/registry.py:202-225 | No output column is a sub-series key. |
| `Compute.CollectBases` | live-grid/app/ta/compute.py:23-29 | Fails exactly for an unknown name; otherwise the map has each sub-series of some request under its key. |
| `Compute.CollectDeps` | live-grid/app/ta/compute.py:23-29 | One request's sub-series join those collected before. |
| `Compute.CollectExprs` | live-grid/app/ta/compute.py:81-95 | The expressions of the requests that are not session-shaped, each under its request's column. |
| `Compute.RunLate` | live-grid/app/ta/compute.py:97-118 | The late indicators run one after another, each on the frame the ones before left. |
| `Compute.Run` | live-grid/app/ta/compute.py:70-126 | The loops compute the frame of the specification, or fail exactly for an unknown name. |
| `Compute.EvalAgree` | live-grid/app/ta/compute.py:70-120 | An expression's value depends on the columns it reads alone. |
| `Compute.InlineMeans` | live-grid/app/ta/exprs.py:49-80 | Reading a shared column is evaluating its sub-series in place. |
| `Compute.BasesMeans` | live-grid/app/ta/compute.py:23-29 | Among any other requests a request's sub-series are there, under their keys, unchanged. |
| `Compute.SharedAgrees` | live-grid/app/ta/compute.py:70-120 | In the shared frame a request finds the columns it would find alone. |
| `Compute.SameColumn` | live-grid/app/ta/registry.py:202-225 | Two requests that put out one column are one request to the engine. |
| `Compute.ExprsExact` | live-grid/app/ta/compute.py:81-95 | The expression filed under a request's output column is that output's, whoever else asked. |
| `Compute.VectorExact` | live-grid/app/ta/compute.py:70-120 | Read in the shared frame it means what it means alone with its sub-series written out. |
| `Compute.LateMeans` | live-grid/app/ta/compute.py:97-118 | However many late indicators have run, each has its columns with the values it has alone, and nothing that was there has changed. |
| `Compute.LateIsNew` | live-grid/app/ta/compute.py:97-118 | No late column is there before the late indicators run. |
| `Compute.LateExact` | live-grid/app/ta/compute.py:97-118 | A late column in the final frame has the value its indicator gives alone. |
| `Compute.NonInterference` | live-grid/app/ta/compute.py:70-126 | Whatever else is asked, in whatever order and how often, each request's column is there and means what that request means on its own. |
| `Compute.MeansOne` | live-grid/app/ta/compute.py:70-126 | A request means one series. |
| `Compute.TogetherAsAlone` | live-grid/app/ta/compute.py:123-126 | So a request asked among others gives what it gives asked alone. |
| `Catalogue.MakesOwn` | live-grid/app/ta/registry.py:132-146 | Each output name belongs to one indicator. |
| `Catalogue.RegisteredMeans` | live-grid/app/ta/registry.py:292-309 | What a request's parameters do: the length is its period, the width of the bands its k, the anchor its anchor; no other name is known to this part. |
| `Catalogue.BookOwned` | live-grid/app/ta/registry.py:132-146 | So the registered part of the catalogue has no two indicators with a common output. |
| `Catalogue.GoodSma` | live-grid/app/ta/registry.py:292-309 | The simple average reads only raw columns and the sub-series it declares, under an output name fit for a column. |
| `Catalogue.GoodBbands` | live-grid/app/ta/registry.py:373-407 | The same of the Bollinger bands and their two sub-series. |
| `Catalogue.GoodAtr` | live-grid/app/ta/registry.py:411-433 | The same of the average true range. |
| `Catalogue.GoodVwap` | live-grid/app/ta/registry.py:596-614 | The same of the cumulative average price. |
| `Catalogue.GoodAvwap` | live-grid/app/ta/registry.py:627-666 | The same of the anchored one, with an anchor or without. |
| `Catalogue.GoodPctB` | live-grid/app/ta/registry.py:959-983 | The same of the position within the bands, on the bands' own sub-series. |
| `Catalogue.GoodSar` | live-grid/app/ta/registry.py:1009-1031 | Parabolic SAR reads raw columns alone and puts out what it says. |
| `Catalogue.GoodSupertrend` | live-grid/app/ta/registry.py:1033-1056 | So does Supertrend. |
| `Catalogue.Unclobbered` | live-grid/app/ta/compute.py:81-118 | No expression's output lands on a column a loop reads. |
| `Catalogue.BookNonInterference` | live-grid/app/ta/compute.py:123-126 | So requests from this part of the registry, any number in any order, do not interfere. |
| `Rollup.SlotOfSlot` | tick-lab/tick_lab/rollup.py:90-93 | A bucket of a coarser width is made of whole buckets of a finer one. |
| `Rollup.SlotGrows` | tick-lab/tick_lab/rollup.py:90-93 | Later stamps never fall into an earlier bucket. |
| `Rollup.SlotsAscend` | tick-lab/tick_lab/rollup.py:90-93 | Buckets come out ascending, and the last is that of the last bar. |
| `Rollup.GroupSound` | openbb-deltalake/openbb_deltalake/models/historical.py:88-161 | No bucket has negative volume, and one without volume has no turnover, so its missing average loses nothing. |
| `Rollup.RolledSnoc` | tick-lab/tick_lab/rollup.py:90-93 | One more bar touches the last bucket alone. |
| `Rollup.MergeAssoc` | tick-lab/tick_lab/rollup.py:90-93 | Merging bars, average price included, is associative where volumes are not negative. |
| `Rollup.RollOfRoll` | tick-lab/tick_lab/rollup.py:90-136 | Rolling to a fine width and that to any multiple of it is rolling straight to the multiple, in every column, zero-volume buckets included. |
| `Rollup.MinutesThenInterval` | tick-lab/tick_lab/rollup.py:55-136 | Trades to minutes and those to any supported intraday interval is the trades of the session straight to it. |
| `Rollup.TradeBarMeans` | openbb-deltalake/openbb_deltalake/models/historical.py:88-161 | A bar's prices are the first, largest, smallest and last of its trades, its volume their size, its average price their total paid over their total size, none where nothing was traded; its trades are those from its stamp on, for its width. |
| `Rollup.TradesCovered` | tick-lab/tick_lab/rollup.py:55-93 | The bars of a session's trades: stamps are multiples of the width and strictly ascend, each bar says what the trades from its stamp on, for its width, have to say, and each trade of the session lies in exactly one. |
| `Rollup.SlotMeans` | tick-lab/tick_lab/rollup.py:90-93 | A bucket is the stretch of its width, from a multiple of it, that the stamp lies in. |
| `Rollup.Intervals` | tick-lab/tick_lab/rollup.py:55-136 | That is so of the minute bars, sixty seconds wide, and of what they roll up to at five, fifteen, thirty minutes and the hour; an unknown session or interval is refused. |
| `Rollup.OneTelling` | tick-lab/tick_lab/rollup.py:90-136 | What a bar has to say determines it, in every column. |
| `Rollup.Conserved` | openbb-deltalake/openbb_deltalake/models/historical.py:88-161 | Rolling neither loses nor makes volume or turnover. |
| `Rollup.KeptFrom` | tick-lab/tick_lab/rollup.py:70-78 | The trades kept are exactly those of the session asked for. |
| `Rollup.KeptGood` | tick-lab/tick_lab/rollup.py:70-78 | Keeping only a session's trades leaves them in time order with sizes not negative. |
| `Tail.TrailingPaths` | openbb-deltalake/openbb_deltalake/describe.py:81-101 | The files taken are the shortest non-empty prefix, newest bounds first, that has enough rows, or all; none if the log has no bounds. |
| `Tail.TakenFirst` | openbb-deltalake/openbb_deltalake/describe.py:91-101 | That prefix is determined: the first to have enough rows. |
| `Tail.ReadTrailing` | openbb-deltalake/openbb_deltalake/store.py:223-256 | The rows returned are the last ones of the files chosen, or of the whole table where none is. |
| `Tail.SortedMeans` | openbb-deltalake/openbb_deltalake/store.py:149-200 | Reading sorts by date and keeps the rows. |
| `Tail.OrderUnique` | openbb-deltalake/openbb_deltalake/store.py:149-200 | Rows of distinct dates have one order, so only which rows are read matters. |
| `Tail.PartTail` | openbb-deltalake/openbb_deltalake/store.py:223-256 | Reading part of the rows gives the tail of all if and only if the part has enough rows newer than the newest left out. |
| `Tail.TailIff` | openbb-deltalake/openbb_deltalake/store.py:223-256 | The bounded read is the whole table's tail if and only if no row is left out, or the files chosen have enough rows newer than every row left out, files without bounds included. |
| `Tail.TailMeans` | openbb-deltalake/openbb_deltalake/store.py:223-256 | The read of a whole table is its newest rows, as many as asked or all there are, in ascending order. |
| `Tail.OneTail` | openbb-deltalake/openbb_deltalake/store.py:223-256 | That determines the answer. |
| `Tail.HeldMeans` | openbb-deltalake/openbb_deltalake/store.py:223-256 | Enough newer rows means just that: as many rows newer than every row left out as were asked for. |
| `Tail.NewestFirstMeans` | openbb-deltalake/openbb_deltalake/describe.py:81-101 | The files are taken newest first: one with bounds before none whose rows go on later, and after none without. |
| `Tail.HeldBounded` | openbb-deltalake/openbb_deltalake/describe.py:81-101 | Where the log bounds every file with rows, the first file left out tells. |
| `Tail.UnboundedMisses` | openbb-deltalake/openbb_deltalake/describe.py:81-101 | A file without bounds is sorted last, here with the newest row: the read misses it. |
| `Tail.DisjointTail` | openbb-deltalake/openbb_deltalake/store.py:223-256 | For any number of files whose date ranges do not overlap it is. |
| `Tail.OverlapMisses` | openbb-deltalake/openbb_deltalake/store.py:223-256 | Two overlapping files for which it is not. |
| `Tail.AppendKeepsDisjoint` | openbb-deltalake/openbb_deltalake/store.py:131-146 | Appending rows newer than all there are keeps the files apart. |
| `Tail.DeltaStore.Write` | openbb-deltalake/openbb_deltalake/store.py:109-129 | A write replaces the table by one file; other tables stay. |
| `Tail.DeltaStore.Append` | openbb-deltalake/openbb_deltalake/store.py:131-146 | An append adds a file to what is there; other tables stay. |
| `Tail.DeltaStore.Delete` | openbb-deltalake/openbb_deltalake/store.py:265-272 | The table is gone; other tables stay. |
| `Tail.DeltaStore.Tail` | openbb-deltalake/openbb_deltalake/store.py:223-256 | Absent exactly for an unknown table; the answer is the table's newest rows, as many as asked or all there are, in ascending order, if and only if no file's bounds are in the log, or no row is left out, or the files chosen have as many rows newer than every row left out; always, where the log has the bounds of every file with rows and of any two files one is the older. |
| `Credfile.SplitJoin` | key-maint/app/credfile.py:136-143 | Lines written out read back as they were. |
| `Credfile.SplitMeans` | key-maint/app/credfile.py:19-36 | The lines are the text cut at its line ends with nothing lost, a carriage return with its newline being one end; an end at the very end starts no line. |
| `Credfile.ParseMeans` | key-maint/app/credfile.py:16-36 | A line is nothing if blank or a comment, an assignment exactly if it is a name, an equals sign and the rest, and malformed otherwise. |
| `Credfile.NameMeans` | key-maint/app/credfile.py:16-16 | A name is letters, digits and underscores, no digit first. |
| `Credfile.WarningsMean` | key-maint/app/credfile.py:60-74 | The warnings are the numbers of exactly the malformed lines, in order. |
| `Credfile.SplitOne` | key-maint/app/credfile.py:19-36 | A line without a break is read whole. |
| `Credfile.WrittenReads` | key-maint/app/credfile.py:123-133 | The line written for a name is an assignment to it, of the value as the reader reads values. |
| `Credfile.ReadValueIff` | key-maint/app/credfile.py:19-36 | A value reads back as it is if and only if it has no outer white space and no inline comment mark, one at its very start excepted. |
| `Credfile.ReadOver` | key-maint/app/credfile.py:19-36 | What a variable held before does not matter once the lines assign it. |
| `Credfile.SetReads` | key-maint/app/credfile.py:77-143 | After setting, the file says what it said with that variable as its value reads back, if it was assigned at most once; otherwise a later assignment still wins. |
| `Credfile.SetIff` | key-maint/app/credfile.py:77-143 | Setting changes the one variable to the value and nothing else if and only if it was assigned at most once and the value round-trips, or it was assigned more than once and already had the value. |
| `Credfile.SetLost` | key-maint/app/credfile.py:77-143 | A file assigning a variable twice: whatever it is set to, the file goes on saying the second value. |
| `Credfile.SetWarnings` | key-maint/app/credfile.py:47-143 | The malformed lines are the same before and after, with the same numbers. |
| `Credfile.SetKeepsLines` | key-maint/app/credfile.py:116-143 | Comments, blank lines and other entries stay in place; a line is added exactly if the variable was not assigned. |
| `Credfile.SetTwice` | key-maint/app/credfile.py:77-143 | Setting the same twice is setting it once. |
| `Credfile.SetFile` | key-maint/app/credfile.py:77-143 | Over a whole file, present before or not: the old map with the one variable changed, and the same warnings. |
| `Credfile.OneLine` | key-maint/app/credfile.py:113-114 | A value is refused exactly if it would not stay on one line. |
| `Credfile.CredentialsFile.Load` | key-maint/app/credfile.py:39-44 | The map of the file's lines, none exactly if there is no file. |
| `Credfile.CredentialsFile.LoadWithWarnings` | key-maint/app/credfile.py:47-74 | The same map, with the numbers of exactly the malformed lines. |
| `Credfile.CredentialsFile.SetValue` | key-maint/app/credfile.py:77-143 | A value with a line break is refused and the file stays; otherwise the file's lines are those of the specification. |
| `Credfile.CredentialsFile.SetIn` | key-maint/app/credfile.py:123-133 | The line loop replaces the first assignment and keeps the others, or adds one at the end. |
| `Readings.SmaMeans` | live-grid/app/ta/registry.py:292-309 | With the engine's primitives doing arithmetic on columns with gaps, the simple average times its length is the sum of the last prices. |
| `Readings.BandsMean` | live-grid/app/ta/registry.py:373-389 | The middle band is the mean of the last prices, the upper that plus k population deviations, the lower that minus as many. |
| `Readings.PctMeans` | live-grid/app/ta/registry.py:959-983 | The position within the bands: the price less the lower band, by the distance of the bands, wherever they are apart. |
| `Readings.AtrIs` | live-grid/app/ta/registry.py:411-433 | The registry's average true range of a frame is Wilder's average, as the loop has it, of the bars' true ranges. |
| `Readings.VwapMeans` | live-grid/app/ta/registry.py:596-614 | The cumulative average: what the bars so far traded for at a third of high, low and close, by the shares traded. |
| `Readings.AvwapMeans` | live-grid/app/ta/registry.py:627-645 | The anchored one is shown exactly on the bars that carry trades from the anchor on, and is what those so far were paid by the shares they traded. |
| `Readings.HighestMeans` | live-grid/app/ta/exprs.py:61-80 | The rolling highest and lowest are attained in the window and bound it. |
| `Readings.EwmMeans` | live-grid/app/ta/exprs.py:61-80 | The exponential average starts with the first value and then moves two over one more than the span of the way to each. |

## Left out

- Cache.ReadThroughCache.Run: promises no rows of a request whose own entry was evicted to make room (q was over budget and nothing is left; the code answers empty), and of a key whose last drop stopped after its first statement only that forming bars are fresh; `DropKeepsPromise` says exactly when such a key is wrong. Its requests come one after another; for different keys at once see `Interleaving`.
- Cache.ReadThroughCache.Get: takes bar widths that divide a day, and daily requests on the day grid; weeks, months and widths that do not divide a day have boundaries on no grid. A failure inside frame conversion, a further way to the bypass, is not modelled.
- Cache.ReadThroughCache.Pass: returns rows as a map from stamp to bar, so the order of rows in the answer is not modelled; the comparable column of the rewritten-history check is always the close.
- Cache.DedupeMeans: does not say which of several rows for one stamp is kept, because the sort is not stable.
- KdbStore.Store.Respawn: happens between calls. Deaths of q between the provider calls of a pass are steps of `Interleaving`, and one between the write and the recording of a gap is `RespawnBeforeRecord`; one between the other statements of a single storing or serving is not modelled.
- Interleaving.RunKeeps: has one pass a key at a time, as the lock gives; passes for one key on several event loops, which do not share that lock, are not modelled. Whether a comparison sets off the drop is left open there, and the rows a bypass serves are told by `Cache` alone.
- Feeds.RunKeeps: whether a feed is expected to tick at this hour, and whether a start succeeds, are left to the environment; the tick recorder's flush and prune are not modelled.
- Leases.LeaseFed: which feed carries a symbol is a parameter; symbol classification is not modelled.
- Calendar.FetchWindowed: rows have a date; a row without one, the country and comparison filters and a server whose data change between pages are not modelled.
- Calendar.AnswerMeans: says nothing of completeness beyond the request budget, where the code itself only warns.
- SpanFetch.Fetcher.FetchSpan: sees one data request as its outcome class; HTTP retries and waits, and the wording of the control requests, are not modelled.
- SpanFetch.RequestBound: counts data requests, not the control requests that may follow one.
- WeekLoader.Progress.LoadWeek: the order of symbols to load is any order, since loads complete in any order; the writing and verification of tick files is part of the load's outcome.
- SeriesDelta.CloseDeltaIff: states the exact condition for the shortest business-day window, the session's close; longer windows have the sufficient condition of `DayDeltaExact`.
- SeriesDelta.ClientExact: leaves out pushes the socket sends in full for other reasons (repainting indicators, errors, changed marks), which need no merge, and vendor-sourced series.
- Compute.NonInterference: takes a session indicator as a function that reads the columns it names, rather than modelling the session aggregation inside it.
- Catalogue.BookNonInterference: covers eight indicators of the registry; the others have the same shape and would add easy members.
- Rollup.MinutesThenInterval: covers the intraday intervals; the one-day interval, bucketed by Eastern calendar days, needs time zones.
- Tail.DeltaStore.Tail: does not model reading an earlier version of a table, metadata or rows without a date.
- Credfile.CredentialsFile.SetValue: does not model file modes, a crash in the middle of the write or letters beyond ASCII in names.
- Columns.ColumnInjective: concerns parameters as the request grammar yields them: no commas, units on numbers only; the parsing of that grammar is not modelled.
- Readings.AvwapMeans: takes a division by zero as no value, as the engine's callers fill it in; the cases in which it would be infinite are outside what `PctMeans` and `VwapMeans` say.
- Floating point: prices and sums are exact reals and missing values an option, so rounding and NaN are not modelled.
- q, PyKX, pandas, polars, delta-rs and pyarrow internals: each call is its effect.
- Locks and threads: the cache has one pass per key at a time, and the feed manager is one event loop.
- Time zones and daylight saving: the session of a stamp is a given function, monotone where a law needs it.
- Web routes, widgets, charts, quotes, the tick recorder, the daily pass's own fetching and table vacuuming: input and output around the modelled core.
- Ichimoku's displaced lines, repainting indicators, annotations and marks: outside the delta laws.
