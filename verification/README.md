# A verified model of the scanner server's core

The server receives recorded radio calls, stores them, and shows them to listeners. This project
models the parts of its Go code where one step's correctness depends on another's, and proves what
they promise over all inputs, all runs and all interleavings.

- **Search** (`CursorSearch`, `ProbeBounds`, `SingleFlight`). A page examines a bounded stretch of
  calls and says where to go on; the walk as a whole is the unbounded query. The date range of a
  search is taken from a few index seeks when its filters reduce to talkgroups, and that shortcut is
  the scan. The cache in front of it computes each key once at a time however callers interleave.
- **Patches** (`Patching`, `Ingest`, `PatchHistory`, `Listeners`). One transmission arrives once per
  member talkgroup and becomes one call, filed on the most important talkgroup that really received
  it. Arrival order does not matter, no receipt is lost, and the displays that were sent the call
  end up showing what is stored.
- **Plugins** (`PluginChain`, `FanOut`, `PluginRegistry`, `SqlRewrite`). Handlers may fail, stay
  silent, change fields or veto; the chain's result, the time one call may cost, the registry, and
  the mapping of table names inside a plugin's SQL.
- **Data that moves** (`ResumableImport`, `TranscriptMigration`). Copying calls between databases
  and moving transcripts out of a legacy column, abandoned after any statement and started again.
- **Time** (`HeldCalls`, `LogThrottle`). Calls held back across restarts, and a rate limiter that
  forgets.

`OrderBy`, `CallTable` and `Collections` hold what the rest shares: `order by`, a table of calls by
id, and a few notions about lists and maps.

The database is a map of rows and a SQL query a set or an ordered listing of them; times are
integers (milliseconds where a unit matters); a goroutine's critical section or statement is one
atomic step. A plugin handler is an arbitrary function. Code that changes fields or loops is a
class or a method with a loop, proved equal to a function of the state before it; the theorems are
about that function.

## What the proofs found

- *An empty systems list* makes the search clause match nothing but does not narrow the pairs of the
  fast date probe (server/call.go:975-988, 1190-1203). `ProbePairsExact` shows this is the only way
  the two can differ; `EmptySystemsListIsIgnored` is the smallest such request.
- *A misread column.* If the legacy transcript column is there but is reported gone, and the boot
  then ends with the copy in the ledger and the drop not in it, a later boot drops the column with
  transcripts still in it. `MisreadColumn` says exactly when, `MisreadThenDeathLosesATranscript` shows
  it. The comments at server/migration_transcripts.go:117-125 and 171-177 treat "the table reads fine,
  the column does not" as proof of absence; a first query that fails transiently and a probe that
  does not are indistinguishable from it.
- *A blank plugin row* for a call whose text is still in the legacy column: the copy skips the row
  (server/migration_transcripts.go:339-380), the verification compares only counts, and the drop takes
  the text. `RiskIsExact` and `FreshMigrationIsSafeExactly` give the condition in both directions, for
  each of three readings of a kept text, `BlankRowLosesATranscript` the smallest input.
- *A verification that fails* is final as far as restarting goes, though the comment at
  server/migration_transcripts.go:225-226 says the next start retries: the copy is already in the
  ledger and is not run again. `FailedVerifyIsFinal` is the exact condition, `BlankRowStopsTheMigration`
  one input.
- *A held call that is promoted* may lose its moment over a restart: re-arming computes the hold again,
  from the talkgroup the call has moved to (server/delayer.go:166-176). The comment above `Start`
  speaks only of calls whose moment has passed and the rest being re-armed.
  `PromotionMovesTheMoment` gives the condition in both directions, `PromotedCallLeavesEarly` an example.
- *Overlapping patches*, which the source calls a misconfiguration (server/patch.go:207-211), can let a
  call move to a home its own patch ranks lower (`OverlapCanLowerARank`). Overlap alone does no harm:
  `RanksNeverFallExactly` is the condition in both directions.
- *A resumed import* is refused when the target's time column does not keep the last copied time to
  the digit: live sources stamp calls with fractions of a second (server/dirwatch.go:180,
  server/plugin_bus.go:190), and the comparison is of exact instants (server/dbimport.go:492).
  `OwnCopyIsResumed` says exactly when, `SubSecondCallIsRefused` is one input.
- *The throttle's key cap* (server/log_throttle.go:22-25) does not bound the map against a flood of
  distinct keys (`FloodIsKept`); `CapHoldsExactly` says on which traces it holds. Its budget is per
  fixed window, so an interval one window long may hold up to one less than twice the limit
  (`FewerThanTwiceTheLimit`, `TheBoundIsReached`).
- *A talkgroup without a delay* takes its system's, not the immediate emit the comment at
  server/delayer.go:25-27 reads (`NoDelayExactly`); the model follows the code.
- *Rewriting SQL twice* is rewriting it once exactly when no declared table's prefixed name is itself
  declared (`RewriteIsIdempotent`).

## Model

| member | source | states |
|---|---|---|
| OrderBy.Sorted | server/call.go:1226-1241 | an ordered listing holds every row of the set exactly once, keys strictly rising |
| OrderBy.AscendingUnique | server/call.go:1226-1241 | with the id tiebreak the order by admits only one listing of given rows |
| CursorSearch.SearchPage | server/call.go:1565-1575 | the scan that stops at a full page, a spent budget or the end of the data returns the page the two nested selects define, and reports the budget's edge exactly on a short page with a full window |
| CursorSearch.ScanWindow | server/call.go:1550-1563 | stopping the inner scan at a full page returns the same rows as filtering the whole window and cutting it |
| CursorSearch.PastIsBelow | server/call.go:1322-1338 | the written-out cursor comparison is the strict (dateTime, id) order of the listing, both directions of sort |
| CursorSearch.WindowHolds | server/call.go:1565-1571 | the window of one request is exactly the candidates past the cursor and not past the budget's edge |
| CursorSearch.KeptHolds | server/call.go:1565-1571 | the window's survivors, in order, are exactly its rows that match the whole query |
| CursorSearch.FullPageIsAnInterval | server/call.go:1617-1629 | a full page is exactly the matching rows between its cursor and its own last row |
| CursorSearch.PageIsAnInterval | server/call.go:1548-1654 | any page holds exactly the flat query's rows between the cursor it was given and the one its client goes on from, NextAfter first, and that one is a row strictly further on |
| CursorSearch.PageReportsItsScan | server/call.go:1548-1654 | a page by itself: no more rows than the limit, none from past the budget, NextAfter exactly when it is short with candidates enough to fill the window, standing at the budget's last candidate with every match up to it on the page |
| CursorSearch.WalkNeverRepeats | server/call.go:1226-1241 | with any changes between requests, a walk's rows rise strictly in (dateTime, id), lie past its start, and each matched when it was returned, so no position is returned twice |
| CursorSearch.WalkNeverRepeatsACall | server/call.go:1617-1629 | with any inserts, deletes and other updates, and call times that stand, no call is returned twice in a walk |
| CursorSearch.WalkIsInTimeOrder | server/call.go:1226-1241 | a walk reads from the earliest call to the latest, ties by id, or the other way round when so sorted |
| CursorSearch.WalkSkipsNothing | server/call.go:1617-1629 | a walk that ends has returned every row that was present and matching throughout it |
| CursorSearch.WalkEnumeratesFlatQuery | server/call.go:1548-1654 | on a table that stands still the walk ends within one request per candidate and one more, and its pages together are the flat query, for every limit, budget, filter and direction |
| ProbeBounds.AddTalkgroups | server/call.go:1364-1372 | merging a list in adds exactly its talkgroups and never a repeat |
| ProbeBounds.AddScope | server/call.go:1358-1373 | one named scope's talkgroups are added system by system, whatever order the map is walked in |
| ProbeBounds.MergeScopes | server/call.go:1352-1382 | the merged map and the system ids depend only on the set of names and what they resolve to |
| ProbeBounds.MergedAdmits | server/call.go:1352-1402 | a pair is in the merged scope exactly when some named scope has it |
| ProbeBounds.GroupPairs | server/call.go:995-1007 | the loop groups the requested pairs by system |
| ProbeBounds.BySystem | server/call.go:995-1007 | the grouped form admits exactly the requested pairs |
| ProbeBounds.IntersectPair | server/call.go:863-877 | one more constraint keeps exactly the talkgroups it allows, whatever order systems are visited in |
| ProbeBounds.IntersectScopes | server/call.go:852-882 | the loop over all constraints |
| ProbeBounds.IntersectAdmits | server/call.go:850-882 | the intersection admits a pair exactly when every constraint does |
| ProbeBounds.Flatten | server/call.go:1205-1218 | the flat list holds exactly the pairs of the map, for the systems listed |
| ProbeBounds.FlattenPairs | server/call.go:1205-1218 | the nested loop produces that list |
| ProbeBounds.CollectPairSets | server/call.go:994-1053 | the constraints gathered from the five pair filters |
| ProbeBounds.BuildProbePairs | server/call.go:1190-1223 | the fast form is taken exactly when every filter is a set of pairs and between one and two hundred pairs are left |
| ProbeBounds.AllSetsAdmit | server/call.go:994-1053 | a pair survives all pair filters exactly when each filter asks for it |
| ProbeBounds.NotEmpty | server/call.go:1010-1037 | a singular group or tag that resolves to nothing adds no clause, but then the fast form is not taken either |
| ProbeBounds.ProbePairsExact | server/call.go:1190-1223 | the fast form's pairs are the rows the clause admits if and only if the systems filter is not an empty list |
| ProbeBounds.EmptySystemsListIsIgnored | server/call.go:975-988 | a concrete request whose clause admits nothing and whose fast form offers a pair |
| ProbeBounds.FastFormIsTaken | server/call.go:1190-1223 | the fast form is taken only where nothing but pairs is asked for and one to two hundred are wanted, and always then if the first filter repeats no pair |
| ProbeBounds.FastProbe | server/call.go:1457-1468 | the extreme over one seek per pair is the extreme over all rows of those pairs |
| ProbeBounds.ExtremeOfArms | server/call.go:1467-1468 | the extreme of a set of per-pair extremes that covers all times is the extreme of all times |
| ProbeBounds.FastProbeIsTheScan | server/call.go:1450-1482 | either bound of the fast form is the first or last dateTime of the scan, on every table |
| SingleFlight.Calls.EnterFlight | server/call.go:281-306 | a caller gets the fresh entry, joins the running flight, or registers its own, and nothing else changes |
| SingleFlight.Calls.LeaveFlight | server/call.go:310-321 | the key's flight is forgotten, and only an answer without error is stored |
| SingleFlight.Calls.PutSearchMeta | server/call.go:336-346 | the entry is stored, after the cache was emptied if it had outgrown its ceiling |
| SingleFlight.StepKeepsExplained | server/call.go:308-324 | no step unmakes the computation or warm-up that explains an entry |
| SingleFlight.StepKeepsMover | server/call.go:281-324 | the caller that moves is left in a consistent position, on a flight for the key it asked for |
| SingleFlight.StepKeepsBystander | server/call.go:281-324 | no caller's position is disturbed by another's step |
| SingleFlight.StepKeepsFlight | server/call.go:308-323 | a flight that is open is led by a caller still working on it; a closed one has its answer |
| SingleFlight.StepKeepsInFlight | server/call.go:290-312 | a key in flight names an open flight for that key |
| SingleFlight.StepKeepsCache | server/call.go:312-320 | every cached entry is an answer for its key, and there are at most 257 |
| SingleFlight.StepKeepsInvariant | server/call.go:281-324 | every step of every caller keeps all of these together |
| SingleFlight.RunKeepsInvariant | server/call.go:281-324 | so does every run |
| SingleFlight.CallersAreServed | server/call.go:281-324 | whoever arrived is on, or back from, the flight that was running for its key or the one it started, or came back with the unexpired entry it found; and stays so over every run |
| SingleFlight.StepKeepsService | server/call.go:284-306 | no step moves a caller to another key or flight, and an arrival is served as the cache and the running flights then stand |
| SingleFlight.EveryInterleaving | server/call.go:270-346 | at most one computation per key at a time; every caller holds or awaits what it was due on arrival: the entry then cached and unexpired, else the flight it joined or started; followers hold exactly that flight's answer or error; nobody can join a closed flight; an errored flight stores nothing; at most 257 entries |
| SingleFlight.NobodyIsStuck | server/call.go:294-302 | a caller that has not returned can move, or waits for a flight whose leader can |
| SingleFlight.AnswersAreFinal | server/call.go:308 | a flight's answer, once there, never changes |
| SingleFlight.PutIsThere | server/call.go:312-346 | what a leader computed without error, or a warm-up put, is in the cache under its key, beside every other entry unless the cache had outgrown its ceiling |
| SingleFlight.NothingElseIsPut | server/call.go:312-320 | an error or an empty answer leaves the cache alone |
| SingleFlight.EntryStays | server/call.go:216-225 | an entry stays until the cache is cleared, put over or has to make room |
| SingleFlight.StoredAnswerIsServed | server/call.go:284-320 | so a computed answer is served from the cache, without another computation, to whoever asks before it expires |
| Patching.AddAllMeans | server/controller.go:406-437 | merging keeps what was there in place, adds exactly the new nonzero ids, and never a repeat |
| Patching.AddAllClean | server/controller.go:406-437 | a list without repeats or zeros passes through merging untouched |
| Patching.AddAllInTwo | server/controller.go:406-437 | merging two lists one after the other is merging their concatenation |
| Patching.AddAllOrder | server/controller.go:406-437 | merging lists ids in the order they first come |
| Patching.MergePatches | server/controller.go:406-437 | the two loops of the merge |
| Patching.NormalizeIsCanonical | server/patch.go:123-157 | the canonical form has no repeats or zeros, holds exactly the configured members, and a canonical patch is left as it is |
| Patching.NormalizeKeepsTheOrder | server/patch.go:123-157 | the primary home leads, the secondary follows, the listed members come after in their own order |
| Patching.PatchRecord.NormalizeRecord | server/patch.go:129-157 | the in-place rewrite of the record's fields yields that form |
| Patching.ScanHomeRank | server/patch.go:162-170 | the scan computes the rank |
| Patching.HomeRankMeans | server/patch.go:158-170 | the rank is positive exactly for members, and says how far from the end of the list the member stands |
| Patching.RankIsPosition | server/patch.go:158-170 | the rank is the position in the list, counted from its end |
| Patching.RankIsInjective | server/patch.go:162-170 | two members of equal rank are the same |
| Patching.GetPatch | server/patch.go:207-229 | a patch that is found is usable, of this system and lists the talkgroup; none is found exactly when there is no such patch |
| Patching.FindPatch | server/patch.go:212-229 | the loop over the configured patches finds it |
| Patching.GetPatchIsTheFirst | server/patch.go:174-229 | it is the first patch of the system that is enabled, has a home and two or more members, and lists the talkgroup |
| Ingest.PatchMatchIsNearest | server/call.go:379-527 | the lookup returns a row if and only if it is in the same system, on another member, inside the window and preferred (gap, then time, then id) to all such rows; none exactly when there is none |
| Ingest.ExactBranchAgrees | server/call.go:445-464 | the equality query used at delay zero returns what the general lookup returns at window zero |
| Ingest.GetPatchDuplicate | server/call.go:400-527 | both branches compute the lookup |
| Ingest.NearestInWindow | server/call.go:483-527 | replacing the best only on a strictly smaller gap, over rows in time order, finds the preferred row |
| Ingest.OutcomeMeans | server/controller.go:711-821 | a copy joins exactly when a sibling is stored on another member and no plugin keeps it, is rejected exactly when only a twin on its own talkgroup is and detection is on, and is otherwise stored unless a plugin drops it |
| Ingest.SiblingIsFound | server/call.go:379-527 | the lookup finds a call exactly when an eligible one is stored |
| Ingest.TwinIsFound | server/call.go:358-377 | the duplicate query finds a call exactly when one of the same talkgroup lies between the window's bounds as they are written into the query |
| Ingest.NormalizeReportedPatches | server/controller.go:390-401 | the loop that drops the call's own talkgroup from what was reported |
| Ingest.StoredRowMeans | server/controller.go:703-817 | a stored copy becomes one new row that is the copy's own and touches no other; outside a patch it names exactly the other talkgroups reported, in one exactly those reported and the one it arrived on, in the order they first came |
| Ingest.JoinedRowMeans | server/controller.go:719-741 | a joining copy joins the preferred eligible call and changes nothing else: its talkgroup is added if missing, and the call moves to it exactly when the patch lists it above the present home |
| Ingest.OthersLeaveNoTrace | server/controller.go:711-781 | a rejected or dropped copy leaves the store as it was |
| Ingest.Controller.AddPatch | server/call.go:551-591 | the talkgroup joins the row's received list once; nothing else changes |
| Ingest.Controller.PromoteCall | server/call.go:534-545 | the row is filed on the talkgroup; nothing else changes |
| Ingest.Controller.WriteCall | server/call.go:1730-1800 | one new row under the next id |
| Ingest.Controller.IngestCall | server/controller.go:688-817 | the statement-by-statement stage joins, rejects, drops or stores the copy as the decision function says, and leaves exactly the resulting store |
| Ingest.CleanAgain | server/controller.go:787-797 | canonicalizing a patched call's list a second time changes nothing |
| PatchHistory.StepKeepsReachable | server/controller.go:688-798 | every copy leaves received lists without repeats, and patched calls filed on a talkgroup they name |
| PatchHistory.RunIsReachable | server/controller.go:688-798 | so does every run from an empty store |
| PatchHistory.JoinEvolves | server/controller.go:724-741 | joining a copy only appends to the list, moves the row only within a patch, and where the patches' ranks agree never lowers the rank |
| PatchHistory.StepEvolves | server/controller.go:688-798 | no copy removes a row, changes its time or system, shortens its list, moves it to a talkgroup that shares no patch with its old one, or (where the patches' ranks agree) lowers its rank |
| PatchHistory.RowsEvolve | server/controller.go:688-798 | between any two moments of a run the same, a row having moved along a chain of patches, which is one patch when they do not overlap |
| PatchHistory.NonOverlappingRanksAgree | server/patch.go:207-229 | patches that do not overlap agree on ranks |
| PatchHistory.RanksNeverFallExactly | server/controller.go:733-741 | in no run of a configuration does any call's rank ever fall, if and only if whatever a patch takes up it takes up in the sight of the call's own patch as well |
| PatchHistory.TwoCopies | server/controller.go:719-741 | where they disagree, one copy on each of two talkgroups from an empty store makes the move |
| PatchHistory.OverlapCanLowerARank | server/patch.go:207-229 | with two overlapping patches one copy moves a call from rank three to rank two |
| PatchHistory.NearIsClose | server/call.go:364-370 | a witness is within the larger of patch delay and duplicate timeframe, plus less than what the written bounds may lose |
| PatchHistory.IngestWitnesses | server/controller.go:703-798 | a copy not dropped by a plugin has a witness row at once: same system, within the patch delay or the duplicate window, naming the talkgroup it arrived on |
| PatchHistory.StepKeepsWitness | server/controller.go:724-741 | later copies and promotions never take a witness away |
| PatchHistory.NoReceiptIsLost | server/controller.go:703-798 | so every such copy has a witness at every later moment of every run |
| PatchHistory.EveryHomeWasReceived | server/controller.go:733-741 | a call is only ever filed on a talkgroup that received a copy; every other talkgroup it names received one or was announced by the recorder |
| PatchHistory.HighestMeans | server/patch.go:158-170 | the collapsed call's home is one of the arrivals and outranks all of them |
| PatchHistory.FirstCopyIsStored | server/controller.go:703-798 | the first copy of a transmission becomes a row of its own |
| PatchHistory.OnlyCandidate | server/call.go:400-527 | for a later copy the lookup finds the transmission's own row |
| PatchHistory.LaterCopyJoins | server/controller.go:719-764 | a later copy joins it and promotes it exactly when it ranks higher than all before |
| PatchHistory.TransmissionCollapses | server/controller.go:703-764 | copies of one transmission leave one new row, on the highest-ranked talkgroup received, its list exactly the talkgroups received, at any patch delay |
| PatchHistory.Confluence | server/controller.go:703-764 | two arrival orders agree on the home, the received set and everything else in the store |
| Listeners.Client.Enqueue | server/client.go:71-83 | a message is appended if the client is open and has room; otherwise the buffer is untouched, and a full buffer counts a drop |
| Listeners.StatementsAreIngest | server/controller.go:719-764 | run to completion, the interleaved statements of one ingest are the single-step ingest |
| Listeners.MessageSettles | server/controller.go:225-252 | a message that says what the record says brings the future display of any listener that gets it up to date |
| Listeners.WithheldCall | server/client.go:457-466 | a call not sent to a listener leaves nothing stale behind |
| Listeners.BeginKeeps | server/controller.go:719-764 | accepting a copy keeps displays consistent with the store |
| Listeners.AdvanceKeeps | server/controller.go:725-759 | each statement of ingest does, the correction being read after both writes |
| Listeners.DispatchKeeps | server/controller.go:1271-1294 | handing a message from the shared queue to the listeners does, whosever queue is full |
| Listeners.DispatchKeepsListener | server/client.go:71-83 | for one listener, whether the message is meant for it or not and fits its queue or not |
| Listeners.DeliveryLosesNothing | server/client.go:71-83 | a call meant for a listener with room is on its way to the display, and none that was is lost |
| Listeners.ReceiveKeeps | server/client.go:505-539 | a display applying a message does, ignoring corrections to calls it does not have |
| Listeners.ReceiveKeepsListener | server/client.go:505-539 | taking a message changes no future display and makes nothing heard of that was not |
| Listeners.TakingLosesNothing | server/client.go:505-539 | taking a message, a correction included, takes no call a listener was sent away from it |
| Listeners.ConnectionsKeep | server/client.go:413-420 | connecting and disconnecting at any moment do |
| Listeners.StepKeepsInvariant | server/controller.go:220-252 | every step of the protocol does |
| Listeners.RunKeepsInvariant | server/controller.go:220-252 | and every run |
| Listeners.DisplaysConverge | server/controller.go:225-252 | if the emit queue and this listener's own queue never overflowed, then once ingest rests and both have drained, its display has every call the dispatcher handed it while connected, and each call there shows the stored talkgroup and received list, however far behind others are |
| Listeners.DisplaysConvergeWithRoom | server/controller.go:220-252 | the same for any run in which each of the two queues had room at every event, with every stored call and no other taken off the emit queue, once |
| Listeners.HandedIsSent | server/client.go:488-497 | a call handed to a connected listener stays to its account while it is connected |
| Listeners.StepAccounts | server/controller.go:220-232 | each step queues a call exactly when it is stored and takes it off exactly when it is dispatched |
| Listeners.EveryStoredCallGoesOutOnce | server/controller.go:220-232 | unless the emit queue overflowed, every stored call has been taken off it once or is on its way onto it, once, and no other call |
| PluginChain.Budget.Take | server/plugin_budget.go:72-90 | the grant is what was asked for, cut to what is left; nothing left is refused and counted |
| PluginChain.Budget.Spend | server/plugin_budget.go:95-104 | the time really used is charged |
| PluginChain.FilterWithin | server/plugin_dispatch.go:363-429 | the loop returns the chain's result and veto and leaves the budget as the chain does, with or without one |
| PluginChain.ValueSeenIsOriginalPlusChanges | server/plugin_dispatch.go:343-351 | at every point handlers see the original with all changes so far laid over it |
| PluginChain.ChainFolds | server/plugin_dispatch.go:363-429 | without a veto the value at the end is every handler applied in turn |
| PluginChain.ResultIsTheFold | server/plugin_dispatch.go:343-351 | laying only the returned fields over the input gives that same value |
| PluginChain.FailingHandlersDoNotMatter | server/plugin_dispatch.go:352-354 | removing handlers that fail, say nothing or return no map changes neither result nor veto |
| PluginChain.GrantMeans | server/plugin_budget.go:66-90 | a grant is no longer than the handler's timeout nor than what is left, shorter than asked only where less is left, and refused exactly when nothing is |
| PluginChain.OverlayMeans | server/plugin_dispatch.go:431-452 | the later fields win key by key and nothing else moves |
| PluginChain.VetoHasAnAuthor | server/plugin_dispatch.go:363-396 | a chain ends in a veto if and only if one of its handlers was reached and returned a map with drop true, on the value the ones before it had left, in the time that then remained |
| PluginChain.FieldsWereNamed | server/plugin_dispatch.go:398-416 | the changes noted are exactly the fields handlers that were reached named without a veto |
| PluginChain.OnlyNamedFieldsComeBack | server/plugin_dispatch.go:346-351 | an un-vetoed filter hands back what came in, or only fields its handlers named |
| FanOut.EmitCall | server/client.go:468-503 | the loop sends to exactly the candidates no handler vetoed, under one shared budget |
| FanOut.ChainKeepsAllowance | server/plugin_dispatch.go:495-540 | what is left and what was spent always add up, and handlers that stop by the deadline granted never overdraw |
| FanOut.FanOutIsBounded | server/client.go:472-497 | recipients and explicit vetoes add up to the candidates, and total handler time stays within the budget whatever the audience |
| FanOut.ChainTimeIsBounded | server/plugin_dispatch.go:495-517 | whatever the budget, a chain of handlers that stop by their deadline takes no longer than its timeout for each |
| FanOut.FanOutTimeIsBounded | server/client.go:472-497 | nor does a fan-out, for each handler and candidate |
| FanOut.SentUnlessVetoed | server/client.go:488-497 | each distinct candidate is sent the call if and only if its own chain, on what the earlier ones left of the budget, is not vetoed |
| FanOut.WithheldByAHandler | server/client.go:488-497 | so a candidate is not sent the call if and only if some handler, reached on its turn, dropped what it was shown within its grant |
| FanOut.ExhaustionWithholdsNothing | server/plugin_delivery.go:99-101 | once the budget is gone every remaining candidate is sent the call |
| PluginRegistry.PluginDispatch.Register | server/plugin_dispatch.go:153-169 | a new registry object with the handler last at its point; the one readers hold is not touched |
| PluginRegistry.PluginDispatch.Unregister | server/plugin_dispatch.go:171-193 | a new registry without the plugin's handlers and without emptied points |
| PluginRegistry.PluginDispatch.HandlersFor | server/plugin_dispatch.go:195-213 | exactly the point's handlers of one verb, in registration order |
| PluginRegistry.StandingsAfterChange | server/plugin_dispatch.go:153-193 | a removal thins the standing registrations to the other plugins', anything else leaves the earlier ones standing |
| PluginRegistry.RegistryIsItsHistory | server/plugin_dispatch.go:153-193 | after any history a point has exactly the registrations not since removed, in the order they were made |
| PluginRegistry.DistinctRuntimes | server/plugin_dispatch.go:318-338 | the loop collapses a handler list to its runtimes |
| PluginRegistry.RuntimesCover | server/plugin_dispatch.go:310-338 | every handler's runtime is among them, none twice |
| PluginRegistry.NotifyRunsEachObserverOnce | server/plugin_dispatch.go:290-338 | a notification invokes each registered observer exactly once |
| SqlRewrite.PrintLex | server/plugin_db.go:99-194 | printing the tokens of a statement gives the statement back |
| SqlRewrite.LexedIsToken | server/plugin_db.go:105-191 | every token the scan takes looks like one by itself: a literal to its first undoubled quote, a line comment to the end of the line, a block comment through its first closing mark, an identifier to its next backtick, each to the end where that is missing, anything else one character |
| SqlRewrite.TokenIsLexed | server/plugin_db.go:105-191 | and whatever looks like such a token before a rest is the token the scan takes there |
| SqlRewrite.RewritesTokenByToken | server/plugin_db.go:82-96 | so a backticked declared name takes the prefix and everything else stands as it is, token by token |
| SqlRewrite.PluginDb.CopyLiteral | server/plugin_db.go:113-134 | a literal is copied to its closing quote, a doubled quote not closing it, or to the end |
| SqlRewrite.PluginDb.CopyLine | server/plugin_db.go:138-145 | a line comment is copied up to the line's end |
| SqlRewrite.PluginDb.CopyBlock | server/plugin_db.go:149-163 | a block comment is copied through its closing mark or to the end |
| SqlRewrite.PluginDb.FindTick | server/plugin_db.go:167-171 | the next backtick, or the end |
| SqlRewrite.PluginDb.ScanOne | server/plugin_db.go:105-191 | one turn of the scan consumes one token and writes its renamed text |
| SqlRewrite.PluginDb.Rewrite | server/plugin_db.go:99-194 | the one-pass scan is lexing, renaming declared identifiers and printing |
| SqlRewrite.LexLocal | server/plugin_db.go:105-191 | where a token ends depends on what follows only through the next character |
| SqlRewrite.RelexGivesRenamedTokens | server/plugin_db.go:82-96 | the output lexes to the statement's own tokens with only declared names mapped; literals, comments and unterminated tails are what they were |
| SqlRewrite.RewriteIsIdempotent | server/plugin_db.go:82-96 | rewriting twice is rewriting once for every statement if and only if no declared name's prefixed form is declared |
| ResumableImport.Coerced | server/dbimport.go:816-837 | a row is coercible exactly when each of its values is, and then each value is the coerced one |
| ResumableImport.ColumnsAreCoerced | server/dbimport.go:816-837 | column by column: nulls and plain values stay, booleans become the truth of what was stored, times become the instant they read as or spoil the row |
| ResumableImport.TruthyMeans | server/dbimport.go:841-864 | zero, false and the six words that say so, in any case and with space around them, are false, and every other number and text is true |
| ResumableImport.CoerceRow | server/dbimport.go:816-837 | the in-place loop accepts exactly the coercible rows and leaves their coerced values |
| ResumableImport.Target.InsertRow | server/dbimport.go:737-767 | begin, insert and every so many rows commit; a death in between leaves what was committed |
| ResumableImport.Target.CopyCalls | server/dbimport.go:663-797 | the loop, cut off after any number of statements, leaves what the run function says |
| ResumableImport.InsertProgresses | server/dbimport.go:737-767 | committed and open rows together are always the coercible calls seen so far, committed rows those up to some id |
| ResumableImport.CopyRowsKeepsPrefix | server/dbimport.go:722-787 | wherever the copy stops, the target holds the coercible calls up to some id, and all of them if it finished |
| ResumableImport.RunExtendsPrefix | server/dbimport.go:663-797 | one more run over an earlier partial copy extends it, altering and repeating nothing |
| ResumableImport.Runs | server/dbimport.go:680-709 | after any number of runs from an empty target it holds exactly the coercible calls up to its highest id |
| ResumableImport.AnyNumberOfRuns | server/dbimport.go:661-797 | and a run that finishes after them makes it all coercible calls |
| ResumableImport.TargetIsNeverAltered | server/dbimport.go:680-709 | no run alters a row any target already had; where the target's highest call is not one the source holds at the same readable time, it changes nothing |
| ResumableImport.DeathLosesFewerThanABatch | server/dbimport.go:745-787 | a run that dies loses fewer than two hundred of the rows it had inserted, and one that ends loses none |
| ResumableImport.RunLosesFewerThanABatch | server/dbimport.go:663-797 | so for a whole run over whatever the target held |
| ResumableImport.ArrivingTime | server/dbimport.go:451-456 | a copied row carries what the target's column keeps of its original's time |
| ResumableImport.OwnCopyIsResumed | server/dbimport.go:451-493 | a run refuses its own partial copy if and only if the target's column does not keep the time of the last call copied |
| ResumableImport.SubSecondCallIsRefused | server/dbimport.go:680-709 | one call with a fraction of a second and a target of whole seconds: the import that finished is refused the next time |
| ResumableImport.LongEnoughRunCompletes | server/dbimport.go:661-797 | after any number of interrupted runs, a process that survives three statements a call and one more ends with every coercible call copied, or changes nothing where the target does not keep the last time copied |
| TranscriptMigration.Database.RecordMigration | server/migration_transcripts.go:113-116 | one ledger entry, if the process is still alive |
| TranscriptMigration.Database.RecordAllAbsent | server/migration_transcripts.go:182-189 | the shortcut records each remaining step it can, in order, ignoring failures |
| TranscriptMigration.Database.DropOriginals | server/migration_transcripts.go:241-310 | deferring, marking an empty column done, and dropping, by the size of the table and the operator's flag |
| TranscriptMigration.Database.MigrateTranscripts | server/migration_transcripts.go:151-315 | the boot, abandoned after any statement, leaves what the stages say |
| TranscriptMigration.StoppedBootChangesNothing | server/migration_transcripts.go:151-315 | a boot that has died or returned takes no further step |
| TranscriptMigration.BootOnlyAddsCopies | server/migration_transcripts.go:339-380 | whatever a boot was told and however far it got, no plugin row is altered, lost or duplicated, and new ones are legacy texts |
| TranscriptMigration.LegacyMeans | server/migration_transcripts.go:368-374 | the legacy texts are what the column holds where that is not blank, and nothing else |
| TranscriptMigration.DropIsGuarded | server/migration_transcripts.go:200-310 | the column goes only in a boot that saw it, with copy and verification recorded, as many plugin texts as legacy ones if verified then, and either the operator's flag or a small table |
| TranscriptMigration.RecordedCopyIsFinal | server/migration_transcripts.go:190-204 | with the copy in the ledger no boot copies again |
| TranscriptMigration.TruthfulBootLoses | server/migration_transcripts.go:151-315 | a truthful boot that leaves the column loses no text; one that drops it loses a call's text if and only if it was at risk: its plugin row does not stand for it, or it has none and the copy is done |
| TranscriptMigration.TruthfulBootRisksNothing | server/migration_transcripts.go:151-315 | a truthful boot puts no further text at risk |
| TranscriptMigration.StepKeepsSecure | server/migration_transcripts.go:151-315 | neither does anything between boots that leaves the call alone |
| TranscriptMigration.TranscriptsSurvive | server/migration_transcripts.go:25-38 | a text that is not at risk survives any sequence of truthful, interrupted boots with plugin writes of other rows and prunes of other calls between them |
| TranscriptMigration.AtRiskCanBeLost | server/migration_transcripts.go:196-228 | a text at risk is lost by one write of other rows and one truthful boot |
| TranscriptMigration.RiskIsExact | server/migration_transcripts.go:151-315 | for every call in the column, whether a kept text means that text, any text or a plugin row: no run of truthful boots can lose it if and only if it is not at risk |
| TranscriptMigration.FreshMigrationIsSafeExactly | server/migration_transcripts.go:339-380 | before the copy is recorded, no text can be lost if and only if no call in the column has a plugin row that does not stand for its text |
| TranscriptMigration.BlankRowLosesATranscript | server/migration_transcripts.go:200-228 | one blank plugin row, another row to even out the count, and one truthful uninterrupted boot loses a text |
| TranscriptMigration.LongBootDrops | server/migration_transcripts.go:200-310 | a boot that lives long enough drops the column once the row counts compare, for a table known to be small or on the operator's word |
| TranscriptMigration.BigTableIsDeferred | server/migration_transcripts.go:266-300 | a big or uncounted table keeps its column without the operator's word, and the drop is recorded only if there is known to be nothing to reclaim |
| TranscriptMigration.MisreadColumn | server/migration_transcripts.go:117-144 | the exact inputs under which a boot that misreads the column as gone makes a text that was not at risk losable |
| TranscriptMigration.MisreadThenDeathLosesATranscript | server/migration_transcripts.go:170-190 | one such loss, concretely |
| TranscriptMigration.BootsAloneNeverVerify | server/migration_transcripts.go:200-230 | with the copy recorded and too few plugin texts, no sequence of truthful boots copies anything or records the verification |
| TranscriptMigration.FailedVerifyIsFinal | server/migration_transcripts.go:200-230 | and that is so exactly when there are too few |
| TranscriptMigration.BlankRowStopsTheMigration | server/migration_transcripts.go:200-230 | one call with a blank plugin row: the first boot records a copy of nothing and no later boot gets past the verification |
| HeldCalls.Delayer.Delay | server/delayer.go:47-109 | a call goes out now, or is scheduled in the table and a timer for its time plus its hold |
| HeldCalls.Delayer.TimerFires | server/delayer.go:87-105 | the entry and the timer are gone and the call is out |
| HeldCalls.LandingMeans | server/delayer.go:47-109 | a call with a hold that lasts beyond now is held until its own time and that many seconds, any other goes out now; the plugin has the last word on the hold |
| HeldCalls.EmittedNow | server/delayer.go:87-105 | whatever goes out goes out at the time it then is, after everything before it |
| HeldCalls.Delayer.Start | server/delayer.go:115-180 | the table is cleared and each entry, earliest first, sent if overdue and delayed again otherwise |
| HeldCalls.RearmEach | server/delayer.go:160-177 | each entry a restart deals with ends held or out, once |
| HeldCalls.StepKeepsOnceEach | server/delayer.go:47-180 | every step leaves each stored call held or out, never both, never twice, with timers and table agreeing |
| HeldCalls.RunKeepsOnceEach | server/delayer.go:26-33 | so does every run with restarts and promotions in it |
| HeldCalls.LeavingInOrder | server/delayer.go:145-158 | what leaves at a restart leaves in nondecreasing order of its scheduled moment |
| HeldCalls.RearmCatchesUp | server/delayer.go:160-177 | the loop sends exactly what is overdue or due under its record's present hold and holds every other entry for the moment its record gives now, in any state |
| HeldCalls.RestartCatchesUp | server/delayer.go:112-180 | every restart, whatever was promoted, sends all that is overdue at once and in schedule order, and accounts for every other entry |
| HeldCalls.LandingKeepsTimely | server/delayer.go:47-109 | a landing call is promised the moment it is scheduled for, and no other call's promise moves |
| HeldCalls.RestartKeepsTimely | server/delayer.go:160-177 | a restart keeps the promised moment of a call whose hold has not changed, whatever happened to others |
| HeldCalls.StepKeepsTimely | server/delayer.go:47-180 | a step that does not change this call's hold keeps its promised moment |
| HeldCalls.RunKeepsTimely | server/delayer.go:26-33 | over any run in which no promotion changes this call's hold while it is held, it is never sent before the moment it was first promised |
| HeldCalls.PromotionMovesTheMoment | server/delayer.go:166-176 | a promoted held call keeps its moment over a restart if and only if the new talkgroup is held equally long, and leaves early if and only if it is held for less |
| HeldCalls.PromotedCallLeavesEarly | server/delayer.go:166-176 | one such call, sent nine seconds early |
| HeldCalls.NoDelayExactly | server/delayer.go:182-192 | nothing is held exactly where neither the talkgroup nor its system has a delay |
| HeldCalls.TalkgroupDelayWins | server/delayer.go:182-192 | a talkgroup's own delay goes before its system's |
| LogThrottle.Throttle.PruneLocked | server/log_throttle.go:77-83 | exactly the expired windows go |
| LogThrottle.Throttle.Allow | server/log_throttle.go:58-74 | the hit is counted in its window and answered by the count |
| LogThrottle.PruningIsInvisible | server/log_throttle.go:58-83 | a pruning throttle's map differs from a never-pruning one's only by expired windows |
| LogThrottle.AnswersNeverPruned | server/log_throttle.go:58-83 | so on every monotone trace the answers are the same |
| LogThrottle.BoundStep | server/log_throttle.go:55-74 | one more hit keeps the tally within what the current window and the one before it can hold |
| LogThrottle.WindowBound | server/log_throttle.go:55-74 | so does a whole trace |
| LogThrottle.CountIsSize | server/log_throttle.go:55-74 | the running tally is the number of allowed hits in the interval |
| LogThrottle.FewerThanTwiceTheLimit | server/log_throttle.go:27-34 | for each key any half-open interval one window long holds fewer than twice the limit of allowed hits, and at most the limit where a window spans a single instant |
| LogThrottle.TheBoundIsReached | server/log_throttle.go:55-74 | for every limit and window some trace has exactly that many |
| LogThrottle.CountedWereAllowed | server/log_throttle.go:55-74 | a window has let through as many hits as it counted, up to the limit |
| LogThrottle.RefusedOnlyWhenSpent | server/log_throttle.go:55-57 | a hit is refused only where an interval one window long, begun by then and not over, already holds as many allowed hits as the limit |
| LogThrottle.GrowthIsLive | server/log_throttle.go:64-70 | past its cap the map only grows while it holds nothing but live windows |
| LogThrottle.FloodIsKept | server/log_throttle.go:22-25 | hits of distinct keys inside one window leave as many entries as there are hits, however many |
| LogThrottle.LiveAreKept | server/log_throttle.go:58-83 | no key with a live window is ever pruned |
| LogThrottle.FirstOverflow | server/log_throttle.go:64-70 | when the map first outgrows its cap, more keys than that have live windows |
| LogThrottle.CapHoldsExactly | server/log_throttle.go:22-25 | on every monotone trace the map outgrows its cap at some moment if and only if at some hit more keys than the cap have live windows |

## Left out

- CursorSearch.SearchPage: a page with an offset, the count, and rows whose stored time cannot be read are not modelled; one request sees one state of the tables.
- CursorSearch.WalkEnumeratesFlatQuery: the client's walk is that of client/src/app/components/rdio-scanner/rdio-scanner.service.ts:2381-2400, a limit above zero is assumed, and a scan budget above zero.
- ProbeBounds.BuildProbePairs: an access scope, the singular system filter with its patched-talkgroup clause, and the time of day are one arbitrary predicate that rules the fast form out.
- ProbeBounds.FastFormIsTaken: where the first filter lists a pair more than once, the repeats count towards the two hundred as they do in the source, and only the one direction is claimed.
- ProbeBounds.FastProbe: rows are times here, so the text-to-time parsing of a bound and its fallback to the present are not modelled.
- SingleFlight.EveryInterleaving: a computation that panics and the count of spared callers are not modelled.
- Ingest.Controller.IngestCall: from the patch lookup to the write, with database calls that succeed; a plugin that rewrites a call's talkgroup, time or list before storing, audio conversion, logging and downstream forwarding are not modelled, and a copy's talkgroup is the one it has at the lookup.
- Ingest.TwinIsFound: on SQLite the written bounds carry an offset and are compared as text; the model has them as instants.
- Ingest.GetPatchDuplicate: a stored time is the time the call came with; a backend that drops its fraction also drops it from the comparison.
- Ingest.Controller.WriteCall: ids count up from one; a caller-supplied id is not modelled.
- PatchHistory.RowsEvolve: the rank claim needs patches whose ranks agree, which RanksNeverFallExactly shows to be the exact condition.
- PatchHistory.NoReceiptIsLost: no pruning, and a patch configuration that does not change.
- Listeners.DisplaysConverge: the emit queue is shared, so its overflow ends the guarantee for everyone; calls without a hold on a server without access restrictions; a held call refreshes and queues itself in two steps that race ingest (server/delayer.go:87-105). A message reaches the queues of all its listeners in one step.
- Listeners.Client.Enqueue: the closed flag does not change while a message is being queued.
- PluginChain.FilterWithin: values are maps of plain values, so the deep copies made against shared containers (server/plugin_dispatch.go:222-282) have nothing to do; elapsed time is a cost the handler incurs.
- FanOut.FanOutIsBounded: the time bound is for handlers that stop by the deadline granted; interrupting one is the JavaScript runtime's business.
- PluginRegistry.PluginDispatch.Register: checking that a point is known, override and provide, metrics and health are not modelled.
- SqlRewrite.PluginDb.Rewrite: statements are sequences of characters; invalid UTF-8, which decoding replaces, is not modelled.
- SqlRewrite.RelexGivesRenamedTokens: the prefix is not empty and holds no backtick, as a manifest's is.
- ResumableImport.Target.CopyCalls: ids are positive, every source row has a time value as its column is declared not null, a failing statement is a death at that statement, and counting, reporting and the copying of other tables are not modelled.
- ResumableImport.Coerced: parsing a time from text is an arbitrary function; folding case and trimming are for ASCII.
- TranscriptMigration.Database.MigrateTranscripts: the settings, systems and talkgroups that move along, index creation and the creation of the plugin tables are not modelled; a copy is one statement.
- TranscriptMigration.TranscriptsSurvive: nothing deletes a plugin row, and no new legacy text is written between boots; a plugin write to the call's own row decides its text itself.
- HeldCalls.RunKeepsOnceEach: the configuration does not change, call rows are kept, table writes succeed, and a crash falls between steps, not inside the clearing and re-arming or between removing an entry and sending the call.
- HeldCalls.Delayer.Delay: a plugin's say in the hold is a fixed function of the call and the configured delay, and times are whole milliseconds.
- LogThrottle.Throttle.Allow: the clock is monotone and counts do not overflow.
- Integers are unbounded throughout; SQL text, dialects, LIKE escaping, indexes and drivers are replaced by predicates over rows.
- The JSON shapes a recorder may report its patch list in.
- The goja runtime, audio, websocket and HTTP handling, multipart parsing, directory watching, authentication, configuration files and the admin interface.
- Reading and writing of accesses, API keys, groups and downstreams, and access checks.
