# A verified model of the event-sourced score system

An append-only ledger of score events is the source of truth. Everything else (the live
leaderboard, as-of standings, the player history index, daily activity, the event feed, the table and
ticker of the web page) must equal a simple function of it. This project states those functions,
models the code that maintains the views step by step, and proves that the two agree on every run.

`dafny verify dfyconfig.toml` checks the whole project.

| file | contents |
|---|---|
| Binary64 | integers stored as IEEE 754-2008 binary64 values (sections 3.3 and 4.3.1): rounding to 53 significant bits, ties to even, proved nearest, idempotent on representable values and monotone |
| Text, Lists | decimal text, plain search, byte order, joined records; sequence helpers |
| Ledger | stream ids, raw entries, the decoder and the encoding of an event |
| Replay | the left fold of a board's events: the meaning of a ledger |
| Scripts | the four Lua scripts as atomic steps over a typed database, and the database invariants |
| Store | the same scripts and the projection administration in imperative form, over raw text keys, records and entries, proved against the typed steps |
| Protocol, Idempotency | runs: any interleaving of writes, player and board steps, record expiry, and the single commands of rebuilds |
| Drift, Race | folds with writes arriving in the middle; rebuilds of open boards |
| Projection | what rebuild and verification compute |
| Ranking, TimeTravel | order, ranks, pages; standings as of a past moment |
| Consumer, History, Activity | the at-least-once loop with crashes between any two commands, and its two views |
| Feed | the event feed, the cursor chain and the single-flight ticker |
| Client | the page's retry protocol over a lossy network, end to end |
| Refresh | overlapping refreshes of the leaderboard table |

The main results, hardest first: `Race.RebuildIsRightIff`, `Protocol.ClosedRebuildIsSafe`,
`Client.ExactlyOnce`, `TimeTravel.TimeTravelRefinesLive`, `Protocol.ReachableBoards`,
`History.HistoryCatchesUp`, `Refresh.LatestRequestWins`, `Feed.FeedIsComplete`,
`Activity.CountsFromHead`.

## Where the code does less than it seems to

Each of these is a property that does not hold as one would first state it. A lemma gives the
failing case, another the exact condition.

- Rebuilding an open board can go wrong (`Protocol.OpenRebuildLosesWrite`). After any run, for a rebuild
  with any number of writes accepted in it, and any other steps interleaved, the finished projection
  is the ledger's replay if and only if no player's score drifts and no lost write alone made a member
  (`Race.RebuildIsRightIff`). The drift is computed from the writes lost before the drop and the late
  ones, each with the events still to be folded when it arrived (`Drift.Drift`); for a single write it
  comes to a test on that write (`Drift.OneLateWrite`, `Drift.OneLostWrite`). The documented
  protection, closing the board first (docs/architecture.md:57-59), works provided nobody opens it
  before the rebuild is done (`Protocol.ClosedRebuildIsSafe`); what is done to other boards does not
  matter.
- A wrong projection can break the ledger itself, for good, because the script bounds a write against
  the projection it finds. On every run whose board is in range, an accepted write takes the ledger
  out of range if and only if it is an increment in the bound on top of the live score but not on top
  of the true one (`Race.WriteBreaksRangeIff`, `Race.BrokenForGood`). It takes a rebuild under way
  (`Race.OpenRebuildBreaksRange`) or one that lost a write before (`Race.StaleProjectionBreaksRange`).
  The comment at storage/score_repo.go:217-218 holds for a board that is never rebuilt open
  (`Protocol.ReachableBoards`).
- `sendIdempotentJSON` alone does not give exactly-once: the success of one call deletes whatever key
  its payload has pending, also the key of a later write (`Client.SuccessDropsOpenKeyIff`), and then
  a lost answer and a retry duplicate that write (`Client.OverlapDuplicates`). The page's busy flag
  excludes the overlap. Within it exactly-once holds (`Client.ExactlyOnce`); and any send that starts
  a new write of a payload while a call of it is in flight can be continued to a duplicate, if the
  server accepts that payload twice (`Client.BusySendCanDuplicate`).
- A past moment's standings are fixed only once the clock of later writes, or the ledger's last id,
  has reached the cutoff (`TimeTravel.WriteMovesCutoffIff`, `TimeTravel.PastIsFrozen`).
- The history page is a ledger scan if and only if no two of the player's events have equal packed
  scores with the later id's text below the earlier's (`History.HistoryIsLedgerScanIff`).
- The packed stream id is exact for all sequence numbers of a millisecond if and only if the
  millisecond is below 2^41 (`History.MillisecondIsExactIff`); single ids beyond can still be exact.
- The consumers skip a malformed entry, but the event feed stops at it for good
  (`Feed.FeedNeverPassesMalformed`). The history consumer in turn stops for good at an event whose id
  does not fit int64 (`History.RefusedForGood`, `History.IndexableIff`), which Redis does not issue.
- A daily count can be too high: a crash between applying an event and saving the cursor counts it
  twice (`Activity.CrashCountsTwice`). The count is right if and only if no crash struck after a
  tick of that player and day in the batch in hand, or the right count has reached 2^53, where
  doubles stop counting (`Activity.CountsFromHead`).
- A page whose upper bound does not fit int64 comes back empty (`Ranking.PageIsServedIff`), and the
  as-of reader panics on such a sum (`TimeTravel.ListStandingsAsOf`). The API caps the limit at 100,
  so either takes a board of some 2^63 members.

Where code and documentation disagree the model follows the code. docs/architecture.md:246-247 calls
the client's key `request_id` and says that a retry produces the same result: in the code the
request id is the server's (a retry's is not recorded), the key is the `Idempotency-Key` header, only
an applied write leaves a record, and the record lives 24 hours.

## Assumptions

- Score requests passed the handler's checks (`Scripts.Accepted`): the amount is within the score
  bound (handlers/score_handler.go:79,125; the script itself bounds only the result), the request id
  is not empty, ids are not empty and hold neither `:` nor `|`.
- Redis runs a script as one step, its commands do not fail, sorted sets order by score and then
  member bytes, and XRANGE and XREAD return ids in order.
- There is one consumer per view and at most one rebuild at a time per board.

## Model

| member | source | states |
|---|---|---|
| Binary64.RoundIsNearest | score/score.go:5-12 | no representable value is closer to n than its rounding |
| Binary64.TieGoesToEven | storage/player_history_store.go:74 | midway between two stored values the one with the even significand is taken |
| Binary64.ExactIffRepresentable | score/score.go:5-12 | storing an integer as a double keeps it exactly when 53 significant bits hold it |
| Binary64.SmallIsExact | score/score.go:5-12 | every integer of magnitude up to 2^53 is stored exactly |
| Binary64.LargeOddIsInexact | storage/player_history_store.go:16-19 | an odd integer above 2^53 never is |
| Binary64.RoundMonotone | storage/player_history_store.go:74 | rounding never inverts order, at any magnitude |
| Text.IntTextRoundTrip | storage/storage.go:97-108 | an integer written in decimal reads back as itself |
| Text.ParseIntIff | storage/storage.go:97-108 | which texts read as which integer: decimal digits, with or without one sign |
| Text.IntTextInjective | storage/scripts/apply_score_event.lua:52-53 | comparing amounts as text is comparing amounts |
| Text.RecordRoundTrip | storage/scripts/apply_score_event.lua:48-52 | the script's searches and slices recover the three parts of "entry_id\|op\|amount" |
| Text.FieldInjective | storage/scripts/apply_score_event.lua:45 | different board, player or key give different record fields, colons in the key included |
| Text.IdTextInjective | storage/player_history_store.go:16-19 | different stream ids have different texts |
| Text.LessIff | storage/score_repo.go:240-245 | the comparison of player ids is byte order: a proper prefix first, else the first differing position decides |
| Ledger.EntryRoundTrip | storage/storage.go:59-131 | every entry the script appends decodes to exactly the event written |
| Ledger.DecodesIff | storage/storage.go:59-131 | for whole decimal amounts, the exact set of entries the decoder accepts, field by field |
| Ledger.DecodedIsFaithful | storage/storage.go:59-131 | for whole decimal amounts, an accepted entry's event carries the entry's own id, operation, ids and amount, never a rounded amount |
| Ledger.RejectionNamesFirstBadField | storage/storage.go:59-131 | a rejected entry is rejected for its first bad field, as missing exactly when the field is empty |
| Ledger.RoundedInRangeIsExact | storage/storage.go:103-116 | a whole number whose double is a legal score is that very score |
| Ledger.CountSplits | storage/ledger_consumer.go:46-50 | an exclusive cursor splits the stream: the entries passed are those not after it |
| Ledger.AppendKeepsIncreasing | storage/scripts/apply_score_event.lua:91-98 | automatic ids keep the stream strictly increasing, also when the clock goes back |
| Replay.CommandIsExact | storage/scripts/apply_score_event.lua:83-88 | with score and amount in range, ZADD and ZINCRBY in doubles are integer assignment and addition |
| Replay.CommandIsExactBelow | score/score.go:5-8 | so they are wherever the sum stays below 2^53 |
| Replay.CommandExtendsReplay | storage/projection_admin.go:85-98 | on a board in range each single command extends the replay by one event |
| Replay.RangeAfterIff | storage/scripts/apply_score_event.lua:78-81 | an event keeps a board in range exactly when the resulting score is |
| Replay.ReplayMembers | storage/scripts/apply_score_event.lua:73-77 | a player is on the board exactly when an event names the player |
| Replay.ScoreIsLastSetPlusIncrements | docs/architecture.md:249-251 | a score is the last set amount plus the increments after it |
| Replay.SetIsSnapshotBarrier | docs/architecture.md:249-251 | deleting a player's events before one of the player's sets changes no score and no membership |
| Replay.SuffixFromSetSuffices | docs/architecture.md:250-251 | folding only from a set on gives that player's score |
| Replay.FoldedScore | storage/projection_admin.go:85-98 | a fold from any scores: the last set decides, or else the increments add up |
| Replay.RacingWriteSurvivesIff | storage/projection_admin.go:78-104 | when a write in the middle of the fold commands ends up as in the ledger, for increments and sets |
| Replay.UnseenWriteSurvivesIff | storage/projection_admin.go:30-36 | when a write the fold never sees makes no difference |
| Scripts.ResultingIsExact | storage/scripts/apply_score_event.lua:71-81 | the sum the script bounds is the true integer sum |
| Scripts.AppliedMovesTogether | storage/scripts/apply_score_event.lua:71-98 | on a board in range whose projection is its replay, an accepted write moves both to the same content and keeps the range |
| Scripts.ScoreWriteKeepsDbOk | storage/scripts/apply_score_event.lua:40-106 | every score write keeps ledger, range, record and creation invariants |
| Scripts.ScoreWriteKeepsFacts | storage/scripts/apply_score_event.lua:40-106 | it keeps ledger, record and creation invariants whatever state the projection is in |
| Scripts.CreatePlayerKeepsDbOk | storage/scripts/create_player.lua:24-55 | so does every player creation |
| Store.Store.ApplyScoreScript | storage/scripts/apply_score_event.lua:35-106 | on text keys, records and entries the script makes exactly the typed step; which code it replies if and only if which check fails first; the fields of the entry and the text of the record it writes, and nothing written on any other code |
| Store.Store.CheckRecord | storage/scripts/apply_score_event.lua:44-58 | the text lookup finds exactly the typed record, and the text comparison is fingerprint equality |
| Store.Store.CheckWrite | storage/scripts/apply_score_event.lua:60-81 | -1 if and only if the profile is missing, else -2 for a missing board, -3 for a closed one, -5 for a resulting score out of range, else 1 |
| Store.Commit | storage/scripts/apply_score_event.lua:83-106 | projection, ledger entry and record move together to the encoding of the typed step |
| Store.Store.ApplyEvent | storage/score_repo.go:290-353 | each error if and only if its condition on profiles, boards, records and resulting score, in the script's order; a matching retry is no error and writes nothing |
| Store.Store.CreatePlayerScript | storage/scripts/create_player.lua:24-55 | the typed creation step; which code if and only if which case; the profile and record a creation stores, and nothing stored otherwise; the stored name may itself hold the separator |
| Store.Store.CreateBoardScript | storage/scripts/create_board.lua:18-30 | creates a board once, in the state asked for; an existing one keeps its state; no other board changes |
| Store.Store.SetBoardStateScript | storage/scripts/set_board_state.lua:12-21 | stores the state of an existing board, changes no other board and never makes a new one |
| Store.Store.ExpireField | storage/scripts/apply_score_event.lua:103 | an expired field takes exactly its own record away |
| Store.KeyTextInjective | storage/keys.go:27-28 | records of different writes are different fields |
| Store.Store.ReadBoardEvents | storage/projection_admin.go:55-74 | one board's events in order, or the first decoding error among that board's entries |
| Store.Store.RebuildProjection | storage/projection_admin.go:25-40 | an error leaves everything as it was; otherwise this board's projection is the fold and nothing else changes |
| Store.Store.VerifyProjection | storage/projection_admin.go:108-138 | reports the difference of live and replayed projection, the live side from the live projection and the replay side from the fold, leaves the live one alone and the scratch key gone |
| Store.FoldInto | storage/projection_admin.go:78-104 | drop and one command per event build the fold under that key only |
| Store.DiffBoard | storage/projection_admin.go:140-173 | each differing or one-sided player exactly once, with the score and presence of either side, in any map order |
| Projection.ReadFailsIff | storage/projection_admin.go:62-73 | reading a board fails exactly when one of its own entries does not decode, with the error of the first |
| Projection.ReadBoardOfEncoded | storage/projection_admin.go:62-73 | on written entries it returns exactly the board's events |
| Projection.FoldIsReplay | storage/projection_admin.go:85-102 | on a board in range the fold in doubles is the integer replay after every command |
| Projection.RebuildRestoresReplay | storage/projection_admin.go:25-40 | on a board in range, of any store the scripts produced, a rebuild ends in the board's replay |
| Projection.VerifyIsExact | storage/projection_admin.go:106-110 | the report shows the live projection next to the ledger's replay, lists exactly the players on which they differ, and is empty if and only if they are equal |
| Projection.DiffIsEmptyIff | storage/projection_admin.go:140-173 | no mismatch exactly when the two maps are equal |
| Projection.DiffIsUnique | storage/projection_admin.go:153-171 | any two map orders report the same mismatches |
| Protocol.ReachableBoards | storage/scripts/apply_score_event.lua:71-98 | on every run that keeps the rebuild rule for this board, outside a rebuild its live projection is the fold of its events, members included, and every prefix replays in range |
| Protocol.CarefulRunKeepsBoard | storage/scripts/apply_score_event.lua:35-106 | the invariant of one board under the rule for that board |
| Protocol.LegalRunKeepsFacts | storage/scripts/apply_score_event.lua:90-104 | ledger, record and creation invariants under no rule at all |
| Protocol.RunKeepsOk | storage/scripts/apply_score_event.lua:35-106 | the invariant of the whole system over every disciplined run |
| Protocol.WriteIsAppliedIff | storage/scripts/apply_score_event.lua:40-81 | on a board that keeps its invariant a write is accepted exactly when its key is new, player and open board exist, and the ledger with it replays in range |
| Protocol.WriteOutcomeIff | storage/scripts/apply_score_event.lua:40-106 | on a board that keeps its invariant: every outcome if and only if its condition on ledger, profiles, boards and records, with the true score; and what an accepted write leaves in ledger and projection |
| Protocol.ClosingCloses | storage/scripts/set_board_state.lua:12-21 | a board set to closed stays closed on every run that does not set it to active; setting a state changes that board's state and nothing else |
| Protocol.OpeningOpens | storage/scripts/set_board_state.lua:12-21 | after a state was set a write is applied if and only if that state is active, its key new, its player known and the true score with it in range |
| Protocol.ClosedRebuildIsSafe | docs/architecture.md:57-59 | close, rebuild while closed, for a ledger in range: from any state of the projection and under any interleaving no event is added from the closing on, and once all rebuild commands ran the projection is the replay of all events and the board's invariant holds |
| Protocol.RebuildIsSafe | storage/projection_admin.go:25-40 | a board that stays closed is rebuilt safely under any interleaving; if the rule is kept for all boards, every other board equals its own replay too |
| Protocol.QuietRebuildIsSafe | storage/projection_admin.go:25-40 | while a board gets no event, whatever else happens: after k rebuild commands its projection is the replay of its first k - 1 events, after all of them the full replay |
| Protocol.WindowCommandIsExact | storage/projection_admin.go:85-102 | each single fold command extends the replay by one event |
| Protocol.RunCountsDown | storage/projection_admin.go:78-104 | a rebuild's remaining commands fall by one with each of its commands and by nothing else; until the drop the projection stays, then it is the fold so far |
| Protocol.ClosedBoardIsFrozen | storage/scripts/apply_score_event.lua:67-69 | a board that stays closed gets no event |
| Protocol.OpenRebuildLosesWrite | storage/projection_admin.go:30-36 | a run that rebuilds an open board and loses a write |
| Race.LiveIsMix | storage/projection_admin.go:78-104 | on every run, with any number of rebuilds, the projection is the integer replay of the commands it got since its last drop |
| Race.RebuildIsRightIff | storage/projection_admin.go:25-40 | after any run, any number of writes in the rebuild, any interleaving: exactly when the finished projection is the ledger's replay |
| Drift.DriftIsDifference | storage/projection_admin.go:85-98 | by how much a player's folded score misses the true one |
| Drift.MergeIsRightIff | storage/projection_admin.go:78-104 | a fold with lost and late writes is the replay exactly when nothing drifts |
| Drift.OnlyWritersDrift | storage/projection_admin.go:85-98 | only players of those writes can drift |
| Drift.OneLateWrite | storage/projection_admin.go:85-98 | the condition for one late write |
| Drift.OneLostWrite | storage/projection_admin.go:30-36 | the condition for one lost write |
| Race.OpenRebuildIsRightIff | storage/projection_admin.go:25-40 | the case of one write, from any state, in closed form |
| Race.RacedFoldsExactly | storage/projection_admin.go:85-98 | also a raced fold stays below 2^53, so its doubles are exact |
| Race.WriteBreaksRangeIff | storage/scripts/apply_score_event.lua:71-81 | on every run whose board is in range: exactly which accepted writes make the ledger replay out of range |
| Race.BrokenForGood | storage/score_repo.go:217-218 | no later step brings the ledger back into range |
| Race.OpenRebuildBreaksRange | storage/projection_admin.go:30-36 | a run from the empty store whose ledger replays to twice the bound |
| Race.StaleProjectionBreaksRange | storage/projection_admin.go:30-36 | a run on which no rebuild is under way any more, and the next increment still breaks the range |
| Idempotency.RetryIsNoOp | storage/scripts/apply_score_event.lua:40-58 | until its record expires, whatever ran since, a retry answers with the first entry, a different payload conflicts, and neither changes anything |
| Idempotency.RetriedCreationIsNoOp | storage/scripts/create_player.lua:27-41 | the same for player creation, whatever the new candidate id |
| Idempotency.ReachableRecords | storage/scripts/apply_score_event.lua:100-104 | on every run, however boards are rebuilt, each live record names a ledger event with its board, player, operation and amount; different records name different events |
| Idempotency.LedgerOnlyGrows | docs/architecture.md:240-244 | no run changes or removes an event |
| Ranking.AboveIsStrictTotalOrder | storage/score_repo.go:240-245 | the comparator is a strict total order on different players |
| Ranking.SortedIsUnique | storage/score_repo.go:240-245 | the sorted list does not depend on map order or sort algorithm |
| Ranking.SortRows | storage/score_repo.go:240-245 | sorts, keeping exactly the rows |
| Ranking.ListStandings | storage/score_repo.go:90-138 | for every limit and offset of int64: the page with positional ranks and the board size, or no rows when the upper bound wraps; every row's rank is one plus the number of members with a higher score, or an equal one and a bytewise greater id |
| Ranking.PageIsServedIff | storage/score_repo.go:93-104 | exactly when the page served is the page of the leaderboard |
| Ranking.InRangePageIsServed | storage/score_repo.go:124-136 | with scores in range no row is dropped from a page |
| Ranking.GetStanding | storage/score_repo.go:48-86 | the same rank and score the listing shows, counted the same way, or not found, or an unusable score |
| Ranking.RankCountsBetter | storage/score_repo.go:103-136 | a rank is one plus the number of members with a higher score, or an equal score and a bytewise greater id; no player has two ranks |
| Ranking.EveryMemberIsPlaced | storage/score_repo.go:103-136 | every member of the sorted set has a rank |
| Ranking.PagesTile | storage/score_repo.go:103-136 | pages at offsets 0, L, 2L, ... join to the whole board without gap or repeat |
| TimeTravel.ListStandingsAsOf | storage/score_repo.go:195-256 | the page of the standings folded from the entries before the cutoff, ranked as the live board is, or the first error, or the panic when the sum of offset and limit wraps |
| TimeTravel.OverflowGuardIsExact | storage/score_repo.go:214-226 | on int64 scores the fold stops at an event if and only if the true sum leaves int64 there |
| TimeTravel.AsOfIsReplay | storage/score_repo.go:204-234 | on every ledger that replays the board in range the fold is the replay: no entry is rejected, the overflow branch is never taken |
| TimeTravel.TimeTravelRefinesLive | storage/score_repo.go:195-256 | every run that keeps the rebuild rule for the board, and every cutoff: row for row, ranks and tie order included, for every page, what the live board served when the board's last event before the cutoff was the newest in the ledger |
| TimeTravel.CutoffMoment | storage/score_repo.go:198-199 | every such run and ledger prefix has such a moment, with no rebuild of the board under way |
| TimeTravel.AnswerAtMoment | storage/score_repo.go:195-256 | the same answer at any moment outside a rebuild with exactly the board's events before the cutoff |
| TimeTravel.WriteMovesCutoffIff | storage/score_repo.go:198-199 | exactly which writes can still change a past answer |
| TimeTravel.PastIsFrozen | storage/score_repo.go:195-256 | once the cutoff has passed no run changes the answer, however boards are rebuilt in it |
| Consumers.ReadLedgerBatch | storage/ledger_consumer.go:43-76 | the next ten entries after the cursor, split into events and rejected entries in order |
| Consumers.EventsOfMember | storage/ledger_consumer.go:61-75 | a batch's events are exactly what its entries decode to |
| Consumers.RejectedOfMember | storage/ledger_consumer.go:61-75 | its rejected entries are exactly those that do not decode, by id and error |
| Consumers.ViewConsumer.ProcessOnce | consumer/consumer.go:88-128 | one round, for each point it can fail at: what reached the view, and whether the cursor moved |
| Consumers.ViewConsumer.Run | consumer/consumer.go:56-83 | the loop retries failed rounds while the ledger grows |
| Consumers.LoopKeepsOk | consumer/consumer.go:56-83 | with any growth between rounds and any fault in each, every state between rounds is consistent and the cursor never moves back |
| Consumers.RoundIsRun | consumer/consumer.go:85-128 | every round, whatever fails, is a run of the step machine |
| Consumers.RunKeepsOk | consumer/consumer.go:85-128 | over every run with crashes between any two commands the cursor never moves back and no decodable event up to it is missing from the view |
| Consumers.CrashFreeRunIsExact | consumer/consumer.go:85-128 | without a crash each event was applied exactly once, in order |
| Consumers.RoundProgress | consumer/consumer.go:98-127 | a successful round reads a full batch or the rest |
| Consumers.RoundsDrain | consumer/consumer.go:61-82 | enough of them bring the view up to date |
| History.ScoreOfId | storage/player_history_store.go:54-75 | the sorted-set score of an id is its packed value as a double |
| History.MalformedIdHasNoScore | storage/player_history_store.go:55-58 | an id without a sequence part is an error |
| History.IndexableIff | storage/player_history_store.go:59-66 | exactly the ids whose halves fit int64 have a score |
| History.BudgetIsExact | storage/player_history_store.go:16-19 | below 2^41 milliseconds the score is the packed id itself |
| History.MillisecondIsExactIff | storage/player_history_store.go:16-19 | and 2^41 is exactly the limit |
| History.ScoreNeverInverts | storage/player_history_store.go:67-74 | clamped or rounded, the score never inverts two ids |
| History.BudgetTiesIff | storage/player_history_store.go:67-73 | in the budget two ids tie exactly when they share a millisecond and both sequences are 4095 or more |
| History.KeyOfOwnerInjective | storage/keys.go:46-48 | indexes of different players or boards have different keys |
| History.PlayerHistoryStore.ApplyPlayerHistory | storage/player_history_store.go:32-50 | one bad id fails the batch before anything is sent; otherwise each sent event of a player on a board is in that player's and board's index with its id's score, and nothing else changed |
| History.MemberIsApplied | storage/player_history_store.go:29-31 | every member of the index of player p and board b is the id of an applied event with these two fields, with the id's score, whatever was replayed |
| History.AppliedIsMember | storage/player_history_store.go:41-44 | every applied event is in the index of its own player and board, with its id's score |
| History.IndexIsSound | storage/player_history_store.go:29-50 | over every consumer run with crashes the index of player p and board b has every event of theirs up to the cursor, and only ids of ledger events of theirs |
| History.PlayerHistory | storage/score_repo.go:144-193 | the newest pointers of that player's and board's index, resolved in order |
| History.ResolvedIff | storage/score_repo.go:173-192 | a page fails exactly when one of its pointers names an entry that does not decode; otherwise it is the events of the pointers that name an entry, one for one if all do |
| History.IndexRanksNewestFirstIff | storage/score_repo.go:153-156 | the up-to-date index of player p and board b read backwards is the ledger events with these two fields, newest first, exactly when ties keep the order of the ids |
| History.HistoryIsLedgerScan | storage/score_repo.go:144-193 | if ties keep the order, the page for player p and board b is exactly the newest min(limit, n) of the ledger events with these two fields |
| History.NewestOwnIsNewest | storage/score_repo.go:140-143 | those events, without reference to a scan: of the player and board, newest first, no more than the limit, and every other event of theirs older, if there is one only when the page is full |
| History.HistoryIsLedgerScanIff | storage/score_repo.go:144-193 | all pages are the ledger scan if and only if ties keep the order |
| History.BudgetKeepsOrder | storage/player_history_store.go:16-19 | in the budget they do |
| History.HistoryCatchesUp | storage/score_repo.go:140-143 | whatever crashed before, after enough successful rounds of the history consumer every such page is the newest min(limit, n) of the ledger events of that player and board |
| History.RefusedForGood | storage/player_history_store.go:36-40 | a batch with an id that does not fit stops the history consumer for good |
| Activity.ActivityStore.ApplyDailyCounts | storage/activity_store.go:21-34 | every count, whatever it was, grows by the number of sent events of that player in that day's milliseconds, up to 2^53 |
| Activity.CountIsTicks | storage/activity_store.go:25-29 | a stored count of player p on day d is the number of applied events of p with milliseconds from d * 86400000 up to (d + 1) * 86400000, up to 2^53 |
| Activity.CountIsDistinctPlusReapplied | storage/activity_store.go:20-34 | a count exceeds the distinct applied events by exactly the re-applications |
| Activity.CountsNeverLose | consumer/consumer.go:85-128 | over every run with crashes no event of the player and day up to the cursor is uncounted |
| Activity.CountsFromHead | storage/activity_store.go:20-34 | on every run the stored count is the number of applied events of the player in the day's milliseconds; by how much it exceeds the ledger's; and exactly when it is right |
| Activity.ExcessIsCrashTicks | consumer/consumer.go:118-126 | counts exceed the expected ones by exactly the ticks in hand at the crashes |
| Activity.CrashTicksBounded | consumer/consumer.go:118-126 | which are at most one batch per crash |
| Activity.NoCrashTicksIff | consumer/consumer.go:118-126 | and none exactly when no crash struck after a tick of that player and day in the batch in hand |
| Activity.CrashCountsTwice | storage/activity_store.go:20-34 | a run after which a day with one event shows two |
| Feed.ListEventsAfter | storage/event_repo.go:11-32 | the decoded page after the cursor, or the first error |
| Feed.PageFailsAtFirst | storage/event_repo.go:24-30 | a page that fails does so with its first entry that does not decode |
| Feed.HandleListEvents | handlers/event_handler.go:42-77 | which requests are rejected, the page, and the next cursor |
| Feed.IdIsCursor | handlers/event_handler.go:91-103 | an event's id is a valid cursor and names that id exactly when both halves fit 64 bits |
| Feed.FeedIsComplete | handlers/event_handler.go:65-74 | from any ledger and start, chaining cursors over any page sizes, appends and lost answers delivers every entry after the start up to the cursor once, decoded, in order |
| Feed.FeedOfLedger | storage/event_repo.go:11-32 | on a written ledger no page fails and the feed is the ledger after the start |
| Feed.PollAdvancesIff | storage/event_repo.go:24-30 | a poll advances exactly when the unread page is not empty and all of it decodes, and then by the whole page |
| Feed.FeedNeverPassesMalformed | storage/event_repo.go:24-30 | over every run the cursor of a feed never passes a malformed entry after its start |
| Feed.Ticker.BeginPoll | web/app.js:599-606 | single flight: no request while one is out, else one from the current cursor |
| Feed.Ticker.ReceivePage | web/app.js:607-624 | an arrived page moves cursor and rows as the reader's delivery does |
| Feed.Ticker.FailPoll | web/app.js:625-631 | a failed poll keeps cursor and rows and ends the flight |
| Feed.ShownStep | web/app.js:615-622 | putting a reversed page in front and cutting to 30 gives the newest 30 of everything received |
| Feed.TickerIsNewest | web/app.js:599-632 | after any run the rows are the newest, strictly newest first, and what is hidden is older |
| Client.WriteKeys.BeginSend | web/app.js:83-89 | the pending key of the payload, else the new one, is kept and carried by the request, as in the protocol's send |
| Client.WriteKeys.EndSend | web/app.js:91-93 | a success deletes the payload's key and a failure keeps it, as in the protocol |
| Client.SendStartsNewWriteIff | web/app.js:83-94 | a send starts a new logical write, under a new key, exactly when no write of its payload is pending; else it is that one's retry |
| Client.OneDelivery | storage/scripts/apply_score_event.lua:40-106 | a delivery without record makes and records one event or nothing; with a matching record it changes nothing and succeeds |
| Client.ExactlyOnce | web/app.js:83-94 | over lost, late and duplicated requests and any retries, no logical write makes two events or profiles, and one seen to succeed made exactly one |
| Client.EffectsAreStored | web/app.js:83-94 | also a write whose answer was lost is in the store with the content the user meant |
| Client.EffectsCountWrites | storage/scripts/create_player.lua:43-55 | a delivery changes the store by exactly the effects counted |
| Client.SuccessDropsOpenKeyIff | web/app.js:91-92 | exactly when a success deletes the key of another, unfinished write |
| Client.BusySendCanDuplicate | web/app.js:83-94 | from every state within the busy rule, every send that breaks it can be continued to a duplicate, if the server accepts the payload twice |
| Client.OverlapDuplicates | web/app.js:83-94 | overlapping calls that make one logical write two events |
| Refresh.SnapIsLastPage | web/app.js:685-687 | the snapped offset is the only page-aligned one whose page holds the last row |
| Refresh.SnappedPageHasRows | web/app.js:681-687 | an unchanged board size makes the snapped page non-empty |
| Refresh.Table.Refresh | web/app.js:665-674 | a refresh captures board, limit and offset under the next request id |
| Refresh.Table.SelectBoard | web/app.js:342-351 | the table is cleared and a refresh of the selected board starts at offset 0 |
| Refresh.Table.SetPageSize | web/app.js:521-525 | a refresh with the new page size starts at offset 0 |
| Refresh.Table.PrevPage | web/app.js:527-530 | the offset falls by one page, never below 0, and a refresh starts from it |
| Refresh.Table.NextPage | web/app.js:532-535 | the offset grows by one page and a refresh starts from it |
| Refresh.Table.ReceivePage | web/app.js:676-691 | the component follows the session's page arrival: stale, past the end, or on to the names |
| Refresh.Table.ReceiveNames | web/app.js:694-703 | the component follows the session's update of the table |
| Refresh.Table.Fail | web/app.js:704-708 | the component follows the session's failure |
| Refresh.LatestRequestWins | web/app.js:665-709 | updates have rising request ids; a latest request that is done and did not fail decides rows, total and offset for the board, limit and offset it captured: one page of what the board contained when it was served after the request began, at the captured offset, or if that was past the end of an earlier page of the request, at that one's last page, the last page of what is shown if the size is unchanged |
| Refresh.PastContentIff | web/app.js:681-685 | with scores in range, past the end means an offset at or beyond the board's size |

## Left out

- HTTP routing, JSON, middleware, the rate limiter, logging, health checks and environment parsing: plumbing without hard state.
- Validation of names and ids (an external library): only "not empty, no `:` and no `|`" is kept, also in the decoder's player check.
- Amounts as text other than whole decimal numbers: the decoder's reading of fractions and exponents is not part of the model, since the write path never appends them. For the same reason NaN, infinities and fractional scores are left out of zScoreToInt64.
- Creation times, calendar formats and time zones: a UTC day is milliseconds divided by 86400000, and an event's time is its id's milliseconds.
- Stream ids are pairs of numbers in entries and cursors; their text appears where the code parses it (packed index score, index members, feed cursors, records). XRANGE's error for the largest possible exclusive start is not modelled.
- Expiry of daily activity keys: counts are those before expiry.
- The board registry, board listing, profile reads, display names and the daily activity listing: lookups that would only add easy members.
- Failure of single Redis commands inside a script, replication and durability.
- Pipelined reads under concurrent writes (board size next to a range): readers are stated at one state.
- Concurrent administration of one board, which shares the scratch key, and several processes of one consumer.
- Ledger.DecodesIff: speaks of whole decimal amounts; ParseFloat also accepts fraction and exponent spellings.
- Ledger.DecodedIsFaithful: likewise; ParseFloat rounds a long fraction such as 1.00000000000000001 to a whole number and accepts it.
- Ledger.RoundedInRangeIsExact: likewise, of whole numbers.
- Race.RebuildIsRightIff: the events read replay within 440 times the score bound, so that every fold stays below 2^53; a ledger further out, which takes hundreds of writes on wrong projections, is not treated.
- Store.Store.RebuildProjection: one uninterrupted call; its interleaving with other clients is the step protocol of Protocol, which issues the same commands.
- Consumers.ViewConsumer.Run: a finite list of turns stands for the wait between retries and the cancellation.
- Feed.HandleListEvents: the events are returned as decoded, without their JSON form.
- Client.ExactlyOnce: holds while no record of the client's keys expires and no other client uses its random keys; after a reload of the page the key map is empty, which is a new client.
- Refresh.SnapIsLastPage: Math.ceil of a quotient is taken on whole numbers, which double division agrees with for totals below 2^53.
- The rest of the page: names next to rows, storage of cursor and rows in the browser (restoreTicker), themes, tools, forms.
