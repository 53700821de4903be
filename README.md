# Conversations: a verified model of the player strategies and the sweep tooling

The repository runs a multi-player conversation game. Each turn, every player
may propose one item from its memory bank (an id, a list of subjects, an
importance and an owner) or stay silent. The shared history is a list of items
and pauses. Items are scored for coherence with their neighbours, for freshness
after a pause, for monotony, and for the speaker's own subject preferences.

This Dafny project models:

- **Player 10's canonical delta scorer and its EWMA performance tracker** (`Scoring`).
- **The decision rules of the competing players.**
  - Player 0's greedy scorer (`Player0`).
  - Player 2's per-speaker ledger and subject buckets (`Player2`).
  - Player 2's inobservant strategy (`Inobservant`).
  - Player 5's reciprocal-rank fusion (`Player5`).
  - Player 6's trial-and-undo selection over the caller's history list (`Player6`).
  - Player 7's preference scan (`Player7`).
  - Player 9's history score and tiered threshold (`Player9`).
- **The simulation tooling around Player 10.**
  - The Monte Carlo sweep: its grid and seeds, the per-run metrics, the grouping and ranking of runs, and tolerant loading (`MonteCarlo`, `RunMetrics`, `SweepAnalysis`).
  - The configurable test framework and its builder (`TestFramework`, `Product`).
  - The command-line roster parser (`FlexibleRunner`).
  - The manual dashboard's labels, ranks and experiment loop (`ManualDashboard`, `ExperimentPlan`, `ManualExperiments`).
  - The data side of the Plotly dashboard (`DashboardBuilder`).
- **Two stand-alone scripts.**
  - `test_simulation.py`: roster building and grouping of scores by player type (`TestSimulation`).
  - Player 2's result summariser `process_json.py` (`ProcessJson`).

`Common` and `Sorting` hold the shared vocabulary:

- items and history slots;
- Python's insertion-ordered dictionaries, as sequences of key/value pairs;
- sums and means;
- Python's stable `sorted` and `max(..., key=...)`.

Scores are `real`. A Python call that can raise is modelled as an
`Outcome`, which is `Raises` or `Returns(value)`.

Code that works by changing things step by step is modelled imperatively:

- the tracker, the Player 2/5/7/9 objects, the test builder and the runners are classes;
- loops are methods with invariants, each proved equal to a reference function.

The properties are proved about those reference functions.

Where the repository's own description and its code disagree, the model
follows the code:

- **Coherence example.** The description's example (two items on subject 1, a
  pause, then a candidate on subject 1) is said to score coherence, but in
  `scoring.py` the pause ends the look-back and the context is empty, so the
  coherence is 0.
- **Repeated items.** A repeated item is described as losing one monotony
  point. `scoring.py` instead adds `MONOTONY_WEIGHT` (see Findings).
- **Manual dashboard ranks.** The docstring of `_rank_players` in
  `manual_dashboard.py` calls its ranks dense, but the code gives competition
  ranks (1, 2, 2, 4). `ManualDashboard.RankPlayers` models the code.
- **Monte Carlo merge.** `monte_carlo.py` contains an unresolved merge. The
  model follows the side before each `=======` marker, and its line numbers
  are the ones cited.

## Model

| member | source | states |
|---|---|---|
| Scoring.Smooth | players/player_10/scoring.py:54 | one EWMA step `mu + alpha*(delta - mu)` lands between the old mean and the sample |
| Scoring.Step | players/player_10/scoring.py:42-63 | `update` keeps both per-player dictionaries over the same players, adds one to the global count and adds the player to the keys |
| Scoring.TrustedMean | players/player_10/scoring.py:65-77 | the player's own mean once its count reaches MIN_SAMPLES_PID, otherwise the global mean |
| Scoring.StepGlobalMean | players/player_10/scoring.py:51-55 | the first sample sets the global mean; later samples smooth it |
| Scoring.StepPerPlayer | players/player_10/scoring.py:58-63 | a new player's mean is the sample and its count 1; a known player's mean is smoothed and its count raised; other players are untouched |
| Scoring.ReplayCounts | players/player_10/scoring.py:42-63 | after any sequence of updates the global count is the number of updates and each player's count is the number of its updates |
| Scoring.ReplayMeansBounded | players/player_10/scoring.py:42-63 | every mean the tracker holds stays within the bounds of the samples it saw |
| Scoring.TrustedMeanAfterReplay | players/player_10/scoring.py:65-77 | after any updates the trusted mean is the player's own mean exactly when it has at least MIN_SAMPLES_PID updates |
| Scoring.Tracker.constructor | players/player_10/scoring.py:33-40 | a fresh tracker has zero means, zero count and empty dictionaries |
| Scoring.Tracker.Update | players/player_10/scoring.py:42-63 | the fields change in place exactly as `Step` says and the tracker invariant is kept |
| Scoring.Tracker.GetTrustedMean | players/player_10/scoring.py:65-77 | returns the trusted mean of the current fields |
| Scoring.CountNotIn | players/player_10/scoring.py:138-141 | counts the subjects not seen before: zero iff all were seen, all iff none was |
| Scoring.Freshness | players/player_10/scoring.py:120-141 | zero at turn 0 or after a spoken turn; after a pause, the number of the item's subjects absent from the window before the pause |
| Scoring.RunBack | players/player_10/scoring.py:152-156 | the past context: consecutive items before the turn, at most the window, stopping at a pause |
| Scoring.RunForward | players/player_10/scoring.py:158-162 | the future context: consecutive items after the turn, at most the window, stopping at a pause |
| Scoring.CoherenceOf | players/player_10/scoring.py:164-178 | -1, 0 or 1: -1 iff some subject is missing from the context, +1 iff every subject occurs twice |
| Scoring.Coherence | players/player_10/scoring.py:144-178 | zero for an empty context; otherwise -1 iff a subject is missing and +1 iff every subject occurs twice |
| Scoring.MonotonyAsWritten | players/player_10/scoring.py:181-199 | as written: 1 iff the last three slots are items with some subject, whatever the candidate's subjects |
| Scoring.Monotony | players/player_10/scoring.py:181-199 | as intended: 1 iff the last three slots are items sharing a subject with the candidate; never above the as-written value |
| Scoring.MonotonyShadowingWitness | players/player_10/scoring.py:193-196 | a candidate sharing no subject with a three-item streak is penalised as written and not as intended |
| Scoring.IsRepeated | players/player_10/scoring.py:225-239 | true iff some non-pause slot carries the item's id |
| Scoring.CanonicalDeltaAsWritten | players/player_10/scoring.py:80-117 | zero for no item; a repeated item scores importance plus the monotony weight (the doubled sign) |
| Scoring.CanonicalDelta | players/player_10/scoring.py:80-117 | zero for no item; a repeated item scores importance minus the monotony weight; a new item scores between weighted importance - 2 and weighted importance + 1 + its number of subjects |
| Scoring.RepeatedDeltaSign | players/player_10/scoring.py:106-117 | a repeated item scores below its importance with the intended sign and above it as written, the gap being twice the weight |
| Scoring.DeltaAgreesWithoutStreak | players/player_10/scoring.py:111-117 | for a new item the two deltas agree whenever the monotony tests agree |
| Player0.CoherenceIn | players/player_0/player.py:82-109 | 0, 0.5 or 1: a one-subject item earns 0.5 for one mention and 1 for two or more; a two-subject item needs both subjects at the same level; nothing is earned against an empty context |
| Player0.Freshness | players/player_0/player.py:111-129 | 0 or 1: 1 exactly right after a pause when none of the item's first two subjects occurs among the items of the last five slots |
| Player0.Overused | players/player_0/player.py:132-141 | the item's subjects that occur at least three times among the last three slots |
| Player0.Nonmonotonousness | players/player_0/player.py:131-141 | never positive; zero iff fewer than three turns were played or no subject of the item occurs three times in the last three |
| Player0.Score | players/player_0/player.py:65-177 | fails exactly for an item without subjects (the coherence rule indexes `subjects[0]`) |
| Player0.RepeatedScore | players/player_0/player.py:143-177 | a repeated item scores twice its non-monotonousness minus one plus its individual bonus, never above zero |
| Player0.FreshScoreBounds | players/player_0/player.py:65-177 | a new item scores between twice (importance + non-monotonousness) and twice (importance + 3) |
| Player0.RepeatScanAsWritten | players/player_0/player.py:144-150 | as written: a match is a real match, and on a history without pauses the scan answers whether the id was said |
| Player0.AsWrittenAgreesWithoutPauses | players/player_0/player.py:65-177 | on a history without pauses the written scorer and the corrected one agree |
| Player0.ScoreAfterPauseWitness | players/player_0/player.py:112-120 | right after a pause the written scorer fails on the pause, while the corrected one awards the freshness point |
| Player0.Scores | players/player_0/player.py:191 | the (item, score) list fails iff some bank item has no subjects, and otherwise pairs each bank item with its score in order |
| Player0.Greedy | players/player_0/player.py:187-193 | None exactly for an empty bank; fails iff some item has no subjects |
| Player0.GreedyIsFirstBest | players/player_0/player.py:191-193 | the stable descending sort puts first the earliest bank item of greatest score |
| Player0.Threshold | players/player_0/player.py:31-62 | -1000 on an empty history; otherwise 0, failing iff some earlier item lacks subjects |
| Player0.ProposeSpec | players/player_0/player.py:15-24 | an empty bank never speaks; a proposal is a bank item of greatest score beating the threshold; on the first turn the best item is proposed when its score beats -1000 |
| Player0.RecentItems | players/player_0/player.py:73-80 | the reversed walk collects the up to three most recent items, stopping at a pause |
| Player0.IsRepeated | players/player_0/player.py:144-150 | the repetition scan answers whether the item's id was said before |
| Player0.SumDividedBy | players/player_0/player.py:154-157 | adding each subject's share of the bonus is sharing the total bonus |
| Player0.IndividualBonus | players/player_0/player.py:154-157 | the loop computes the mean preference bonus of the item's subjects |
| Player0.CalculateScore | players/player_0/player.py:65-177 | the method computes `Score` |
| Player0.CalculateGreedy | players/player_0/player.py:187-193 | the method computes `Greedy` |
| Player0.ScoreBank | players/player_0/player.py:191 | the scoring loop computes `Scores`, stopping at the first failing item |
| Player0.CalculateThreshold | players/player_0/player.py:31-62 | the method computes `Threshold` |
| Player0.ProposeItem | players/player_0/player.py:15-24 | the method computes `Propose` |
| Player2.Coherence | players/player_2/player.py:34-54 | -1, 0 or 1; with no item before `idx` (or a pause right before it) an item with subjects scores -1, as there is no empty-context guard |
| Player2.Freshness | players/player_2/player.py:56-71 | between 0 and the number of subjects; 0 at index 0 or after a spoken turn; right after a pause with no item before it, every subject counts |
| Player2.NonMonotonousness | players/player_2/player.py:73-82 | -1 or 0: -1 iff the id was said before `idx` or each of the last three items said shares a subject with the item; 0 with fewer than three earlier items and no repeat |
| Player2.GroupScore | players/player_2/player.py:88-92 | importance + coherence + freshness + non-monotonousness lies between importance - 2 and importance + 1 + the number of subjects |
| Player2.EntriesCount | players/player_2/player.py:84-95 | a player receives one group score per item of its own among the slots scanned |
| Player2.LedgerContents | players/player_2/player.py:84-96 | each call appends to every player's list exactly the group scores of its items in history order, so the list grows by the player's item count on every call; a player has a list iff it had one or owns an item |
| Player2.NegativePlayers | players/player_2/player.py:24-30 | exactly the players with a non-empty list whose mean is negative |
| Player2.SubjectKey | players/player_2/player.py:102 | the key is a rearrangement of the item's subjects |
| Player2.SubjectKeySorted | players/player_2/player.py:102 | the key is sorted ascending |
| Player2.BucketsSpec | players/player_2/player.py:100-105 | before sorting, keys are distinct, no bucket is empty and each key's bucket holds exactly the memory items with that key, in memory order |
| Player2.SubToItemSpec | players/player_2/player.py:99-108 | after sorting the same holds and buckets are ordered by size, largest first |
| Player2.WalkBack | players/player_2/player.py:37-44 | the backward while loop collects at most `limit` consecutive items, stopping at a pause |
| Player2.CoherenceScore | players/player_2/player.py:34-54 | the nested scorer computes `Coherence` |
| Player2.FreshnessScore | players/player_2/player.py:56-71 | the nested scorer computes `Freshness` |
| Player2.GroupScoreOf | players/player_2/player.py:88-92 | the loop body computes `GroupScore` |
| Player2.Player.constructor | players/player_2/player.py:7-17 | a new player holds its memory bank, the sorted buckets, no last proposal and an empty ledger |
| Player2.Player.InitSubToItem | players/player_2/player.py:99-108 | the method computes `SubToItem` of the memory bank |
| Player2.Player.Record | players/player_2/player.py:93-95 | appends the score to the owner's list (creating it) and changes nothing else |
| Player2.Player.GetGroupScoresPerTurn | players/player_2/player.py:32-96 | the ledger becomes `Ledger` of the old ledger and the history; nothing else changes |
| Player2.Player.GetNegativeScorePlayers | players/player_2/player.py:24-30 | the method computes `NegativePlayers` of the ledger |
| Inobservant.MostValuable | players/player_2/InobservantStrategy.py:42-45 | `max(..., key=...)` returns an item of the bucket whose score no other item beats |
| Inobservant.RemoveItemSpec | players/player_2/InobservantStrategy.py:68-71 | removal succeeds iff the bucket holds the item; it drops the item's first occurrence, deletes the bucket once empty, leaves other buckets alone and keeps the dictionary valid |
| Inobservant.DeleteBucket | players/player_2/InobservantStrategy.py:70-71 | `del` of an emptied bucket keeps the dictionary valid and leaves the other buckets alone |
| Inobservant.ReplaceBucket | players/player_2/InobservantStrategy.py:69 | a shrunk bucket replaces the old one in place, keeping the dictionary valid and the other buckets unchanged |
| Inobservant.KeepWhere | players/player_2/InobservantStrategy.py:84-85 | the filtered dictionary keeps exactly the buckets whose key passes the test |
| Inobservant.KeepWhereAll | players/player_2/InobservantStrategy.py:84-85 | a test that passes every key leaves the dictionary unchanged |
| Inobservant.FreshFilterAsWrittenKeepsAll | players/player_2/InobservantStrategy.py:78-85 | as written (items compared with subject numbers) the filter drops no bucket |
| Inobservant.FreshFilter | players/player_2/InobservantStrategy.py:77-85 | as its comment intends: surviving buckets come from the dictionary and their keys avoid every subject of the last five slots |
| Inobservant.LargestBucket | players/player_2/InobservantStrategy.py:89-94 | the scan settles on the first bucket of greatest size, and on nothing when all buckets are empty |
| Inobservant.LargestBucketSnoc | players/player_2/InobservantStrategy.py:91-94 | one more bucket takes over the scan only when strictly larger than the one held |
| Inobservant.PossibleCoherence | players/player_2/InobservantStrategy.py:104-112 | succeeds iff the dictionary and its first bucket are non-empty, and then proposes an item of the first bucket |
| Inobservant.FreshlySpec | players/player_2/InobservantStrategy.py:76-100 | on a valid non-empty dictionary the fresh proposal never raises, is an item of the dictionary, and comes from a bucket avoiding the recent subjects whenever one exists |
| Inobservant.FreshFilterWitness | players/player_2/InobservantStrategy.py:84-97 | a history on subject 2 then a pause: as written the subject-2 bucket is proposed from, corrected the subject-1 bucket |
| Inobservant.WitnessAsWritten | players/player_2/InobservantStrategy.py:84-97 | the as-written proposal in that example |
| Inobservant.WitnessRecent | players/player_2/InobservantStrategy.py:80-82 | the recent subjects in that example include 2 and not 1 |
| Inobservant.WitnessCorrected | players/player_2/InobservantStrategy.py:84-97 | the corrected proposal in that example |
| Inobservant.ProposeEmpty | players/player_2/InobservantStrategy.py:28-30 | an empty dictionary gives no proposal and changes nothing |
| Inobservant.AfterRemoval | players/player_2/InobservantStrategy.py:33-41 | after removing an accepted proposal the dictionary is valid and a remaining bucket of that key is one of its buckets |
| Inobservant.ProposeKeepsValid | players/player_2/InobservantStrategy.py:24-66 | every turn keeps the player's dictionary a valid bucket dictionary |
| Inobservant.ProposalIsRecorded | players/player_2/InobservantStrategy.py:24-66 | whatever is proposed is an item of the dictionary and becomes the last proposal |
| Inobservant.RecordedAfterAcceptance | players/player_2/InobservantStrategy.py:33-48 | the same after an accepted proposal was removed |
| Inobservant.ProposeRaises | players/player_2/InobservantStrategy.py:24-71 | on a valid dictionary a turn raises exactly when an accepted proposal is missing from the bucket of its own subjects |
| Inobservant.ContinueRaises | players/player_2/InobservantStrategy.py:50-66 | past the removal step a turn raises only through the fresh proposal after a pause |
| Inobservant.RemoveItemFromDict | players/player_2/InobservantStrategy.py:68-71 | the player's dictionary becomes `RemoveItem` of the old one for its last proposal; nothing else changes |
| Inobservant.ScanLargest | players/player_2/InobservantStrategy.py:89-94 | the loop computes `LargestBucket` |
| Inobservant.ProposeFreshly | players/player_2/InobservantStrategy.py:76-100 | computes `Freshly` on the player's dictionary and records a proposal as the last one |
| Inobservant.ProposePossibleCoherence | players/player_2/InobservantStrategy.py:104-112 | computes `PossibleCoherence` and records a proposal as the last one |
| Inobservant.ProposeItem | players/player_2/InobservantStrategy.py:24-66 | the answer and the player's new dictionary and last proposal are those of `Propose` |
| Player7.LastSlots | players/player_7/player.py:14 | `history[-3:]`: a suffix of the history of at most `n` slots, exactly `n` when there are enough |
| Player7.SeenCount | players/player_7/player.py:24-26 | counts the item's subjects mentioned in the last three slots: zero iff none is, all iff each is |
| Player7.Rating | players/player_7/player.py:23-26 | an item's rating lies between its importance and its importance plus its number of subjects |
| Player7.BestScored | players/player_7/player.py:20-29 | the running best starts at (None, 0) and its score never drops below 0 |
| Player7.BestScoredSpec | players/player_7/player.py:20-29 | no item is noted iff no eligible item rates above 0; otherwise the noted item is the first eligible item of greatest rating |
| Player7.FirstQualifying | players/player_7/player.py:43-46 | the position of the first bank item on the preference, not yet said and of importance above 0.5 |
| Player7.Find | players/player_7/player.py:40-46 | the first qualifying item over preferences in order, skipping the excluded ones; none iff no item qualifies for any preference scanned |
| Player7.PauseChoiceSpec | players/player_7/player.py:34-50 | the answer is a bank item; there is none exactly when the bank is empty or every preference is skipped |
| Player7.SkippedAsWritten | players/player_7/player.py:42 | as written, `p not in history[:-5]` compares a subject with slots and skips no preference |
| Player7.PauseChoiceAsWritten | players/player_7/player.py:34-50 | as written the answer is None only for an empty bank or no preferences; with no qualifying item it is the first bank item |
| Player7.RecencyGuardWitness | players/player_7/player.py:42-46 | a preference just talked about is served as written, and passed over with the recency guard the comment describes |
| Player7.WitnessServed | players/player_7/player.py:40-46 | in that example the unguarded search returns the subject-1 item |
| Player7.WitnessRecent | players/player_7/player.py:41-42 | in that example the recently mentioned subjects are {1} |
| Player7.WitnessSkipped | players/player_7/player.py:40-46 | in that example the guarded search returns the subject-2 item |
| Player7.WitnessSecondServed | players/player_7/player.py:43-46 | the subject-2 item qualifies once subject 1 is skipped |
| Player7.FindPassesOver | players/player_7/player.py:42 | a skipped preference leaves the search to the remaining preferences |
| Player7.FindServes | players/player_7/player.py:43-46 | a preference some item qualifies for is served by the first such item |
| Player7.Player.constructor | players/player_7/player.py:6-7 | a new player holds its memory bank and preferences and has contributed nothing |
| Player7.Player.RateItems | players/player_7/player.py:13-29 | the rating loops note the first eligible item of greatest positive rating |
| Player7.Player.ScanBank | players/player_7/player.py:43-48 | the inner loop returns the first qualifying item, having appended every item before it to `rejected` |
| Player7.Player.PauseScan | players/player_7/player.py:34-50 | the method computes `PauseChoice` |
| Player7.Player.ProposeItem | players/player_7/player.py:9-32 | appends the best-rated item (or None) to the contributed list and answers with the recency-guarded pause choice |
| Player5.IndividualScore | players/player_5/player.py:37-47 | between 0 and 1; 0 when no subject of the item is in the preferences |
| Player5.Pairs | players/player_5/player.py:71-78 | pairs each bank item with its score, in bank order |
| Player5.RankingHolds | players/player_5/player.py:76-83 | every bank item appears in each ranking, which has the bank's length |
| Player5.RankingOrdered | players/player_5/player.py:81-83 | each ranking is in descending order of its score |
| Player5.RankIn | players/player_5/player.py:86-91 | the rank map gives the 1-based position of the item's last occurrence in the ranking |
| Player5.Reciprocal | players/player_5/player.py:94-101 | `1 / (60 + rank)` is positive |
| Player5.ReciprocalDecreasing | players/player_5/player.py:94-101 | a better (smaller) rank gives a larger reciprocal term |
| Player5.RanksOf | players/player_5/player.py:89-91 | each of an item's three ranks lies in 1..n |
| Player5.FuseOrder | players/player_5/player.py:97-102 | an item ranked strictly ahead in all three rankings gets the higher fused score |
| Player5.FuseBounds | players/player_5/player.py:97-102 | a fused score lies between 4/(60+n) and 4/61 |
| Player5.FusedAt | players/player_5/player.py:97-102 | a bank item's fused score is `Fuse` of its three ranks, preferences weighted twice |
| Player5.ScoreDictSnoc | players/player_5/player.py:97-102 | each loop step puts one item's score into the dictionary |
| Player5.ScoreDictSpec | players/player_5/player.py:95-102 | the dictionary holds each bank item exactly once, under its own score |
| Player5.PickBestSpec | players/player_5/player.py:105 | nothing is picked iff the bank is empty; the pick is a bank item no bank item beats |
| Player5.ChoiceSpec | players/player_5/player.py:49-105 | the choice is a bank item whose fused score no bank item beats, and None iff the bank is empty |
| Player5.Player.constructor | players/player_5/player.py:12-35 | the bank is stored sorted by importance, highest first, and `best` is its head (None for an empty bank) |
| Player5.Player.ProposeItem | players/player_5/player.py:49-110 | returns the fused-score choice and removes its first occurrence from the bank; nothing is removed when nothing is chosen |
| Player5.ChooseItem | players/player_5/player.py:49-105 | computes the choice: None iff the bank is empty, otherwise a bank item |
| Player5.ChoiceFromTable | players/player_5/player.py:105 | the choice is the first key of greatest value in the filled dictionary |
| Player5.BuildRankings | players/player_5/player.py:66-83 | the loop and the three sorts build the shared, preference and importance rankings |
| Player5.FusedIsLookup | players/player_5/player.py:86-102 | the fused score of each bank item is the one read off the three rank maps |
| Player5.ScoreTable | players/player_5/player.py:95-102 | the loop fills the dictionary `ScoreDict` of the bank |
| Player5.InitSpec | players/player_5/player.py:26-28 | the sorted bank is a permutation of the items, importance non-increasing, headed by the first item of greatest importance |
| Player6.Freshness | players/player_6/player.py:13-22 | between 0 and the number of subjects; 0 at position 0 or after a spoken slot; after a pause, the subjects absent from the items of `history[max(0, i-6):i-1]` |
| Player6.ForwardSteps | players/player_6/player.py:32 | `range(i + 1, min(len([history]), i + 4))` is empty for every position, as `len([history])` is 1 |
| Player6.Coherence | players/player_6/player.py:24-46 | -1, 0 or 1, decided by the up to three items before the candidate alone; no context gives -1 for an item with subjects |
| Player6.Nonmonotonousness | players/player_6/player.py:48-64 | -1 iff the item is repeated or, from position 3 on, each of the last three slots is an item sharing a subject with it; otherwise minus the streak test of the game's scorer |
| Player6.PreferenceScore | players/player_6/player.py:66-80 | between 0 and 1; 0 for no item; otherwise the mean bonus of the subjects found in the preferences |
| Player6.CandidateScoreBounds | players/player_6/player.py:129-136 | a candidate scores between -3 and 1 + its number of subjects; a repeated one at most its number of subjects - 1, and at most -1 after a spoken slot |
| Player6.ItemPref | players/player_6/player.py:96-106 | -1 for an item without subjects, otherwise a mean bonus between 0 and 1 |
| Player6.FirstBest | players/player_6/player.py:108-110 | `max` over (preference, importance): no bank item is above the pick, and it is above every earlier item |
| Player6.Consider | players/player_6/player.py:146-153 | one step keeps the best or takes the candidate; a strictly higher score always takes it; a near tie takes it only when the score plus the preference beats the best |
| Player6.SelectRaises | players/player_6/player.py:123-155 | the selection fails exactly when some candidate has no subjects (division by zero) |
| Player6.SelectChoosesIff | players/player_6/player.py:123-157 | something is chosen iff some candidate scores above -0.1; with nothing chosen the best score stays -0.1; a chosen item is a bank item |
| Player6.SelectNearBest | players/player_6/player.py:146-153 | no candidate scores more than the final best plus 0.01 per candidate, as ties may let the best drift down |
| Player6.ConsiderNearBest | players/player_6/player.py:146-153 | one step lowers the best score by less than 0.01 and leaves it at least the candidate's score |
| Player6.ProposeSpec | players/player_6/player.py:85-158 | opening turn: None iff the bank is empty, else the first item liked best; later: fails iff some item has no subjects, chooses iff some candidate beats -0.1, and a choice is a bank item |
| Player6.HistoryList.constructor | players/player_6/player.py:85 | the list holds the caller's history |
| Player6.HistoryList.Append | players/player_6/player.py:128 | `history.append(item)` adds the slot at the end |
| Player6.HistoryList.Pop | players/player_6/player.py:155 | `history.pop(-1)` removes and returns the last slot |
| Player6.PreferenceOf | players/player_6/player.py:142-144 | the per-subject loop fails for an item without subjects and otherwise gives the mean bonus |
| Player6.ProposeLater | players/player_6/player.py:115-158 | computes `Propose` on a later turn; the caller's list is restored, except that a failure leaves the failing candidate appended |
| Player6.SelectPrefixRaises | players/player_6/player.py:123-155 | a failure among the first candidates is a failure of the whole selection |
| Player6.ProposeItem | players/player_6/player.py:85-158 | computes `Propose`; the caller's list is restored unless a candidate fails, which stays appended |
| Player9.TwoPausesImpliesOne | players/player_9/player.py:83-89 | two trailing pauses imply one; two pauses iff the history and the history without its last slot both end in a pause |
| Player9.RunForwardUntilSlots | players/player_9/player.py:176-179 | the forward context is read off consecutive slots after the candidate, none a pause and none equal to the candidate itself |
| Player9.Coherence | players/player_9/player.py:168-190 | -1, 0 or 1; an item with subjects and no neighbouring items gets -1 |
| Player9.CalculateHistoryScore | players/player_9/player.py:154-257 | the loop's running totals of coherence, freshness, importance, non-monotonousness and preference bonus sum to the slot-by-slot history score |
| Player9.PauseAddsNothing | players/player_9/player.py:220-222 | appending a pause leaves the history score unchanged |
| Player9.ItemScoreAfterPause | players/player_9/player.py:142-146 | at the start or right after a pause, the gain of saying an item is exactly what its own slot contributes |
| Player9.EarlierSlotsUnchanged | players/player_9/player.py:142-146 | after a pause, appending an item leaves every earlier slot's contribution unchanged |
| Player9.RepeatAfterPauseGainsNothing | players/player_9/player.py:224-227 | right after a pause, repeating an item already in the history never has a positive gain |
| Player9.ItemScoresAt | players/player_9/player.py:271-273 | the k-th pair is the k-th memory item with its gain over the history |
| Player9.Greedy | players/player_9/player.py:267-275 | None iff the memory bank is empty; otherwise an item of greatest gain with that gain, the first such in memory order |
| Player9.RemainingMemory | players/player_9/player.py:122-132 | at most the bank size and at least the bank size minus the history length |
| Player9.Tier | players/player_9/player.py:108-120 | for a non-negative start, between start/3 and start |
| Player9.TierMonotone | players/player_9/player.py:108-120 | a higher memory-per-turn ratio never gives a lower threshold |
| Player9.Threshold | players/player_9/player.py:98-120 | 2 right after a pause; -1000 on an empty history; otherwise the tier of the ratio |
| Player9.AdjustedStart | players/player_9/player.py:40-44 | changes only right after a pause with ratio above 1; a start of at least 1 stays between 1 and itself |
| Player9.Decide | players/player_9/player.py:54-69 | silent with no best item; otherwise proposes the best item iff its gain clears the threshold, or 0.1 after two pauses, or max(0, length/100) on the last turn |
| Player9.ScoreItems | players/player_9/player.py:271-273 | the loop's pairs are the memory items with their gains |
| Player9.GainOf | players/player_9/player.py:142-146 | the score of the history with the item appended minus the history score |
| Player9.Player.constructor | players/player_9/player.py:18-26 | the starting threshold is 1.8 and the bank, preferences, player count and length are the given ones |
| Player9.Player.CalculateGreedy | players/player_9/player.py:267-275 | the greedy best item of the memory bank |
| Player9.Player.ProposeItem | players/player_9/player.py:36-69 | the new starting threshold is the adjusted one and the proposal is the decision on the greedy best against the threshold computed from it |
| Player9.StartingThresholdBounded | players/player_9/player.py:40-44 | a starting threshold between 1 and 1.8 stays between 1 and 1.8 after any turn |
| Player9.ProposalIsGreedyBest | players/player_9/player.py:36-69 | silent with an empty bank; any proposal is a bank item whose gain no other bank item exceeds |
| RunMetrics.Lower | players/player_10/sim/monte_carlo.py:640 | the lower-cased class name has the same length as the class name |
| RunMetrics.GatherEntries | players/player_10/sim/monte_carlo.py:631-651 | the first pass yields one entry per raw player score, in order, with missing fields defaulted |
| RunMetrics.Entries | players/player_10/sim/monte_carlo.py:631-651 | one entry per raw player score |
| RunMetrics.CountAboveZero | players/player_10/sim/monte_carlo.py:657 | no total is strictly above a value iff the count of totals above it is zero |
| RunMetrics.RankSpec | players/player_10/sim/monte_carlo.py:653-658 | a present total's rank lies in 1..n; it is 1 iff no total exceeds it; a higher total has a strictly smaller rank and equal totals share a rank |
| RunMetrics.AssignRanks | players/player_10/sim/monte_carlo.py:656-658 | every entry gets 1 plus the number of totals strictly above its own |
| RunMetrics.BestTotal | players/player_10/sim/monte_carlo.py:655 | 0 with no players; otherwise a present total that no total exceeds |
| RunMetrics.RankedTotals | players/player_10/sim/monte_carlo.py:654-658 | ranking changes no entry's total |
| RunMetrics.RankedEntry | players/player_10/sim/monte_carlo.py:653-658 | every rank lies in 1..n and rank 1 goes exactly to the entries holding the best total |
| RunMetrics.RankedOrder | players/player_10/sim/monte_carlo.py:653-658 | a higher total gets a strictly better rank and ties share one |
| RunMetrics.LabelBase | players/player_10/sim/monte_carlo.py:661-668 | the suffix count is at least 1, and 1 (the bare class name) iff no earlier entry has the same class |
| RunMetrics.LabelsDistinct | players/player_10/sim/monte_carlo.py:661-668 | no two entries get the same label, so no metrics are overwritten |
| RunMetrics.LabelledUpTo | players/player_10/sim/monte_carlo.py:672-680 | the labelled dictionary pairs entry i's label with its value, one pair per entry |
| RunMetrics.LabelledDistinct | players/player_10/sim/monte_carlo.py:672-680 | the labelled dictionaries have distinct keys |
| RunMetrics.IdLabelsHas | players/player_10/sim/monte_carlo.py:670 | an id is mapped iff some entry carries it |
| RunMetrics.IdLabelsLast | players/player_10/sim/monte_carlo.py:670 | an id maps to the label of the last entry carrying it |
| RunMetrics.Player10Members | players/player_10/sim/monte_carlo.py:682-686 | an entry is collected for Player 10 iff it is an entry of class Player10 |
| RunMetrics.LabelEntries | players/player_10/sim/monte_carlo.py:661-686 | the labelling pass yields the labelled metrics, scores, id map and Player 10 entries |
| RunMetrics.CountContributions | players/player_10/sim/monte_carlo.py:689-696 | the count under each label is the number of items said by a speaker carrying that label; a speaker no player entry claims is counted under `Unclaimed(id)`, keyed by its whole id |
| RunMetrics.ContributionsSpec | players/player_10/sim/monte_carlo.py:698-700 | contributions have exactly the metrics' labels in order, each with the number of items said under it, 0 if none |
| RunMetrics.UniqueItems | players/player_10/sim/monte_carlo.py:755-758 | the set of ids of the items said |
| RunMetrics.UniqueItemsBound | players/player_10/sim/monte_carlo.py:755-758 | distinct items never outnumber the items said |
| RunMetrics.Player10Keyed | players/player_10/sim/monte_carlo.py:703-704 | with a Player 10 present, its bare label is among the score labels |
| RunMetrics.Player10Legacy | players/player_10/sim/monte_carlo.py:703-704 | with a Player 10 present, the score under `Player10` is the mean of the Player 10 totals |
| RunMetrics.PlayerScoresKeys | players/player_10/sim/monte_carlo.py:680-704 | the scores keep the metrics' labels in order |
| RunMetrics.Player10Bounds | players/player_10/sim/monte_carlo.py:682-713 | with Player 10 present, its mean total is at most the best total, its mean rank lies in 1..n and its mean gap to the best is non-negative |
| RunMetrics.ExtractResults | players/player_10/sim/monte_carlo.py:596-781 | the passes over the players and the history build the run record |
| RunMetrics.ExtractMetrics | players/player_10/sim/monte_carlo.py:661-700 | one metric per raw player, under distinct labels, and contributions keyed exactly by those labels |
| RunMetrics.ExtractRanks | players/player_10/sim/monte_carlo.py:653-680 | in the run record every rank lies in 1..n, no total exceeds the best, rank 1 iff the best total, higher totals rank strictly better and ties share a rank |
| RunMetrics.ExtractPlayer10 | players/player_10/sim/monte_carlo.py:702-778 | the Player 10 count is positive iff some metric is of class Player10; the three means are present iff it is; the legacy score equals the mean total, which is at most the best; the mean rank lies in 1..n and the mean gap is non-negative |
| RunMetrics.ExtractConversation | players/player_10/sim/monte_carlo.py:749-768 | pauses plus items said make the conversation length; early termination iff it is shorter than configured; unique items are at most the items said |
| MonteCarlo.SimConfig.constructor | players/player_10/sim/monte_carlo.py:38-57 | a configuration holds the given knobs, seed, roster, subjects, memory size and length |
| MonteCarlo.Keyed | players/player_10/sim/monte_carlo.py:244-252 | each result paired with its configuration's four-knob key, in order |
| MonteCarlo.LoadRun | players/player_10/sim/monte_carlo.py:457-479 | a loaded run keeps the saved totals and scores; absent optional fields load as an empty breakdown and metrics, no Player 10 means, 0 instances and a best total of 0 |
| MonteCarlo.LoadSaveRun | players/player_10/sim/monte_carlo.py:378-401 | loading a saved run gives back the run and its configuration |
| MonteCarlo.SavedPayload | players/player_10/sim/monte_carlo.py:404-407 | the saved payload wraps one entry per run |
| MonteCarlo.SaveThenLoad | players/player_10/sim/monte_carlo.py:404-452 | loading a saved payload gives back the metadata (empty if none) and every run with its configuration, in order, with no error |
| MonteCarlo.GridLength | players/player_10/sim/monte_carlo.py:192-197 | the grid has the product of the four list lengths as its size |
| MonteCarlo.GridMember | players/player_10/sim/monte_carlo.py:203-206 | a key is in the grid iff each of its four knobs is in its list |
| MonteCarlo.SweepKeysAt | players/player_10/sim/monte_carlo.py:203-225 | run s of grid point c is run c*n+s of the sweep |
| MonteCarlo.LastSeedsAt | players/player_10/sim/monte_carlo.py:207-225 | as written, every run of grid point c records the seed of that point's last run |
| MonteCarlo.LastSeedsCollide | players/player_10/sim/monte_carlo.py:221-224 | as written, with two or more runs per point the first two results record the same seed |
| MonteCarlo.SweepAsWritten | players/player_10/sim/monte_carlo.py:191-231 | as written: one result per grid point and repetition in order, each run on seed base+k but recording its point's last seed |
| MonteCarlo.Sweep | players/player_10/sim/monte_carlo.py:191-231 | corrected: one result per grid point and repetition in order, each recording the seed base+k it ran on, all seeds distinct |
| MonteCarlo.Simulator.constructor | players/player_10/sim/monte_carlo.py:90-94 | a new simulator has no results and empty metadata |
| MonteCarlo.Simulator.RunParameterSweepAsWritten | players/player_10/sim/monte_carlo.py:157-231 | as written: defaults [0.05] for missing knob lists and the p10/p0/p1/p2 roster; results as in the as-written sweep |
| MonteCarlo.Simulator.RunParameterSweep | players/player_10/sim/monte_carlo.py:157-231 | corrected: the stored results record distinct seeds base+k, each the one its run used |
| MonteCarlo.Simulator.AnalyzeResults | players/player_10/sim/monte_carlo.py:233-356 | the analysis of the stored results grouped by key |
| MonteCarlo.Simulator.SaveResults | players/player_10/sim/monte_carlo.py:359-412 | the payload holds the metadata (empty if none) and one saved entry per stored result; that metadata is remembered |
| MonteCarlo.Simulator.LoadResults | players/player_10/sim/monte_carlo.py:423-483 | a wrapped payload gives its runs and metadata, a bare list its runs and empty metadata; a malformed payload raises and leaves the stored results unchanged |
| SweepAnalysis.SampleVariance | players/player_10/sim/monte_carlo.py:783-790 | non-negative; the square of the sample standard deviation, 0 below two values |
| SweepAnalysis.MeanOfConstant | players/player_10/sim/monte_carlo.py:288-298 | a list of equal values has that value as its mean |
| SweepAnalysis.ConstantStat | players/player_10/sim/monte_carlo.py:289-298 | equal values give mean and both bounds that value, variance 0, count the length |
| SweepAnalysis.StatSpec | players/player_10/sim/monte_carlo.py:289-298 | count is the length; no values give the all-zero statistic; otherwise min and max are present values bounding all, with the mean between them and non-negative variance |
| SweepAnalysis.Column | players/player_10/sim/monte_carlo.py:264 | one value per run, in order |
| SweepAnalysis.PresentColumnSpec | players/player_10/sim/monte_carlo.py:266-279 | the present values are empty iff every run lacks the value; a lower bound on the present values carries over |
| SweepAnalysis.NonTotalValues | players/player_10/sim/monte_carlo.py:284-287 | no breakdown component named `total` is collected |
| SweepAnalysis.ComponentsSpec | players/player_10/sim/monte_carlo.py:282-287 | component lists have distinct keys, none `total`, each listing that component's values across the runs in order |
| SweepAnalysis.SummarySpec | players/player_10/sim/monte_carlo.py:303-345 | a summary carries its key; total-score count is the number of runs, bounded by min and max with the mean between; Player 10 stats empty iff no run has a Player 10 mean; non-negative gaps give non-negative gap stats; early-termination rate in [0,1]; no component named `total` |
| SweepAnalysis.GapStat | players/player_10/sim/monte_carlo.py:321 | non-negative gaps give a non-negative minimum and mean gap |
| SweepAnalysis.EarlyRate | players/player_10/sim/monte_carlo.py:334-335 | the early-termination rate lies between 0 and 1 |
| SweepAnalysis.GroupsSpec | players/player_10/sim/monte_carlo.py:244-252 | groups have distinct keys; a key has a group iff some run has it; the group lists that key's runs in order and is never empty |
| SweepAnalysis.GroupsBound | players/player_10/sim/monte_carlo.py:244-256 | never more groups than runs |
| SweepAnalysis.BestSorted | players/player_10/sim/monte_carlo.py:351-354 | the best list has min(5, n) entries in non-increasing mean score |
| SweepAnalysis.BestDominates | players/player_10/sim/monte_carlo.py:351-354 | the best list is drawn from the scores, and every score left out is at most every score kept |
| SweepAnalysis.BestDistinct | players/player_10/sim/monte_carlo.py:351-354 | distinct configurations stay distinct in the best list |
| SweepAnalysis.AnalyzeSpec | players/player_10/sim/monte_carlo.py:240-356 | no analysis iff there are no runs; otherwise the run count, one summary per distinct key (between 1 and the run count), each summarising exactly that key's runs |
| SweepAnalysis.AnalyzeBest | players/player_10/sim/monte_carlo.py:350-354 | at most five best configurations, distinct, in non-increasing mean score |
| SweepAnalysis.GroupRuns | players/player_10/sim/monte_carlo.py:244-252 | the loop builds the groups of the runs |
| SweepAnalysis.SummarizeGroups | players/player_10/sim/monte_carlo.py:262-348 | the loop yields the summary and the mean score of every group, in order |
| Product.CrossLength | players/player_10/sim/test_framework.py:302-329 | a cartesian product has one pair per combination |
| Product.CrossAt | players/player_10/sim/test_framework.py:302-329 | the pair at position i × (number of inner values) + j combines the i-th outer with the j-th inner value (nested-loop order) |
| Product.CrossMember | players/player_10/sim/test_framework.py:302-329 | a pair is in the product iff each half is in its list |
| Product.CrossSnoc | players/player_10/sim/test_framework.py:306-327 | one more outer value appends its row of pairs |
| Product.CrossLoop | players/player_10/sim/test_framework.py:304-329 | the nested appending loops build the cartesian product |
| TestFramework.TestBuilder.constructor | players/player_10/sim/test_framework.py:90-91 | a new builder holds the default configuration with the given name and description |
| TestFramework.TestBuilder.AltruismRange | players/player_10/sim/test_framework.py:93-98 | replaces only the altruism range and returns the same builder |
| TestFramework.TestBuilder.TauRange | players/player_10/sim/test_framework.py:100-105 | replaces only the tau range and returns the same builder |
| TestFramework.TestBuilder.EpsilonFreshRange | players/player_10/sim/test_framework.py:107-112 | replaces only the fresh-epsilon range and returns the same builder |
| TestFramework.TestBuilder.EpsilonMonoRange | players/player_10/sim/test_framework.py:114-119 | replaces only the mono-epsilon range and returns the same builder |
| TestFramework.TestBuilder.PlayerConfigs | players/player_10/sim/test_framework.py:121-124 | replaces only the rosters and returns the same builder |
| TestFramework.TestBuilder.AddPlayerConfig | players/player_10/sim/test_framework.py:126-129 | appends one roster and returns the same builder |
| TestFramework.TestBuilder.Simulations | players/player_10/sim/test_framework.py:131-134 | replaces only the simulation count and returns the same builder |
| TestFramework.TestBuilder.ConversationLength | players/player_10/sim/test_framework.py:136-139 | replaces only the conversation length and returns the same builder |
| TestFramework.TestBuilder.Subjects | players/player_10/sim/test_framework.py:141-144 | replaces only the subject count and returns the same builder |
| TestFramework.TestBuilder.MemorySize | players/player_10/sim/test_framework.py:146-149 | replaces only the memory size and returns the same builder |
| TestFramework.TestBuilder.MinSamplesRange | players/player_10/sim/test_framework.py:152-154 | replaces only the min-samples range and returns the same builder |
| TestFramework.TestBuilder.EwmaAlphaRange | players/player_10/sim/test_framework.py:156-158 | replaces only the EWMA-alpha range and returns the same builder |
| TestFramework.TestBuilder.ImportanceWeightRange | players/player_10/sim/test_framework.py:160-162 | replaces only the importance-weight range and returns the same builder |
| TestFramework.TestBuilder.CoherenceWeightRange | players/player_10/sim/test_framework.py:164-166 | replaces only the coherence-weight range and returns the same builder |
| TestFramework.TestBuilder.FreshnessWeightRange | players/player_10/sim/test_framework.py:168-170 | replaces only the freshness-weight range and returns the same builder |
| TestFramework.TestBuilder.MonotonyWeightRange | players/player_10/sim/test_framework.py:172-174 | replaces only the monotony-weight range and returns the same builder |
| TestFramework.TestBuilder.OutputDir | players/player_10/sim/test_framework.py:176-179 | replaces only the output directory and returns the same builder |
| TestFramework.TestBuilder.Build | players/player_10/sim/test_framework.py:181-183 | returns the configuration built so far |
| TestFramework.KnobsOf | players/player_10/sim/test_framework.py:310-327 | the six extended knobs of each nested pairing, in order |
| TestFramework.KnobGridLength | players/player_10/sim/test_framework.py:310-327 | the extended knob grid has the product of the six extended range sizes as its size |
| TestFramework.CombinationsLength | players/player_10/sim/test_framework.py:302-329 | the combinations number the product of all ten range sizes |
| TestFramework.KnobGridMember | players/player_10/sim/test_framework.py:310-327 | a knob setting is generated iff each of its six knobs is in its range |
| TestFramework.CombinationsMember | players/player_10/sim/test_framework.py:302-329 | a combination is generated iff each of its ten values is in its range |
| TestFramework.GenerateCombinations | players/player_10/sim/test_framework.py:302-329 | the ten nested loops build the full cartesian product in nested-loop order |
| TestFramework.DefaultCombinations | players/player_10/sim/test_framework.py:31-84 | the default configuration has 4 combinations: altruism 0, 0.2, 0.5 or 1 with margins 0.05 and the default extended knobs |
| TestFramework.PairsLength | players/player_10/sim/test_framework.py:294-300 | corrected: the count is the number of (combination, roster) pairs a test runs |
| TestFramework.CountAsWrittenAgrees | players/player_10/sim/test_framework.py:294-300 | the count as written agrees with the pairs run iff it is 0 or every extended range has exactly one value |
| TestFramework.CountAsWrittenExample | players/player_10/sim/test_framework.py:294-300 | as written, two min-samples values give a count of 4 for 8 pairs run |
| TestFramework.RunOfPair | players/player_10/sim/test_framework.py:228-255 | simulation s of pair g (counted from 1 as g+1) is run g·n+s and gets seed base+(g+1)·n+s |
| TestFramework.RunGroupAsWritten | players/player_10/sim/test_framework.py:254-257 | as written: n runs on seeds from the given one, all recording the group's last seed |
| TestFramework.RunGroup | players/player_10/sim/test_framework.py:254-257 | corrected: n runs, each recording the configuration and seed it ran with |
| TestFramework.RunCombinationAsWritten | players/player_10/sim/test_framework.py:227-257 | as written: one more group per roster, results as the as-written scheme says |
| TestFramework.RunCombination | players/player_10/sim/test_framework.py:227-257 | corrected: one more group per roster, each run recording its own configuration |
| TestFramework.TestRunner.constructor | players/player_10/sim/test_framework.py:189-193 | a new runner has no results |
| TestFramework.TestRunner.RunTestAsWritten | players/player_10/sim/test_framework.py:195-273 | as written: one result per pair and simulation in nested-loop order, run k on seed base+n+k but recording its group's last seed; the results are stored |
| TestFramework.TestRunner.RunTest | players/player_10/sim/test_framework.py:195-273 | corrected: one result per pair and simulation in nested-loop order, each recording the configuration it ran with; seeds pairwise distinct; the results are stored |
| FlexibleRunner.TrimStartSpec | players/player_10/tools/flexible_runner.py:57-58 | left-stripping removes exactly a prefix of stripped characters and leaves a kept first character |
| FlexibleRunner.TrimEndSpec | players/player_10/tools/flexible_runner.py:57-58 | right-stripping removes exactly a suffix of stripped characters and leaves a kept last character |
| FlexibleRunner.TrimEnds | players/player_10/tools/flexible_runner.py:28 | what `strip` leaves begins and ends with kept characters |
| FlexibleRunner.TrimClean | players/player_10/tools/flexible_runner.py:57-58 | a string whose end characters are kept is its own strip (strip is idempotent on clean keys) |
| FlexibleRunner.FirstWhereSpec | players/player_10/tools/flexible_runner.py:50-53 | the split point is the first `=` (or `:`): no earlier character is one |
| FlexibleRunner.SplitPieces | players/player_10/tools/flexible_runner.py:45 | no piece of `re.split(r"[\s,]+")` contains whitespace or a comma |
| FlexibleRunner.SplitConcat | players/player_10/tools/flexible_runner.py:45 | the pieces, joined, are the input with every whitespace and comma removed |
| FlexibleRunner.ShowNatValue | players/player_10/tools/flexible_runner.py:62 | the decimal form of a natural number reads back as that number |
| FlexibleRunner.ParseShow | players/player_10/tools/flexible_runner.py:62 | `int(str(n)) == n` for every integer |
| FlexibleRunner.ParseGrouped | players/player_10/tools/flexible_runner.py:62 | digits grouped by single underscores parse as the digits without them: `int("1_0") == int("10") == 10` |
| FlexibleRunner.PairOfKey | players/player_10/tools/flexible_runner.py:50-60 | every key a token yields is non-empty and stripped of whitespace and quotes |
| FlexibleRunner.PairOfShow | players/player_10/tools/flexible_runner.py:50-62 | a clean key written `key=value` yields that key and integer value |
| FlexibleRunner.KeyValuesLookup | players/player_10/tools/flexible_runner.py:47-65 | a key is in the result iff some token yields it, and it maps to the value of the last such token |
| FlexibleRunner.KeyValuesKeys | players/player_10/tools/flexible_runner.py:47-65 | the keys are distinct, non-empty and stripped of quotes |
| FlexibleRunner.ParseKeyValues | players/player_10/tools/flexible_runner.py:45-66 | the token loop builds the key/value dictionary of the pieces |
| FlexibleRunner.ReplaceQuotes | players/player_10/tools/flexible_runner.py:38 | every single quote becomes a double quote and nothing else changes |
| FlexibleRunner.QuoteKeysUnchanged | players/player_10/tools/flexible_runner.py:39 | with no `{`, `[` or `,` there is no key to quote |
| FlexibleRunner.QuoteKeysQuotes | players/player_10/tools/flexible_runner.py:39 | after `{`, `[` or `,` and optional whitespace, an identifier followed by optional whitespace and `:` is wrapped in double quotes, the whitespace before the colon is dropped, and the rest is repaired after the colon |
| FlexibleRunner.QuoteKeysCopies | players/player_10/tools/flexible_runner.py:39 | a character other than `{`, `[` and `,` is copied unchanged |
| FlexibleRunner.QuoteKeysPrefix | players/player_10/tools/flexible_runner.py:39 | text with no `{`, `[` or `,` is copied unchanged ahead of what the substitution makes of the rest |
| FlexibleRunner.RepairTwoKeys | players/player_10/tools/flexible_runner.py:36-40 | the form `{k1: v1, k2: v2}` with identifier keys and plain values is repaired into `{"k1": v1, "k2": v2}`: both keys quoted, nothing else changed |
| FlexibleRunner.RepairExample | players/player_10/tools/flexible_runner.py:25 | the documented example `{p10: 10, pr: 2}` is repaired into `{"p10": 10, "pr": 2}` |
| FlexibleRunner.ParsePlayerConfigString | players/player_10/tools/flexible_runner.py:20-66 | strict JSON first; else the repaired JSON; else the key/value pairs of the stripped input |
| FlexibleRunner.Parses | players/player_10/tools/flexible_runner.py:86-87 | one parse per player string, in order |
| FlexibleRunner.NonEmptySpec | players/player_10/tools/flexible_runner.py:88-91 | empty parses are dropped, nothing else: none kept is empty and none is kept iff all are empty |
| FlexibleRunner.ParsedRostersSpec | players/player_10/tools/flexible_runner.py:84-92 | the rosters kept are the non-empty parses, none iff every string parses empty |
| FlexibleRunner.CollectRosters | players/player_10/tools/flexible_runner.py:84-91 | the loop keeps the non-empty parses in order |
| FlexibleRunner.CoreRangesFields | players/player_10/tools/flexible_runner.py:73-81 | each core range is overridden only when supplied; the extended ranges, rosters, sizes, name, description, seed, flags and output directory are unchanged |
| FlexibleRunner.SizesFields | players/player_10/tools/flexible_runner.py:95-103 | each of the simulation count, conversation length, subjects and memory size is the value supplied when non-zero, else unchanged; the rosters, ranges, name, description, seed, flags and output directory are unchanged |
| FlexibleRunner.SimulationOptionsFields | players/player_10/tools/flexible_runner.py:83-103 | the rosters are the parses when `--player` strings were given and some parsed non-empty, else unchanged; each size is the value supplied when non-zero, else unchanged; the ranges and the fixed fields are unchanged |
| FlexibleRunner.KnobRangesFields | players/player_10/tools/flexible_runner.py:110-113 | the min-samples and EWMA ranges are overridden only when supplied; the weight ranges, core ranges, rosters, sizes, name, description, seed, flags and output directory are unchanged |
| FlexibleRunner.FirstWeightsFields | players/player_10/tools/flexible_runner.py:114-117 | the importance and coherence weight ranges are overridden only when supplied; the other extended ranges, core ranges, rosters, sizes, name, description, seed, flags and output directory are unchanged |
| FlexibleRunner.LastWeightsFields | players/player_10/tools/flexible_runner.py:118-121 | the freshness and monotony weight ranges are overridden only when supplied; the other extended ranges, core ranges, rosters, sizes, name, description, seed, flags and output directory are unchanged |
| FlexibleRunner.ExtendedOptionsFields | players/player_10/tools/flexible_runner.py:109-125 | the six extended ranges are overridden only when supplied; core ranges and sizes are unchanged |
| FlexibleRunner.CustomConfigSpec | players/player_10/tools/flexible_runner.py:69-127 | every field of the built configuration: each range is the one supplied or the default; the rosters are the non-empty parses if any, else the default; each size is the one supplied when non-zero, else the default; the name and description are the arguments; the output directory is the one supplied when non-empty, else the default; the seed and flags are the defaults |
| FlexibleRunner.ApplyCoreRanges | players/player_10/tools/flexible_runner.py:73-81 | the builder calls for the supplied core ranges |
| FlexibleRunner.ApplySimulationOptions | players/player_10/tools/flexible_runner.py:83-103 | the builder calls for the rosters and the supplied sizes |
| FlexibleRunner.ApplyKnobRanges | players/player_10/tools/flexible_runner.py:110-113 | the builder calls for the supplied min-samples and EWMA ranges |
| FlexibleRunner.ApplyWeightRanges | players/player_10/tools/flexible_runner.py:114-121 | the builder calls for the supplied weight ranges |
| FlexibleRunner.ApplyExtendedOptions | players/player_10/tools/flexible_runner.py:109-125 | the builder calls for the extended ranges and output directory |
| FlexibleRunner.CreateCustomTestFromArgsAsWritten | players/player_10/tools/flexible_runner.py:69-127 | as written: raises iff `--parallel` is given (the builder has no `parallel` method); otherwise the custom configuration |
| FlexibleRunner.CreateCustomTestFromArgs | players/player_10/tools/flexible_runner.py:69-127 | corrected: always the custom configuration, the parallel options ignored |
| ManualDashboard.CountedHas | players/player_10/tools/manual_dashboard.py:76-82 | the counter is bumped for a class other than Player10Agent iff some player has that class |
| ManualDashboard.AliasBase | players/player_10/tools/manual_dashboard.py:76-83 | a player is labelled `Player10` iff its class is Player10Agent; others get their class with a number from 1, and 1 iff no earlier player has that class |
| ManualDashboard.AliasesDistinct | players/player_10/tools/manual_dashboard.py:76-83 | no two players outside Player10's class get the same label |
| ManualDashboard.LabelMapHas | players/player_10/tools/manual_dashboard.py:83 | the map has an entry for exactly the ids of the players |
| ManualDashboard.LabelMapGet | players/player_10/tools/manual_dashboard.py:83 | an id maps to the label of the last player carrying it |
| ManualDashboard.BuildLabelMap | players/player_10/tools/manual_dashboard.py:71-85 | the counter loop fills the label map seat by seat |
| ManualDashboard.AboveZero | players/player_10/tools/manual_dashboard.py:97-98 | no total is above a value iff the count of totals above it is zero |
| ManualDashboard.RankPlayers | players/player_10/tools/manual_dashboard.py:88-102 | the loop over the totals sorted descending gives each label its competition rank |
| ManualDashboard.RankStep | players/player_10/tools/manual_dashboard.py:96-100 | in the sorted totals, the first and every strictly lower total get their 1-based position, and an equal total repeats the previous rank |
| ManualDashboard.RankTableKeys | players/player_10/tools/manual_dashboard.py:90-100 | the ranks have distinct labels in descending order of total |
| ManualDashboard.RankTableHas | players/player_10/tools/manual_dashboard.py:88-102 | exactly the labels with a total are ranked |
| ManualDashboard.RankOf | players/player_10/tools/manual_dashboard.py:88-102 | each label's rank is one plus the number of strictly higher totals |
| ManualDashboard.RankBounds | players/player_10/tools/manual_dashboard.py:88-102 | every rank lies between 1 and the number of players |
| ManualDashboard.RankOneIffBest | players/player_10/tools/manual_dashboard.py:96-100 | rank 1 goes to exactly the players holding the greatest total |
| ManualDashboard.RankOrder | players/player_10/tools/manual_dashboard.py:96-100 | a higher total gets a strictly better rank and equal totals share one |
| ManualDashboard.CompetitionNotDense | players/player_10/tools/manual_dashboard.py:88-102 | totals 3, 2, 2, 1 rank 1, 2, 2, 4: competition ranking, not the dense ranking the docstring names |
| ManualDashboard.RelabelDefined | players/player_10/tools/manual_dashboard.py:128-129 | the score loop raises a KeyError iff some entry's id has no label |
| ManualDashboard.RelabelHas | players/player_10/tools/manual_dashboard.py:128-143 | a label has a score iff some entry's id carries it |
| ManualDashboard.RelabelGet | players/player_10/tools/manual_dashboard.py:128-143 | a label holds the value of the last entry carrying it |
| ManualDashboard.RelabelMetrics | players/player_10/tools/manual_dashboard.py:135-142 | a label's metrics carry its class part, the label, its total and no rank yet |
| ManualDashboard.TabulateScores | players/player_10/tools/manual_dashboard.py:123-143 | the score loop raises iff some id is unlabelled, and otherwise builds the score and metrics tables |
| ManualDashboard.WithRanksKeepsFields | players/player_10/tools/manual_dashboard.py:146-147 | filling in ranks changes nothing but the rank |
| ManualDashboard.WithRanksRank | players/player_10/tools/manual_dashboard.py:146-147 | each ranked label receives the rank the ranking gives it |
| ManualDashboard.FillRanks | players/player_10/tools/manual_dashboard.py:145-147 | the loop writes every label's rank into its metrics |
| ManualDashboard.RanksCoverMetrics | players/player_10/tools/manual_dashboard.py:145-147 | every ranked label has a metrics entry to receive its rank |
| ManualDashboard.FirstPlayer10Spec | players/player_10/tools/manual_dashboard.py:191-197 | a Player10 individual score is found iff some entry is labelled Player10, and it is the first such entry's |
| ManualDashboard.BuildManualResult | players/player_10/tools/manual_dashboard.py:105-201 | the loops over seats, scores, ranks and history build the result, or raise where a lookup fails |
| ManualDashboard.ManualResultReturns | players/player_10/tools/manual_dashboard.py:128-199 | a result is built iff every score and contribution id has a label, some entry is Player10 and the breakdown has a total |
| ManualDashboard.ManualResultFields | players/player_10/tools/manual_dashboard.py:145-199 | the best total is the greatest score; gap = best − Player10 total ≥ 0; Player10's rank is its competition rank, in 1..n, and 1 iff the gap is 0 |
| ManualDashboard.ManualResultHistory | players/player_10/tools/manual_dashboard.py:156-200 | conversation length is the history length; early termination iff shorter than configured; pauses plus items said make the length; unique items at most the items said; one Player10 instance |
| ManualDashboard.UniqueItemsBound | players/player_10/tools/manual_dashboard.py:156 | distinct item ids never outnumber the items said |
| ManualDashboard.ManualResultMetrics | players/player_10/tools/manual_dashboard.py:134-147 | metrics have exactly the score labels, each with its class part, label, total and competition rank |
| ExperimentPlan.Player10Settings.constructor | players/player_10/tools/manual_dashboard.py:231 | the settings hold the given altruism probability |
| ExperimentPlan.GroupKey | players/player_10/tools/manual_dashboard.py:237 | the key is the roster name and a fixed-width altruism suffix |
| ExperimentPlan.GroupKeyInjective | players/player_10/tools/manual_dashboard.py:237 | distinct (roster, setting) pairs get distinct keys |
| ExperimentPlan.SeedRunsSpec | players/player_10/tools/manual_dashboard.py:240-259 | a group's runs succeed iff each seed's run does, giving one result per seed in seed order |
| ExperimentPlan.GroupsOfAt | players/player_10/tools/manual_dashboard.py:233-234 | roster i is run at 0.0 as group 2i and at 0.6 as group 2i+1 |
| ExperimentPlan.Summary | players/player_10/tools/manual_dashboard.py:264-270 | one mean and spread per key, in the keys' order |
| ExperimentPlan.SeedRunsStop | players/player_10/tools/manual_dashboard.py:240-259 | a raise on one seed ends the group's runs |
| ExperimentPlan.ExperimentsStop | players/player_10/tools/manual_dashboard.py:233-259 | a raise in one group ends the whole experiment |
| ExperimentPlan.RunSeeds | players/player_10/tools/manual_dashboard.py:240-259 | the seed loop appends each run's result and its total under the group key, or raises |
| ExperimentPlan.RunGroup | players/player_10/tools/manual_dashboard.py:234-259 | the altruism probability is set for the group, which then runs as the plan says |
| ExperimentPlan.RunRoster | players/player_10/tools/manual_dashboard.py:233-259 | one roster's two settings run in order; a raise leaves the probability at a setting |
| ExperimentPlan.RunExperiments | players/player_10/tools/manual_dashboard.py:228-270 | the nested loops give the planned results and the summary; on success the original altruism probability is restored |
| ExperimentPlan.ExperimentsReturns | players/player_10/tools/manual_dashboard.py:233-259 | the experiment succeeds iff every group's runs do |
| ExperimentPlan.ExperimentsResultCount | players/player_10/tools/manual_dashboard.py:228-259 | there are as many results per group as seeds |
| ExperimentPlan.ExperimentsResultAt | players/player_10/tools/manual_dashboard.py:228-259 | result g × (number of seeds) + k is the run of group g's roster on seed k at group g's setting |
| ExperimentPlan.GroupKeysDistinct | players/player_10/tools/manual_dashboard.py:233-238 | distinct roster names give distinct group keys |
| ExperimentPlan.ExperimentsAggregates | players/player_10/tools/manual_dashboard.py:238-259 | one aggregate per group, in order, holding that group's run totals |
| ExperimentPlan.SpreadBounds | players/player_10/tools/manual_dashboard.py:264-270 | the mean lies between the least and greatest total and the spread is non-negative |
| ExperimentPlan.SpreadOfConstant | players/player_10/tools/manual_dashboard.py:264-270 | equal totals have that total as mean and no spread |
| ManualExperiments.RunRecords | players/player_10/tools/manual_dashboard.py:249-257 | a run records the altruism setting and the seed it was given |
| ManualExperiments.RunOnce | players/player_10/tools/manual_dashboard.py:241-257 | an engine run on a roster and seed, turned into a result |
| ManualExperiments.RunManualExperiments | players/player_10/tools/manual_dashboard.py:204-270 | the planned runs over both rosters, both settings and 16 seeds, and their summary; the original altruism probability is restored on success |
| ManualExperiments.ManualExperimentsCounts | players/player_10/tools/manual_dashboard.py:213-259 | 64 results and 4 summarised groups, each of 16 totals under its key |
| DashboardBuilder.Collapse | players/player_10/tools/dashboard/builder.py:21 | every character left is a slug character: each run of other characters became one `-` |
| DashboardBuilder.CollapseSlug | players/player_10/tools/dashboard/builder.py:21 | a string of slug characters is unchanged by the substitution |
| DashboardBuilder.LowerSlug | players/player_10/tools/dashboard/builder.py:20 | a string with no upper-case letter is its own lower case |
| DashboardBuilder.SlugShape | players/player_10/tools/dashboard/builder.py:19-23 | the slug is non-empty, uses only `[a-z0-9_-]`, does not begin or end with `-`; None or the empty string give `run` |
| DashboardBuilder.SlugifyIdempotent | players/player_10/tools/dashboard/builder.py:19-23 | slugifying a slug returns it unchanged |
| DashboardBuilder.Distinct | players/player_10/tools/dashboard/builder.py:87-97 | the set of values as a duplicate-free list holding exactly the values seen |
| DashboardBuilder.Ascending | players/player_10/tools/dashboard/builder.py:100-101 | `sorted` gives a permutation of its input |
| DashboardBuilder.AscendingStrict | players/player_10/tools/dashboard/builder.py:100-101 | sorting the distinct values gives exactly them in strictly increasing order |
| DashboardBuilder.SamplesSpec | players/player_10/tools/dashboard/builder.py:89-95 | a (row, column, metric) sample is taken iff some result has all three values |
| DashboardBuilder.Grid | players/player_10/tools/dashboard/builder.py:102-111 | one row of cells per sorted row value, one cell per sorted column value |
| DashboardBuilder.BucketOf | players/player_10/tools/dashboard/builder.py:95 | the bucket filled for a (row, column) holds the metrics sampled there, in order |
| DashboardBuilder.FillBuckets | players/player_10/tools/dashboard/builder.py:86-97 | the first loop builds the buckets and the row and column sets of the samples |
| DashboardBuilder.ReadGrid | players/player_10/tools/dashboard/builder.py:102-111 | the nested loops read the grid of bucket means |
| DashboardBuilder.ComputeHeatmapData | players/player_10/tools/dashboard/builder.py:85-112 | the loops compute the heat map of the results |
| DashboardBuilder.SamplesEmpty | players/player_10/tools/dashboard/builder.py:93-94 | there are no samples iff every result lacks a row, column or metric |
| DashboardBuilder.HeatmapNone | players/player_10/tools/dashboard/builder.py:98-99 | the heat map is None iff every result lacks a row, column or metric |
| DashboardBuilder.RowsSpec | players/player_10/tools/dashboard/builder.py:96 | a row value is kept iff some result has it with a column and a metric |
| DashboardBuilder.ColsSpec | players/player_10/tools/dashboard/builder.py:97 | a column value is kept iff some result has it with a row and a metric |
| DashboardBuilder.HeatmapAxes | players/player_10/tools/dashboard/builder.py:100-112 | rows and columns are strictly increasing, are exactly the values of complete results, and the grid is rows × columns |
| DashboardBuilder.BucketSpec | players/player_10/tools/dashboard/builder.py:95 | a metric is in a cell's bucket iff some result has that row, column and metric |
| DashboardBuilder.HeatmapCell | players/player_10/tools/dashboard/builder.py:106-110 | a cell is None iff its bucket is empty, otherwise the bucket's mean, between its least and greatest value |
| DashboardBuilder.SortedDict | players/player_10/tools/dashboard/builder.py:129 | `dict(sorted(...))` is sorted, keeps its keys distinct and keeps every key's value |
| DashboardBuilder.PickedSpec | players/player_10/tools/dashboard/builder.py:117-126 | a value is picked for a key iff some result with that key has it |
| DashboardBuilder.CollectScoresByAltruism | players/player_10/tools/dashboard/builder.py:115-129 | the loop builds the altruism buckets |
| DashboardBuilder.ScoreBucketsSpec | players/player_10/tools/dashboard/builder.py:116-126 | a bucket exists iff some result at that altruism has a total or a Player10 score, and holds those values in order |
| DashboardBuilder.BucketHasScoredResult | players/player_10/tools/dashboard/builder.py:117-126 | every bucket comes from a result at that altruism with a score |
| DashboardBuilder.ScoresByAltruismNone | players/player_10/tools/dashboard/builder.py:127-128 | the result is None iff no result has both an altruism and a score |
| DashboardBuilder.ScoresByAltruismSpec | players/player_10/tools/dashboard/builder.py:129 | the buckets are in strictly increasing altruism, each holding the totals and Player10 scores of that altruism |
| DashboardBuilder.ScoresByAltruismKeys | players/player_10/tools/dashboard/builder.py:115-129 | a bucket exists for exactly the altruism values of results with a score |
| DashboardBuilder.Series | players/player_10/tools/dashboard/builder.py:153-160 | one series per component, in `COMPONENT_LABELS` order, one mean per altruism value |
| DashboardBuilder.FillComponentTotals | players/player_10/tools/dashboard/builder.py:133-149 | the loop adds every present component value to its sum and count |
| DashboardBuilder.AppendMeans | players/player_10/tools/dashboard/builder.py:155-160 | one altruism value more appends its mean to every series |
| DashboardBuilder.ReadSeries | players/player_10/tools/dashboard/builder.py:153-160 | the loops build the series of means |
| DashboardBuilder.ComputeComponentMeans | players/player_10/tools/dashboard/builder.py:132-161 | the loops compute the component means by altruism |
| DashboardBuilder.ComponentTotalsKeys | players/player_10/tools/dashboard/builder.py:133-149 | an altruism has sums iff some result at it has a component value |
| DashboardBuilder.ComponentTotalsAt | players/player_10/tools/dashboard/builder.py:148-149 | each sum and count is the sum and number of that component's values at that altruism |
| DashboardBuilder.ComponentMeansNone | players/player_10/tools/dashboard/builder.py:150-151 | the result is None iff no result has an altruism with a component value |
| DashboardBuilder.ComponentMeansAltruisms | players/player_10/tools/dashboard/builder.py:152 | altruism values are strictly increasing and exactly those with a component value |
| DashboardBuilder.ComponentMeansSeries | players/player_10/tools/dashboard/builder.py:152-161 | one series per component aligned with the altruism values, each entry the mean of its values there, 0 when there are none |
| DashboardBuilder.FillParetoGroups | players/player_10/tools/dashboard/builder.py:175-195 | the first loop tallies every result under its configuration key |
| DashboardBuilder.CollectPoints | players/player_10/tools/dashboard/builder.py:196-211 | the second loop makes a point of every group with a total and a Player10 sample |
| DashboardBuilder.AggregateParetoPoints | players/player_10/tools/dashboard/builder.py:164-215 | the loops compute the sorted Pareto points |
| DashboardBuilder.AddResultAt | players/player_10/tools/dashboard/builder.py:184-195 | one result adds to the tallies of its own key only |
| DashboardBuilder.ParetoTotalAt | players/player_10/tools/dashboard/builder.py:184-187 | a key's total tallies are the sum and count of the totals of the results with that key |
| DashboardBuilder.ParetoP10At | players/player_10/tools/dashboard/builder.py:188-191 | a key's Player10 tallies are the sum and count of its Player10 individual scores |
| DashboardBuilder.ParetoEarlyAt | players/player_10/tools/dashboard/builder.py:192-195 | a key's early tallies are the sum and count of its early-termination values |
| DashboardBuilder.ParetoGroupsKeys | players/player_10/tools/dashboard/builder.py:175-195 | groups have distinct keys; a group exists iff some complete-key result has a total, Player10 or early value |
| DashboardBuilder.KeyLeOrder | players/player_10/tools/dashboard/builder.py:214 | the tuple order on keys is a total order |
| DashboardBuilder.PointsOfSpec | players/player_10/tools/dashboard/builder.py:197-211 | a point comes from a group with total and Player10 samples, and every such group gives one |
| DashboardBuilder.PointsOfDistinct | players/player_10/tools/dashboard/builder.py:197-211 | groups with distinct keys give points with distinct keys |
| DashboardBuilder.PlottedKeySpec | players/player_10/tools/dashboard/builder.py:182-198 | a key is plotted iff some result with it has a total and some has a Player10 individual score |
| DashboardBuilder.ParetoNone | players/player_10/tools/dashboard/builder.py:212-213 | the result is None iff no key is plotted |
| DashboardBuilder.ParetoSpec | players/player_10/tools/dashboard/builder.py:196-215 | points strictly increase in (altruism, tau, fresh, mono) and are exactly one per plotted key, with mean total, mean Player10, mean early or None, and the run count |
| TestSimulation.DefaultPlayers | test_simulation.py:55-59 | `DEFAULT_PLAYERS` has exactly the fifteen default codes, each with count 0 |
| TestSimulation.DefaultPlayersDistinct | test_simulation.py:55-59 | the default codes are distinct |
| TestSimulation.ParsePlayerArgs | test_simulation.py:199-205 | the loop over `--player` pairs gives the configuration and the warned codes of the reference `Configure` |
| TestSimulation.ConfigureKeys | test_simulation.py:199-205 | the configuration always has exactly the default codes, in their order |
| TestSimulation.ConfigureCounts | test_simulation.py:201-203 | a known code's count is the count of its last pair, else its default |
| TestSimulation.ConfigureIgnored | test_simulation.py:201-205 | a code is warned about iff some pair names it and it is not a known code |
| TestSimulation.WarnedCodes | test_simulation.py:199-205 | `main` warns about exactly the unknown codes among the pairs |
| TestSimulation.CountSumZero | test_simulation.py:207-209 | counts that are never negative sum to zero exactly when all are zero |
| TestSimulation.LaunchPlayers | test_simulation.py:198-211 | configuring and validating give the reference `Launch` result and the warned codes |
| TestSimulation.LaunchFrom | test_simulation.py:207-211 | with non-negative counts, the total is zero iff no code receives a positive last count |
| TestSimulation.LaunchSpec | test_simulation.py:199-211 | no pairs stops with the no-players error; with non-negative counts, it stops iff every code's last count is zero |
| TestSimulation.Slots | test_simulation.py:104-105 | `[PLAYER_TYPES[t]] * count`: `count` copies of the code when it is a class code with positive count, else none |
| TestSimulation.BuildRoster | test_simulation.py:102-105 | the roster loop builds the reference `Roster` |
| TestSimulation.SlotsCount | test_simulation.py:104-105 | one code's slots hold that code `count` times and nothing else |
| TestSimulation.RosterCount | test_simulation.py:129-132 | a code appears in the roster as many times as its positive count, when it has a class, else never |
| TestSimulation.RosterMembers | test_simulation.py:129-132 | every roster entry is a configured code with a class |
| TestSimulation.RosterPrefix | test_simulation.py:129-132 | the roster of a prefix of the configuration is a prefix of the roster |
| TestSimulation.RosterOfArgs | test_simulation.py:199-205 | after parsing, a code's roster slots are its last positive count |
| TestSimulation.EntrySamples | test_simulation.py:155-157 | one entry gives one (type, score name, value) sample per score, in order |
| TestSimulation.OutputSamplesSpec | test_simulation.py:150-157 | a sample comes from a run iff some entry within the roster has scores holding it, typed by its roster slot |
| TestSimulation.SamplesSpec | test_simulation.py:143-157 | the samples of all runs are those of each run |
| TestSimulation.PoolAppend | test_simulation.py:143-157 | pooling two batches is pooling one after the other |
| TestSimulation.ValuesOfSpec | test_simulation.py:157 | a value is in a (type, name) list iff that sample was taken |
| TestSimulation.AddSampleAt | test_simulation.py:157 | one more sample touches only its own type's lists |
| TestSimulation.PoolKeys | test_simulation.py:140-157 | pooling adds exactly the types of the samples |
| TestSimulation.PoolLists | test_simulation.py:157 | pooling extends each (type, name) list by exactly its values, in order |
| TestSimulation.PoolDistinct | test_simulation.py:140-157 | the defaultdicts keep their keys distinct |
| TestSimulation.MedianSorted | test_simulation.py:167 | the values sorted for the median are ascending and a permutation |
| TestSimulation.MedianSplits | test_simulation.py:167 | for an odd count, the median is one of the values, with at most half above and at most half below |
| TestSimulation.StatsSpec | test_simulation.py:165-171 | min and max are values bounding all of them; mean and median lie between; the spread is non-negative; one value gives zero spread |
| TestSimulation.TypeStatsAt | test_simulation.py:162-172 | a score name has statistics iff its list is non-empty, and they are that list's statistics with its length as count |
| TestSimulation.AllStatsAt | test_simulation.py:160-163 | every pooled type gets its statistics table |
| TestSimulation.ColumnOf | test_simulation.py:178 | `[breakdown[key] for breakdown in ...]` has one value per run |
| TestSimulation.ColumnSpec | test_simulation.py:178 | the column raises `KeyError` iff some run lacks the key; otherwise it is each run's value |
| TestSimulation.Columns | test_simulation.py:177-178 | every column has one value per run |
| TestSimulation.MapValues | test_simulation.py:179-185 | the comprehension keeps the keys in order and maps each value |
| TestSimulation.Breakdowns | test_simulation.py:144 | one breakdown per run, in order |
| TestSimulation.ColumnsRaise | test_simulation.py:177-178 | the shared loop raises iff some key's column raises |
| TestSimulation.ColumnsAt | test_simulation.py:177-185 | otherwise each first-run key has its column, and only those keys |
| TestSimulation.ColumnsKeys | test_simulation.py:177 | with distinct keys, the columns come in the first run's key order |
| TestSimulation.MapValuesPut | test_simulation.py:179 | mapping after an assignment is assigning the mapped value |
| TestSimulation.MapValuesAt | test_simulation.py:179-185 | mapping keeps the keys and maps each key's value |
| TestSimulation.AddScores | test_simulation.py:156-157 | the innermost loop appends one entry's scores under its type |
| TestSimulation.AddEntries | test_simulation.py:150-157 | the loop over one run's entries pools them by roster slot |
| TestSimulation.CollectScores | test_simulation.py:139-157 | the loop over runs pools every sample and records every breakdown |
| TestSimulation.SummariseType | test_simulation.py:163-172 | the loop over one type's lists computes its statistics table |
| TestSimulation.SummariseTypes | test_simulation.py:160-172 | the loop over types computes all statistics tables |
| TestSimulation.Column | test_simulation.py:178 | the comprehension computes the reference column or raises |
| TestSimulation.SummariseShared | test_simulation.py:175-185 | the shared loop computes the reference shared summary or raises |
| TestSimulation.GroupScoresByPlayerType | test_simulation.py:125-191 | the whole function computes the reference `GroupScores` |
| TestSimulation.PooledValue | test_simulation.py:143-157 | a value is pooled under a type and name iff some run's entry in a slot of that type scored it |
| TestSimulation.TypeSummary | test_simulation.py:159-172 | a type and name have statistics iff some value was pooled, and they are the statistics of exactly those values |
| TestSimulation.BreakdownColumn | test_simulation.py:178 | the reference column has one value per run |
| TestSimulation.ColumnsOutcome | test_simulation.py:176-185 | with runs, the shared loop raises iff some key of the first run is missing in a run |
| TestSimulation.SharedOutcome | test_simulation.py:174-185 | no runs give an empty summary; it raises iff some first-run key is missing from some run |
| TestSimulation.ColumnIsReference | test_simulation.py:178 | the column is the reference column |
| TestSimulation.SharedKeys | test_simulation.py:176-185 | the summary has exactly the first run's keys, each with the statistics of its column |
| TestSimulation.SharedOrder | test_simulation.py:177 | the summary keeps the first run's key order |
| TestSimulation.GroupScoresOutcome | test_simulation.py:174-191 | the function raises iff the shared summary does; otherwise it counts the runs and returns that summary |
| ProcessJson.Bound | players/player_2/process_json.py:24 | `range(min(n, len))` never reaches past the list and is empty for a negative bound |
| ProcessJson.BuildNameMap | players/player_2/process_json.py:22-29 | the speaker loop builds the reference name map of the turns it visits |
| ProcessJson.NameMapSpec | players/player_2/process_json.py:26-29 | an id is named iff some visited turn has that id and a non-empty name; the last such turn's name wins |
| ProcessJson.NameMapDistinct | players/player_2/process_json.py:23-29 | the name map keeps its ids distinct |
| ProcessJson.FindPlayer2 | players/player_2/process_json.py:31-36 | the second loop finds the reference Player2 id of the turns it visits |
| ProcessJson.Player2IdAt | players/player_2/process_json.py:35-36 | the last turn spoken by `Player2` decides the id |
| ProcessJson.Player2IdSource | players/player_2/process_json.py:32-36 | without a `Player2` turn there is no id; an id found comes from a `Player2` turn |
| ProcessJson.CollectTotals | players/player_2/process_json.py:38-47 | the score loop keeps each visited entry's total in order and the scores of the last entry carrying the id |
| ProcessJson.OurScoresNone | players/player_2/process_json.py:46-47 | there are no scores exactly when the id is unknown or no visited entry carries it |
| ProcessJson.OurScoresAt | players/player_2/process_json.py:46-47 | the last entry carrying the id gives the scores |
| ProcessJson.LastSix | players/player_2/process_json.py:55 | `str(pid)[-6:]` is the last six characters, or all of a shorter string |
| ProcessJson.BuildLabels | players/player_2/process_json.py:52-57 | label `idx` is the name of entry `idx - 1`'s id |
| ProcessJson.LabelSpec | players/player_2/process_json.py:54-57 | an id no visited turn names gets an `Unknown-` label; otherwise its label is the name of the last turn naming it |
| ProcessJson.Indexed | players/player_2/process_json.py:50 | `enumerate(all_totals, start=1)` pairs every total with its index |
| ProcessJson.RankOrder | players/player_2/process_json.py:60 | there is one ranked index per total |
| ProcessJson.RankLeTotal | players/player_2/process_json.py:60 | the key `(-total, idx)` orders pairs totally |
| ProcessJson.RankOrderCovers | players/player_2/process_json.py:60 | every index 1..n is ranked |
| ProcessJson.RankOrderSpec | players/player_2/process_json.py:59-60 | the ranking is a permutation of 1..n by total descending, ties by lower index |
| ProcessJson.Split | players/player_2/process_json.py:61 | `split` always gives at least one piece |
| ProcessJson.SplitExtend | players/player_2/process_json.py:61 | text without the separator only extends the last piece |
| ProcessJson.SplitJoin | players/player_2/process_json.py:61 | labels without `>` are read back from the rankings string |
| ProcessJson.Summarise | players/player_2/process_json.py:19-73 | the script's loops compute the reference report |
| ProcessJson.ReportFields | players/player_2/process_json.py:63-71 | the Player2 fields are empty iff no Player2 id was found or no visited entry carries it, all three together; no Player2 turn gives empty fields |

## Left out

- Host engine (`Engine`, `engine.run`, the engine's shared-score calculation used by Player 5): foreign code. Its outputs are parameters of the model: a run function, or the shared score as a function of the item.
- Item generation, `random.seed`, `random.choice` and `random.randint`: nondeterminism. The seeds a script draws are inputs.
- Plotly, HTML and JS generation in `generate_dashboard`; `_format_stat`, `_format_number` and `_format_axis_value` in the dashboard builder: rendering and number formatting only.
- File and JSON I/O, `print`, timestamps, `tqdm` and `webbrowser`:
  - `save_results` is modelled as the payload it writes;
  - `load_results` is modelled on the decoded JSON value;
  - the CSV line of `process_json.py` is modelled as its fields.
- `argparse`: parsed arguments are inputs, and `int(...)` conversion of `--player` counts in `test_simulation.py` is not modelled (counts arrive as integers).
- `json.loads` in `flexible_runner.py`: the decoder is a parameter that returns `None` where `json.loads` raises.
- `sqrt` in `_calculate_std`, `statistics.stdev` and `statistics.pstdev`: floating point. The models keep the variance; `SweepAnalysis.SampleVariance`, `TestSimulation.StatsSpec` and the manual dashboard's spread state properties of the variance, not of its square root.
- `_create_players`, `_resolve_player_class` and the player registry: dynamic imports and reflection. A roster is a list of class names.
- `_update_player10_config` and `_reset_player10_config` in `monte_carlo.py`: they mutate another module's globals. The experiment loop of `manual_dashboard.py` models its one such setting as the `Player10Settings` object.
- `run_altruism_sweep` in `monte_carlo.py`, `run_multiple_tests`, the `create_*` preset functions of `test_framework.py` and the CLI `main` functions: drivers that only call the modelled core with fixed arguments.
- `execution_time` and other wall-clock fields of the run records.
- `Player2.propose_item`: it returns an `ObservantStrategy()` object, not an item, and the constructor calls `_choose_strategy`, which the file does not define. Only the ledger and the bucket dictionary are modelled, with the ledger update and the negative-player query that `propose_item` performs.
- `preferences.index(s)` raises `ValueError` for a subject missing from the preferences. Players 0 and 9, and Player 6 on later turns, would raise. `Common.IndexOf` instead returns the length of the list for a missing subject, so that subject's bonus is 0, as Player 6's opening turn and Player 5's filter make it.
- Player6.ProposeItem: the `except Exception` fallback of the opening turn (`memory_bank[-1]`) is not modelled; `max` over a non-empty bank with numeric keys does not raise. On later turns, an item without subjects makes the preference division raise, modelled as `Raises`. `len([history])` is 1, so the forward coherence loop never runs, as in the code.
- Player7.Player.ProposeItem: `subject_count[subject]` raises `KeyError` for a subject outside the preferences; the model counts every subject, which agrees with the code whenever the history and bank subjects are preferences.
- The inobservant strategy: `_get_imp_pref_score` is a parameter `score` of the strategy; `_propose_coherently` always returns `None` and is modelled as that.
- RunMetrics.ExtractConversation: `KeyError`s on malformed engine output are not modelled; the engine output is taken to have the fields the code reads.
- ProcessJson.Summarise: ids are strings, the `KeyError`s on `data['scores']['player_scores']` and `entry['id']` are not modelled, and the echoed arguments and CSV formatting are not modelled.
- TestSimulation.GroupScoresByPlayerType: the `'unknown'` fallback of `class_to_type` cannot occur (every roster code has a class). A missing `score_breakdown` key is modelled as `Raises`.
- TestSimulation.StatsSpec: `stdev` is kept as the sample variance.
- FlexibleRunner.ParseKeyValues: text is ASCII only. `IsSpace` is the ASCII whitespace of `str.strip` and `\s`, and `IsDigit` is `0`-`9`. Python also strips Unicode spaces such as U+00A0 and accepts Unicode decimal digits such as `٣` in `int`, so such tokens split or parse differently. Digits grouped by underscores (`1_0`) are modelled.
- FlexibleRunner.ParsePlayerConfigString: the key/value fallback inherits the ASCII-only whitespace and digits of `ParseKeyValues`, and the `\s` of the key-quoting substitution is ASCII whitespace too. The strict and repaired JSON paths use the decoder parameter.
- RunMetrics.Lower: lower-cases ASCII letters only. Python's `str.lower` also folds other letters, and can change the length (`'İ'.lower()` has two characters), so the same-length claim holds for the model only.
- DashboardBuilder.SlugShape: `strip` and `lower` are ASCII-only here, as in `RunMetrics.Lower`. A non-ASCII letter is replaced by `-` in both the model and the source, but Python may first fold it to an ASCII letter, and it strips Unicode whitespace.
- DashboardBuilder.LowerSlug: lower-casing is ASCII-only, as above.
- RunMetrics.CountContributions: a speaker no entry claims is counted under `Unclaimed(id)` with its whole id. `monte_carlo.py:694-695` labels it `Player_` plus the first 8 characters of the id's string form, so two unclaimed speakers whose ids share those 8 characters, or such a label equal to a class name, are merged there and kept apart here. Ids are numbers in this model, not strings.
- FlexibleRunner.SizesFields: the size options are `Option<nat>`, so a negative `--simulations`, `--conversation-length`, `--subjects` or `--memory-size`, which `argparse` accepts and `if args.simulations:` applies, is not representable. Zero or an absent option leaves the size unchanged, as in the code.
- FlexibleRunner.SimulationOptionsFields: negative sizes are not representable, as for `SizesFields`.
- FlexibleRunner.CustomConfigSpec: negative sizes are not representable, as for `SizesFields`. A missing `--description` is the empty string, while `TestBuilder(args.name, args.description)` keeps `None`.
- Integer widths: counts, indices and seeds are unbounded integers, as Python's are.
- `players/player_3/player.py`, the stub players and the analysis scripts are not part of this model.

## Findings

| source | as written | input that shows it | evidently intended | confidence | as-written member | corrected member |
|---|---|---|---|---|---|---|
| players/player_10/scoring.py:193-196 | the loop variable `item` shadows the candidate, so monotony is 1 whenever the last three slots are items with some subject | a candidate on subject 9 after three items on subject 1 | 1 only if each of the last three items shares a subject with the candidate | not executed | Scoring.MonotonyShadowingWitness | Scoring.Monotony |
| players/player_10/scoring.py:106-117 | a repeated item gets monotony −W, which is then subtracted, so it scores importance + W | any item already in the history | a repeated item loses the monotony weight | not executed | Scoring.RepeatedDeltaSign | Scoring.CanonicalDelta |
| players/player_2/InobservantStrategy.py:78-85 | the filter compares history items with subject numbers, so no bucket is ever dropped | a history on subject 2, then a pause, with buckets for subjects 2 and 1 | drop the buckets of recently mentioned subjects | not executed | Inobservant.FreshFilterWitness | Inobservant.FreshFilter |
| players/player_0/player.py:144-150 | the repeat scan reads `.id` of every slot, and a pause has none | any history holding a pause, e.g. `[None]` | skip pauses when looking for a repeat | not executed | Player0.ScoreAfterPauseWitness | Player0.Score |
| players/player_7/player.py:42-46 | `p not in history[:-5]` compares a subject with slots, so no preference is skipped | preferences [1, 2] after an item on subject 1 | skip preferences mentioned in the recent history | not executed | Player7.RecencyGuardWitness | Player7.PauseChoiceSpec |
| players/player_10/sim/monte_carlo.py:221-224 | one config object per grid point is mutated for each run, so every result records the point's last seed | two simulations per point | each result records the seed it ran with | not executed | MonteCarlo.LastSeedsCollide | MonteCarlo.Sweep |
| players/player_10/sim/test_framework.py:254-257 | the same aliasing in `run_test`: a group's results all record its last seed | a test with two simulations per pair | each result records its own seed | not executed | TestFramework.RunGroupAsWritten | TestFramework.TestRunner.RunTest |
| players/player_10/sim/test_framework.py:294-300 | `_count_combinations` multiplies only the four core ranges and the rosters | two min-samples values: count 4, but 8 pairs run | the number of (combination, roster) pairs run | not executed | TestFramework.CountAsWrittenExample | TestFramework.PairsLength |
| players/player_10/tools/flexible_runner.py:106-107 | `--parallel` calls `builder.parallel`, which `TestBuilder` does not define | any invocation with `--parallel` | honour or ignore the option without raising | not executed | FlexibleRunner.CreateCustomTestFromArgsAsWritten | FlexibleRunner.CreateCustomTestFromArgs |
