# Forged Alliance Forever lobby server: a verified model

This project models the matchmaker of the Forged Alliance Forever lobby server and the code around it in Dafny, and
proves what the server relies on: from a player's search to the match, the map, the result and the rating.

| files | what they model |
|---|---|
| `VetoTokens`, `VetoSystem`, `VetoWeights`, `VetoConfigs`, `VetoService` | map vetoes: caps, budgets, the dynamic cap and the weights of a match |
| `MapWeights`, `MapPool`, `MapChoice` | anti-repetition and the weighted choice of a map |
| `KarmarkarKarp`, `TeamMatchmaker`, `GameSelection` | building teams and choosing games |
| `MatchingGraph`, `StableMarriage`, `Matchmaking` | pairing opponents, and the matchmaker of a queue |
| `BucketTeams`, `BucketSingles` | grouping searches into teams, with rollback |
| `LadderState`, `LadderInvariants`, `LadderCommit`, `LadderPop`, `LadderEffects`, `LadderRuns`, `LadderBetween` | the search registry and the queue pops as a state machine, over all interleavings |
| `LadderService`, `LadderMatchmaking` | the service's methods on its fields, and a whole pop |
| `SpinLock`, `LadderLock` | the lock shared by all queues, and runs in which every pop takes it |
| `PlayerRatings` | cached ratings derived over initializer chains |
| `GameResults`, `GameRating` | voting on outcomes, and the way from a finished game to its ranks |
| `DependencyInjector` | building classes by parameter name |
| `Parties`, `PartyService` | party membership, with an accepted invite split where it waits |
| `QDataStream`, `QDataStreamMessages` | the legacy stream format |
| `Options`, `Lists`, `Searches`, `Sorting` | shared definitions |

## Conventions

- A class of the server whose methods change fields is a Dafny class (`LadderService`, `VetoService`,
  `StableMarriageSolver`, `SearchesBySize`, `PlayerRatings`, `GameResultReports`, `Game`, `DependencyInjector`,
  `PlayerParty`, `PartyService`, `SpinLock`); a loop is a method. Their contracts tie the new state to a function of the
  old one, and the laws are proved about these functions.
- Every stretch between two suspension points is one atomic transition. A pop of a queue has two: taking the snapshot, and
  everything after the matchmaker has answered. Anything may happen in between.
- Ratings and weights are real numbers. The game quality and the functions of the rating library are parameters; the
  quality of two searches is assumed symmetric and positive. Random choices are nondeterministic.
- The rating of newcomers comes from the configuration and is a parameter; its deviation is assumed to be above 250, as the
  caching of derived ratings needs it.
- Players and searches are distinct identities, given by numbers. A list that the server keeps sorted is modelled by
  stable insertion.
- Errors that the server raises are results (`Option`, `Result`, or a refused operation), unless only a programming error
  could raise them; then the method that could raise them is proved not to.

## Findings

- The dynamic cap is the smallest one that works although the code never compares its candidate with the current token
  value: a candidate that beats the next value cannot be below the current one.
- The comment in the queue says that the lock is needed for queueing in several queues at once. The invariant of the
  registry does not need it: it holds for all interleavings of pops of different queues. What the lock adds is that at most
  one list is with the matchmaker (`LadderLock.OnePopAtATime`). The lock itself can be released by any task; exclusion holds
  because a pop task releases it only after it has acquired it.
- The configuration check accepts a negative fixed cap, under which tokens add weight: `VetoWeights.NegativeCapExceeds` gives
  a configuration that passes it and a map of weight 2. Weights stay within 1 if and only if the cap is not negative or
  nobody in the match holds tokens on the maps (`VetoWeights.AtMostOneIff`).
- The check that all players of a match are still searching, called a failsafe in the code, never fails.
- `accept_invite` does not look at the recipient's party again after its wait. Members and mapping stay in agreement if and
  only if the recipient has no other party by then (`Parties.AcceptFinishIff`, with a counterexample in
  `Parties.AcceptCanBreak`). A connection handles one command after the other
  (`server/servercontext.py:220-223`), which rules the other case out.
- For a whole number as the fixed cap, and without a fixed cap, the configuration check is exact: it refuses nothing that would
  have been safe (`VetoConfigs`).
- A block of strings loses one empty string at its end, and nothing else.
- Rating the players of a game that is published as valid cannot fail; a game whose two players are on one team fails in the
  override and publishes nothing.

## Model

| member | source | states |
|---|---|---|
| VetoTokens.CalculateDynamicTokensPerMap | server/ladder_service/veto_system.py:211-254 | for a positive minimum the result is the smallest positive T with Σ max(0,(T−V)/T) ≥ M; it is 1 when the token-free maps alone suffice and 0 exactly when no positive T works |
| VetoTokens.DynamicCapUnique | server/ladder_service/veto_system.py:211-254 | that promise determines the answer |
| VetoTokens.CandidateAbove | server/ladder_service/veto_system.py:224-236 | a candidate that beats the next token value is never below the current one, although the code does not check it |
| VetoTokens.ZerosReach | server/ladder_service/veto_system.py:230-231 | when the token-free maps suffice every positive T works, so the answer 1 is a convention |
| VetoTokens.NonPositiveMinimum | server/ladder_service/veto_system.py:211-254 | for a minimum of zero or less every positive T works and there is no smallest one |
| VetoSystem.CapTokensGrants | server/ladder_service/veto_system.py:323-335 | a grant respects the cap per map, and a request is granted in full exactly when it fits the cap and the remaining budget |
| VetoSystem.AdjustVetoesForBracket | server/ladder_service/veto_system.py:298-320 | the loop computes the selection whose laws the next rows state |
| VetoSystem.AdjustedWithinLimits | server/ladder_service/veto_system.py:298-335 | an adjusted selection names only maps of the pool, keeps the cap on every map and stays within the budget |
| VetoSystem.GrantedInFull | server/ladder_service/veto_system.py:298-335 | requests that fit the caps and the budget are granted in full |
| VetoSystem.AdjustFixpoint | server/ladder_service/veto_system.py:298-335 | a selection is left alone if and only if it is within the limits |
| VetoSystem.WithheldForAReason | server/ladder_service/veto_system.py:298-335 | tokens are withheld only from a map at its cap or when the whole budget is spent |
| VetoSystem.ServedInOrder | server/ladder_service/veto_system.py:309-335 | maps are served in pool order: each gets the most that its request, its cap and what the maps before it left of the budget allow |
| VetoSystem.AdjustVetoes | server/ladder_service/veto_system.py:148-168 | the loop over the pools adjusts a whole selection |
| VetoSystem.AdjustAllBrackets | server/ladder_service/veto_system.py:148-168 | every pool's part is adjusted on its own, and nothing else is kept |
| VetoSystem.AdjustIdempotent | server/ladder_service/veto_system.py:148-168 | adjusting twice changes nothing more |
| VetoWeights.BudgetBound | server/ladder_service/veto_system.py:170-209 | the players of a match spend at most their budgets together |
| VetoWeights.DynamicCapReaches | server/ladder_service/veto_system.py:192-201 | the dynamic cap exists for every pool with enough maps, unless all maps must survive some vetoes |
| VetoWeights.FixedCapReaches | server/ladder_service/veto_system.py:257-280 | under a valid configuration with a fixed cap the budgets can remove only as many maps as the pool can spare |
| VetoConfigs.FixedCheckExact | server/ladder_service/veto_system.py:257-280 | with a whole number as cap and a positive minimum, the check lets a pool through if and only if no affordable spending takes the weights below the minimum |
| VetoConfigs.DynamicCheckExact | server/ladder_service/veto_system.py:257-280 | without a fixed cap, if and only if for every affordable spending some cap keeps the minimum |
| VetoWeights.FloorHolds | server/ladder_service/veto_system.py:170-209 | under a valid configuration the weights sum to at least the minimum, with a fixed and with a dynamic cap; under an invalid one nobody holds tokens |
| VetoWeights.ImpossibleSetup | server/ladder_service/veto_system.py:192-201 | the dynamic cap is 0 if and only if the pool is empty or smaller than the minimum |
| VetoWeights.AtMostOneIff | server/ladder_service/veto_system.py:203-209 | the exact condition under which no weight exceeds 1 |
| VetoWeights.CollectVetoes | server/ladder_service/veto_system.py:183-188 | every map gets the tokens that all players spent on it |
| VetoWeights.GenerateInitialWeights | server/ladder_service/veto_system.py:170-209 | weights are never negative, sum to at least the minimum under a valid configuration, are all at most 1 if and only if the fixed cap is not negative or nobody in the match holds tokens on the maps, and the vetoes are cancelled exactly in the impossible setup |
| VetoServiceModule.ExtractPoolsVetoConfig | server/ladder_service/veto_system.py:92-126 | the pool data lists every pool of every queue, with vetoes switched off where the configuration is invalid |
| VetoServiceModule.ConfigIn | server/ladder_service/veto_system.py:92-126 | no pool of any queue is missing from it |
| VetoServiceModule.ConfigOnly | server/ladder_service/veto_system.py:92-126 | and it lists nothing else |
| VetoServiceModule.ReducedIff | server/ladder_service/veto_system.py:67-81 | a player is told of a loss exactly if some map that is still in its pool has fewer tokens than were spent on it |
| VetoServiceModule.VetoService.SetPlayerVetoes | server/ladder_service/veto_system.py:128-146 | a well-formed selection is adjusted and stored, a malformed one changes nothing, and the player is told exactly when something was taken away |
| VetoServiceModule.VetoService.UpdatePoolsVetoConfig | server/ladder_service/veto_system.py:49-90 | with new pools every stored selection is adjusted again, and the players who lost tokens on a map that still exists are reported |
| VetoServiceModule.VetoService.GenerateInitialWeightsForMatch | server/ladder_service/veto_system.py:170-209 | stored selections are always adjusted, so every match of two full teams gets weights with the promised floor, and weights of at most 1 under the same exact condition |
| MapPool.TransferConserves | server/matchmaker/map_pool.py:63-70 | moving a map's weight to its targets keeps the total |
| MapPool.TransferShares | server/matchmaker/map_pool.py:63-68 | the source map is emptied, every target gains its share, and no other map is concerned |
| MapPool.ShareProportion | server/matchmaker/map_pool.py:68 | shares are in proportion to the initial weights |
| MapPool.TransferWeightProportionally | server/matchmaker/map_pool.py:63-70 | the loop over the targets does that |
| MapPool.ThresholdList | server/matchmaker/map_pool.py:40-44 | the thresholds are the configured ones first, and those lowered by the repetitions that stay below the last of them |
| MapPool.LoweredPart | server/matchmaker/map_pool.py:40-44 | where each lowered threshold stands in the list |
| MapPool.TargetsExactly | server/matchmaker/map_pool.py:40-61 | the receivers are exactly the unplayed maps that reach the first threshold any of them reaches; if none is reached, exactly the less played maps with enough weight for the difference in plays |
| MapPool.AntiRepetition | server/matchmaker/map_pool.py:29-78 | the total weight is conserved exactly and no weight becomes negative; a map ends at 0 if and only if it had no weight, or it was played and some unplayed map reaches a threshold or some less played map has enough weight for the difference; any other map loses nothing |
| MapPool.ApplyAntirepetitionAdjustment | server/matchmaker/map_pool.py:29-78 | the nested loops compute the weights that the row above speaks about |
| MapPool.FinalTotalPositive | server/matchmaker/map_pool.py:96-108 | with positive map weights the final total is positive if and only if some initial weight is |
| MapPool.PlayedVersion | server/matchmaker/map_pool.py:88-92 | a version counts as played as often as the map that has it |
| MapPool.ChooseMap | server/matchmaker/map_pool.py:80-108 | a chosen map belongs to the pool, had a positive weight, and was not a played map whose weight another one could take; the choice fails only for an empty pool or when no weight is left |
| MapChoice.ChooseMapForMatch | server/ladder_service/veto_system.py:170-209 | from the vetoes of a match to its map: under a valid configuration with a positive minimum, or with vetoes switched off, a map is always chosen |
| KarmarkarKarp.ReduceBounded | server/matchmaker/algorithm/team_matchmaker.py:220-231 | the rating of the last container lies between 0 and the largest single weight |
| KarmarkarKarp.SinglesDivideEvenly | server/matchmaker/algorithm/team_matchmaker.py:213-231 | an even number of single players with ratings from 0 to below 5000 always comes out as two teams of equal size |
| KarmarkarKarp.ReduceContainers | server/matchmaker/algorithm/team_matchmaker.py:220-231 | repeated differencing of the two largest containers ends with the container of the specification |
| KarmarkarKarp.OpenContainers | server/matchmaker/algorithm/team_matchmaker.py:237-258 | the two-stack unpacking puts every search on the side that its container tree says |
| KarmarkarKarp.RunKarmarkarKarp | server/matchmaker/algorithm/team_matchmaker.py:199-258 | the two teams together are a permutation of the input, their weights differ by exactly the last container's rating, and that lies between 0 and the largest weight when no weight is negative |
| TeamMatchmaker.PickNeighboringPlayers | server/matchmaker/algorithm/team_matchmaker.py:115-147 | the alternation ends and picks exactly the participants of the specification, or reports too few players |
| TeamMatchmaker.ParticipantsEffect | server/matchmaker/algorithm/team_matchmaker.py:115-147 | the participants contain the pivot, repeat nobody and fill at most two teams; if they do not fill them, no skipped search would have fitted |
| TeamMatchmaker.EarlierClaim | server/matchmaker/algorithm/team_matchmaker.py:128-147 | whoever has the earlier turn has the first claim: a search is passed over for one with a later turn only if it needed more places than were free |
| TeamMatchmaker.NearestFirst | server/matchmaker/algorithm/team_matchmaker.py:128-147 | on one side of the pivot the nearer search has the first claim |
| TeamMatchmaker.SinglesWindow | server/matchmaker/algorithm/team_matchmaker.py:128-147 | among single players the participants are a window around the pivot, with both sides equally long or the lower one longer by one unless one of them ends with the queue |
| TeamMatchmaker.FindMostBalancedFiller | server/matchmaker/algorithm/team_matchmaker.py:276-298 | the filler is the single player with the least imbalance |
| TeamMatchmaker.NoSingleNoSplit | server/matchmaker/algorithm/team_matchmaker.py:177-181 | a party that lacks one player cannot be completed at all without a single player |
| TeamMatchmaker.CompleteParty | server/matchmaker/algorithm/team_matchmaker.py:177-181 | the second branch completes the last party that lacks one player, or there is no even split |
| TeamMatchmaker.LastOfSize | server/matchmaker/algorithm/team_matchmaker.py:173-181 | the search that is taken from those of one size is the last of them among the participants |
| TeamMatchmaker.MakeTeams | server/matchmaker/algorithm/team_matchmaker.py:149-197 | on all three branches the result is an error or a partition with exactly team_size players on each side; which of the two is characterised |
| GameSelection.Collides | server/matchmaker/algorithm/team_matchmaker.py:342-369 | the set of used searches tells exactly whether a game collides with an accepted one |
| GameSelection.PickNoncollidingGames | server/matchmaker/algorithm/team_matchmaker.py:342-369 | accepted games share no search and are good enough, and every rejected eligible game shares a search with an accepted game of at least its quality |
| MatchingGraph.AddEdgeEffect | server/matchmaker/algorithm/stable_marriage.py:126-156 | adding an edge keeps edges symmetric, self-free and acceptable |
| MatchingGraph.BuildFull | server/matchmaker/algorithm/stable_marriage.py:126-156 | two searches are joined if and only if both accept the game; edges are sorted by quality |
| MatchingGraph.BuildFast | server/matchmaker/algorithm/stable_marriage.py:158-186 | edges are symmetric, self-free, sorted and acceptable to both sides; all acceptable pairs within the window are joined, and nobody further apart |
| MatchingGraph.WindowSize | server/matchmaker/algorithm/stable_marriage.py:173 | the window is the largest k with 4^k at most the number of searches, or 16 if there are fewer |
| MatchingGraph.FastWithinFull | server/matchmaker/algorithm/stable_marriage.py:126-186 | every edge of the fast graph is one of the full graph |
| MatchingGraph.RemoveIsolatedClosed | server/matchmaker/algorithm/stable_marriage.py:214-221 | dropping isolated nodes keeps all edges, and neighbours stay nodes |
| StableMarriage.ProposalEffect | server/matchmaker/algorithm/stable_marriage.py:56-73 | a proposal keeps the matches a self-free involution along edges, never lowers the number of pairs, and changes them only for a strictly higher total quality, exactly when the opponent is free or prefers the newcomer |
| StableMarriage.StableMarriageSolver.MatchUp | server/matchmaker/algorithm/matchmaker.py:31-39 | two searches become each other's match and are no longer unmatched |
| StableMarriage.StableMarriageSolver.Unmatch | server/matchmaker/algorithm/matchmaker.py:41-51 | both sides of a pair become unmatched |
| StableMarriage.StableMarriageSolver.ProposeTo | server/matchmaker/algorithm/stable_marriage.py:56-73 | the method carries out the proposal of the row above |
| StableMarriage.StableMarriageSolver.OneProposal | server/matchmaker/algorithm/stable_marriage.py:33-52 | the best untried opponent is popped and proposed to, with all of that effect |
| StableMarriage.NeverPaired | server/matchmaker/algorithm/stable_marriage.py:21-52 | after all rounds, of any two possible opponents one has been in a pair, because a search that never was has tried everybody |
| StableMarriage.WasMatched | server/matchmaker/algorithm/stable_marriage.py:33-54 | and who counts as having been in a pair was matched after some turn |
| StableMarriage.StableMarriageSolver.Find | server/matchmaker/algorithm/stable_marriage.py:15-54 | the rounds, as many as the largest number of possible opponents, end with the matching of all turns; it is proper, and empty only if no node has an edge |
| Matchmaking.RemoveDuplicates | server/matchmaker/algorithm/stable_marriage.py:112-118 | every pair is listed once |
| Matchmaking.PairsPartition | server/matchmaker/algorithm/stable_marriage.py:105-118 | listed pairs and unmatched searches together are a permutation of the searches |
| Matchmaking.FindOpponents | server/matchmaker/algorithm/stable_marriage.py:85-118 | every search is in one pair or unmatched, both sides of a pair accept each other, of two searches that are compared and accept each other one has been in a pair, and nobody is matched only if nobody that is compared could be |
| Matchmaking.BuildGame | server/matchmaker/algorithm/team_matchmaker.py:82-94 | a game is built around a search exactly if enough players are near and they divide evenly; it has those players, both teams are full, and the first team is the one the algorithm chooses |
| Matchmaking.PossibleGames | server/matchmaker/algorithm/team_matchmaker.py:78-94 | there is a candidate, with its own quality, for every search around which a game can be built, and no other |
| Matchmaking.RemoveMatched | server/matchmaker/algorithm/team_matchmaker.py:107-112 | exactly the searches of the matches leave the list |
| Matchmaking.FindTeams | server/matchmaker/algorithm/team_matchmaker.py:62-112 | a partition into matches with full teams and unmatched searches; the matches are games built around searches of the queue, and every game that could be built is bad, accepted, or shares a search with an accepted game of at least its quality |
| Matchmaking.Find | server/matchmaker/algorithm/team_matchmaker.py:62-112 | the same for every team size, single opponents included, with all that is said of either |
| BucketTeams.SearchesBySize.Uncombine | server/matchmaker/algorithm/bucket_teams.py:251-262 | all searches of a team go back to where they came from |
| BucketTeams.PlusMinus | server/matchmaker/algorithm/bucket_teams.py:251-262 | taking searches out and putting them back gives the same table |
| BucketTeams.SearchesBySize.MakeTeamForSearch | server/matchmaker/algorithm/bucket_teams.py:216-248 | a team has exactly `size` players, its searches leave the table, and each of them was the largest available one that fitted; without success such a choice has led to a team that nothing available completes, and the table is exactly as before; ends by (num_needed, try_size) |
| BucketTeams.MakeTeams | server/matchmaker/algorithm/bucket_teams.py:176-213 | every team is full, every search is in one team or left over, and no search of team size is left over |
| BucketSingles.Distribute | server/matchmaker/algorithm/bucket_teams.py:148-173 | team t gets exactly the places t, t+n, … of the rotated list, so that team sizes differ by at most one, and nothing is lost; it fails exactly with too few players for one team |
| BucketSingles.MakeBuckets | server/matchmaker/algorithm/bucket_teams.py:115-145 | whatever pivots are drawn, every search is in one bucket, and a bucket holds everybody near its pivot whom the buckets before it left |
| BucketSingles.TeamsOfBucket | server/matchmaker/algorithm/bucket_teams.py:86-97 | an even number of full teams per bucket, dealt out from a list sorted by rating, with fewer than two teams' worth of searches left |
| BucketSingles.NextTeams | server/matchmaker/algorithm/bucket_teams.py:101-110 | each turn over the rest deals out the first two teams' worth of it, or makes one team of the first searches, and goes on with what follows |
| BucketSingles.MakeTeamsFromSingle | server/matchmaker/algorithm/bucket_teams.py:59-112 | for n solo searches exactly n div size full teams and n mod size left over, for every random choice, every search in one place; teams are dealt out within buckets first, then in order from the sorted rest |
| BucketTeams.FindTeams | server/matchmaker/algorithm/bucket_teams.py:37-56 | all teams are full, and every search is in one team or left over |
| BucketTeams.Find | server/matchmaker/algorithm/bucket_teams.py:26-35 | down to the original searches: each is in exactly one match, one unmatched team, or no team; of two teams that are compared and accept each other one has been in a pair |
| LadderInvariants.CancelTwice | server/ladder_service/ladder_service.py:420-448 | cancelling one set of searches after another is cancelling both at once |
| LadderInvariants.CancelKeeps | server/ladder_service/ladder_service.py:420-466 | cancelling keeps the whole invariant |
| LadderInvariants.StartKeeps | server/ladder_service/ladder_service.py:379-405 | starting a search keeps it, for any party that fits the queue |
| LadderInvariants.RunTaskKeeps | server/matchmaker/matchmaker_queue.py:140-160 | so does the start of a search's task, even if the search was cancelled before |
| LadderInvariants.FinishTaskKeeps | server/matchmaker/matchmaker_queue.py:155-160 | and the clean-up at its end |
| LadderInvariants.PopKeeps | server/matchmaker/matchmaker_queue.py:173-187 | and the first half of a pop |
| LadderCommit.MarkKeeps | server/matchmaker/matchmaker_queue.py:245-277 | resolving two open searches with each other keeps it, the two waiting for delivery |
| LadderCommit.DeliverKeeps | server/ladder_service/ladder_service.py:490-524 | telling the players of a match keeps it, and takes exactly that match off the undelivered ones |
| LadderPop.AcceptedOrFailed | server/matchmaker/matchmaker_queue.py:189-197 | after any interleaving every search of the snapshot is in one accepted match or on the list of failures, once |
| LadderPop.AcceptedExactly | server/matchmaker/matchmaker_queue.py:252-268 | a proposed match goes through if and only if none of its searches was cancelled since the snapshot |
| LadderPop.FailsafeHolds | server/matchmaker/matchmaker_queue.py:256-268 | the last check before a match never fails: all its players are searching |
| LadderPop.CommitOutcome | server/matchmaker/matchmaker_queue.py:189-216 | the second half of a pop keeps the invariant, gives every search of the snapshot exactly one opponent or one more failed attempt, and all matched players have left every queue and wait for the game |
| LadderPop.CommitRegistry | server/ladder_service/ladder_service.py:503-514 | exactly the searches with a matched player leave the registry |
| LadderEffects.CancelEffect | server/ladder_service/ladder_service.py:420-466 | cancelling takes exactly these searches out of the registry, for all their players, and makes idle exactly the players who were searching and have none left |
| LadderEffects.StartEffect | server/ladder_service/ladder_service.py:379-405 | the players are registered with the new search in its queue, and exactly the searches they had in that queue are cancelled |
| LadderEffects.StartOnlyInQueue | server/ladder_service/ladder_service.py:378-381 | a new search leaves every registration and every search of the other queues alone |
| LadderEffects.TaskJoins | server/matchmaker/matchmaker_queue.py:148-160 | an open search is queued behind all others, one that was cancelled meanwhile is not |
| LadderEffects.PopEffect | server/matchmaker/matchmaker_queue.py:173-187 | the matchmaker is asked if and only if the waiting searches hold enough players for two teams; it gets exactly these searches and nothing else changes, and otherwise each of them fails once |
| LadderEffects.MarkEffect | server/matchmaker/matchmaker_queue.py:270-277 | both sides of a match are resolved with each other, and single players leave their queue at once |
| LadderEffects.DeliverEffect | server/ladder_service/ladder_service.py:490-524 | whoever plays the match starts a game; exactly the searches they were registered with leave the registry, and those outside the match are cancelled |
| LadderEffects.CommitEffect | server/matchmaker/matchmaker_queue.py:189-216 | the same for all matches of a pop together, with the queues, for every search that was not on the list and every player |
| LadderMatchmaking.SnapshotPlayable | server/matchmaker/matchmaker_queue.py:179-187 | what a queue hands out meets the matchmaker's requirements |
| LadderMatchmaking.ShortPop | server/matchmaker/matchmaker_queue.py:175-177 | with too few players every waiting search fails once and nothing else changes |
| LadderMatchmaking.TooFewPlayers | server/matchmaker/matchmaker_queue.py:175-177 | stopping early loses no match |
| LadderMatchmaking.FindMatches | server/matchmaker/matchmaker_queue.py:162-216 | a whole pop through the matchmaker, on the service's fields: with enough players the answer of the matchmaker to the list of all that wait is carried out; every search that waited has exactly one of the two outcomes; of fewer than 30 single players nobody of whom has cancelled, somebody is matched if two accept each other |
| LadderMatchmaking.SomebodyMatched | server/matchmaker/matchmaker_queue.py:173-197 | two single players who accept each other are enough for a match that goes through |
| LadderBetween.InterleavedPop | server/matchmaker/matchmaker_queue.py:173-216 | the same with any steps of the service, pops of other queues included, while the matchmaker works: its answer can still be used, and every search that waited at the beginning is matched if and only if it is in a proposed match that nobody has cancelled since, and has exactly one more failed attempt otherwise |
| LadderBetween.RunElsewhere | server/matchmaker/matchmaker_queue.py:224-237 | nothing but a queue's own pop changes the failed attempts of its searches or its list |
| LadderRuns.StepKeeps | server/ladder_service/ladder_service.py:326-466 | every transition of every queue and player keeps the invariant |
| LadderRuns.RunKeeps | server/ladder_service/ladder_service.py:326-524 | so does every run, for all interleavings |
| LadderRuns.Safety | server/ladder_service/ladder_service.py:379-466 | in every reachable state all members of a registered search agree on it, registered searches are the open ones, and a player is searching if and only if they have a registered search |
| LadderRuns.NeverDeliveredTwice | server/ladder_service/ladder_service.py:490-524 | between two deliveries of a player lies a new start of a search |
| LadderRuns.ResolvedOnce | server/matchmaker/search.py:239-271 | whatever a run does later, a resolved search keeps its result |
| LadderLock.OnePopAtATime | server/matchmaker/matchmaker_queue.py:162-187 | over every run in which the pop tasks go from acquiring the lock to releasing it, a list is with the matchmaker only while its task is the only one past the lock, so there is at most one |
| LadderLock.ReleaseSucceeds | server/asyncio_extensions.py:89-96 | in such runs only the holder releases the lock, so the release never fails |
| LadderLock.LockedRun | server/asyncio_extensions.py:145-160 | what the service does under the lock is one of its runs without it, so all that is proved of those runs holds |
| LadderServiceModule.LadderService.ClearSearch | server/ladder_service/ladder_service.py:450-466 | a search leaves the registry for all its players, whose entries are all there |
| LadderServiceModule.LadderService.CancelSearchIn | server/ladder_service/ladder_service.py:420-448 | and is cancelled; exactly the players who lose their last search become idle |
| LadderServiceModule.LadderService.CancelSearch | server/ladder_service/ladder_service.py:407-418 | exactly the searches the player takes part in, in one queue or in all, as one transition |
| LadderServiceModule.LadderService.OnConnectionLost | server/ladder_service/ladder_service.py:777-785 | a player who disconnects leaves no search behind |
| LadderServiceModule.LadderService.GracefulShutdown | server/ladder_service/ladder_service.py:787-795 | all searches are cancelled, their players are idle, and no new searches are allowed |
| LadderServiceModule.LadderService.StartSearch | server/ladder_service/ladder_service.py:326-405 | refused while disabled or timed out, else the players' old searches in the queue, and only in this queue, give way to the new one |
| LadderServiceModule.LadderService.OnMatchFound | server/ladder_service/ladder_service.py:490-524 | the player-by-player loop, which may set other members idle on the way, equals the delivery of the whole match, player by player and search by search |
| LadderServiceModule.LadderService.RunSearch | server/matchmaker/matchmaker_queue.py:140-160 | the task pushes an open search into its queue, behind all others |
| LadderServiceModule.LadderService.FinishSearch | server/matchmaker/matchmaker_queue.py:155-160 | the task takes a resolved search out of it, and no other |
| LadderServiceModule.LadderService.RegisterUnmatched | server/matchmaker/matchmaker_queue.py:224-237 | one more failed attempt for every listed search |
| LadderServiceModule.LadderService.BeginPop | server/matchmaker/matchmaker_queue.py:173-187 | the first half of a pop: the matchmaker is asked exactly if there are enough players, with exactly the searches that wait; otherwise each of them fails once |
| LadderServiceModule.LadderService.SetResults | server/matchmaker/search.py:239-258 | the futures of a side are resolved, none of them a second time |
| LadderServiceModule.LadderService.TryMatch | server/matchmaker/matchmaker_queue.py:245-277 | two sides are matched if and only if none of their searches is cancelled, as the other checks cannot fail; then exactly their searches are resolved, each with the other side |
| LadderServiceModule.LadderService.MarkMatches | server/matchmaker/matchmaker_queue.py:189-195 | the loop over the proposals separates matches from failures |
| LadderServiceModule.LadderService.FinishPop | server/matchmaker/matchmaker_queue.py:189-216 | the second half of a pop as one transition, with its effect on everybody who was not on the list |
| SpinLockModule.SpinLock.TryAcquire | server/asyncio_extensions.py:78-87 | a task enters exactly if the flag is not set, and then it is the only one inside |
| SpinLockModule.SpinLock.Release | server/asyncio_extensions.py:89-96 | releasing fails exactly on a free lock; it takes only the releasing task out, so exclusion survives if and only if the holder releases |
| PlayerRatingsModule.WalkDerived | server/rating.py:126-143 | the rating computed afresh is the nearest explicit one up the chain of initializers, widened once, or the default, on cyclic chains too |
| PlayerRatingsModule.WidenEffect | server/rating.py:140-143 | widening keeps the mean and adds 150 to the deviation, up to 250, unless it is beyond that already |
| PlayerRatingsModule.UncachedStep | server/rating.py:126-143 | one step up the chain: an explicit rating is widened, a derived one passed on |
| PlayerRatingsModule.PlayerRatings.Set | server/rating.py:89-96 | exactly one explicit rating changes |
| PlayerRatingsModule.PlayerRatings.Get | server/rating.py:98-99 | after any history the answer is the rating computed afresh, and asking changes no later answer |
| PlayerRatingsModule.PlayerRatings.GetWithHistory | server/rating.py:101-124 | the same in the middle of a chain; ends because the unvisited leaderboards become fewer |
| PlayerRatingsModule.PlayerRatings.GetInitialRating | server/rating.py:126-143 | a missing rating is derived correctly from the initializer's cached one |
| PlayerRatingsModule.PlayerRatings.Update | server/rating.py:145-152 | ratings of a plain dictionary become explicit |
| PlayerRatingsModule.PlayerRatings.UpdateWithTransient | server/rating.py:145-152 | ratings of another cache keep their kind: explicit ones are taken over, derived ones are derived again; a cache updated from itself makes all its entries explicit |
| DependencyInjectorModule.OrderedAcyclic | server/core/dependency_injector.py:101-156 | a graph that can be put in order has no cycle |
| DependencyInjectorModule.FindCycle | server/core/dependency_injector.py:133-136 | names that all depend on each other contain a real cycle |
| DependencyInjectorModule.BuildLeaf | server/core/dependency_injector.py:139-152 | a class is constructed from resolved parameters, once, unless an object of its name was given |
| DependencyInjectorModule.BuildClassesFromDependencies | server/core/dependency_injector.py:101-156 | ends, and succeeds if and only if every dependency is known and there is no cycle; each class without a given object is constructed exactly once after its parameters; missing dependencies are reported exactly if there are any, else names with a real cycle |
| DependencyInjectorModule.DependencyInjector.BuildClasses | server/core/dependency_injector.py:63-82 | instances become available to later calls; a failed call leaves nothing behind and reports what is missing, or names with a real cycle if nothing is |
| GameResults.WinnerUnique | server/games/game_results.py:117-149 | a decided outcome has strictly more distinct voters than any other |
| GameResults.DecisionOfSet | server/games/game_results.py:117-149 | the decision depends neither on the order of the reports nor on repetitions |
| GameResults.TopDecides | server/games/game_results.py:138-149 | the two outcomes with the most voters decide, however ties are broken |
| GameResults.ComputeOutcome | server/games/game_results.py:117-149 | counting and sorting arrive at the decision, whose definition knows no names |
| GameResults.GameResultReports.Add | server/games/game_results.py:98-101 | one more report for one army |
| GameResults.GameResultReports.Outcome | server/games/game_results.py:103-115 | after any interleaving the cached outcome is the one computed afresh |
| GameRating.ResolvedIff | server/games/game_results.py:239-303 | a game resolves if and only if there are two teams that do not contradict each other, and then one team won and the other lost or both drew |
| GameRating.ResolveSymmetric | server/games/game_results.py:239-303 | the order of the teams does not matter |
| GameRating.TeamSetsPartition | server/games/game.py:290-311 | the team sets are disjoint, not empty, cover the players, and are at most as many |
| GameRating.SameTeamIff | server/games/game.py:301-311 | two players are on one side exactly if they have the same team number, which players for themselves do not share |
| GameRating.GetTeamSets | server/games/game.py:290-311 | fails exactly if a player has no team, else groups by team in order of appearance, players of no team alone |
| GameRating.Game.OutcomeOverrideHook | server/games/ladder_game.py:75-90 | in an overridden game of two the scores decide; a single team makes it fail |
| GameRating.Game.DecideOutcomes | server/games/game.py:523-532 | outcomes by override or resolution; a game that cannot be resolved does not stay valid |
| GameRating.Game.ResolveGameResults | server/games/game.py:501-547 | a result that comes out as valid has two disjoint teams with outcomes that fit together, and exactly when a result comes out at all |
| GameRating.FromBasicFits | server/games/typedefs.py:134-162 | the summary can always be built and has the game's teams |
| GameRating.ReportsDecideRanks | server/rating_service/game_rater.py:117-125 | from what the players report to the ranks: a game without an override can be rated if and only if its reports resolve, a team ranks first exactly if somebody in it claims victory, and the teams rank equal exactly if nobody does |
| GameRating.RatableRates | server/rating_service/game_rater.py:24-33 | rating a published valid game cannot fail, winners get the better rank, and every player's entry in the outcome map is their own team's |
| Parties.NeverInTwoParties | server/party_service.py:178-187 | members and mapping agree, so nobody is in two parties |
| Parties.JoinKeepsIff | server/party_service.py:123-127 | joining keeps that if and only if the player is in no other party |
| Parties.LeaveKeeps | server/party_service.py:151-192 | leaving keeps it, disbanding included |
| Parties.KickKeeps | server/party_service.py:130-149 | kicking keeps it |
| Parties.LeaveEffect | server/party_service.py:151-192 | leaving concerns nobody else while the owner stays; without the owner the party is emptied and all its members are without one |
| Parties.KickEffect | server/party_service.py:130-149 | exactly the kicked member leaves, and only an owner can kick from their own party |
| Parties.GetPartyEffect | server/party_service.py:72-78 | a player without a party gets one of their own, and nobody else is concerned |
| Parties.InviteEffect | server/party_service.py:83-100 | only an owner can invite, only the recipient is invited, and nobody's membership changes |
| Parties.FactionsEffect | server/party_service.py:170-176 | exactly this player's factions change |
| Parties.AcceptEffect | server/party_service.py:102-125 | an accepted invite leads into the sender's party, with the factions chosen before for a player who leaves a party for it; without an invite nothing happens |
| Parties.ResumeEffect | server/party_service.py:120-128 | the wait ends with the recipient in the remembered party, with the remembered factions |
| Parties.AcceptStartKeeps | server/party_service.py:102-125 | accepting keeps it up to the wait; the recipient is a member of their old party |
| Parties.AcceptFinishIff | server/party_service.py:122-128 | after the wait it survives if and only if the recipient has no party by then, or the new one already |
| Parties.AcceptCanBreak | server/party_service.py:102-128 | a run in which it does not: the recipient asks for a new party during the wait |
| Parties.StepKeeps | server/party_service.py:72-202 | while a waiting player gives no other command every operation keeps it |
| Parties.OnePartyEach | server/party_service.py:72-202 | over every such run nobody is ever in two parties |
| PartyServiceModule.PartyService.PartyOf | server/party_service.py:72-78 | the player's party, a new one if there is none |
| PartyServiceModule.PartyService.InvitePlayerToParty | server/party_service.py:83-100 | inviting, for owners only |
| PartyServiceModule.PartyService.SetFactions | server/party_service.py:170-176 | the factions of a member who is there |
| PartyServiceModule.PartyService.RemoveParty | server/party_service.py:178-192 | everybody leaves a disbanded party; the two-parties warning is never reached |
| PartyServiceModule.PartyService.RemovePlayerFromParty | server/party_service.py:160-168 | leaving on the party objects |
| PartyServiceModule.PartyService.LeaveParty | server/party_service.py:151-158 | refused without a party |
| PartyServiceModule.PartyService.KickPlayerFromParty | server/party_service.py:130-149 | only by the owner, and only members |
| PartyServiceModule.PartyService.OnConnectionLost | server/party_service.py:194-201 | a player who disconnects has no party |
| PartyServiceModule.PartyService.BeginAcceptInvite | server/party_service.py:102-125 | refused without a good invite; the assertion on the old party's member cannot fail |
| PartyServiceModule.PartyService.FinishAcceptInvite | server/party_service.py:122-128 | the part after the wait, under the condition found above |
| PartyServiceModule.PlayerParty.RemovePlayer | server/team_matchmaker/player_party.py:51-56 | a member leaves; with the owner all invites go |
| QDataStream.EncodeDecode | server/protocol/qdatastream.py:69-71 | every string can be read back from its UTF-16BE form, section 2 of RFC 2781 |
| QDataStream.DecodeEncode | server/protocol/qdatastream.py:66 | every byte string that can be read is the encoding of what was read |
| QDataStream.QStringRoundTrip | server/protocol/qdatastream.py:43-71 | a packed string is read back from wherever it stands, with the right next position |
| QDataStream.ReadsPacked | server/protocol/qdatastream.py:43-71 | whatever can be read as a string is its length and its encoding: there is no other way to write it |
| QDataStream.PackMessage | server/protocol/qdatastream.py:85-95 | the loop packs all strings and then the block, or fails on a string that is too long |
| QDataStream.ReadBlock | server/protocol/qdatastream.py:78-82 | the loop reads what the recursive reading says, errors included |
| QDataStream.BlockRoundTrip | server/protocol/qdatastream.py:78-95 | any packed list is read back except for one empty string at its end, hence unchanged if and only if it does not end with one |
| QDataStreamMessages.EncodeMessage | server/protocol/qdatastream.py:98-108 | ping and pong as bare commands, anything else as JSON text |
| QDataStreamMessages.DecodeMessage | server/protocol/qdatastream.py:111-129 | the first string decides; further parts are merged in order, kept as text when they are no JSON or cannot be merged, and fail when the message cannot take them |
| QDataStreamMessages.FooterKept | server/protocol/qdatastream.py:118-126 | a footer of strings that are no JSON is kept in order beside the fields |
| QDataStreamMessages.DecodeEncoded | server/protocol/qdatastream.py:98-129 | the block of a message decodes to what was sent of it |
| QDataStreamMessages.ReadEncoded | server/protocol/qdatastream.py:131-147 | reading one message leaves what follows untouched |
| QDataStreamMessages.StreamRoundTrip | server/protocol/qdatastream.py:98-151 | any concatenation of encoded messages reads back as the same sequence, and then the stream ends |
| QDataStreamMessages.CanonicalSame | server/protocol/qdatastream.py:102-106 | only ping and pong lose something, and only what is not their command |

## Left out

- Database, message queue, web, configuration reload, metrics and socket code: input and output around the modelled logic.
- Command dispatch of lobby and game connections; only its preconditions appear, such as a party no larger than a team.
- The rating library and the exact game quality: parameters.
- Rounding of floating-point numbers: weights, tokens and ratings are reals.
- Stability and maximality of the pairing: the docstring promises both (`server/matchmaker/algorithm/stable_marriage.py:16-18`), but a matched search never proposes again, so the code keeps neither.
- "The owner is always in the party": an owner may kick themselves (`server/party_service.py:130-149`).
- Messages sent to players, and the players already informed about calibration (`server/ladder_service/ladder_service.py:468-488`).
- `start_game` and everything after a match has been found; the states it sets are part of the free changes to players who are not searching.
- A game connection that is aborted while its player is searching (`server/gameconnection.py:587`): free changes of player states leave searching players alone.
- Failed violation checks are a flag given to `LadderServiceModule.LadderService.StartSearch`; the violation service itself is not modelled.
- The wake-up of a matched search's task is assumed to come before the next snapshot of its queue, as the event loop schedules it.
- The order in which Python iterates over sets, such as the list of matches made from a set: any order, or that of the searches.
- Probabilities of random choices: only what holds for every choice.
- `update_data` and leaderboard reloads while a cache is in use: the tables are fixed.
- The rating adjustment of the global leaderboard and the persistence of ratings.
- Army metadata and the most frequent score of an army; the score is a parameter of `GameRating.Game`.
- What updating a dictionary from a non-empty JSON list does: a parameter, with the keys of the result taken to be strings.
- Strings with lone surrogates, which Python can hold but not encode.
- Chat of parties, the sending of party updates, and the expiry time of invites, which is a flag.
- VetoServiceModule.VetoService.SetPlayerVetoes: the check of the message's types is reduced to non-negative token counts, because the values are typed here.
