# Fantasy football valuation engine and draft bookkeeping, in Dafny

This project models the core of a fantasy-football draft assistant. The
assistant turns weekly scoring projections into one comparable number per
player: points above a positional replacement level, adjusted for injury risk
and for the chance that the player would actually start. The modelled parts
are:

- **League setup** (`Leagues.League`, `Settings`, `Universe`): caller scoring
  and roster settings merged over the defaults, teams `0..teams-1` created
  empty, and projection records merged into the player universe by id.
- **Scoring** (`Players.Player`, `Scoring`): weekly points as a weighted sum
  over scoring categories, cached per week in `points_by_week`, and the
  season total over weeks 1 to 16.
- **Replacement level** (`Replacement`, `Ranking`): the ranked universe is cut
  into starters, bench quarterbacks, flex starters and bench. The best player
  left at each position sets that position's replacement level.
- **Valuation** (`Valuation`): value over replacement (VOR) as a sum of
  per-week values clamped at zero, and the team-independent start percentage
  with its rank threshold and its flex branch.
- **Auction pricing and the draft board** (`Auction`): the league's remaining
  money shared out in proportion to auction-mode VOR, and the best available
  players by a chosen metric.
- **Roster moves** (`Leagues.Team`, `Rosters`): `add_player` and
  `remove_player` move a player between the league's available pool and a
  team's roster, with their error cases and the roster-size bound.
- **One injury trial** (`Injury`): the week-by-week marking step of the
  injury simulation, with the random draws given as inputs, and the mean over
  trials.

Objects that the source updates in place are classes: `Player`, `Team` and
`League`. Their methods state the new state exactly, as a function of the old
state. The properties are proved about those functions, as lemmas. Points and
money are `real`, an exact stand-in for floating point. The binomial CDF is a
function parameter whose values lie in [0, 1]. The injury table is an input
map from position to 16 probabilities.

Where the code and the design description disagree, the model follows the
code:

- The flex branch of the start percentage returns `(1 - p) * p`, where `p` is
  the flex-ranked probability. It uses the player's own position injury rate,
  not a weighted average over flex positions, and it does not check for zero
  flex slots (models/player.py:94-119).
- A zero total value in auction pricing is an unguarded float division, so
  every price is numpy's `nan` rather than 0 (`Auction.Price.NotANumber`).
- `add_player` neither records a price nor recomputes auction values.
- `player_by_name` treats a found id 0 as not found, because it tests
  `if not player_id`. `team_by_name` can never raise its KeyError. Zero or
  several matches fail in the tuple unpacking instead (`NotExactlyOne`).
- When every removal step finds enough players, the count check of the
  partition (models/league.py:238-241) fails exactly when the bench size ends
  in 5. This is because the quarterback tenth and the remaining nine tenths
  are rounded separately, half to even (`Replacement.CountCheckPasses`,
  `Replacement.NineTeamLeagueFailsCount`).

## Model

| member | source | states |
|---|---|---|
| `Settings.MergeSettings` | models/league.py:21-55 | The loop that writes each caller entry over the defaults yields the merged map `Merge(defaults, overrides)`. |
| `Settings.MergeOverwritesOnlyNamed` | models/league.py:36-37 | The merged keys are the default keys plus the caller's keys. A caller's entry always wins. Every default the caller does not name keeps its value. |
| `Settings.Decode` | models/league.py:41-55 | Reading the merged roster settings succeeds exactly when every setting has the kind the engine reads. Then every field is the setting of the same name: each count as given, the flex names parsed one by one, and the budget only when it is an integer. Otherwise it is `BadSettings`. |
| `Settings.ParsePositions` | models/league.py:51 | The flex position names parse exactly when every name is a known position. The parsed list then holds, in order, the position of each name. |
| `Settings.RoundTenth` | models/league.py:208-209 | `np.round(n/10)`: the result is within 1/2 of `n/10`, and an exact tie goes to the even neighbour. |
| `Settings.BenchSplitConserves` | models/league.py:193-209 | `round(0.1*b) + round(0.9*b) == b` holds exactly when `b` does not end in 5. |
| `Settings.DefaultBenchSizing` | models/league.py:41-53 | With the default settings there are 70 bench spots. Quarterbacks take 17 starters, 63 bench spots remain, and 140 players must be removed. |
| `Leagues.League.CreateTeams` | models/league.py:56-59 | The teams are exactly ids `0..teams-1`. Each is fresh, holds its own id and league, is unnamed and has an empty roster. |
| `Leagues.Team.constructor` | models/team.py:5-9 | A new team keeps its id, its league and the name it is given (the league passes `None`, the default), and has an empty roster. |
| `Leagues.League.constructor` | models/league.py:14-68 | The scoring and roster settings are the merges over the defaults. The teams are `0..teams-1`, fresh, unnamed and with empty rosters. The universe holds one player per id of the feed, with the name, NFL team and position of its first record, and no team id. Every player is available and the draft bookkeeping holds. The replacement level is the one of the stable season ranking. With an auction budget, nothing is spent yet and the auction values are the allocation of the full budget. |
| `Leagues.League.FillPlayerUniverse` | models/league.py:101-107 | The universe keys are exactly the ids seen, listed once each in order of arrival. Each player was created from the first record for its id and holds the last record for each week. |
| `Leagues.League.MergeRecord` | models/league.py:102-107 | One loop pass either creates the player for a new id or adds the record to the existing player. The merged state is kept. |
| `Universe.ArrivalsDistinct` | models/league.py:101-104 | Every id of the feed arrives in the universe order exactly once, so there are no duplicate players. |
| `Universe.FirstFor` | models/league.py:102-104 | The record that creates a player is the first record for its id in the feed. |
| `Universe.WeeksOfLatest` | models/league.py:105-107 | A player's week holds the last record for that id and week. A later record replaces an earlier one. |
| `Universe.WeeksOfUntouched` | models/league.py:105-107 | A week that no record of the player mentions keeps what it had. |
| `Universe.WeeksOfAbsent` | models/league.py:101-107 | Records for other ids leave a player's weeks unchanged. |
| `Players.Player.constructor` | models/player.py:8-17 | A new player takes id, name, team and position from its first record. It is undrafted, has an empty memo, and holds that record under its week. |
| `Players.Player.AddProjection` | models/player.py:22-26 | The record is stored under its week and replaces any earlier record for that week. Other weeks, the memo and the team id are untouched. |
| `Players.Player.ComputeWeeklyPoints` | models/player.py:38-47 | The loop sums `weight * stat` over all scoring categories, counting a missing category as 0, and caches the result. A week without a projection caches 0.0 and returns None. |
| `Players.Player.WeeklyPoints` | models/player.py:35-36 | A truthy cached value is returned unchanged. Otherwise the week is recomputed and cached. |
| `Players.Player.SeasonPoints` | models/player.py:49-53 | Afterwards weeks 1 to 16 are cached and settled, and the result is the sum of every cached value. |
| `Scoring.SeasonCacheSettled` | models/player.py:49-53 | After `season_points` the memo holds its old keys plus weeks 1 to 16, and every cached 0.0 is what recomputation gives. |
| `Scoring.SeasonCacheIdempotent` | models/player.py:49-53 | A second `season_points` call leaves the memo as the first left it. |
| `Scoring.SeasonTotal` | models/player.py:49-53 | When the memo is consistent and holds only season weeks, `season_points` returns the sum over weeks 1 to 16 of each week's points. |
| `Scoring.RefreshedConsistent` | models/player.py:35-47 | Recomputing a cached week writes the value already there, so a consistent memo stays consistent. |
| `Scoring.SettledWeeklyPoints` | models/player.py:35-36 | On a settled memo `weekly_points` changes nothing, and its ranking key is the cached value. |
| `Sums.SumOfValues` | models/player.py:53 | Summing a map's values in any key order gives `MapSum`. |
| `Sums.SumRemove` | models/player.py:53 | The sum of a map's values does not depend on which key is taken first. |
| `Sums.MapSumOfRange` | models/player.py:50-53 | A map keyed by exactly `lo..hi-1` sums to the range sum over those keys. |
| `Ranking.SortDesc` | models/league.py:187-190 | `sorted(..., reverse=True)` gives a list in non-increasing order that is a permutation of the input. Unique ids stay unique. The sort is stable: the entries tied on any key come out in their input order. |
| `Ranking.Insert` | models/league.py:187-190 | Inserting an entry keeps the order and the multiset. |
| `Ranking.InsertTied` | models/league.py:187-190 | In a sorted list, an inserted entry goes ahead of every entry tied with it, and the tied entries already there keep their order. |
| `Ranking.TiedPrefix` | models/league.py:263-264 | The entries tied on a key in a prefix `[:k]` are a prefix of those tied on it in the whole list. |
| `Ranking.FilterSorted` | models/league.py:213-215 | Filtering a sorted ranking by position keeps it sorted. |
| `Ranking.SliceLen` | models/league.py:218 | Python's `[:n]` keeps `min(n, len)` entries, and a negative `n` drops entries from the end. |
| `Ranking.IndexOf` | models/player.py:83 | `list.index` gives the first position holding the id. |
| `Replacement.PartitionRanking` | models/league.py:211-237 | The five removal steps produce exactly the remaining list and the removed ids of the partition specification. |
| `Replacement.CalculateReplacementLevel` | models/league.py:182-249 | The result is the count check followed by the first remaining player's points at each position. It is `CountMismatch` or `NoReplacement` when those fail. |
| `Replacement.Levels` | models/league.py:238-249 | A successful result has a level for every position. |
| `Replacement.ApplySplits` | models/league.py:212-237 | At every position, the players removed are a prefix of that position's ranking, and the rest of it still remains. |
| `Replacement.LevelBounds` | models/league.py:244-249 | On a ranking by season points, a position's level is the points of its best unremoved player. It is at most every removed player's points and at least every remaining player's points at that position. |
| `Replacement.RemovedCount` | models/league.py:212-237 | When every step finds enough players, the number removed is the sum of the steps' bounds. |
| `Replacement.CountCheckPasses` | models/league.py:193-241 | When every step finds enough players, the count check passes exactly when the bench size does not end in 5. |
| `Replacement.NineTeamLeagueFailsCount` | models/league.py:208-241 | Nine teams of fourteen with the default slots remove 107 players instead of 108, so the check fails. |
| `Leagues.League.CalculateReplacementLevel` | models/league.py:182-190 | Every player's memo is settled by `season_points`. The level is the partition result of the stable ranking of the season totals. |
| `Leagues.League.SeasonAll` | models/league.py:187-190 | Calling `season_points` on every player in universe order gives the ranking keys and settles every memo. |
| `Valuation.ValueOverReplacement` | models/player.py:55-69 | Weekly points that do not broadcast against the 16-week injury row are `ShapeMismatch`, and only those. |
| `Valuation.VorNonNegative` | models/player.py:62-69 | The value over replacement is never negative, in auction mode or not. |
| `Valuation.VorZeroIff` | models/player.py:62-69 | VOR is zero exactly when every clamped weekly value is zero. |
| `Valuation.AuctionVorAtMostPlain` | models/player.py:64-67 | With start percentages in [0, 1], the auction-mode VOR is at most the plain VOR. |
| `Valuation.Clamp` | models/player.py:68 | A clamped week is non-negative and at least its unclamped value. |
| `Valuation.RankIn` | models/player.py:77-83 | The rank is the index of the player in the stable ranking by the position-filtered weekly key. |
| `Valuation.Threshold` | models/player.py:85-93 | The probability is 1 inside the starters. Otherwise it is `1 - cdf(rank - starters, rank, rate)`. It always lies in [0, 1]. |
| `Valuation.FlexShare` | models/player.py:119 | The flex result `(1 - p) * p` lies in [0, 1/4]. |
| `Valuation.StartPct` | models/player.py:74-119 | The start percentage lies in [0, 1]. |
| `Valuation.StartPctCases` | models/player.py:77-119 | A player ranked inside its position's starters gets exactly 1. A non-flex player outside them gets the binomial tail. A flex-eligible player gets 1 or at most 1/4. |
| `Leagues.StartPctOf` | models/player.py:74-93 | The week's start percentage on settled memos uses the player's own position injury rate. It lies in [0, 1]. |
| `Leagues.Vor` | models/player.py:55-69 | A player's VOR from its memo of weeks 1 to 16 is non-negative. |
| `Leagues.VorAuctionAtMostPlain` | models/player.py:55-69 | A player's auction-mode VOR is at most its plain VOR. |
| `Auction.PriceOf` | models/league.py:281-283 | The price is `nan` exactly when the total value is zero. |
| `Auction.Allocate` | models/league.py:276-283 | The loop prices every player of the map, and only those, at `vor * budget / total`, where `total` is the sum of all values. |
| `Auction.AllocationSpendsBudget` | models/league.py:272-283 | When the total value is nonzero, the prices add up to exactly the remaining budget. |
| `Auction.AllocationUniform` | models/league.py:276-283 | The prices of one allocation are all numbers or all `nan`. They are `nan` exactly when the total value is zero. |
| `Auction.AllocationMonotone` | models/league.py:280-283 | With a non-negative budget and a positive total, a player worth more is priced at least as high. |
| `Leagues.League.CalculateAuctionValues` | models/league.py:268-283 | Without an auction budget nothing changes. Otherwise the values are the allocation of `(budget - defense - kicker) * teams - spent` over the available players' auction-mode VOR. |
| `Auction.RoundHalfEven` | models/league.py:265 | `np.round` gives the nearest integer, with ties to even. |
| `Auction.RoundMonotone` | models/league.py:265 | Rounding keeps order. |
| `Auction.Top` | models/league.py:254-264 | The board is sorted, holds at most `n` entries, holds only candidates, and holds only the given position when one is set. |
| `Auction.BestAvailable` | models/league.py:251-266 | At most `n` pairs, each of the requested position. They come in non-increasing order of the metric and of its rounded value. |
| `Auction.BestAvailableTies` | models/league.py:261-264 | The board's entries tied on any value are a prefix of the eligible candidates tied on it, in candidate order. |
| `Auction.BestAvailableIsTop` | models/league.py:261-264 | No eligible player left off the board beats one on it. |
| `Leagues.Board` | models/league.py:251-266 | The board is ranked exactly when it ranks by VOR or every eligible auction value is a number. Its rows are then the best `n` eligible available players, by the metric, in non-increasing order. Each row holds the player's VOR or numeric auction value and its rounding. An eligible player without an auction value is `NotPriced`, the KeyError of models/player.py:71-72. Eligible values that are all `nan` leave the first `n` eligible players in pool order. Numbers mixed with `nan` are `UnorderedPrices`. |
| `Leagues.BoardTies` | models/league.py:251-266 | Players tied on the metric reach a ranked board in the pool's order: its tied entries are a prefix of the tied eligible available players, listed as the pool lists them. |
| `Leagues.UniformPricesOrdered` | models/league.py:251-283 | With prices that are all numbers or all `nan`, as every allocation is, the board is never `UnorderedPrices`. |
| `Leagues.Classify` | models/league.py:261-264 | The eligible players' auction values are classified as: the first one missing, all `nan` (and at least one player), all numbers, or a mix. Each class holds exactly when its condition does. |
| `Leagues.EligibleIds` | models/league.py:255-260 | A player is eligible exactly when it is in the pool and, when a position is given, plays that position. |
| `Leagues.Unpriced` | models/player.py:71-72 | It names the first id without an auction value, and it is None exactly when every id has one. |
| `Leagues.Candidates` | models/league.py:255-264 | The candidates are the available players in pool order, each with its own position and metric, and every available pooled player is among them. |
| `Leagues.League.TeamByName` | models/league.py:109-116 | Succeeds exactly when one team's printed name matches, and returns that team. Otherwise `NotExactlyOne`. |
| `Leagues.League.PlayerByName` | models/league.py:118-125 | Succeeds exactly when one player has the name and its id is not 0. A single match with id 0 is `NotFound`. Zero or several matches are `NotExactlyOne`. |
| `Leagues.League.PlayerFuzzyMatch` | models/league.py:127-135 | No match is `NotFound`, one match is that player, and several are all matching players, each once, in the order they entered the universe (the selected ids of `universeOrder`, one after the other). |
| `Leagues.SelectKeepsOrder` | models/league.py:128-131 | A comprehension over a dictionary's items keeps the dictionary's order: of two selected ids, the earlier one in the result is the earlier one in the key order. |
| `Leagues.Matched` | models/league.py:128-131 | Looking up the selected ids gives each matching player once, under its own id, all of them, in key order. |
| `Text.ContainsIff` | models/league.py:130 | The substring test holds exactly when the needle occurs at some offset. |
| `Text.Lower` | models/league.py:130 | Lowering keeps the length and lowers each ASCII letter. |
| `Leagues.League.AcquiringTeam` | models/player.py:28-32 | A truthy id selects `teams[id]` (`NoSuchTeam` if absent). Otherwise a truthy name goes to `team_by_name`. Otherwise it is `NoTeamGiven`. |
| `Leagues.League.TeamZeroByName` | models/player.py:29-32 | Team 0 cannot be chosen by id. Id 0 falls through to the name. |
| `Leagues.League.AddToTeam` | models/player.py:28-33 | The chosen team performs `add_player`, and no other team's roster changes. If no team is chosen, nothing changes. The draft bookkeeping is kept. |
| `Leagues.Team.AddPlayer` | models/team.py:14-23 | Exactly the move `Acquire`: on success the roster and pool are the moved maps, the player's team id is this team, and the id leaves the pool's order with every other id in place. On an error nothing changes. The draft bookkeeping is kept. |
| `Leagues.Team.RemovePlayer` | models/team.py:25-31 | Exactly the move `Release`: on success the player's team id is None and its id goes to the end of the pool's order. No other rostered player changes. On an error nothing changes. The draft bookkeeping is kept. |
| `Leagues.Team.AddThenRemove` | models/team.py:14-31 | Adding a player and removing it again restores the roster and the pool. When the addition succeeds, so does the removal: the player's team id ends None and its id ends at the back of the pool's order. When it fails, the removal fails too and nothing changes. |
| `Leagues.AfterAdd` | models/team.py:14-23 | Moving the pool's player into one team's roster, and changing no other roster or team id, keeps the draft bookkeeping. |
| `Leagues.AfterRemove` | models/team.py:25-31 | Moving a player from one team's roster back into the pool, with its team id cleared, keeps the draft bookkeeping. |
| `Leagues.ListingWithdraw` | models/team.py:21 | `dict.pop` leaves the pool's order listing each remaining key once. |
| `Leagues.ListingReinsert` | models/team.py:31 | Storing a key in the pool leaves its order listing each key once, the stored key included. |
| `Rosters.Acquire` | models/team.py:14-23 | `NotAvailable` is checked before `RosterFull`. Success moves the id from the pool into the roster, and no other key changes. |
| `Rosters.Release` | models/team.py:25-31 | `NotOnRoster` for an absent id. Success returns the player to the pool under the same id, and no other key changes. |
| `Rosters.AcquireReleaseRoundTrip` | models/team.py:14-31 | Adding and then removing a player restores both maps, when the roster did not hold the id and the pool held that very player. |
| `Rosters.ReleaseAcquireRoundTrip` | models/team.py:14-31 | Removing and then re-adding a player restores both maps. |
| `Rosters.AcquirePreservesInvariants` | models/team.py:14-23 | No player is both available and rostered, the union is kept, and the roster grows by one without exceeding `roster_size`. |
| `Rosters.ReleasePreservesInvariants` | models/team.py:25-31 | The two stay disjoint, the union is kept, and the roster shrinks by one. |
| `Injury.SimulateSeason` | models/league.py:165-178 | The loop over the weeks of one trial yields `Season(d)`, and every mark is 0 or 1. |
| `Injury.SeasonMarked` | models/league.py:166-177 | A week is injured exactly when an injury with a positive length started in it or in an earlier healthy week and still runs. |
| `Injury.NoRerollWhileInjured` | models/league.py:167 | A week entered injured starts no injury and changes nothing. |
| `Injury.WalkGrows` | models/league.py:166-177 | A marked week stays marked for the rest of the trial. |
| `Injury.Rates` | models/league.py:180 | The per-week mean over trials lies in [0, 1]. |
| `Injury.SimulatePosition` | models/league.py:163-180 | The 16 rates of a position are the share of trials marking each week, each in [0, 1]. |

## Left out

- Fetching projections from the web or from disk, `save_to_disk` and `load_from_disk` (models/league.py:70-100): file and network I/O. The engine receives a sequence of projection records, and the invalid-source KeyError is not modelled.
- `__repr__` methods: display only.
- The random draws of `injury_likelihood` (models/league.py:168-172) are inputs (`Injury.Draws`). The calibration constants per position therefore play no part, and the engine takes the resulting table as a map from position to 16 values in [0, 1].
- `scipy.stats.binom.cdf` (models/player.py:88, 112): a foreign numerical routine, modelled as a function parameter with values in [0, 1].
- Floating point: points and money are exact reals. IEEE rounding and the truthiness of tiny values are not modelled.
- Positions other than qb, rb, wr and te do not occur. A flex position name outside these is read as `BadSettings`, whereas Python would simply never match it.
- Leagues.League.constructor: requires roster settings of the kinds the model reads: integers, a list of position names, and an integer or None as budget. `SettingValue` has no real-valued kind, so float and bool settings are outside the model. Python accepts most of them (`roster_size: 16.0`, `qb: 1.5` and `auction_budget: 200.0` run to the end of models/league.py:193-283); a float `teams` fails at `range()` (models/league.py:58).
- Leagues.League.constructor: when the replacement partition fails (the count assert of models/league.py:238-241, or an empty position at :248-249), Python raises from `calculate_replacement_level` and no league exists. The model instead returns a league whose `replacementLevel` is an `Err`; with a budget it still sets `auctionBudgetSpent` to 0 and its `auctionValues` stay empty.
- Leagues.StartPctOf and Leagues.Vor: modelled on settled memos holding exactly weeks 1 to 16, which is the state after league setup. The `weekly_points` calls inside the start percentage then change nothing (`Scoring.SettledWeeklyPoints`). A memo holding other weeks, which misaligns the numpy arrays, is covered only by `Valuation.ValueOverReplacement`'s shape check.
- Team marginal value and best-pick suggestions: the source has only a TODO for them (models/league.py:285-286).
- Text.Lower: lowers ASCII letters only. Python's `str.lower` also folds non-ASCII letters, so a name that differs only in the case of such a letter is not matched.
- Leagues.Board: auction values that mix numbers with `nan` give `Err(UnorderedPrices)` rather than the order that Timsort's comparisons happen to produce. No single allocation produces such a mix (`Auction.AllocationUniform`, `Leagues.UniformPricesOrdered`). An all-`nan` board lists ids rather than `(player, nan)` pairs.
- Aliasing among player objects is not modelled. `add_player` stores the object it is given under that object's id, as the source does.
