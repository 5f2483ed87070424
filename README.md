# Minutes-weighted TrueSkill ratings for NBA games

This project models the rating engine of nba-winners in Dafny and proves properties of that model.

The engine has two layers:

- **`ts_ratings.py` (pure), modelled in module `TsRatings`.**
  - Each team's player beliefs are moment-matched into one Gaussian pseudo-player. The weights are the players' shares of the team's minutes.
  - The two pseudo-players are rated against each other by TrueSkill.
  - Each team's change in mean and standard deviation is handed back to its players in proportion to their minutes share. The standard deviation is clamped below at 0.0001.
- **`rate_games.py` (imperative), modelled in module `RateGames`.**
  - A dictionary maps each player id to (belief, minutes history). It is updated in place, game by game.
  - An optional pregame callback reads the dictionary before a game is folded in.
  - Team ratings are read off the dictionary, weighted by each player's average historical minutes.
  - Per-roster and per-season loops append rows to tables.

Module `TrueSkill` (file `trueskill.dfy`) holds the `Rating` belief, the default `Rating()` (mu 25, sigma 25/3) and the rank pair. It also holds `Env`, whose two fields are the TrueSkill `rate` function and `np.sqrt`, passed in as uninterpreted function values. Module `Failures` holds `Option` and `Result`, with `ValueError` and `TypeError` as the error kinds.

How the model represents the source:

- Numbers are `real`.
- Python's `zip` truncation is kept: the output lists are as long as the shorter of lineup and weights.
- DataFrames are sequences of row datatypes. The loops that grow them are Dafny `for` and `while` loops, each proved against a function that defines its result.
- The dictionary is a `map<PlayerId, Entry>`. The methods update it the way the source updates `rating_dictionary`.
- The season loop of `generate_rs_rating_period` is `Period`, defined over any table of per-season results. Its lemmas are proved once for every table. `RsPeriod` applies it to `SeasonTable`, where each season is rated from a fresh dictionary on its own games and rosters.

The model follows the code as written, including these behaviours:

- **The early return.** `return rating_dictionary` sits inside the `for game` loop. So at most the first game is folded, an empty game list yields `None`, and the callback only ever sees the empty dictionary. As a result, every pregame rating is zero.
- **A `None` dictionary.** `generate_rs_ratings` on an empty season fails with a `TypeError` for the first roster team that has a player. That is the membership test on `None`.
- **Unused `prefix_seasons_size`.** `generate_po_pregame_ratings` never reads it.
- **Fresh dictionary per season.** Each season starts from a new dictionary.
- **No normalisation in `compute_team_rating`.** Its weights are not normalised, and there is no minimum-minutes fallback.
- **Home/away rows.** Pregame rows are keyed home and away, not by team-name order.

## Model

| member | source | states |
|---|---|---|
| TsRatings.NormalizeIsShareOfTotal | ts_ratings.py:16-17 | the normalised weights add up to 1 and each one times the total gives back the original weight |
| TsRatings.NormalizedWeightsAreShares | ts_ratings.py:16-17 | for non-negative minutes with a positive total, every normalised weight lies in [0, 1] and together they sum to 1 |
| TsRatings.Normalize | ts_ratings.py:16-17 | the normalised array has one share per weight; that the shares are weight over total, add up to 1 and scale back is in NormalizeIsShareOfTotal |
| TsRatings.WeightedTeamRating | ts_ratings.py:8-11 | the aggregated variance is never negative, and an empty lineup or empty weight list gives (0, 0) |
| TsRatings.WeightedTeamRatingIsTermSums | ts_ratings.py:8-11 | the pseudo-belief is exactly (sum of w_i*mu_i, sum of w_i^2*sigma_i^2) over the zipped positions, as independent index-wise sums |
| TsRatings.Pseudo | ts_ratings.py:22-23 | the pseudo-player carries the lineup's aggregated mean and the sqrt of its aggregated variance, and an empty lineup gives mean 0 with sigma sqrt(0) |
| TsRatings.PseudoMeanIsBlend | ts_ratings.py:16-20 | with minutes shares as weights, the pseudo-player's mean lies between the smallest and largest player mean |
| TsRatings.WinnerRanks | ts_ratings.py:25-32 | codes 0, 1, 2 and only those succeed; 1 ranks team 1 strictly better, 2 ranks team 2 strictly better, 0 ties; anything else is a ValueError |
| TsRatings.Redistribute | ts_ratings.py:39-42 | the comprehension yields one belief per zipped position and every standard deviation is at least 0.0001 |
| TsRatings.Adjust | ts_ratings.py:39-42 | one player's mean moves by exactly the team's delta-mu times its weight; its new sigma is exactly the larger of 0.0001 and its old sigma plus delta-sigma times its weight; a zero-weight player keeps its mean and its sigma up to the floor |
| TsRatings.WeightedUpdate | ts_ratings.py:15-44 | the update fails, with a ValueError, exactly when the winner code is not 0, 1 or 2; otherwise each team's output is as long as its zipped lineup and every sigma is at least the floor |
| TsRatings.UpdatedTeam1At | ts_ratings.py:39-40 | team 1's player i ends at its own index with its own belief moved by the team's delta scaled by its own normalised weight |
| TsRatings.UpdatedTeam2At | ts_ratings.py:41-42 | team 2's player i ends at its own index with its own belief moved by the team's delta scaled by its own normalised weight |
| TsRatings.PlayerUpdateIsLocal | ts_ratings.py:39-42 | a player's new belief depends only on its own old belief, its own weight and the team's move, not on its teammates |
| TsRatings.RedistributionConservesMove | ts_ratings.py:39-42 | handing a move back at normalised weights adds exactly the pseudo-player's mean change to the sum of the players' means |
| TsRatings.TeamMeanChangeIsShared | ts_ratings.py:34-42 | on each team the players' mean changes sum to that team's delta-mu |
| TsRatings.ZeroMinutesKeepRating | ts_ratings.py:39-40 | a team-1 player with zero minutes keeps its mean, and keeps its sigma up to the floor |
| TsRatings.MoreMinutesMoveFurther | ts_ratings.py:39-40 | on team 1 a player with at least as many minutes moves at least as far, in the direction of the team's delta-mu |
| TsRatings.UnmovedPseudosKeepPlayers | ts_ratings.py:22-42 | delta-sigma is measured against the same sqrt passed to rate, so if rate leaves both pseudo-players unchanged every player keeps its belief up to the floor |
| RateGames.Enrol | rate_games.py:16-32 | after the insertion loops the keys are the old keys plus the lineup's ids, existing entries are untouched and new ones are (Rating(), []) |
| RateGames.EnrolLineup | rate_games.py:16-23 | the insertion loop leaves the enrolled dictionary and collects the lineup's current beliefs (default for new players) and its minutes in lineup order |
| RateGames.WriteBack | rate_games.py:38-42 | the write-back loops add and remove no keys |
| RateGames.WriteBackLeaves | rate_games.py:38-42 | the write-back leaves every entry of a player outside the lineup unchanged |
| RateGames.WriteBackExtends | rate_games.py:38-42 | the write-back only appends to histories, and a lineup player's history strictly grows |
| RateGames.WriteBackAt | rate_games.py:38-39 | with distinct ids, player k's entry becomes its k-th new belief and its old history plus this game's minutes |
| RateGames.WriteBackLineup | rate_games.py:38-39 | the write-back loop over one lineup produces exactly the WriteBack dictionary |
| RateGames.GameWinnerRanks | rate_games.py:35 | the winner code passed to the update is always valid and never a draw, and ranks the home team first exactly when it won |
| RateGames.GameUpdate | rate_games.py:34-35 | the update of a game returns one new belief per home player and one per away player, home first |
| RateGames.AfterGame | rate_games.py:15-42 | after a game is folded in, the dictionary's keys are the old keys plus the ids of both lineups |
| RateGames.AfterGameLeavesOthers | rate_games.py:16-42 | folding a game in leaves the entry of every player outside the game unchanged |
| RateGames.AfterGameExtendsHistories | rate_games.py:19-42 | every player of the game ends with its old history (empty if new) as a strict prefix of its new one |
| RateGames.AfterGameWellFormed | rate_games.py:19-42 | if every history was non-empty before the game, every history is non-empty after it |
| RateGames.HomeEntryAfterGame | rate_games.py:38-39 | with distinct ids, home player k's entry is the update's k-th home output with its old history plus this game's minutes |
| RateGames.AwayEntryAfterGame | rate_games.py:41-42 | with distinct ids, away player k's entry is the update's k-th away output with its old history plus this game's minutes |
| RateGames.FoldGame | rate_games.py:15-42 | one pass of the game loop after the callback produces exactly the AfterGame dictionary (insert both lineups, then write back both) |
| RateGames.FoldResult | rate_games.py:7-45 | the fold returns None exactly for an empty game list, and otherwise a dictionary in which every history is non-empty |
| RateGames.GenerateTsRatings | rate_games.py:7-45 | the result is the dictionary after the first game only (None for no games), and the callback runs at most once, on the empty pre-game dictionary |
| RateGames.TeamRating | rate_games.py:67-76 | the team variance is never negative |
| RateGames.UnknownTeamRatesZero | rate_games.py:67-76 | a lineup with no recorded player rates (0, 0) |
| RateGames.AbsentPlayerIsSkipped | rate_games.py:71-74 | adding an unrecorded player to a lineup does not change the team rating |
| RateGames.RecordedPlayerAdds | rate_games.py:71-76 | appending a recorded player adds its raw average minutes times its mean to the team mean, and that weight squared times its sigma squared to the team variance |
| RateGames.WeightsAreNotNormalised | rate_games.py:67-76 | a lone recorded player with one 48-minute game gives 48 times its mean and 48^2 times its variance: the average minutes are raw weights |
| RateGames.ComputeTeamRating | rate_games.py:67-76 | the list-building loop returns the team rating of the recorded players weighted by their average minutes |
| RateGames.Average | rate_games.py:74 | the average of a non-empty history times its length is the history's total |
| RateGames.PresentRatings | rate_games.py:71-73 | the beliefs collected for a lineup are at most one per lineup player |
| RateGames.PresentWeights | rate_games.py:71-74 | the weights collected for a lineup pair up one to one with the collected beliefs |
| RateGames.PregameRowIgnoresOutcome | rate_games.py:51-62 | a pregame row depends only on the game's date, team names and player ids, not on its outcome or minutes |
| RateGames.PregameRowOf | rate_games.py:51-62 | the callback's row holds the game's date, its home and away names, and the home and away team ratings on the dictionary it is given, with non-negative variances |
| RateGames.FirstPregameRowIsZero | rate_games.py:12-13 | the callback sees the empty dictionary, so the row it writes carries four zero ratings |
| RateGames.PregameRows | rate_games.py:47-64 | the pregame table has one row exactly when there is a game, carrying that game's date and home and away names |
| RateGames.GenerateTsRatingsPregame | rate_games.py:47-64 | the pregame fold returns exactly the PregameRows table together with the same dictionary as the plain fold |
| RateGames.RosterRow | rate_games.py:83-89 | a roster team's row carries its name, and fails exactly when there is no dictionary and the team has a player |
| RateGames.RsRowsFollowRoster | rate_games.py:79-91 | one row per roster team in roster order with that team's name; the table fails exactly when there is no dictionary and some team has a player |
| RateGames.RsRowsAreRosterRows | rate_games.py:83-89 | row k of a successful roster table is roster team k's row: its name with compute_team_rating of that team on the folded dictionary |
| RateGames.RsRows | rate_games.py:83-89 | a successful roster table has one row per roster team, and its only failure is the TypeError of a missing dictionary |
| RateGames.GenerateRsRatings | rate_games.py:79-91 | the roster loop after the fold produces exactly the RsRows table of the folded dictionary, or its first failure |
| RateGames.RateRosters | rate_games.py:82-91 | the `for team in roster_list` loop on a given dictionary produces exactly the RsRows table, or its first failure |
| RateGames.AppendRsSeason | rate_games.py:107-113 | the copy loop appends the season's rows in order, each tagged with the season year |
| RateGames.PeriodStep | rate_games.py:98-113 | on a successful table so far, one more season either appends that season's rows tagged with its year or ends the table with that season's failure |
| RateGames.PeriodFailureSticks | rate_games.py:98-104 | once a season fails, the table over any longer range is that same failure: the exception leaves the loop |
| RateGames.PeriodFailsOnSeason | rate_games.py:98-104 | a table over any season results fails exactly when one of its seasons fails, and then with that season's error |
| RateGames.PeriodKeepsSeasonErrors | rate_games.py:98-104 | if every season can only fail with a TypeError, so can the table |
| RateGames.PeriodSeasonsAreIndependent | rate_games.py:98-113 | in a successful table over any season results, each season's rows are exactly that season's result tagged with its year |
| RateGames.RsSeasonsAreIndependent | rate_games.py:94-115 | in a successful period table, each season's rows are exactly that season's table rated from a fresh dictionary on its own games and rosters |
| RateGames.RsPeriodYearsBelow | rate_games.py:98-113 | every row of the period table carries a year in range, and years never decrease along the table |
| RateGames.RsPeriodFailsOnSeason | rate_games.py:98-104 | the regular-season period table fails exactly when some season in range fails to rate |
| RateGames.RateSeason | rate_games.py:99-104 | one pass of the season loop rates that season's games and rosters from a fresh dictionary, giving exactly that season's table |
| RateGames.RatePeriodSeason | rate_games.py:98-113 | on a successful table so far, one pass of the season loop yields the table one season longer, or on failure the whole period's result |
| RateGames.GenerateRsRatingPeriod | rate_games.py:94-115 | the season loop produces exactly the RsPeriod table over the seasons in range, or the first season failure |
| RateGames.RsPeriod | rate_games.py:94-115 | the period table over a season range, the season loop over each season's own table, fails only with a season's TypeError |
| RateGames.AppendPoSeason | rate_games.py:129-139 | the copy loop appends the season's pregame rows in order, each tagged with the season year |
| RateGames.PoPeriodShape | rate_games.py:117-141 | the playoff table has at most one row per season, years in range and strictly increasing, and every rating zero |
| RateGames.PoPeriodRows | rate_games.py:117-141 | every playoff row comes from a season with games and is that season's single pregame row tagged with its year, and every season in range with games has a row with its year |
| RateGames.SeasonPregameRows | rate_games.py:123-126 | one season's call of generate_ts_ratings_pregame gives exactly the PregameRows table of its games |
| RateGames.PoPeriod | rate_games.py:117-141 | the playoff table over a season range has at most one row per season in it |
| RateGames.GeneratePoPregameRatings | rate_games.py:117-141 | the season loop produces exactly the PoPeriod table over the seasons in range, whatever prefix_seasons_size is |

## Left out

- The TrueSkill `rate` function (ts_ratings.py:26-30) and its `setup(draw_probability=0)` are TrueSkill library internals. `rate` is an uninterpreted field of `Env`, so nothing is proved about the pseudo-players it returns.
- `np.sqrt` is an uninterpreted field of `Env`: the model does not assume it is a square root or positive. The proofs only use that the same value is passed to `rate` and subtracted in delta-sigma.
- Floating point, NaN and infinity are not modelled: numbers are exact reals.
- TsRatings.Normalize: requires a non-zero weight total. For a non-empty weight list whose total is zero, numpy yields NaN or infinity instead of raising; that is not modelled. An empty weight list has a zero total too: numpy divides it into an empty array, the team rating is (0, 0) and `Rating(0, np.sqrt(0))` raises, as the next lines say.
- TsRatings.WeightedUpdate: requires non-zero weight totals on both teams, for the same reason as Normalize.
- TsRatings.WeightedUpdate: TrueSkill's `Rating` constructor refuses a sigma of 0 by raising. The model does not capture this check when the pseudo-players are built (ts_ratings.py:22-23) and returns Success there. That happens for a zipped lineup whose aggregated variance is 0: an empty lineup, or one whose players with non-zero weight all have sigma 0. Inside the fold this cannot arise: every belief read there is the default (sigma 25/3) or one the update wrote (sigma at least 0.0001), and the minutes total is non-zero. The model does not prove this, nor that `sqrt` of a positive variance is non-zero.
- TsRatings.WeightedUpdate: the Python default `winner=1` (ts_ratings.py:15) is not modelled; the winner code is always passed, as the only caller (rate_games.py:35) does.
- TsRatings.ZeroMinutesKeepRating: stated for team 1 only. Team 2 follows from the same argument via UpdatedTeam2At.
- TsRatings.MoreMinutesMoveFurther: stated for team 1 only, for the same reason.
- RateGames.TeamRating: requires every recorded history to be non-empty. numpy's `average` of an empty list is NaN. Dictionaries produced by the fold always meet this (FoldResult, AfterGameWellFormed).
- RateGames.ComputeTeamRating: the same requirement as TeamRating.
- RateGames.GenerateTsRatings: requires only the first game to have non-zero minute totals, because only the first game is ever folded.
- RateGames.HomeEntryAfterGame: assumes no player id appears twice in a game. With repeated ids, the later write wins and the history gets both minutes values. The model of the loops (WriteBack) handles that case; only this lemma does not describe it.
- RateGames.AwayEntryAfterGame: the same assumption as HomeEntryAfterGame.
- pandas DataFrame mechanics (`.loc[len(df)]`, `iterrows`, column names) are not modelled. The tables are sequences of row datatypes with the same fields.
- The database getters in `db_extract.py` are not part of this model: sqlite, the Kaggle download and the SQL queries are I/O. Per-season games and rosters are passed in as functions from season year to sequences. `get_season_end_rosters` is not defined in that file, and `get_regular_season_games` is a stub.
- `merge_features.py` and `preprocessing/merge_features.py` are not part of this model. They are pandas merges and CSV plumbing.
- Roster teams carry `team_name` and game teams `name`. Both are the one `Team` datatype with a `name` field.
- The code has no 240-minute under-observation fallback, no name-ordered team_a/team_b rows, no game id column and no priming of playoffs with earlier seasons, so the model has none either. Rows are keyed home/away and `prefix_seasons_size` is ignored.
