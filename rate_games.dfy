/**
 * Rating a season's games: a dictionary from player id to (belief, minutes
 * history) is updated in place game by game, team ratings are read off it by
 * average historical minutes, and the per-season loops collect the results
 * into rows.
 */
module RateGames {
  import opened Failures
  import opened TrueSkill
  import opened TsRatings

  type PlayerId = int

  /** One player's box-score line in one game. */
  datatype Player = Player(playerId: PlayerId, mins: real)

  /** A lineup in one game, or a team of an end-of-season roster. */
  datatype Team = Team(name: string, players: seq<Player>)

  datatype Game = Game(date: string, homeTeam: Team, awayTeam: Team, homeWin: bool)

  /** A dictionary value: the player's current belief and every minutes value recorded for it. */
  datatype Entry = Entry(rating: Rating, minutes: seq<real>)

  type RatingDict = map<PlayerId, Entry>

  /** The row the pregame callback appends for one game. */
  datatype PregameRow = PregameRow(
    gameDate: string, homeTeamName: string, awayTeamName: string,
    homeTeamRating: real, homeTeamRatingVar: real,
    awayTeamRating: real, awayTeamRatingVar: real)

  /** A row of one season's team rating table. */
  datatype RsRow = RsRow(teamName: string, ratingMean: real, ratingVar: real)

  /** A row of the regular-season table over a range of seasons. */
  datatype RsPeriodRow = RsPeriodRow(seasonYear: int, teamName: string, ratingMean: real, ratingVar: real)

  /** A row of the playoff pregame table over a range of seasons. */
  datatype PoRow = PoRow(
    seasonYear: int, gameDate: string, homeTeamName: string, awayTeamName: string,
    homeTeamRating: real, homeTeamRatingVar: real,
    awayTeamRating: real, awayTeamRatingVar: real)

  const NoneNotIterable: string := "argument of type 'NoneType' is not iterable"

  // ---------------------------------------------------------------------------
  // Lineups and the dictionary

  function Ids(players: seq<Player>): set<PlayerId>
  {
    set i | 0 <= i < |players| :: players[i].playerId
  }

  lemma IdsSnoc(players: seq<Player>)
    requires |players| > 0
    ensures Ids(players) == Ids(players[..|players| - 1]) + {players[|players| - 1].playerId}
  {
    var n := |players| - 1;
    forall id | id in Ids(players)
      ensures id in Ids(players[..n]) + {players[n].playerId}
    {
      var i :| 0 <= i < |players| && players[i].playerId == id;
      if i < n {
        assert players[..n][i] == players[i];
      }
    }
    forall id | id in Ids(players[..n])
      ensures id in Ids(players)
    {
      var i :| 0 <= i < n && players[..n][i].playerId == id;
      assert players[i].playerId == id;
    }
  }

  /** The minutes column of a lineup, in lineup order. */
  function Minutes(players: seq<Player>): (m: seq<real>)
  {
    seq(|players|, i requires 0 <= i < |players| => players[i].mins)
  }

  /** No player appears twice in the lineup. */
  predicate Distinct(players: seq<Player>)
  {
    forall i, j :: 0 <= i < j < |players| ==> players[i].playerId != players[j].playerId
  }

  /** Both lineups have minutes that do not sum to zero, so both can be normalised. */
  predicate Playable(game: Game)
  {
    Sum(Minutes(game.homeTeam.players)) != 0.0 && Sum(Minutes(game.awayTeam.players)) != 0.0
  }

  /** Every recorded player has at least one minutes value, so its average is defined. */
  predicate WellFormed(d: RatingDict)
  {
    forall id :: id in d ==> |d[id].minutes| > 0
  }

  /** The belief a player is rated with: its entry, or `Rating()` when it is not yet recorded. */
  function RatingOf(d: RatingDict, id: PlayerId): Rating
  {
    if id in d then d[id].rating else DefaultRating
  }

  /** The minutes recorded for a player so far (none when it is not yet recorded). */
  function History(d: RatingDict, id: PlayerId): seq<real>
  {
    if id in d then d[id].minutes else []
  }

  /** The ratings list the fold builds for a lineup. */
  function LineupRatings(d: RatingDict, players: seq<Player>): (r: seq<Rating>)
  {
    seq(|players|, i requires 0 <= i < |players| => RatingOf(d, players[i].playerId))
  }

  /**
   * The dictionary after the insertion loop over a lineup: every player not
   * yet recorded gets `Rating()` and an empty history; existing entries are
   * never reset.
   */
  function Enrol(d: RatingDict, players: seq<Player>): (r: RatingDict)
    ensures r.Keys == d.Keys + Ids(players)
    ensures forall id :: id in d ==> r[id] == d[id]
    ensures forall id :: id in r && id !in d ==> r[id] == Entry(DefaultRating, [])
    decreases |players|
  {
    if |players| == 0 then d
    else
      var n := |players| - 1;
      var prev := Enrol(d, players[..n]);
      var id := players[n].playerId;
      IdsSnoc(players);
      if id in prev then prev else prev[id := Entry(DefaultRating, [])]
  }

  /**
   * The dictionary after the write-back loop over a lineup: each player in
   * turn gets its new belief and its history extended by its minutes in this
   * game. No key is added or removed.
   */
  function WriteBack(d: RatingDict, players: seq<Player>, ratings: seq<Rating>): (r: RatingDict)
    requires |ratings| == |players|
    requires Ids(players) <= d.Keys
    ensures r.Keys == d.Keys
    decreases |players|
  {
    if |players| == 0 then d
    else
      var n := |players| - 1;
      IdsSnoc(players);
      var prev := WriteBack(d, players[..n], ratings[..n]);
      var id := players[n].playerId;
      prev[id := Entry(ratings[n], prev[id].minutes + [players[n].mins])]
  }

  /** The write-back leaves the entry of every player outside the lineup unchanged. */
  lemma {:induction false} WriteBackLeaves(d: RatingDict, players: seq<Player>, ratings: seq<Rating>, id: PlayerId)
    requires |ratings| == |players|
    requires Ids(players) <= d.Keys
    requires id in d && id !in Ids(players)
    ensures WriteBack(d, players, ratings)[id] == d[id]
    decreases |players|
  {
    if |players| > 0 {
      var n := |players| - 1;
      IdsSnoc(players);
      WriteBackLeaves(d, players[..n], ratings[..n], id);
    }
  }

  /**
   * The write-back only appends to histories: every old history is a prefix
   * of the new one, and a lineup player's history grows.
   */
  lemma {:induction false} WriteBackExtends(d: RatingDict, players: seq<Player>, ratings: seq<Rating>, id: PlayerId)
    requires |ratings| == |players|
    requires Ids(players) <= d.Keys
    requires id in d
    ensures d[id].minutes <= WriteBack(d, players, ratings)[id].minutes
    ensures id in Ids(players) ==> |WriteBack(d, players, ratings)[id].minutes| > |d[id].minutes|
    decreases |players|
  {
    if |players| > 0 {
      var n := |players| - 1;
      IdsSnoc(players);
      var prev := WriteBack(d, players[..n], ratings[..n]);
      WriteBackExtends(d, players[..n], ratings[..n], id);
    }
  }

  /** Under distinct ids, player k's entry after the write-back is its new belief and its history plus this game's minutes. */
  lemma {:induction false} WriteBackAt(d: RatingDict, players: seq<Player>, ratings: seq<Rating>, k: int)
    requires |ratings| == |players|
    requires Ids(players) <= d.Keys
    requires Distinct(players)
    requires 0 <= k < |players|
    ensures WriteBack(d, players, ratings)[players[k].playerId]
            == Entry(ratings[k], d[players[k].playerId].minutes + [players[k].mins])
  {
    var n := |players| - 1;
    IdsSnoc(players);
    if k < n {
      DistinctFront(players);
      assert players[..n][k] == players[k] && ratings[..n][k] == ratings[k];
      WriteBackAt(d, players[..n], ratings[..n], k);
      WriteBackKeepsEarlier(d, players, ratings, k);
    } else {
      IdNotInFront(players);
      WriteBackLeaves(d, players[..n], ratings[..n], players[k].playerId);
    }
  }

  /** The last write of the loop leaves an earlier player's entry as the shorter loop left it. */
  lemma WriteBackKeepsEarlier(d: RatingDict, players: seq<Player>, ratings: seq<Rating>, k: int)
    requires |ratings| == |players|
    requires Ids(players) <= d.Keys
    requires Distinct(players)
    requires 0 <= k < |players| - 1
    requires Ids(players[..|players| - 1]) <= d.Keys
    ensures WriteBack(d, players, ratings)[players[k].playerId]
            == WriteBack(d, players[..|players| - 1], ratings[..|players| - 1])[players[k].playerId]
  {
    assert players[|players| - 1].playerId != players[k].playerId;
  }

  lemma DistinctFront(players: seq<Player>)
    requires Distinct(players)
    requires |players| > 0
    ensures Distinct(players[..|players| - 1])
  {
    var front := players[..|players| - 1];
    forall i, j | 0 <= i < j < |front|
      ensures front[i].playerId != front[j].playerId
    {
      assert front[i] == players[i] && front[j] == players[j];
    }
  }

  /** Under distinct ids, the last player's id does not occur earlier in the lineup. */
  lemma IdNotInFront(players: seq<Player>)
    requires Distinct(players)
    requires |players| > 0
    ensures players[|players| - 1].playerId !in Ids(players[..|players| - 1])
  {
    var n := |players| - 1;
    forall i | 0 <= i < n
      ensures players[..n][i].playerId != players[n].playerId
    {
      assert players[..n][i] == players[i];
    }
  }

  /** The winner code the fold passes for a game: 1 on a home win, else 2. */
  function GameWinner(game: Game): int
  {
    if game.homeWin then 1 else 2
  }

  /**
   * The winner code is always valid and never a draw, and it ranks the home
   * team first exactly when the home team won.
   */
  lemma GameWinnerRanks(game: Game)
    ensures WinnerRanks(GameWinner(game)).Success?
    ensures var ranks := WinnerRanks(GameWinner(game)).value;
            ranks.team1 != ranks.team2 && (ranks.team1 < ranks.team2 <==> game.homeWin)
  {
  }

  /** The two updated lineups `weighted_update` returns for a game, home first. */
  function GameUpdate(env: Env, d: RatingDict, game: Game): (u: (seq<Rating>, seq<Rating>))
    requires Playable(game)
    ensures |u.0| == |game.homeTeam.players| && |u.1| == |game.awayTeam.players|
  {
    var home, away := game.homeTeam.players, game.awayTeam.players;
    WeightedUpdate(env, LineupRatings(d, home), LineupRatings(d, away), Minutes(home), Minutes(away),
                   GameWinner(game)).value
  }

  /** The dictionary after one game is folded in: insert the new players, then write back both lineups. */
  function AfterGame(env: Env, d: RatingDict, game: Game): (r: RatingDict)
    requires Playable(game)
    ensures r.Keys == d.Keys + Ids(game.homeTeam.players) + Ids(game.awayTeam.players)
  {
    var home, away := game.homeTeam.players, game.awayTeam.players;
    var u := GameUpdate(env, d, game);
    var enrolled := Enrol(Enrol(d, home), away);
    WriteBack(WriteBack(enrolled, home, u.0), away, u.1)
  }

  /** Enrolment gives a new player `Rating()` and an empty history, which is how an unrecorded player is read anyway. */
  lemma EnrolKeepsReadings(d: RatingDict, players: seq<Player>, id: PlayerId)
    ensures RatingOf(Enrol(d, players), id) == RatingOf(d, id)
    ensures History(Enrol(d, players), id) == History(d, id)
  {
  }

  lemma EnrolKeepsLineupRatings(d: RatingDict, players: seq<Player>, lineup: seq<Player>)
    ensures LineupRatings(Enrol(d, players), lineup) == LineupRatings(d, lineup)
  {
    forall i | 0 <= i < |lineup|
      ensures LineupRatings(Enrol(d, players), lineup)[i] == LineupRatings(d, lineup)[i]
    {
      EnrolKeepsReadings(d, players, lineup[i].playerId);
    }
  }

  /** Folding a game in leaves the entry of every player outside the game unchanged. */
  lemma AfterGameLeavesOthers(env: Env, d: RatingDict, game: Game, id: PlayerId)
    requires Playable(game)
    requires id in d && id !in Ids(game.homeTeam.players) && id !in Ids(game.awayTeam.players)
    ensures AfterGame(env, d, game)[id] == d[id]
  {
    var home, away := game.homeTeam.players, game.awayTeam.players;
    var u := GameUpdate(env, d, game);
    var enrolled := Enrol(Enrol(d, home), away);
    WriteBackLeaves(enrolled, home, u.0, id);
    WriteBackLeaves(WriteBack(enrolled, home, u.0), away, u.1, id);
  }

  /**
   * Folding a game in only appends to histories: every player of the game
   * ends with its old history (none for a new player) followed by at least
   * one more minutes value.
   */
  lemma AfterGameExtendsHistories(env: Env, d: RatingDict, game: Game, id: PlayerId)
    requires Playable(game)
    requires id in Ids(game.homeTeam.players) + Ids(game.awayTeam.players)
    ensures var r := AfterGame(env, d, game);
            id in r && History(d, id) <= r[id].minutes && |r[id].minutes| > |History(d, id)|
  {
    var home, away := game.homeTeam.players, game.awayTeam.players;
    var u := GameUpdate(env, d, game);
    var enrolled := Enrol(Enrol(d, home), away);
    var afterHome := WriteBack(enrolled, home, u.0);
    var r := WriteBack(afterHome, away, u.1);
    EnrolKeepsReadings(d, home, id);
    EnrolKeepsReadings(Enrol(d, home), away, id);
    assert enrolled[id].minutes == History(d, id);
    WriteBackExtends(enrolled, home, u.0, id);
    WriteBackExtends(afterHome, away, u.1, id);
  }

  /** A dictionary whose histories are all non-empty stays so after a game. */
  lemma AfterGameWellFormed(env: Env, d: RatingDict, game: Game)
    requires Playable(game)
    requires WellFormed(d)
    ensures WellFormed(AfterGame(env, d, game))
  {
    var r := AfterGame(env, d, game);
    forall id | id in r
      ensures |r[id].minutes| > 0
    {
      if id in Ids(game.homeTeam.players) + Ids(game.awayTeam.players) {
        AfterGameExtendsHistories(env, d, game, id);
      } else {
        AfterGameLeavesOthers(env, d, game, id);
      }
    }
  }

  /**
   * When no player appears twice in a game, each home player's entry after
   * the game is the update output at its own index with this game's minutes
   * appended to its old history.
   */
  lemma HomeEntryAfterGame(env: Env, d: RatingDict, game: Game, k: int)
    requires Playable(game)
    requires Distinct(game.homeTeam.players + game.awayTeam.players)
    requires 0 <= k < |game.homeTeam.players|
    ensures var id := game.homeTeam.players[k].playerId;
            AfterGame(env, d, game)[id]
            == Entry(GameUpdate(env, d, game).0[k], History(d, id) + [game.homeTeam.players[k].mins])
  {
    var home, away := game.homeTeam.players, game.awayTeam.players;
    var u := GameUpdate(env, d, game);
    var enrolled := Enrol(Enrol(d, home), away);
    var afterHome := WriteBack(enrolled, home, u.0);
    var id := home[k].playerId;
    DistinctParts(home, away);
    HomeNotAway(home, away, k);
    WriteBackAt(enrolled, home, u.0, k);
    assert enrolled[id].minutes == History(d, id);
    assert afterHome[id] == Entry(u.0[k], History(d, id) + [home[k].mins]);
    WriteBackLeaves(afterHome, away, u.1, id);
  }

  /** The away-side counterpart of `HomeEntryAfterGame`. */
  lemma AwayEntryAfterGame(env: Env, d: RatingDict, game: Game, k: int)
    requires Playable(game)
    requires Distinct(game.homeTeam.players + game.awayTeam.players)
    requires 0 <= k < |game.awayTeam.players|
    ensures var id := game.awayTeam.players[k].playerId;
            AfterGame(env, d, game)[id]
            == Entry(GameUpdate(env, d, game).1[k], History(d, id) + [game.awayTeam.players[k].mins])
  {
    var home, away := game.homeTeam.players, game.awayTeam.players;
    var u := GameUpdate(env, d, game);
    var enrolled := Enrol(Enrol(d, home), away);
    var afterHome := WriteBack(enrolled, home, u.0);
    var id := away[k].playerId;
    DistinctParts(home, away);
    AwayNotHome(home, away, k);
    assert enrolled[id].minutes == History(d, id);
    WriteBackLeaves(enrolled, home, u.0, id);
    WriteBackAt(afterHome, away, u.1, k);
  }

  lemma HomeNotAway(home: seq<Player>, away: seq<Player>, k: int)
    requires Distinct(home + away)
    requires 0 <= k < |home|
    ensures home[k].playerId !in Ids(away)
  {
    forall j | 0 <= j < |away|
      ensures away[j].playerId != home[k].playerId
    {
      assert (home + away)[k] == home[k] && (home + away)[|home| + j] == away[j];
    }
  }

  lemma AwayNotHome(home: seq<Player>, away: seq<Player>, k: int)
    requires Distinct(home + away)
    requires 0 <= k < |away|
    ensures away[k].playerId !in Ids(home)
  {
    forall j | 0 <= j < |home|
      ensures home[j].playerId != away[k].playerId
    {
      assert (home + away)[j] == home[j] && (home + away)[|home| + k] == away[k];
    }
  }

  lemma DistinctParts(home: seq<Player>, away: seq<Player>)
    requires Distinct(home + away)
    ensures Distinct(home) && Distinct(away)
  {
    forall i, j | 0 <= i < j < |away|
      ensures away[i].playerId != away[j].playerId
    {
      assert (home + away)[|home| + i] == away[i] && (home + away)[|home| + j] == away[j];
    }
    forall i, j | 0 <= i < j < |home|
      ensures home[i].playerId != home[j].playerId
    {
      assert (home + away)[i] == home[i] && (home + away)[j] == home[j];
    }
  }

  // ---------------------------------------------------------------------------
  // The fold: generate_ts_ratings

  /** The insertion loop over one lineup, collecting its ratings and minutes. */
  method EnrolLineup(d: RatingDict, players: seq<Player>)
    returns (ratingDictionary: RatingDict, ratings: seq<Rating>, mins: seq<real>)
    ensures ratingDictionary == Enrol(d, players)
    ensures ratings == LineupRatings(d, players)
    ensures mins == Minutes(players)
  {
    ratingDictionary, ratings, mins := d, [], [];
    for i := 0 to |players|
      invariant ratingDictionary == Enrol(d, players[..i])
      invariant ratings == LineupRatings(d, players[..i])
      invariant mins == Minutes(players[..i])
    {
      var player := players[i];
      EnrolStep(d, players, i, ratingDictionary);
      if player.playerId !in ratingDictionary {
        ratingDictionary := ratingDictionary[player.playerId := Entry(DefaultRating, [])];
      }
      ratings := ratings + [ratingDictionary[player.playerId].rating];
      mins := mins + [player.mins];
    }
    assert players[..|players|] == players;
  }

  /** One more pass of the insertion loop, and the rating and minutes it collects for player i. */
  lemma EnrolStep(d: RatingDict, players: seq<Player>, i: nat, cur: RatingDict)
    requires i < |players|
    requires cur == Enrol(d, players[..i])
    ensures Enrol(d, players[..i + 1])
            == if players[i].playerId in cur then cur else cur[players[i].playerId := Entry(DefaultRating, [])]
    ensures RatingOf(d, players[i].playerId)
            == (if players[i].playerId in cur then cur[players[i].playerId].rating else DefaultRating)
    ensures LineupRatings(d, players[..i + 1]) == LineupRatings(d, players[..i]) + [RatingOf(d, players[i].playerId)]
    ensures Minutes(players[..i + 1]) == Minutes(players[..i]) + [players[i].mins]
  {
    assert players[..i + 1][..i] == players[..i];
    EnrolKeepsReadings(d, players[..i], players[i].playerId);
    LineupSnoc(d, players[..i + 1]);
  }

  lemma LineupSnoc(d: RatingDict, players: seq<Player>)
    requires |players| > 0
    ensures var n := |players| - 1;
            && LineupRatings(d, players) == LineupRatings(d, players[..n]) + [RatingOf(d, players[n].playerId)]
            && Minutes(players) == Minutes(players[..n]) + [players[n].mins]
  {
  }

  lemma IdsPrefix(players: seq<Player>, i: nat)
    requires i <= |players|
    ensures Ids(players[..i]) <= Ids(players)
  {
    forall id | id in Ids(players[..i])
      ensures id in Ids(players)
    {
      var j :| 0 <= j < i && players[..i][j].playerId == id;
      assert players[j].playerId == id;
    }
  }

  /** One more pass of the write-back loop: player i's belief and minutes are written over what the first i passes left. */
  lemma WriteBackStep(d: RatingDict, players: seq<Player>, ratings: seq<Rating>, i: nat, cur: RatingDict)
    requires |ratings| == |players|
    requires Ids(players) <= d.Keys
    requires i < |players|
    requires Ids(players[..i]) <= d.Keys
    requires cur == WriteBack(d, players[..i], ratings[..i])
    ensures Ids(players[..i + 1]) <= d.Keys
    ensures players[i].playerId in cur
    ensures WriteBack(d, players[..i + 1], ratings[..i + 1])
            == cur[players[i].playerId := Entry(ratings[i], cur[players[i].playerId].minutes + [players[i].mins])]
  {
    IdsPrefix(players, i + 1);
    IdsSnoc(players[..i + 1]);
    assert players[..i + 1][..i] == players[..i] && ratings[..i + 1][..i] == ratings[..i];
  }

  /** The write-back loop over one lineup. */
  method WriteBackLineup(d: RatingDict, players: seq<Player>, newRatings: seq<Rating>)
    returns (ratingDictionary: RatingDict)
    requires |newRatings| == |players|
    requires Ids(players) <= d.Keys
    ensures ratingDictionary == WriteBack(d, players, newRatings)
  {
    ratingDictionary := d;
    for i := 0 to |players|
      invariant Ids(players[..i]) <= d.Keys
      invariant ratingDictionary == WriteBack(d, players[..i], newRatings[..i])
    {
      var player := players[i];
      WriteBackStep(d, players, newRatings, i, ratingDictionary);
      ratingDictionary := ratingDictionary[player.playerId :=
        Entry(newRatings[i], ratingDictionary[player.playerId].minutes + [player.mins])];
    }
    assert players[..|players|] == players && newRatings[..|newRatings|] == newRatings;
  }

  /** The body of the `for game` loop after the callback: insert, update, write back. */
  method FoldGame(env: Env, d: RatingDict, game: Game) returns (ratingDictionary: RatingDict)
    requires Playable(game)
    ensures ratingDictionary == AfterGame(env, d, game)
  {
    var homeRatings, homeMins, awayRatings, awayMins;
    ratingDictionary, homeRatings, homeMins := EnrolLineup(d, game.homeTeam.players);
    ratingDictionary, awayRatings, awayMins := EnrolLineup(ratingDictionary, game.awayTeam.players);
    EnrolKeepsLineupRatings(d, game.homeTeam.players, game.awayTeam.players);
    var outcome := WeightedUpdate(env, homeRatings, awayRatings, homeMins, awayMins, GameWinner(game));
    var newHomeRatings, newAwayRatings := outcome.value.0, outcome.value.1;
    ratingDictionary := WriteBackLineup(ratingDictionary, game.homeTeam.players, newHomeRatings);
    ratingDictionary := WriteBackLineup(ratingDictionary, game.awayTeam.players, newAwayRatings);
  }

  /** What `generate_ts_ratings` returns: `None` for no games, else the dictionary after the first game only. */
  function FoldResult(env: Env, games: seq<Game>): (r: Option<RatingDict>)
    requires games == [] || Playable(games[0])
    ensures r.None? <==> games == []
    ensures r.Some? ==> WellFormed(r.value)
  {
    if games == [] then None
    else
      AfterGameWellFormed(env, map[], games[0]);
      Some(AfterGame(env, map[], games[0]))
  }

  /**
   * `generate_ts_ratings`. The `return` sits inside the `for game` loop, so
   * at most the first game is folded, and an empty list returns `None`. The
   * optional callback is called before any insertion or update of that game,
   * so it sees the dictionary as it was before the game: empty. `log` holds
   * what the callback produced, one value per call.
   */
  method GenerateTsRatings<T>(env: Env, games: seq<Game>, callback: Option<(Game, RatingDict) --> T>)
    returns (log: seq<T>, result: Option<RatingDict>)
    requires games == [] || Playable(games[0])
    requires callback.Some? && games != [] ==> callback.value.requires(games[0], map[])
    ensures result == FoldResult(env, games)
    ensures log == if games == [] || callback.None? then [] else [callback.value(games[0], map[])]
  {
    var ratingDictionary: RatingDict := map[];
    log := [];
    for k := 0 to |games|
      invariant k == 0 && ratingDictionary == map[] && log == []
    {
      var game := games[k];
      if callback.Some? {
        var row := callback.value(game, ratingDictionary);
        assert row == callback.value(games[0], map[]);
        log := log + [row];
        assert log == [row];
      }
      ratingDictionary := FoldGame(env, ratingDictionary, game);
      return log, Some(ratingDictionary);
    }
    return log, None;
  }

  // ---------------------------------------------------------------------------
  // Team ratings: compute_team_rating

  /** numpy's `average` of a non-empty list. */
  function Average(s: seq<real>): (a: real)
    requires |s| > 0
    ensures a * (|s| as real) == Sum(s)
  {
    Sum(s) / (|s| as real)
  }

  /** The beliefs of the recorded players of a lineup, in lineup order. */
  function PresentRatings(d: RatingDict, players: seq<Player>): (r: seq<Rating>)
    ensures |r| <= |players|
    decreases |players|
  {
    if |players| == 0 then []
    else
      var n := |players| - 1;
      PresentRatings(d, players[..n]) + (if players[n].playerId in d then [d[players[n].playerId].rating] else [])
  }

  /** The average historical minutes of the recorded players of a lineup, one per recorded player. */
  function PresentWeights(d: RatingDict, players: seq<Player>): (w: seq<real>)
    requires WellFormed(d)
    ensures |w| == |PresentRatings(d, players)|
    decreases |players|
  {
    if |players| == 0 then []
    else
      var n := |players| - 1;
      var id := players[n].playerId;
      PresentWeights(d, players[..n]) + (if id in d then [Average(d[id].minutes)] else [])
  }

  /**
   * `compute_team_rating` as a function: `weighted_team_rating` of the
   * recorded players, weighted by their raw average minutes.
   */
  function TeamRating(d: RatingDict, team: Team): (r: (real, real))
    requires WellFormed(d)
    ensures r.1 >= 0.0
  {
    WeightedTeamRating(PresentRatings(d, team.players), PresentWeights(d, team.players))
  }

  /** A lineup none of whose players is recorded is rated (0, 0). */
  lemma {:induction false} UnknownTeamRatesZero(d: RatingDict, team: Team)
    requires WellFormed(d)
    requires forall i :: 0 <= i < |team.players| ==> team.players[i].playerId !in d
    ensures TeamRating(d, team) == (0.0, 0.0)
  {
    NoPresentRatings(d, team.players);
  }

  lemma {:induction false} NoPresentRatings(d: RatingDict, players: seq<Player>)
    requires forall i :: 0 <= i < |players| ==> players[i].playerId !in d
    ensures PresentRatings(d, players) == []
    decreases |players|
  {
    if |players| > 0 {
      var n := |players| - 1;
      assert forall i :: 0 <= i < n ==> players[..n][i] == players[i];
      NoPresentRatings(d, players[..n]);
    }
  }

  /** Appending a player that is not recorded does not change a team's rating: absent players are skipped. */
  lemma AbsentPlayerIsSkipped(d: RatingDict, team: Team, p: Player)
    requires WellFormed(d)
    requires p.playerId !in d
    ensures TeamRating(d, Team(team.name, team.players + [p])) == TeamRating(d, team)
  {
    var players := team.players + [p];
    assert players[..|team.players|] == team.players;
    assert PresentRatings(d, players) == PresentRatings(d, team.players) + [];
    assert PresentWeights(d, players) == PresentWeights(d, team.players) + [];
    assert PresentRatings(d, players) == PresentRatings(d, team.players);
    assert PresentWeights(d, players) == PresentWeights(d, team.players);
    assert TeamRating(d, Team(team.name, players))
           == WeightedTeamRating(PresentRatings(d, players), PresentWeights(d, players));
    assert TeamRating(d, team)
           == WeightedTeamRating(PresentRatings(d, team.players), PresentWeights(d, team.players));
  }

  /**
   * Appending a recorded player adds its raw average minutes times its mean to
   * the team mean, and the square of that weight times its variance to the
   * team variance.
   */
  lemma RecordedPlayerAdds(d: RatingDict, team: Team, p: Player)
    requires WellFormed(d)
    requires p.playerId in d
    ensures var w, belief := Average(d[p.playerId].minutes), d[p.playerId].rating;
            var before, after := TeamRating(d, team), TeamRating(d, Team(team.name, team.players + [p]));
            && after.0 == before.0 + w * belief.mu
            && after.1 == before.1 + (w * w) * (belief.sigma * belief.sigma)
  {
    var players := team.players + [p];
    var w, belief := Average(d[p.playerId].minutes), d[p.playerId].rating;
    assert players[..|team.players|] == team.players;
    var ratings, weights := PresentRatings(d, team.players), PresentWeights(d, team.players);
    assert PresentRatings(d, players) == ratings + [belief];
    assert PresentWeights(d, players) == weights + [w];
    WeightedMeanSnoc(ratings, weights, belief, w);
    WeightedVarSnoc(ratings, weights, belief, w);
  }

  /** Extending both zipped lists by one pair adds that pair's term to the mean. */
  lemma {:induction false} WeightedMeanSnoc(players: seq<Rating>, weights: seq<real>, p: Rating, w: real)
    requires |players| == |weights|
    ensures WeightedMean(players + [p], weights + [w]) == WeightedMean(players, weights) + w * p.mu
    decreases |players|
  {
    var players', weights' := players + [p], weights + [w];
    if |players| == 0 {
      assert players'[1..] == [] && weights'[1..] == [];
    } else {
      assert players'[1..] == players[1..] + [p] && weights'[1..] == weights[1..] + [w];
      WeightedMeanSnoc(players[1..], weights[1..], p, w);
      assert WeightedMean(players', weights') == weights[0] * players[0].mu + WeightedMean(players'[1..], weights'[1..]);
    }
  }

  /** Extending both zipped lists by one pair adds that pair's term to the variance. */
  lemma {:induction false} WeightedVarSnoc(players: seq<Rating>, weights: seq<real>, p: Rating, w: real)
    requires |players| == |weights|
    ensures WeightedVar(players + [p], weights + [w]) == WeightedVar(players, weights) + (w * w) * (p.sigma * p.sigma)
    decreases |players|
  {
    var players', weights' := players + [p], weights + [w];
    if |players| == 0 {
      assert players'[1..] == [] && weights'[1..] == [];
    } else {
      assert players'[1..] == players[1..] + [p] && weights'[1..] == weights[1..] + [w];
      WeightedVarSnoc(players[1..], weights[1..], p, w);
      var w0, s0 := weights[0], players[0].sigma;
      assert WeightedVar(players', weights') == (w0 * w0) * (s0 * s0) + WeightedVar(players'[1..], weights'[1..]);
    }
  }

  /**
   * The weights are average minutes and are not normalised: a lone recorded
   * player with 48 minutes in its only game gives a team mean of 48 times
   * its own mean.
   */
  lemma WeightsAreNotNormalised(name: string, id: PlayerId, belief: Rating)
    ensures var d := map[id := Entry(belief, [48.0])];
            TeamRating(d, Team(name, [Player(id, 0.0)])) == (48.0 * belief.mu, 48.0 * 48.0 * (belief.sigma * belief.sigma))
  {
    var d := map[id := Entry(belief, [48.0])];
    var players := [Player(id, 0.0)];
    assert players[..0] == [];
    assert Average([48.0]) == 48.0 by {
      assert Sum([48.0]) == 48.0 + Sum([]);
    }
    assert PresentWeights(d, players) == [] + [48.0];
    assert PresentRatings(d, players) == [] + [belief];
    assert PresentWeights(d, players) == [48.0] && PresentRatings(d, players) == [belief];
    assert [belief][1..] == [] && [48.0][1..] == [];
    assert WeightedMean([belief], [48.0]) == 48.0 * belief.mu + WeightedMean([], []);
    assert WeightedVar([belief], [48.0]) == (48.0 * 48.0) * (belief.sigma * belief.sigma) + WeightedVar([], []);
    assert TeamRating(d, Team(name, players))
           == WeightedTeamRating(PresentRatings(d, players), PresentWeights(d, players));
  }

  /** The list-building loop of `compute_team_rating`. */
  method ComputeTeamRating(ratingsDict: RatingDict, team: Team) returns (mean: real, variance: real)
    requires WellFormed(ratingsDict)
    ensures (mean, variance) == TeamRating(ratingsDict, team)
  {
    var teamRatings: seq<Rating> := [];
    var teamMins: seq<real> := [];
    for i := 0 to |team.players|
      invariant teamRatings == PresentRatings(ratingsDict, team.players[..i])
      invariant teamMins == PresentWeights(ratingsDict, team.players[..i])
    {
      var player := team.players[i];
      assert team.players[..i + 1][..i] == team.players[..i];
      if player.playerId in ratingsDict {
        teamRatings := teamRatings + [ratingsDict[player.playerId].rating];
        teamMins := teamMins + [Average(ratingsDict[player.playerId].minutes)];
      }
    }
    assert team.players[..|team.players|] == team.players;
    mean, variance := WeightedTeamRating(teamRatings, teamMins).0, WeightedTeamRating(teamRatings, teamMins).1;
  }

  // ---------------------------------------------------------------------------
  // Pregame ratings: generate_ts_ratings_pregame

  /** The callback of `generate_ts_ratings_pregame`: the game's row, rated on the dictionary it is given. */
  function PregameRowOf(game: Game, d: RatingDict): (row: PregameRow)
    requires WellFormed(d)
    ensures row.gameDate == game.date && row.homeTeamName == game.homeTeam.name && row.awayTeamName == game.awayTeam.name
    ensures (row.homeTeamRating, row.homeTeamRatingVar) == TeamRating(d, game.homeTeam)
    ensures (row.awayTeamRating, row.awayTeamRatingVar) == TeamRating(d, game.awayTeam)
    ensures row.homeTeamRatingVar >= 0.0 && row.awayTeamRatingVar >= 0.0
  {
    var home := TeamRating(d, game.homeTeam);
    var away := TeamRating(d, game.awayTeam);
    PregameRow(game.date, game.homeTeam.name, game.awayTeam.name, home.0, home.1, away.0, away.1)
  }

  /**
   * The pregame row depends on the game only through its date, team names
   * and player ids: not on its outcome and not on its minutes.
   */
  lemma PregameRowIgnoresOutcome(d: RatingDict, game: Game, game': Game)
    requires WellFormed(d)
    requires game'.date == game.date
    requires game'.homeTeam.name == game.homeTeam.name && game'.awayTeam.name == game.awayTeam.name
    requires SameIds(game'.homeTeam.players, game.homeTeam.players)
    requires SameIds(game'.awayTeam.players, game.awayTeam.players)
    ensures PregameRowOf(game', d) == PregameRowOf(game, d)
  {
    PresentDependsOnIds(d, game'.homeTeam.players, game.homeTeam.players);
    PresentDependsOnIds(d, game'.awayTeam.players, game.awayTeam.players);
  }

  predicate SameIds(players: seq<Player>, players': seq<Player>)
  {
    |players| == |players'| && forall i :: 0 <= i < |players| ==> players[i].playerId == players'[i].playerId
  }

  lemma {:induction false} PresentDependsOnIds(d: RatingDict, players: seq<Player>, players': seq<Player>)
    requires WellFormed(d)
    requires SameIds(players, players')
    ensures PresentRatings(d, players) == PresentRatings(d, players')
    ensures PresentWeights(d, players) == PresentWeights(d, players')
    decreases |players|
  {
    if |players| > 0 {
      var n := |players| - 1;
      PresentDependsOnIds(d, players[..n], players'[..n]);
    }
  }

  /** The first game's callback sees the empty dictionary, so its row carries only zero ratings. */
  lemma FirstPregameRowIsZero(game: Game)
    ensures var row := PregameRowOf(game, map[]);
            row.homeTeamRating == 0.0 && row.homeTeamRatingVar == 0.0
            && row.awayTeamRating == 0.0 && row.awayTeamRatingVar == 0.0
  {
    UnknownTeamRatesZero(map[], game.homeTeam);
    UnknownTeamRatesZero(map[], game.awayTeam);
  }

  /** The rows `generate_ts_ratings_pregame` collects: one for the first game, none for no games. */
  function PregameRows(games: seq<Game>): (rows: seq<PregameRow>)
    ensures |rows| <= 1 && (|rows| == 1 <==> games != [])
    ensures forall k :: 0 <= k < |rows| ==> rows[k].gameDate == games[k].date
                                            && rows[k].homeTeamName == games[k].homeTeam.name
                                            && rows[k].awayTeamName == games[k].awayTeam.name
  {
    // the fold returns inside its first iteration, so it reaches at most one game
    var folded := if games == [] then 0 else 1;
    seq(folded, k requires 0 <= k < folded => PregameRowOf(games[k], map[]))
  }

  /**
   * `generate_ts_ratings_pregame`: the fold with the row-appending callback.
   * The rows are rated on the dictionary before the game is folded in.
   */
  method GenerateTsRatingsPregame(env: Env, games: seq<Game>) returns (rows: seq<PregameRow>, result: Option<RatingDict>)
    requires games == [] || Playable(games[0])
    ensures rows == PregameRows(games)
    ensures result == FoldResult(env, games)
  {
    var callback: (Game, RatingDict) --> PregameRow := PregameRowOf;
    assert WellFormed(map[]);
    rows, result := GenerateTsRatings(env, games, Some(callback));
    if games != [] {
      PregameRowsOfFirst(games);
    }
  }

  lemma PregameRowsOfFirst(games: seq<Game>)
    requires games != []
    ensures PregameRows(games) == [PregameRowOf(games[0], map[])]
  {
    assert PregameRows(games)[0] == PregameRowOf(games[0], map[]);
  }

  // ---------------------------------------------------------------------------
  // End-of-season team ratings: generate_rs_ratings

  /**
   * One roster team's row. With no dictionary (no games), the membership test
   * on `None` raises `TypeError` as soon as the team has a player.
   */
  function RosterRow(dict: Option<RatingDict>, team: Team): (r: Result<RsRow>)
    requires dict.Some? ==> WellFormed(dict.value)
    ensures r.Failure? <==> dict.None? && |team.players| > 0
    ensures r.Success? ==> r.value.teamName == team.name
  {
    match dict
    case None =>
      if |team.players| == 0 then Success(RsRow(team.name, 0.0, 0.0)) else Failure(TypeError(NoneNotIterable))
    case Some(d) =>
      var (mean, variance) := TeamRating(d, team);
      Success(RsRow(team.name, mean, variance))
  }

  /** The rows for a roster list, or the first failure. */
  function RsRows(dict: Option<RatingDict>, rosters: seq<Team>): (r: Result<seq<RsRow>>)
    requires dict.Some? ==> WellFormed(dict.value)
    ensures r.Success? ==> |r.value| == |rosters|
    ensures r.Failure? ==> r.error.TypeError?
    decreases |rosters|
  {
    if |rosters| == 0 then Success([])
    else
      var n := |rosters| - 1;
      match RsRows(dict, rosters[..n])
      case Failure(e) => Failure(e)
      case Success(rows) =>
        match RosterRow(dict, rosters[n])
        case Failure(e) => Failure(e)
        case Success(row) => Success(rows + [row])
  }

  /**
   * One row per roster team, in roster order, each carrying its team's name;
   * the only failure is a team with players when there is no dictionary.
   */
  lemma {:induction false} RsRowsFollowRoster(dict: Option<RatingDict>, rosters: seq<Team>)
    requires dict.Some? ==> WellFormed(dict.value)
    ensures RsRows(dict, rosters).Failure?
            <==> dict.None? && exists k :: 0 <= k < |rosters| && |rosters[k].players| > 0
    ensures RsRows(dict, rosters).Success? ==>
              |RsRows(dict, rosters).value| == |rosters|
              && forall k :: 0 <= k < |rosters| ==> RsRows(dict, rosters).value[k].teamName == rosters[k].name
    decreases |rosters|
  {
    if |rosters| > 0 {
      var n := |rosters| - 1;
      RsRowsFollowRoster(dict, rosters[..n]);
      assert forall k :: 0 <= k < n ==> rosters[..n][k] == rosters[k];
    }
  }

  /**
   * Row k of a successful roster table is roster team k's own row: its name
   * with `compute_team_rating` of that team on the folded dictionary.
   */
  lemma {:induction false} RsRowsAreRosterRows(dict: Option<RatingDict>, rosters: seq<Team>)
    requires dict.Some? ==> WellFormed(dict.value)
    ensures RsRows(dict, rosters).Success? ==>
              forall k :: 0 <= k < |rosters| ==>
                RosterRow(dict, rosters[k]).Success? && RsRows(dict, rosters).value[k] == RosterRow(dict, rosters[k]).value
    decreases |rosters|
  {
    if |rosters| > 0 && RsRows(dict, rosters).Success? {
      var n := |rosters| - 1;
      RsRowsAreRosterRows(dict, rosters[..n]);
      var prev := RsRows(dict, rosters[..n]).value;
      assert RsRows(dict, rosters).value == prev + [RosterRow(dict, rosters[n]).value];
      forall k | 0 <= k < |rosters|
        ensures RosterRow(dict, rosters[k]).Success? && RsRows(dict, rosters).value[k] == RosterRow(dict, rosters[k]).value
      {
        if k < n {
          assert rosters[..n][k] == rosters[k];
        }
      }
    }
  }

  lemma {:induction false} RsRowsFailureSticks(dict: Option<RatingDict>, rosters: seq<Team>, i: int)
    requires dict.Some? ==> WellFormed(dict.value)
    requires 0 <= i <= |rosters|
    requires RsRows(dict, rosters[..i]).Failure?
    ensures RsRows(dict, rosters) == RsRows(dict, rosters[..i])
    decreases |rosters| - i
  {
    if i < |rosters| {
      assert rosters[..i + 1][..i] == rosters[..i];
      RsRowsFailureSticks(dict, rosters, i + 1);
    } else {
      assert rosters[..i] == rosters;
    }
  }

  /** `generate_rs_ratings`: fold the games, then rate every roster team on the result. */
  method GenerateRsRatings(env: Env, games: seq<Game>, rosters: seq<Team>) returns (r: Result<seq<RsRow>>)
    requires games == [] || Playable(games[0])
    ensures r == RsRows(FoldResult(env, games), rosters)
  {
    var unused: seq<bool>, ratingsDict := GenerateTsRatings<bool>(env, games, None);
    r := RateRosters(ratingsDict, rosters);
  }

  /** The `for team in roster_list` loop of `generate_rs_ratings`, on the folded dictionary. */
  method RateRosters(ratingsDict: Option<RatingDict>, rosters: seq<Team>) returns (r: Result<seq<RsRow>>)
    requires ratingsDict.Some? ==> WellFormed(ratingsDict.value)
    ensures r == RsRows(ratingsDict, rosters)
  {
    var teamRatingsDf: seq<RsRow> := [];
    for i := 0 to |rosters|
      invariant RsRows(ratingsDict, rosters[..i]) == Success(teamRatingsDf)
    {
      var team := rosters[i];
      assert rosters[..i + 1][..i] == rosters[..i];
      var mean, variance;
      match ratingsDict {
        case None =>
          if |team.players| > 0 {
            RsRowsFailureSticks(ratingsDict, rosters, i + 1);
            return Failure(TypeError(NoneNotIterable));
          }
          mean, variance := 0.0, 0.0;
        case Some(d) =>
          mean, variance := ComputeTeamRating(d, team);
      }
      teamRatingsDf := teamRatingsDf + [RsRow(team.name, mean, variance)];
    }
    assert rosters[..|rosters|] == rosters;
    return Success(teamRatingsDf);
  }

  // ---------------------------------------------------------------------------
  // Season loops: generate_rs_rating_period and generate_po_pregame_ratings

  /** Tag a season's rows with its year. */
  function TagRs(year: int, rows: seq<RsRow>): (r: seq<RsPeriodRow>)
    ensures |r| == |rows|
    ensures forall k :: 0 <= k < |r| ==> r[k].seasonYear == year
  {
    seq(|rows|, k requires 0 <= k < |rows| => RsPeriodRow(year, rows[k].teamName, rows[k].ratingMean, rows[k].ratingVar))
  }

  /** Every season in [start, stop) has a first game that can be folded. */
  predicate SeasonsPlayable(seasonGames: int -> seq<Game>, start: int, stop: int)
  {
    forall y :: start <= y < stop ==> seasonGames(y) == [] || Playable(seasonGames(y)[0])
  }

  /** One season's rows, computed from a fresh dictionary and that season's games and rosters alone. */
  function RsSeason(env: Env, seasonGames: int -> seq<Game>, seasonRosters: int -> seq<Team>, year: int): Result<seq<RsRow>>
    requires seasonGames(year) == [] || Playable(seasonGames(year)[0])
  {
    RsRows(FoldResult(env, seasonGames(year)), seasonRosters(year))
  }

  /** The seasons' own results by year, defined on the years whose first game can be folded. */
  function SeasonTable(env: Env, seasonGames: int -> seq<Game>, seasonRosters: int -> seq<Team>): int --> Result<seq<RsRow>>
  {
    y requires seasonGames(y) == [] || Playable(seasonGames(y)[0]) => RsSeason(env, seasonGames, seasonRosters, y)
  }

  /** The table is defined on every season in [start, stop). */
  ghost predicate Defined(table: int --> Result<seq<RsRow>>, start: int, stop: int)
  {
    forall y :: start <= y < stop ==> table.requires(y)
  }

  /**
   * The season loop of `generate_rs_rating_period` over any table of season
   * results: the seasons' rows in increasing year order, each tagged with its
   * year, or the first season's failure.
   */
  function Period(table: int --> Result<seq<RsRow>>, start: int, stop: int): Result<seq<RsPeriodRow>>
    requires Defined(table, start, stop)
    decreases stop - start
  {
    if stop <= start then Success([])
    else
      match Period(table, start, stop - 1)
      case Failure(e) => Failure(e)
      case Success(prev) =>
        match table(stop - 1)
        case Failure(e) => Failure(e)
        case Success(rows) => Success(prev + TagRs(stop - 1, rows))
  }

  lemma {:induction false} PeriodFailureSticks(table: int --> Result<seq<RsRow>>, start: int, mid: int, stop: int)
    requires start <= mid <= stop
    requires Defined(table, start, stop)
    requires Period(table, start, mid).Failure?
    ensures Period(table, start, stop) == Period(table, start, mid)
    decreases stop - mid
  {
    if mid < stop {
      PeriodFailureSticks(table, start, mid + 1, stop);
    }
  }

  /** One more season either appends its tagged rows to a successful table or ends it with that season's failure. */
  lemma PeriodStep(table: int --> Result<seq<RsRow>>, start: int, year: int, stop: int)
    requires start <= year < stop
    requires Defined(table, start, stop)
    requires Period(table, start, year).Success?
    ensures Period(table, start, year + 1)
            == if table(year).Failure? then Failure(table(year).error)
               else Success(Period(table, start, year).value + TagRs(year, table(year).value))
  {
  }

  /** The period table fails exactly when one of its seasons fails, and then with that season's error. */
  lemma {:induction false} PeriodFailsOnSeason(table: int --> Result<seq<RsRow>>, start: int, stop: int)
    requires Defined(table, start, stop)
    ensures Period(table, start, stop).Failure?
            <==> exists y :: start <= y < stop && table(y).Failure?
    ensures Period(table, start, stop).Failure? ==>
              exists y :: start <= y < stop && table(y).Failure? && table(y).error == Period(table, start, stop).error
    decreases stop - start
  {
    if start < stop {
      PeriodFailsOnSeason(table, start, stop - 1);
    }
  }

  /** A table whose seasons can only fail with a TypeError can only fail with a TypeError. */
  lemma {:induction false} PeriodKeepsSeasonErrors(table: int --> Result<seq<RsRow>>, start: int, stop: int)
    requires Defined(table, start, stop)
    requires forall y :: start <= y < stop && table(y).Failure? ==> table(y).error.TypeError?
    ensures Period(table, start, stop).Failure? ==> Period(table, start, stop).error.TypeError?
    decreases stop - start
  {
    if start < stop {
      PeriodKeepsSeasonErrors(table, start, stop - 1);
    }
  }

  /** Every row of the table for [start, stop) carries a year in that range, and the years never decrease. */
  lemma {:induction false} PeriodYearsBelow(table: int --> Result<seq<RsRow>>, start: int, stop: int)
    requires Defined(table, start, stop)
    requires Period(table, start, stop).Success?
    ensures var rows := Period(table, start, stop).value;
            && (forall k :: 0 <= k < |rows| ==> start <= rows[k].seasonYear < stop)
            && (forall k, l :: 0 <= k < l < |rows| ==> rows[k].seasonYear <= rows[l].seasonYear)
    decreases stop - start
  {
    if start < stop {
      PeriodYearsBelow(table, start, stop - 1);
    }
  }

  /** The rows of a table that carry a given season year, in table order. */
  function RowsOfSeason(rows: seq<RsPeriodRow>, year: int): seq<RsPeriodRow>
    decreases |rows|
  {
    if |rows| == 0 then []
    else
      var n := |rows| - 1;
      RowsOfSeason(rows[..n], year) + (if rows[n].seasonYear == year then [rows[n]] else [])
  }

  lemma {:induction false} RowsOfSeasonAppend(a: seq<RsPeriodRow>, b: seq<RsPeriodRow>, year: int)
    ensures RowsOfSeason(a + b, year) == RowsOfSeason(a, year) + RowsOfSeason(b, year)
    decreases |b|
  {
    if |b| > 0 {
      var n := |b| - 1;
      assert (a + b)[..|a| + n] == a + b[..n];
      RowsOfSeasonAppend(a, b[..n], year);
    } else {
      assert a + b == a;
    }
  }

  lemma {:induction false} RowsOfOneSeason(rows: seq<RsPeriodRow>, tag: int, year: int)
    requires forall k :: 0 <= k < |rows| ==> rows[k].seasonYear == tag
    ensures RowsOfSeason(rows, year) == if tag == year then rows else []
    decreases |rows|
  {
    if |rows| > 0 {
      var n := |rows| - 1;
      RowsOfOneSeason(rows[..n], tag, year);
      assert rows[..n] + [rows[n]] == rows;
    }
  }

  lemma {:induction false} RowsOfOneSeasonNone(rows: seq<RsPeriodRow>, year: int)
    requires forall k :: 0 <= k < |rows| ==> rows[k].seasonYear < year
    ensures RowsOfSeason(rows, year) == []
    decreases |rows|
  {
    if |rows| > 0 {
      var n := |rows| - 1;
      RowsOfOneSeasonNone(rows[..n], year);
    }
  }

  /** Selecting one season's rows after appending a later season's tagged rows. */
  lemma RowsOfSeasonAfterSeason(prev: seq<RsPeriodRow>, last: int, rows: seq<RsRow>, year: int)
    requires year <= last
    requires year == last ==> forall k :: 0 <= k < |prev| ==> prev[k].seasonYear < last
    ensures RowsOfSeason(prev + TagRs(last, rows), year)
            == if year == last then TagRs(last, rows) else RowsOfSeason(prev, year)
  {
    RowsOfSeasonAppend(prev, TagRs(last, rows), year);
    RowsOfOneSeason(TagRs(last, rows), last, year);
    if year == last {
      RowsOfOneSeasonNone(prev, year);
    }
  }

  /** In a successful table, the rows of each season in range are exactly that season's own tagged rows. */
  lemma {:induction false} PeriodSeasonsAreIndependent(table: int --> Result<seq<RsRow>>, start: int, stop: int, year: int)
    requires Defined(table, start, stop)
    requires start <= year < stop
    requires Period(table, start, stop).Success?
    ensures table(year).Success?
    ensures RowsOfSeason(Period(table, start, stop).value, year) == TagRs(year, table(year).value)
    decreases stop - start
  {
    var prev := Period(table, start, stop - 1).value;
    var rows := table(stop - 1).value;
    if year < stop - 1 {
      PeriodSeasonsAreIndependent(table, start, stop - 1, year);
    } else {
      PeriodYearsBelow(table, start, stop - 1);
    }
    RowsOfSeasonAfterSeason(prev, stop - 1, rows, year);
  }

  /** The regular-season table for the seasons in [start, stop), in increasing order, or the first failure. */
  function RsPeriod(env: Env, seasonGames: int -> seq<Game>, seasonRosters: int -> seq<Team>,
                    start: int, stop: int): (r: Result<seq<RsPeriodRow>>)
    requires SeasonsPlayable(seasonGames, start, stop)
    ensures r.Failure? ==> r.error.TypeError?
  {
    PeriodKeepsSeasonErrors(SeasonTable(env, seasonGames, seasonRosters), start, stop);
    Period(SeasonTable(env, seasonGames, seasonRosters), start, stop)
  }

  /**
   * Nothing carries over between seasons: in a successful table, the rows of
   * each season in range are exactly that season's own rows, rated from a
   * fresh dictionary on that season's games and rosters alone.
   */
  lemma RsSeasonsAreIndependent(env: Env, seasonGames: int -> seq<Game>, seasonRosters: int -> seq<Team>,
                                start: int, stop: int, year: int)
    requires SeasonsPlayable(seasonGames, start, stop)
    requires start <= year < stop
    requires RsPeriod(env, seasonGames, seasonRosters, start, stop).Success?
    ensures RsSeason(env, seasonGames, seasonRosters, year).Success?
    ensures RowsOfSeason(RsPeriod(env, seasonGames, seasonRosters, start, stop).value, year)
            == TagRs(year, RsSeason(env, seasonGames, seasonRosters, year).value)
  {
    PeriodSeasonsAreIndependent(SeasonTable(env, seasonGames, seasonRosters), start, stop, year);
  }

  /** The period table fails exactly when one of its seasons fails. */
  lemma RsPeriodFailsOnSeason(env: Env, seasonGames: int -> seq<Game>, seasonRosters: int -> seq<Team>,
                              start: int, stop: int)
    requires SeasonsPlayable(seasonGames, start, stop)
    ensures RsPeriod(env, seasonGames, seasonRosters, start, stop).Failure?
            <==> exists y :: start <= y < stop && RsSeason(env, seasonGames, seasonRosters, y).Failure?
  {
    var table := SeasonTable(env, seasonGames, seasonRosters);
    PeriodFailsOnSeason(table, start, stop);
    if Period(table, start, stop).Failure? {
      var y :| start <= y < stop && table(y).Failure?;
      assert RsSeason(env, seasonGames, seasonRosters, y).Failure?;
    }
    if exists y :: start <= y < stop && RsSeason(env, seasonGames, seasonRosters, y).Failure? {
      var y :| start <= y < stop && RsSeason(env, seasonGames, seasonRosters, y).Failure?;
      assert table(y).Failure?;
    }
  }

  /** Every row of the regular-season table carries a year in range, and the years never decrease. */
  lemma RsPeriodYearsBelow(env: Env, seasonGames: int -> seq<Game>, seasonRosters: int -> seq<Team>,
                           start: int, stop: int)
    requires SeasonsPlayable(seasonGames, start, stop)
    requires RsPeriod(env, seasonGames, seasonRosters, start, stop).Success?
    ensures var rows := RsPeriod(env, seasonGames, seasonRosters, start, stop).value;
            && (forall k :: 0 <= k < |rows| ==> start <= rows[k].seasonYear < stop)
            && (forall k, l :: 0 <= k < l < |rows| ==> rows[k].seasonYear <= rows[l].seasonYear)
  {
    PeriodYearsBelow(SeasonTable(env, seasonGames, seasonRosters), start, stop);
  }

  /** The `iterrows` loop that copies one season's rows into the period table, tagged with the year. */
  method AppendRsSeason(periodDf: seq<RsPeriodRow>, seasonYear: int, rows: seq<RsRow>) returns (r: seq<RsPeriodRow>)
    ensures r == periodDf + TagRs(seasonYear, rows)
  {
    r := periodDf;
    for i := 0 to |rows|
      invariant r == periodDf + TagRs(seasonYear, rows[..i])
    {
      assert TagRs(seasonYear, rows[..i + 1]) == TagRs(seasonYear, rows[..i]) + [TagRs(seasonYear, rows)[i]];
      r := r + [RsPeriodRow(seasonYear, rows[i].teamName, rows[i].ratingMean, rows[i].ratingVar)];
    }
    assert rows[..|rows|] == rows;
  }

  /** One pass of the season loop: this season's games and rosters, rated from a fresh dictionary. */
  method RateSeason(env: Env, seasonGames: int -> seq<Game>, seasonRosters: int -> seq<Team>, seasonYear: int)
    returns (r: Result<seq<RsRow>>)
    requires seasonGames(seasonYear) == [] || Playable(seasonGames(seasonYear)[0])
    ensures r == SeasonTable(env, seasonGames, seasonRosters)(seasonYear)
  {
    var gamesList := seasonGames(seasonYear);
    var rosterList := seasonRosters(seasonYear);
    r := GenerateRsRatings(env, gamesList, rosterList);
  }

  /**
   * One pass of the season loop on a successful table so far: append the
   * season's tagged rows, or end the whole period with the season's failure.
   */
  method RatePeriodSeason(env: Env, seasonGames: int -> seq<Game>, seasonRosters: int -> seq<Team>,
                          startSeason: int, seasonYear: int, stop: int, periodDf: seq<RsPeriodRow>)
    returns (r: Result<seq<RsPeriodRow>>)
    requires startSeason <= seasonYear < stop
    requires SeasonsPlayable(seasonGames, startSeason, stop)
    requires RsPeriod(env, seasonGames, seasonRosters, startSeason, seasonYear) == Success(periodDf)
    ensures r.Success? ==> r == RsPeriod(env, seasonGames, seasonRosters, startSeason, seasonYear + 1)
    ensures r.Failure? ==> r == RsPeriod(env, seasonGames, seasonRosters, startSeason, stop)
  {
    ghost var table := SeasonTable(env, seasonGames, seasonRosters);
    var ratingsDf := RateSeason(env, seasonGames, seasonRosters, seasonYear);
    PeriodStep(table, startSeason, seasonYear, stop);
    if ratingsDf.Failure? {
      PeriodFailureSticks(table, startSeason, seasonYear + 1, stop);
      return Failure(ratingsDf.error);
    }
    var rows := AppendRsSeason(periodDf, seasonYear, ratingsDf.value);
    return Success(rows);
  }

  /**
   * `generate_rs_rating_period`: for each season from `startSeason` to
   * `endSeason` inclusive, rate the season from a fresh dictionary and append
   * its rows tagged with the season year.
   */
  method GenerateRsRatingPeriod(env: Env, seasonGames: int -> seq<Game>, seasonRosters: int -> seq<Team>,
                                startSeason: int, endSeason: int) returns (r: Result<seq<RsPeriodRow>>)
    requires SeasonsPlayable(seasonGames, startSeason, endSeason + 1)
    ensures r == RsPeriod(env, seasonGames, seasonRosters, startSeason, endSeason + 1)
  {
    var rsRatingsPeriodDf: seq<RsPeriodRow> := [];
    var seasonYear := startSeason;
    while seasonYear <= endSeason
      invariant startSeason <= seasonYear && (seasonYear <= endSeason + 1 || seasonYear == startSeason)
      invariant RsPeriod(env, seasonGames, seasonRosters, startSeason, seasonYear) == Success(rsRatingsPeriodDf)
      decreases endSeason - seasonYear
    {
      var next := RatePeriodSeason(env, seasonGames, seasonRosters, startSeason, seasonYear, endSeason + 1, rsRatingsPeriodDf);
      if next.Failure? {
        return next;
      }
      rsRatingsPeriodDf := next.value;
      seasonYear := seasonYear + 1;
    }
    return Success(rsRatingsPeriodDf);
  }

  /** Tag a season's pregame rows with its year. */
  function TagPo(year: int, rows: seq<PregameRow>): (r: seq<PoRow>)
    ensures |r| == |rows|
    ensures forall k :: 0 <= k < |r| ==> r[k].seasonYear == year
  {
    seq(|rows|, k requires 0 <= k < |rows| =>
      PoRow(year, rows[k].gameDate, rows[k].homeTeamName, rows[k].awayTeamName,
            rows[k].homeTeamRating, rows[k].homeTeamRatingVar, rows[k].awayTeamRating, rows[k].awayTeamRatingVar))
  }

  /** The playoff pregame table for the seasons in [start, stop), in increasing order. */
  function PoPeriod(seasonGames: int -> seq<Game>, start: int, stop: int): (r: seq<PoRow>)
    ensures |r| <= (if stop <= start then 0 else stop - start)
    decreases stop - start
  {
    if stop <= start then []
    else PoPeriod(seasonGames, start, stop - 1) + TagPo(stop - 1, PregameRows(seasonGames(stop - 1)))
  }

  /**
   * What the playoff pregame table holds: at most one row per season, years
   * in range and never decreasing, and every rating zero, because each
   * season's only row is rated on the empty dictionary.
   */
  lemma {:induction false} PoPeriodShape(seasonGames: int -> seq<Game>, start: int, stop: int)
    ensures var rows := PoPeriod(seasonGames, start, stop);
            && |rows| <= (if stop <= start then 0 else stop - start)
            && (forall k :: 0 <= k < |rows| ==> start <= rows[k].seasonYear < stop)
            && (forall k, l :: 0 <= k < l < |rows| ==> rows[k].seasonYear < rows[l].seasonYear)
            && (forall k :: 0 <= k < |rows| ==>
                  rows[k].homeTeamRating == 0.0 && rows[k].homeTeamRatingVar == 0.0 &&
                  rows[k].awayTeamRating == 0.0 && rows[k].awayTeamRatingVar == 0.0)
    decreases stop - start
  {
    if start < stop {
      PoPeriodShape(seasonGames, start, stop - 1);
      var games := seasonGames(stop - 1);
      if games != [] {
        FirstPregameRowIsZero(games[0]);
      }
    }
  }

  /**
   * Which rows the playoff table holds: each row is the tagged row of the
   * first game of a season that has playoff games, and every season in range
   * that has playoff games contributes a row.
   */
  lemma {:induction false} PoPeriodRows(seasonGames: int -> seq<Game>, start: int, stop: int)
    ensures var rows := PoPeriod(seasonGames, start, stop);
            && (forall k :: 0 <= k < |rows| ==>
                  seasonGames(rows[k].seasonYear) != []
                  && rows[k] == TagPo(rows[k].seasonYear, PregameRows(seasonGames(rows[k].seasonYear)))[0])
            && (forall y :: start <= y < stop && seasonGames(y) != [] ==>
                  exists k :: 0 <= k < |rows| && rows[k].seasonYear == y)
    decreases stop - start
  {
    if start < stop {
      var year := stop - 1;
      var prev := PoPeriod(seasonGames, start, year);
      var tail := TagPo(year, PregameRows(seasonGames(year)));
      var rows := PoPeriod(seasonGames, start, stop);
      PoPeriodRows(seasonGames, start, year);
      assert rows == prev + tail;
      forall k | 0 <= k < |rows|
        ensures seasonGames(rows[k].seasonYear) != []
                && rows[k] == TagPo(rows[k].seasonYear, PregameRows(seasonGames(rows[k].seasonYear)))[0]
      {
        if k < |prev| {
          assert rows[k] == prev[k];
        } else {
          assert k == |prev| && rows[k] == tail[0] && tail[0].seasonYear == year;
          assert seasonGames(year) != [];
        }
      }
      forall y | start <= y < stop && seasonGames(y) != []
        ensures exists k :: 0 <= k < |rows| && rows[k].seasonYear == y
      {
        if y == year {
          assert rows[|prev|] == tail[0];
        } else {
          var k :| 0 <= k < |prev| && prev[k].seasonYear == y;
          assert rows[k] == prev[k];
        }
      }
    }
  }

  /** The period table grows by one season's tagged rows at a time. */
  lemma PoPeriodSnoc(seasonGames: int -> seq<Game>, start: int, year: int)
    requires start <= year
    ensures PoPeriod(seasonGames, start, year + 1)
            == PoPeriod(seasonGames, start, year) + TagPo(year, PregameRows(seasonGames(year)))
  {
  }

  /** The `iterrows` loop that copies one season's pregame rows into the period table, tagged with the year. */
  method AppendPoSeason(periodDf: seq<PoRow>, seasonYear: int, rows: seq<PregameRow>) returns (r: seq<PoRow>)
    ensures r == periodDf + TagPo(seasonYear, rows)
  {
    r := periodDf;
    for i := 0 to |rows|
      invariant r == periodDf + TagPo(seasonYear, rows[..i])
    {
      var row := rows[i];
      assert TagPo(seasonYear, rows[..i + 1]) == TagPo(seasonYear, rows[..i]) + [TagPo(seasonYear, rows)[i]];
      r := r + [PoRow(seasonYear, row.gameDate, row.homeTeamName, row.awayTeamName,
                      row.homeTeamRating, row.homeTeamRatingVar, row.awayTeamRating, row.awayTeamRatingVar)];
    }
    assert rows[..|rows|] == rows;
  }

  /** `pregame_ratings_df, _ = generate_ts_ratings_pregame(games_list)`: the rows, with the dictionary discarded. */
  method SeasonPregameRows(env: Env, games: seq<Game>) returns (rows: seq<PregameRow>)
    requires games == [] || Playable(games[0])
    ensures rows == PregameRows(games)
  {
    var ratingDictionary;
    rows, ratingDictionary := GenerateTsRatingsPregame(env, games);
  }

  /**
   * `generate_po_pregame_ratings`: for each season, run the pregame fold from
   * a fresh dictionary and append its rows tagged with the season year.
   * `prefixSeasonsSize` is accepted and never read.
   */
  method GeneratePoPregameRatings(env: Env, seasonGames: int -> seq<Game>, startSeason: int, endSeason: int,
                                  prefixSeasonsSize: int) returns (poRatingsDf: seq<PoRow>)
    requires SeasonsPlayable(seasonGames, startSeason, endSeason + 1)
    ensures poRatingsDf == PoPeriod(seasonGames, startSeason, endSeason + 1)
  {
    poRatingsDf := [];
    var seasonYear := startSeason;
    while seasonYear <= endSeason
      invariant startSeason <= seasonYear && (seasonYear <= endSeason + 1 || seasonYear == startSeason)
      invariant poRatingsDf == PoPeriod(seasonGames, startSeason, seasonYear)
      decreases endSeason - seasonYear
    {
      var gamesList := seasonGames(seasonYear);
      var pregameRatingsDf := SeasonPregameRows(env, gamesList);
      PoPeriodSnoc(seasonGames, startSeason, seasonYear);
      poRatingsDf := AppendPoSeason(poRatingsDf, seasonYear, pregameRatingsDf);
      seasonYear := seasonYear + 1;
    }
  }
}
