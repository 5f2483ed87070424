/**
 * The minutes-weighted TrueSkill update: a team's player beliefs are
 * moment-matched into one pseudo-player, the two pseudo-players are rated
 * against each other, and each team's movement is handed back to its players
 * in proportion to their share of the minutes.
 */
module TsRatings {
  import opened Failures
  import opened TrueSkill

  /** The lower bound every redistributed standard deviation is clamped to. */
  const SigmaFloor: real := 0.0001

  function Min(a: int, b: int): int { if a <= b then a else b }

  /** Python's `max` on two numbers. */
  function Max(a: real, b: real): real { if b > a then b else a }

  /** Python's `sum` over a list of numbers. */
  function Sum(s: seq<real>): real
  {
    if |s| == 0 then 0.0 else s[0] + Sum(s[1..])
  }

  /** The sum of the means of a list of beliefs. */
  function SumMu(s: seq<Rating>): real
  {
    if |s| == 0 then 0.0 else s[0].mu + SumMu(s[1..])
  }

  /** Every element of `s` divided by `c` (numpy's array-by-scalar division). */
  function DivideAll(s: seq<real>, c: real): (r: seq<real>)
    requires c != 0.0
    ensures |r| == |s|
  {
    seq(|s|, i requires 0 <= i < |s| => s[i] / c)
  }

  lemma {:induction false} SumDivideAll(s: seq<real>, c: real)
    requires c != 0.0
    ensures Sum(DivideAll(s, c)) * c == Sum(s)
  {
    if |s| > 0 {
      assert DivideAll(s, c)[1..] == DivideAll(s[1..], c);
      SumDivideAll(s[1..], c);
      calc {
        Sum(DivideAll(s, c)) * c;
        (s[0] / c + Sum(DivideAll(s[1..], c))) * c;
        s[0] / c * c + Sum(DivideAll(s[1..], c)) * c;
        s[0] + Sum(s[1..]);
      }
    }
  }

  /** `np.array(weights) / np.sum(weights)`: each weight as a share of the total. */
  function Normalize(weights: seq<real>): (w: seq<real>)
    requires Sum(weights) != 0.0
    ensures |w| == |weights|
  {
    DivideAll(weights, Sum(weights))
  }

  /** The shares add up to one and scale back to the weights. */
  lemma NormalizeIsShareOfTotal(weights: seq<real>)
    requires Sum(weights) != 0.0
    ensures Sum(Normalize(weights)) == 1.0
    ensures forall i :: 0 <= i < |weights| ==> Normalize(weights)[i] * Sum(weights) == weights[i]
  {
    var w := Normalize(weights);
    SumDivideAll(weights, Sum(weights));
    assert (Sum(w) - 1.0) * Sum(weights) == 0.0;
  }

  lemma {:induction false} ElementAtMostSum(s: seq<real>, k: int)
    requires forall i :: 0 <= i < |s| ==> s[i] >= 0.0
    requires 0 <= k < |s|
    ensures 0.0 <= s[k] <= Sum(s)
  {
    SumNonNegative(s[1..]);
    if k > 0 {
      ElementAtMostSum(s[1..], k - 1);
    }
  }

  lemma {:induction false} SumNonNegative(s: seq<real>)
    requires forall i :: 0 <= i < |s| ==> s[i] >= 0.0
    ensures Sum(s) >= 0.0
  {
    if |s| > 0 {
      SumNonNegative(s[1..]);
    }
  }

  /** Minutes weights that are not negative and not all zero become shares in [0, 1] that add up to one. */
  lemma NormalizedWeightsAreShares(weights: seq<real>)
    requires forall i :: 0 <= i < |weights| ==> weights[i] >= 0.0
    requires Sum(weights) > 0.0
    ensures Sum(Normalize(weights)) == 1.0
    ensures forall i :: 0 <= i < |weights| ==> 0.0 <= Normalize(weights)[i] <= 1.0
  {
    var w := Normalize(weights);
    NormalizeIsShareOfTotal(weights);
    forall i | 0 <= i < |weights|
      ensures 0.0 <= w[i] <= 1.0
    {
      ElementAtMostSum(weights, i);
      ShareBounds(weights[i], weights[i], Sum(weights));
    }
  }

  /** Dividing by a positive total keeps the order of two weights and the [0, 1] range. */
  lemma ShareBounds(a: real, b: real, total: real)
    requires 0.0 <= b <= a && total > 0.0
    ensures 0.0 <= b / total <= a / total
    ensures a <= total ==> a / total <= 1.0
  {
  }

  /** `sum(w * p.mu for p, w in zip(players, weights))`: `zip` stops at the shorter list. */
  function WeightedMean(players: seq<Rating>, weights: seq<real>): real
  {
    if |players| == 0 || |weights| == 0 then 0.0
    else weights[0] * players[0].mu + WeightedMean(players[1..], weights[1..])
  }

  /** `sum((w ** 2) * (p.sigma ** 2) for p, w in zip(players, weights))`, which is never negative. */
  function WeightedVar(players: seq<Rating>, weights: seq<real>): (v: real)
    ensures v >= 0.0
  {
    if |players| == 0 || |weights| == 0 then 0.0
    else
      var w, s := weights[0], players[0].sigma;
      assert w * w >= 0.0 && s * s >= 0.0;
      (w * w) * (s * s) + WeightedVar(players[1..], weights[1..])
  }

  /**
   * The moment-matched pseudo-belief of a weighted lineup as (mean, variance):
   * the variance is never negative and an empty lineup gives (0, 0).
   */
  function WeightedTeamRating(players: seq<Rating>, weights: seq<real>): (r: (real, real))
    ensures r.1 >= 0.0
    ensures |players| == 0 || |weights| == 0 ==> r == (0.0, 0.0)
  {
    (WeightedMean(players, weights), WeightedVar(players, weights))
  }

  /** The terms `w * p.mu` of the zipped lineup, position by position. */
  function MeanTerms(players: seq<Rating>, weights: seq<real>): (t: seq<real>)
    ensures |t| == Min(|players|, |weights|)
  {
    seq(Min(|players|, |weights|), i requires 0 <= i < Min(|players|, |weights|) => weights[i] * players[i].mu)
  }

  /** The terms `w ** 2 * p.sigma ** 2` of the zipped lineup, position by position. */
  function VarTerms(players: seq<Rating>, weights: seq<real>): (t: seq<real>)
    ensures |t| == Min(|players|, |weights|)
  {
    seq(Min(|players|, |weights|),
        i requires 0 <= i < Min(|players|, |weights|) => (weights[i] * weights[i]) * (players[i].sigma * players[i].sigma))
  }

  /**
   * The pseudo-belief is exactly the pair of sums over the zipped positions:
   * mean `sum of w_i * mu_i` and variance `sum of w_i^2 * sigma_i^2`.
   */
  lemma {:induction false} WeightedTeamRatingIsTermSums(players: seq<Rating>, weights: seq<real>)
    ensures WeightedTeamRating(players, weights) == (Sum(MeanTerms(players, weights)), Sum(VarTerms(players, weights)))
  {
    if |players| > 0 && |weights| > 0 {
      var m, v := MeanTerms(players, weights), VarTerms(players, weights);
      var m', v' := MeanTerms(players[1..], weights[1..]), VarTerms(players[1..], weights[1..]);
      forall i | 0 <= i < |m'|
        ensures m[1..][i] == m'[i] && v[1..][i] == v'[i]
      {
        assert players[1..][i] == players[i + 1] && weights[1..][i] == weights[i + 1];
      }
      assert m[1..] == m' && v[1..] == v';
      WeightedTeamRatingIsTermSums(players[1..], weights[1..]);
      assert Sum(m) == WeightedMean(players, weights);
      assert Sum(v) == WeightedVar(players, weights);
    }
  }

  lemma {:induction false} WeightedMeanBounds(players: seq<Rating>, weights: seq<real>, lo: real, hi: real)
    requires |players| == |weights|
    requires forall i :: 0 <= i < |weights| ==> weights[i] >= 0.0
    requires forall i :: 0 <= i < |players| ==> lo <= players[i].mu <= hi
    ensures lo * Sum(weights) <= WeightedMean(players, weights) <= hi * Sum(weights)
  {
    if |players| > 0 {
      WeightedMeanBounds(players[1..], weights[1..], lo, hi);
      var w, m := weights[0], players[0].mu;
      assert w * lo <= w * m <= w * hi by {
        assert w * (m - lo) >= 0.0;
        assert w * (hi - m) >= 0.0;
      }
    }
  }

  /**
   * With minutes shares as weights, the pseudo-player's mean lies between the
   * smallest and the largest player mean: it is a blend of the lineup.
   */
  lemma PseudoMeanIsBlend(players: seq<Rating>, weights: seq<real>, lo: real, hi: real)
    requires |players| == |weights|
    requires forall i :: 0 <= i < |weights| ==> weights[i] >= 0.0
    requires Sum(weights) > 0.0
    requires forall i :: 0 <= i < |players| ==> lo <= players[i].mu <= hi
    ensures lo <= WeightedTeamRating(players, Normalize(weights)).0 <= hi
  {
    NormalizedWeightsAreShares(weights);
    WeightedMeanBounds(players, Normalize(weights), lo, hi);
  }

  /**
   * The `ranks` argument for a winner code: 1 makes team 1 the better rank,
   * 2 makes team 2 the better rank, 0 ties them; any other code is a
   * `ValueError`.
   */
  function WinnerRanks(winner: int): (r: Result<Ranks>)
    ensures r.Success? <==> winner == 0 || winner == 1 || winner == 2
    ensures r.Failure? ==> r.error.ValueError?
    ensures r.Success? ==> (r.value.team1 == 0 || r.value.team2 == 0) && r.value.team1 <= 1 && r.value.team2 <= 1
    ensures r.Success? ==> (r.value.team1 < r.value.team2 <==> winner == 1)
    ensures r.Success? ==> (r.value.team2 < r.value.team1 <==> winner == 2)
  {
    if winner == 1 then Success(Ranks(0, 1))
    else if winner == 2 then Success(Ranks(1, 0))
    else if winner == 0 then Success(Ranks(0, 0))
    else Failure(ValueError("Winner must be 0 (draw), 1 (team1), or 2 (team2)"))
  }

  /** The single-player team `[Rating(mu, np.sqrt(var))]` that stands for a weighted lineup. */
  function Pseudo(env: Env, team: seq<Rating>, w: seq<real>): (r: Rating)
    ensures r.mu == WeightedMean(team, w) && r.sigma == env.sqrt(WeightedVar(team, w))
    ensures |team| == 0 || |w| == 0 ==> r == Rating(0.0, env.sqrt(0.0))
  {
    var (mu, variance) := WeightedTeamRating(team, w);
    Rating(mu, env.sqrt(variance))
  }

  /**
   * One player's share of its pseudo-player's move from `before` to `after`,
   * at normalised weight `w`, with the standard deviation clamped to the floor.
   */
  function Adjust(p: Rating, w: real, before: Rating, after: Rating): (r: Rating)
    ensures r.mu - p.mu == (after.mu - before.mu) * w
    ensures w == 0.0 ==> r == Rating(p.mu, Max(p.sigma, SigmaFloor))
    ensures r.sigma >= SigmaFloor && r.sigma >= p.sigma + (after.sigma - before.sigma) * w
    ensures r.sigma == SigmaFloor || r.sigma == p.sigma + (after.sigma - before.sigma) * w
  {
    var deltaMu, deltaSigma := after.mu - before.mu, after.sigma - before.sigma;
    assert w == 0.0 ==> deltaMu * w == 0.0 && deltaSigma * w == 0.0;
    Rating(p.mu + deltaMu * w, Max(p.sigma + deltaSigma * w, SigmaFloor))
  }

  /** The list comprehension over `zip(team, w)` that hands the team's move back to its players. */
  function Redistribute(team: seq<Rating>, w: seq<real>, before: Rating, after: Rating): (r: seq<Rating>)
    ensures |r| == Min(|team|, |w|)
    ensures forall i :: 0 <= i < |r| ==> r[i].sigma >= SigmaFloor
  {
    seq(Min(|team|, |w|), i requires 0 <= i < Min(|team|, |w|) => Adjust(team[i], w[i], before, after))
  }

  /**
   * `weighted_update`: normalise both weight lists, moment-match both lineups,
   * rate the two pseudo-players by the winner code and redistribute. An
   * unknown winner code fails before any rating is produced; otherwise each
   * output list is as long as its lineup and every sigma is at least the floor.
   */
  function WeightedUpdate(env: Env, team1: seq<Rating>, team2: seq<Rating>,
                          weights1: seq<real>, weights2: seq<real>, winner: int): (r: Result<(seq<Rating>, seq<Rating>)>)
    requires Sum(weights1) != 0.0 && Sum(weights2) != 0.0
    ensures r.Failure? <==> !(0 <= winner <= 2)
    ensures r.Failure? ==> r.error.ValueError?
    ensures r.Success? ==> |r.value.0| == Min(|team1|, |weights1|) && |r.value.1| == Min(|team2|, |weights2|)
    ensures r.Success? ==> forall i :: 0 <= i < |r.value.0| ==> r.value.0[i].sigma >= SigmaFloor
    ensures r.Success? ==> forall i :: 0 <= i < |r.value.1| ==> r.value.1[i].sigma >= SigmaFloor
  {
    var w1 := Normalize(weights1);
    var w2 := Normalize(weights2);
    var pseudo1 := Pseudo(env, team1, w1);
    var pseudo2 := Pseudo(env, team2, w2);
    match WinnerRanks(winner)
    case Failure(e) => Failure(e)
    case Success(_) =>
      var (new1, new2) := RatedPseudos(env, team1, team2, weights1, weights2, winner);
      Success((Redistribute(team1, w1, pseudo1, new1), Redistribute(team2, w2, pseudo2, new2)))
  }

  /** The pseudo-players after `rate`, for a valid winner code. */
  function RatedPseudos(env: Env, team1: seq<Rating>, team2: seq<Rating>,
                        weights1: seq<real>, weights2: seq<real>, winner: int): (Rating, Rating)
    requires Sum(weights1) != 0.0 && Sum(weights2) != 0.0
    requires 0 <= winner <= 2
  {
    env.rate(Pseudo(env, team1, Normalize(weights1)), Pseudo(env, team2, Normalize(weights2)), WinnerRanks(winner).value)
  }

  /** Player i of team 1 after the update, in terms of its own belief and weight and the team's move. */
  lemma UpdatedTeam1At(env: Env, team1: seq<Rating>, team2: seq<Rating>,
                       weights1: seq<real>, weights2: seq<real>, winner: int, i: int)
    requires Sum(weights1) != 0.0 && Sum(weights2) != 0.0
    requires 0 <= winner <= 2
    requires 0 <= i < |team1| && i < |weights1|
    ensures WeightedUpdate(env, team1, team2, weights1, weights2, winner).value.0[i]
            == Adjust(team1[i], Normalize(weights1)[i], Pseudo(env, team1, Normalize(weights1)),
                      RatedPseudos(env, team1, team2, weights1, weights2, winner).0)
  {
  }

  /** Player i of team 2 after the update, in terms of its own belief and weight and the team's move. */
  lemma UpdatedTeam2At(env: Env, team1: seq<Rating>, team2: seq<Rating>,
                       weights1: seq<real>, weights2: seq<real>, winner: int, i: int)
    requires Sum(weights1) != 0.0 && Sum(weights2) != 0.0
    requires 0 <= winner <= 2
    requires 0 <= i < |team2| && i < |weights2|
    ensures WeightedUpdate(env, team1, team2, weights1, weights2, winner).value.1[i]
            == Adjust(team2[i], Normalize(weights2)[i], Pseudo(env, team2, Normalize(weights2)),
                      RatedPseudos(env, team1, team2, weights1, weights2, winner).1)
  {
  }

  lemma {:induction false} RedistributeMuSum(team: seq<Rating>, w: seq<real>, before: Rating, after: Rating)
    requires |team| == |w|
    ensures SumMu(Redistribute(team, w, before, after)) == SumMu(team) + (after.mu - before.mu) * Sum(w)
  {
    if |team| > 0 {
      assert Redistribute(team, w, before, after)[1..] == Redistribute(team[1..], w[1..], before, after);
      RedistributeMuSum(team[1..], w[1..], before, after);
    }
  }

  /**
   * The players' mean changes on a team add up to the team's pseudo-player
   * mean change: the update moves no mean mass in or out of a team.
   */
  lemma TeamMeanChangeIsShared(env: Env, team1: seq<Rating>, team2: seq<Rating>,
                               weights1: seq<real>, weights2: seq<real>, winner: int)
    requires Sum(weights1) != 0.0 && Sum(weights2) != 0.0
    requires 0 <= winner <= 2
    requires |team1| == |weights1| && |team2| == |weights2|
    ensures var r := WeightedUpdate(env, team1, team2, weights1, weights2, winner).value;
            var rated := RatedPseudos(env, team1, team2, weights1, weights2, winner);
            && SumMu(r.0) == SumMu(team1) + (rated.0.mu - Pseudo(env, team1, Normalize(weights1)).mu)
            && SumMu(r.1) == SumMu(team2) + (rated.1.mu - Pseudo(env, team2, Normalize(weights2)).mu)
  {
    var rated := RatedPseudos(env, team1, team2, weights1, weights2, winner);
    RedistributionConservesMove(team1, weights1, Pseudo(env, team1, Normalize(weights1)), rated.0);
    RedistributionConservesMove(team2, weights2, Pseudo(env, team2, Normalize(weights2)), rated.1);
  }

  /** Handing a move back at normalised weights adds exactly that move to the sum of the players' means. */
  lemma RedistributionConservesMove(team: seq<Rating>, weights: seq<real>, before: Rating, after: Rating)
    requires Sum(weights) != 0.0
    requires |team| == |weights|
    ensures SumMu(Redistribute(team, Normalize(weights), before, after)) == SumMu(team) + (after.mu - before.mu)
  {
    NormalizeIsShareOfTotal(weights);
    RedistributeSharesMuSum(team, Normalize(weights), before, after);
  }

  lemma RedistributeSharesMuSum(team: seq<Rating>, w: seq<real>, before: Rating, after: Rating)
    requires |team| == |w|
    requires Sum(w) == 1.0
    ensures SumMu(Redistribute(team, w, before, after)) == SumMu(team) + (after.mu - before.mu)
  {
    RedistributeMuSum(team, w, before, after);
    assert (after.mu - before.mu) * Sum(w) == after.mu - before.mu;
  }

  /** A team-1 player who played no minutes keeps its mean, and its sigma up to the floor. */
  lemma ZeroMinutesKeepRating(env: Env, team1: seq<Rating>, team2: seq<Rating>,
                              weights1: seq<real>, weights2: seq<real>, winner: int, i: int)
    requires Sum(weights1) != 0.0 && Sum(weights2) != 0.0
    requires 0 <= winner <= 2
    requires 0 <= i < |team1| && i < |weights1| && weights1[i] == 0.0
    ensures var r := WeightedUpdate(env, team1, team2, weights1, weights2, winner).value;
            r.0[i] == Rating(team1[i].mu, Max(team1[i].sigma, SigmaFloor))
  {
    var w := Normalize(weights1);
    assert w[i] == 0.0;
  }

  /**
   * On team 1, a player with at least as many minutes as another moves its
   * mean at least as far, and both move in the direction of the team's
   * pseudo-player.
   */
  lemma MoreMinutesMoveFurther(env: Env, team1: seq<Rating>, team2: seq<Rating>,
                               weights1: seq<real>, weights2: seq<real>, winner: int, i: int, j: int)
    requires Sum(weights1) > 0.0 && Sum(weights2) != 0.0
    requires 0 <= winner <= 2
    requires 0 <= i < |team1| && i < |weights1| && 0 <= j < |team1| && j < |weights1|
    requires 0.0 <= weights1[j] <= weights1[i]
    ensures var r := WeightedUpdate(env, team1, team2, weights1, weights2, winner).value;
            var delta := RatedPseudos(env, team1, team2, weights1, weights2, winner).0.mu
                         - Pseudo(env, team1, Normalize(weights1)).mu;
            var moveI, moveJ := r.0[i].mu - team1[i].mu, r.0[j].mu - team1[j].mu;
            && (delta >= 0.0 ==> 0.0 <= moveJ <= moveI)
            && (delta <= 0.0 ==> moveI <= moveJ <= 0.0)
  {
    var w := Normalize(weights1);
    var before := Pseudo(env, team1, w);
    var after := RatedPseudos(env, team1, team2, weights1, weights2, winner).0;
    UpdatedTeam1At(env, team1, team2, weights1, weights2, winner, i);
    UpdatedTeam1At(env, team1, team2, weights1, weights2, winner, j);
    ShareBounds(weights1[i], weights1[j], Sum(weights1));
    assert w[i] == weights1[i] / Sum(weights1) && w[j] == weights1[j] / Sum(weights1);
    AdjustMovesInOrder(team1[i], team1[j], w[i], w[j], before, after);
  }

  lemma AdjustMovesInOrder(p: Rating, q: Rating, wp: real, wq: real, before: Rating, after: Rating)
    requires 0.0 <= wq <= wp
    ensures var delta := after.mu - before.mu;
            var moveP, moveQ := Adjust(p, wp, before, after).mu - p.mu, Adjust(q, wq, before, after).mu - q.mu;
            && (delta >= 0.0 ==> 0.0 <= moveQ <= moveP)
            && (delta <= 0.0 ==> moveP <= moveQ <= 0.0)
  {
    var delta := after.mu - before.mu;
    assert delta * wp - delta * wq == delta * (wp - wq);
  }

  /**
   * The standard deviation handed to `rate` and the one the change is
   * measured against are the same `sqrt` value: when `rate` returns both
   * pseudo-players unchanged, every player keeps its belief, up to the floor.
   */
  lemma UnmovedPseudosKeepPlayers(env: Env, team1: seq<Rating>, team2: seq<Rating>,
                                  weights1: seq<real>, weights2: seq<real>, winner: int)
    requires Sum(weights1) != 0.0 && Sum(weights2) != 0.0
    requires 0 <= winner <= 2
    requires RatedPseudos(env, team1, team2, weights1, weights2, winner)
             == (Pseudo(env, team1, Normalize(weights1)), Pseudo(env, team2, Normalize(weights2)))
    ensures var r := WeightedUpdate(env, team1, team2, weights1, weights2, winner).value;
            && (forall i :: 0 <= i < |r.0| ==> r.0[i] == Rating(team1[i].mu, Max(team1[i].sigma, SigmaFloor)))
            && (forall i :: 0 <= i < |r.1| ==> r.1[i] == Rating(team2[i].mu, Max(team2[i].sigma, SigmaFloor)))
  {
  }

  /**
   * A player's new belief depends only on its own old belief, its own weight
   * and the team's move, and sits at the player's own position.
   */
  lemma PlayerUpdateIsLocal(team: seq<Rating>, team': seq<Rating>, w: seq<real>, w': seq<real>,
                            before: Rating, after: Rating, i: int)
    requires 0 <= i < Min(|team|, |w|) && i < Min(|team'|, |w'|)
    requires team[i] == team'[i] && w[i] == w'[i]
    ensures Redistribute(team, w, before, after)[i] == Redistribute(team', w', before, after)[i]
  {
  }
}
