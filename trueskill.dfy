/** Optional values, errors and results shared by the rating engine. */
module Failures {

  datatype Option<+T> = None | Some(value: T)

  /** The two Python exceptions the rating engine can raise. */
  datatype Error =
    | ValueError(message: string)
    | TypeError(message: string)

  datatype Result<+T> = Success(value: T) | Failure(error: Error)
}

/**
 * The interface of the TrueSkill library and of numpy's square root as the
 * rating engine uses them. The Gaussian numerics of `rate` and `sqrt` are not
 * part of this model: they are carried as function values in `Env`, so every
 * property proved here holds for any choice of them.
 */
module TrueSkill {

  /** A Gaussian skill belief: mean `mu`, standard deviation `sigma`. */
  datatype Rating = Rating(mu: real, sigma: real)

  /** `Rating()` under the environment set up with TrueSkill's defaults. */
  const DefaultMu: real := 25.0
  const DefaultSigma: real := DefaultMu / 3.0
  const DefaultRating: Rating := Rating(DefaultMu, DefaultSigma)

  /** The `ranks` list of a two-team `rate` call; the lower rank is the better one. */
  datatype Ranks = Ranks(team1: nat, team2: nat)

  /**
   * The environment set up with draw probability 0: its `rate` takes one
   * single-player team per side and returns the two updated beliefs, and
   * `sqrt` stands for numpy's square root.
   */
  datatype Env = Env(
    rate: (Rating, Rating, Ranks) -> (Rating, Rating),
    sqrt: real -> real)
}
