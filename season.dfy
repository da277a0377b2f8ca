/**
 * TV seasons (`Season`) and the rule that marks one as unreleased: no
 * air date, an episode count of zero and a rating of zero.
 */
module Seasons {
  import opened Wrappers
  import opened Jvm
  import opened Episodes

  /** `Season`, with the constructor's defaults. Ratings are kept as reals. */
  datatype Season = Season(
    overview: Option<string> := None,
    name: string := "",
    episodes: seq<Episode> := [],
    airDate: Option<string> := None,
    episodeCount: Option<Int32> := None,
    rating: Option<real> := None,
    number: Int32 := 0,
    image: Option<string> := None)
  {
    /** `isUnreleased`: `airDate == null && episodeCount == 0 && rating == 0.0`. */
    predicate IsUnreleased() {
      airDate == None && episodeCount == Some(0) && rating == Some(0.0)
    }
  }

  // ---------------------------------------------------------------- properties

  /** A season with an air date is never unreleased. */
  lemma AirDateMeansReleased(s: Season)
    requires s.airDate.Some?
    ensures !s.IsUnreleased()
  {
  }

  /**
   * A missing episode count or a missing rating does not make a season
   * unreleased: the rule tests for zero, not for absence.
   */
  lemma AbsenceIsNotZero(s: Season)
    requires s.episodeCount.None? || s.rating.None?
    ensures !s.IsUnreleased()
  {
  }

  /** A season built from the defaults alone is not unreleased; with zero count and rating it is. */
  lemma DefaultSeason()
    ensures !Season().IsUnreleased()
    ensures Season(episodeCount := Some(0), rating := Some(0.0)).IsUnreleased()
  {
  }

  /** The rule reads only the air date, the episode count and the rating. */
  lemma UnreleasedReadsThreeFields(s: Season, t: Season)
    requires s.airDate == t.airDate && s.episodeCount == t.episodeCount && s.rating == t.rating
    ensures s.IsUnreleased() <==> t.IsUnreleased()
  {
  }
}
