/**
 * TV episodes (`Episode`): identity by season, number and id, a hash code
 * consistent with it, and the display release date with its fallback to
 * the raw air date.
 */
module Episodes {
  import opened Wrappers
  import opened Jvm
  import opened FilmFormat

  /** `Episode`, with the constructor's defaults. Ratings are kept as reals. */
  datatype Episode = Episode(
    id: string := "",
    overview: string := "",
    runtime: Option<Int32> := None,
    number: Int32 := 0,
    title: string := "",
    airDate: Option<string> := None,
    season: Int32 := 0,
    image: Option<string> := None,
    rating: Option<real> := None)
  {
    /** `equals`: season, number and id agree (every other field is ignored). */
    predicate Equals(other: Episode) {
      season == other.season && number == other.number && id == other.id
    }

    /** `Objects.hash(season, number, id)`: `31 * (31 * (31 + season) + number) + id.hashCode()`, in `Int` arithmetic. */
    function HashCode(): Int32 {
      var h := Wrap32(31 * 1 + season);
      var h' := Wrap32(31 * h + number);
      Wrap32(31 * h' + StringHashCode(id))
    }

    /**
     * `releaseDate`: the formatted air date, or, when formatting throws,
     * the air date itself (an empty string for none).
     */
    function ReleaseDate(): (r: string)
      requires InDomain(airDate)
      ensures airDate.None? || airDate == Some("") ==> r == NoReleaseDate
      ensures airDate.Some? && StartsWithLetter(airDate.value) ==> r == airDate.value
      ensures airDate.Some? && IsCanonicalDate(airDate.value) ==> ReadUsText(r) == Some(IsoFields(airDate.value))
    {
      FormattedReadsBack(airDate);
      match FormatDate(airDate)
      case Success(text) => text
      case Failure(_) => airDate.GetOr("")
    }
  }

  // ---------------------------------------------------------------- properties

  /** Equality is decided by season, number and id only: other fields may differ freely. */
  lemma EqualsIgnoresOtherFields(e: Episode, f: Episode)
    requires e.season == f.season && e.number == f.number && e.id == f.id
    ensures e.Equals(f)
    ensures e.Equals(f.(title := "x", overview := "y", runtime := None, airDate := None, image := None, rating := None))
  {
  }

  /** Episode equality is reflexive, symmetric and transitive. */
  lemma EqualsIsEquivalence(a: Episode, b: Episode, c: Episode)
    ensures a.Equals(a)
    ensures a.Equals(b) <==> b.Equals(a)
    ensures a.Equals(b) && b.Equals(c) ==> a.Equals(c)
  {
  }

  /** Equal episodes have equal hash codes. */
  lemma HashCodeConsistent(a: Episode, b: Episode)
    requires a.Equals(b)
    ensures a.HashCode() == b.HashCode()
  {
  }

  /** Two episodes built from the defaults are equal, whatever else is set. */
  lemma DefaultsAreEqual(title: string, rating: Option<real>)
    ensures Episode().Equals(Episode(title := title, rating := rating))
    ensures Episode().id == "" && Episode().number == 0 && Episode().season == 0
  {
  }
}
