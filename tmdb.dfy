/**
 * String helpers for TMDB data: the year in a title, the media type in a
 * URL path, and the removal of unreleased or posterless search results.
 */
module Tmdb {
  import opened Wrappers
  import opened Jvm

  // ---------------------------------------------------------------- extractYear

  /** The ASCII word characters `\b` separates: letters, digits and '_'. */
  predicate IsWordChar(c: char) {
    IsLowerLetter(c) || IsUpperLetter(c) || IsDigit(c) || c == '_'
  }

  /** Position `p` is not preceded by a word character (the string's start counts as none). */
  predicate NoWordBefore(s: string, p: nat)
    requires p <= |s|
  {
    p == 0 || !IsWordChar(s[p - 1])
  }

  /** Position `p` is not followed by a word character (the string's end counts as none). */
  predicate NoWordAfter(s: string, p: nat)
    requires p <= |s|
  {
    p == |s| || !IsWordChar(s[p])
  }

  /**
   * `\b(\d{4})\b` matches at `i`: four digits with a word boundary on both
   * sides; since digits are word characters, the neighbours must not be.
   */
  predicate YearAt(s: string, i: nat) {
    i + 4 <= |s| && AllDigits(s[i..i + 4]) && NoWordBefore(s, i) && NoWordAfter(s, i + 4)
  }

  /** The leftmost match at or after `from`. */
  function FindYear(s: string, from: nat): (r: Option<nat>)
    requires from <= |s|
    ensures r.Some? ==> from <= r.value && YearAt(s, r.value)
    ensures r.Some? ==> forall i: nat :: from <= i < r.value ==> !YearAt(s, i)
    ensures r.None? ==> forall i: nat :: from <= i ==> !YearAt(s, i)
    decreases |s| - from
  {
    if from + 4 > |s| then None
    else if YearAt(s, from) then Some(from)
    else FindYear(s, from + 1)
  }

  /**
   * `extractYear()`: the value of the leftmost standalone four-digit run,
   * or `None` when there is none.
   */
  function ExtractYear(s: string): (r: Option<Int32>)
    requires IsAscii(s)
    ensures r.None? <==> forall i: nat :: !YearAt(s, i)
    ensures r.Some? ==> 0 <= r.value <= 9999
    ensures r.Some? ==> exists i: nat ::
      && YearAt(s, i)
      && (forall k: nat :: k < i ==> !YearAt(s, k))
      && r.value == DigitsValue(s[i..i + 4])
  {
    match FindYear(s, 0)
    case Some(i) =>
      FourDigitsBelow10000(s[i..i + 4]);
      Some(DigitsValue(s[i..i + 4]))
    case None => None
  }

  /** Four digits denote a number below 10000. */
  lemma FourDigitsBelow10000(d: string)
    requires |d| == 4 && AllDigits(d)
    ensures DigitsValue(d) <= 9999
  {
    DigitsValue4(d);
  }

  /** "Movie (1999) 2001" gives 1999: the leftmost run wins. */
  lemma ExtractYearLeftmost()
    ensures ExtractYear("Movie (1999) 2001") == Some(1999)
  {
    var s := "Movie (1999) 2001";
    assert s[7..11] == "1999";
    assert YearAt(s, 7);
    forall i | 0 <= i < 7 ensures !YearAt(s, i) {
      assert !IsDigit(s[i]);
      assert s[i..i + 4][0] == s[i];
    }
    assert FindYear(s, 0) == Some(7);
    DigitsValue4("1999");
  }

  /** "0042" gives 42: leading zeros are allowed and dropped. */
  lemma ExtractYearLeadingZeros()
    ensures ExtractYear("0042") == Some(42)
  {
    var s := "0042";
    assert s[0..4] == s;
    assert YearAt(s, 0);
    DigitsValue4(s);
  }

  /** Runs that touch a word character do not count: "12345", "abc2023" and "2023x" give nothing. */
  lemma ExtractYearNeedsBoundaries()
    ensures ExtractYear("12345").None?
    ensures ExtractYear("abc2023").None?
    ensures ExtractYear("2023x").None?
  {
    var a := "12345";
    assert !YearAt(a, 0) by { assert IsWordChar(a[4]); }
    assert !YearAt(a, 1) by { assert IsWordChar(a[0]); }
    var b := "abc2023";
    forall i: nat | i < 3 ensures !YearAt(b, i) {
      assert !IsDigit(b[i]);
      assert b[i..i + 4][0] == b[i];
    }
    assert !YearAt(b, 3) by { assert IsWordChar(b[2]); }
    var c := "2023x";
    assert !YearAt(c, 0) by { assert IsWordChar(c[4]); }
  }

  // ---------------------------------------------------------------- replaceTypeInUrl

  /** `s[lo..hi]` is made of lower-case ASCII letters. */
  predicate AllLower(s: string, lo: nat, hi: nat)
    requires lo <= hi <= |s|
  {
    forall k :: lo <= k < hi ==> IsLowerLetter(s[k])
  }

  /**
   * `(?<=/)[a-z]+(?=\?)` matches `s[i..j]`: a non-empty run of lower-case
   * letters right after a '/' and right before a '?'. The greedy run cannot
   * stop early, since a shorter run is followed by a letter, not a '?'.
   */
  predicate TypeAt(s: string, i: nat, j: nat) {
    1 <= i < j < |s| && s[i - 1] == '/' && AllLower(s, i, j) && s[j] == '?'
  }

  /** Some match starts at `i`. */
  ghost predicate TypeStartsAt(s: string, i: nat) {
    exists j: nat :: TypeAt(s, i, j)
  }

  /** The end of the maximal run of lower-case letters from `from`. */
  function LowerRunEnd(s: string, from: nat): (e: nat)
    requires from <= |s|
    ensures from <= e <= |s|
    ensures AllLower(s, from, e)
    ensures e < |s| ==> !IsLowerLetter(s[e])
    decreases |s| - from
  {
    if from == |s| || !IsLowerLetter(s[from]) then from else LowerRunEnd(s, from + 1)
  }

  /** A match at `i` ends where the run of letters from `i` ends. */
  lemma TypeAtIsRun(s: string, i: nat, j: nat)
    requires TypeAt(s, i, j)
    ensures j == LowerRunEnd(s, i)
  {
    var e := LowerRunEnd(s, i);
    assert !IsLowerLetter(s[j]);
  }

  /** `Matcher.find()` from `from`: the leftmost match at or after it. */
  function FindType(s: string, from: nat): (r: Option<(nat, nat)>)
    requires from <= |s|
    ensures r.Some? ==> from <= r.value.0 && TypeAt(s, r.value.0, r.value.1)
    ensures r.Some? ==> forall i: nat :: from <= i < r.value.0 ==> !TypeStartsAt(s, i)
    ensures r.None? ==> forall i: nat :: from <= i ==> !TypeStartsAt(s, i)
    decreases |s| - from
  {
    if from == |s| then None
    else
      var e := LowerRunEnd(s, from);
      if 1 <= from && s[from - 1] == '/' && from < e < |s| && s[e] == '?' then Some((from, e))
      else
        assert !TypeStartsAt(s, from) by {
          forall j: nat | TypeAt(s, from, j) ensures false {
            TypeAtIsRun(s, from, j);
          }
        }
        FindType(s, from + 1)
  }

  /**
   * `replaceTypeInUrl(type)`: the leftmost path segment of lower-case
   * letters between '/' and '?' replaced by `type`, or the string itself
   * when there is none. `type` is inserted literally, which is what
   * `replaceFirst` does for a replacement free of '$' and '\'.
   */
  function ReplaceTypeInUrl(url: string, type_: string): (r: string)
    requires '$' !in type_ && '\\' !in type_
    ensures (forall i: nat :: !TypeStartsAt(url, i)) ==> r == url
    ensures (exists i: nat :: TypeStartsAt(url, i)) ==>
      exists i: nat, j: nat ::
        && TypeAt(url, i, j)
        && (forall k: nat :: k < i ==> !TypeStartsAt(url, k))
        && r == url[..i] + type_ + url[j..]
  {
    match FindType(url, 0)
    case Some((i, j)) =>
      assert TypeStartsAt(url, i);
      url[..i] + type_ + url[j..]
    case None => url
  }

  /** The scan finds the leftmost match and its end. */
  lemma FindTypeLeftmost(s: string, i: nat, j: nat)
    requires TypeAt(s, i, j)
    requires forall k: nat :: k < i ==> !TypeStartsAt(s, k)
    ensures FindType(s, 0) == Some((i, j))
  {
    var r := FindType(s, 0);
    assert TypeStartsAt(s, i);
    assert r.Some?;
    assert TypeStartsAt(s, r.value.0);
    TypeAtIsRun(s, i, j);
    TypeAtIsRun(s, i, r.value.1);
  }

  /**
   * The replacement keeps everything up to the '/' and everything from the
   * '?' on: the prefix ends in '/', the suffix starts with '?'.
   */
  lemma ReplaceKeepsPrefixAndSuffix(url: string, type_: string, i: nat, j: nat)
    requires '$' !in type_ && '\\' !in type_
    requires TypeAt(url, i, j) && forall k: nat :: k < i ==> !TypeStartsAt(url, k)
    ensures var r := ReplaceTypeInUrl(url, type_);
      && |r| == |url| - (j - i) + |type_|
      && r[..i] == url[..i] && r[i - 1] == '/'
      && r[i..i + |type_|] == type_
      && r[i + |type_|..] == url[j..] && r[i + |type_|] == '?'
  {
    FindTypeLeftmost(url, i, j);
    var r := ReplaceTypeInUrl(url, type_);
    assert r == url[..i] + type_ + url[j..];
  }

  /** Positions before the replaced segment start the same matches as before. */
  lemma EarlierStartsUnchanged(url: string, t: string, i: nat, k: nat)
    requires 1 <= i <= |url| && i <= |t| && t[..i] == url[..i] && url[i - 1] == '/'
    requires k < i
    ensures TypeStartsAt(t, k) <==> TypeStartsAt(url, k)
  {
    if TypeStartsAt(t, k) {
      var j: nat :| TypeAt(t, k, j);
      assert !IsLowerLetter(t[i - 1]);
      assert j < i;
      assert TypeAt(url, k, j);
    }
    if TypeStartsAt(url, k) {
      var j: nat :| TypeAt(url, k, j);
      assert !IsLowerLetter(url[i - 1]);
      assert j < i;
      assert t[k - 1] == url[k - 1] && t[j] == url[j];
      assert TypeAt(t, k, j);
    }
  }

  /**
   * With a non-empty lower-case `type`, replacing twice is replacing once:
   * the new segment is again the leftmost match, and replacing it by itself
   * changes nothing.
   */
  lemma {:induction false} ReplaceIdempotent(url: string, type_: string)
    requires |type_| > 0 && forall k :: 0 <= k < |type_| ==> IsLowerLetter(type_[k])
    ensures '$' !in type_ && '\\' !in type_
    ensures var once := ReplaceTypeInUrl(url, type_);
      ReplaceTypeInUrl(once, type_) == once
  {
    assert '$' !in type_ && '\\' !in type_ by {
      forall k | 0 <= k < |type_| ensures type_[k] != '$' && type_[k] != '\\' {
        assert IsLowerLetter(type_[k]);
      }
    }
    var once := ReplaceTypeInUrl(url, type_);
    match FindType(url, 0)
    case None =>
    case Some((i, j)) =>
      FindTypeLeftmost(url, i, j);
      ReplaceKeepsPrefixAndSuffix(url, type_, i, j);
      var e := i + |type_|;
      assert TypeAt(once, i, e);
      forall k: nat | k < i ensures !TypeStartsAt(once, k) {
        EarlierStartsUnchanged(url, once, i, k);
      }
      FindTypeLeftmost(once, i, e);
      assert once[..i] + type_ + once[e..] == once;
  }

  /**
   * No match starts before `m` when `s[..m]` holds no '?' and `s[m - 1]`
   * is not a lower-case letter: a run from there would have to cross it.
   */
  lemma NoTypeBefore(s: string, m: nat)
    requires 1 <= m <= |s| && '?' !in s[..m] && !IsLowerLetter(s[m - 1])
    ensures forall k: nat :: k < m ==> !TypeStartsAt(s, k)
  {
    forall k: nat, j: nat | k < m ensures !TypeAt(s, k, j) {
      if j < m {
        assert s[..m][j] == s[j];
      } else if k < j < |s| {
        assert k <= m - 1 < j;
      }
    }
  }

  /** A typical case: the type segment before the query string is replaced. */
  lemma ReplaceExample(u: string)
    requires u == "trending/all/day?page=1"
    ensures ReplaceTypeInUrl(u, "week") == "trending/all/week?page=1"
  {
    var prefix, suffix := "trending/all/", "?page=1";
    assert u == prefix + "day" + suffix;
    assert u[..13] == prefix && u[16..] == suffix;
    assert TypeAt(u, 13, 16);
    assert '?' !in prefix;
    NoTypeBefore(u, 13);
    FindTypeLeftmost(u, 13, 16);
    assert ReplaceTypeInUrl(u, "week") == prefix + "week" + suffix;
  }

  // ---------------------------------------------------------------- filterOutUnreleasedFilms

  /**
   * A search result. `parsedReleaseDate` is the date text that the film's
   * base class derives; it is carried here as a field.
   */
  datatype FilmSearchItem = FilmSearchItem(
    id: Option<string>,
    providerName: string,
    filmType: string,
    homePage: Option<string>,
    title: string,
    posterImage: Option<string>,
    parsedReleaseDate: Option<string>,
    adult: bool := false,
    backdropImage: Option<string> := None,
    imdbId: Option<string> := None,
    tmdbId: Option<Int32> := None,
    releaseDate: Option<string> := None,
    rating: Option<real> := None,
    language: Option<string> := None,
    overview: Option<string> := None,
    year: Option<Int32> := None,
    logoImage: Option<string> := None,
    voteCount: Int32 := 0)

  /**
   * `isDateInFuture` as the caller sees it: `Some(b)` for an answer,
   * `None` when it throws. It reads the clock, so it is a parameter.
   */
  type DateCheck = string -> Option<bool>

  /** The poster is present: non-null and non-empty. */
  predicate HasPoster(item: FilmSearchItem) {
    item.posterImage.Some? && item.posterImage.value != ""
  }

  /** The date test: `isDateInFuture(parsedReleaseDate!!)`, with any exception read as `false`. */
  predicate InFuture(item: FilmSearchItem, isDateInFuture: DateCheck) {
    match item.parsedReleaseDate
    case None => false
    case Some(d) => isDateInFuture(d).GetOr(false)
  }

  /** An item survives the filter: not dated in the future, and with a poster. */
  predicate Keeps(item: FilmSearchItem, isDateInFuture: DateCheck) {
    !(InFuture(item, isDateInFuture) || !HasPoster(item))
  }

  /** `a` is `b` with some elements left out, the rest in their order. */
  predicate IsSubsequence<T(==)>(a: seq<T>, b: seq<T>) {
    if a == [] then true
    else if b == [] then false
    else if a[0] == b[0] then IsSubsequence(a[1..], b[1..])
    else IsSubsequence(a, b[1..])
  }

  /** `filterOutUnreleasedFilms()`: `filterNot` of the removal test, in order. */
  function FilterOutUnreleasedFilms(items: seq<FilmSearchItem>, isDateInFuture: DateCheck): (r: seq<FilmSearchItem>)
    ensures IsSubsequence(r, items)
    ensures forall x :: x in r ==> Keeps(x, isDateInFuture) && HasPoster(x)
    ensures forall x :: multiset(r)[x] == if Keeps(x, isDateInFuture) then multiset(items)[x] else 0
  {
    if items == [] then []
    else
      var rest := FilterOutUnreleasedFilms(items[1..], isDateInFuture);
      assert items == [items[0]] + items[1..];
      if Keeps(items[0], isDateInFuture) then
        assert ([items[0]] + rest)[1..] == rest;
        [items[0]] + rest
      else
        SubsequenceOfTail(rest, items);
        rest
  }

  /** A subsequence of the tail is a subsequence of the whole. */
  lemma SubsequenceOfTail<T>(a: seq<T>, b: seq<T>)
    requires b != [] && IsSubsequence(a, b[1..])
    ensures IsSubsequence(a, b)
    decreases |b|, |a|
  {
    if a != [] && a[0] == b[0] {
      SubsequenceDropHead(a, b[1..]);
    }
  }

  /** Leaving out the first element keeps a subsequence a subsequence. */
  lemma SubsequenceDropHead<T>(a: seq<T>, b: seq<T>)
    requires a != [] && IsSubsequence(a, b)
    ensures IsSubsequence(a[1..], b)
    decreases |b|, |a|
  {
    if a[0] != b[0] {
      SubsequenceDropHead(a, b[1..]);
      SubsequenceOfTail(a[1..], b);
    } else if a[1..] != [] {
      SubsequenceOfTail(a[1..], b);
    }
  }

  /**
   * When the date test throws (no parsed date, or `isDateInFuture` fails),
   * an item is kept exactly when it has a poster.
   */
  lemma FailedDateCheckKeepsPostered(item: FilmSearchItem, isDateInFuture: DateCheck)
    requires item.parsedReleaseDate.None? || isDateInFuture(item.parsedReleaseDate.value).None?
    ensures Keeps(item, isDateInFuture) <==> HasPoster(item)
  {
  }

  /** An item is kept exactly when it is in the input and passes the test. */
  lemma {:induction false} FilterMembership(items: seq<FilmSearchItem>, isDateInFuture: DateCheck, x: FilmSearchItem)
    ensures x in FilterOutUnreleasedFilms(items, isDateInFuture) <==> x in items && Keeps(x, isDateInFuture)
  {
    var r := FilterOutUnreleasedFilms(items, isDateInFuture);
    assert x in r <==> multiset(r)[x] > 0;
    assert x in items <==> multiset(items)[x] > 0;
  }

  /** Filtering an already filtered list changes nothing. */
  lemma {:induction false} FilterIdempotent(items: seq<FilmSearchItem>, isDateInFuture: DateCheck)
    ensures var once := FilterOutUnreleasedFilms(items, isDateInFuture);
      FilterOutUnreleasedFilms(once, isDateInFuture) == once
  {
    if items != [] {
      FilterIdempotent(items[1..], isDateInFuture);
      var rest := FilterOutUnreleasedFilms(items[1..], isDateInFuture);
      if Keeps(items[0], isDateInFuture) {
        var once := [items[0]] + rest;
        assert once[1..] == rest;
      }
    }
  }
}
