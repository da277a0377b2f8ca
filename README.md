# Flixclusive core stubs in Dafny

This project models the small self-contained core of the Flixclusive
provider stubs across eleven Dafny modules. It covers:

- HTTP methods (`HttpMethod`): their flags and case-insensitive parsing.
- Provider identity (`ProviderData.id`), including extracting the GitHub
  repository name from a repository URL.
- Link flags (`Flag`), including the "trusted provider" test against the
  built-in table of streaming services.
- Catalogue filters (`Filter` and its four kinds): mutable state, defaults,
  and equality with its hash code.
- TV episodes and seasons: identity, hash code, display release date and the
  "unreleased" rule.
- The date formatter used for air dates (`yyyy-MM-dd` to `MMMM d, yyyy` in
  US English).
- The TMDB helpers: filtering unreleased films, replacing the media type in an
  API path, and extracting a year from a title.
- The user-agent pool, which is loaded from a JSON document and sampled at
  random.

The module layout:

- `Wrappers` holds `Option` and `Result`.
- `Jvm` models the platform behaviour the Kotlin code relies on:
  - 32-bit `Int` wrap-around;
  - `String.hashCode()` over UTF-16 code units, and `Boolean.hashCode()`;
  - ASCII upper/lower casing and case-insensitive `equals`/`contains`;
  - decimal rendering and digit strings.
- Every other module follows one Kotlin source file.

How the Kotlin constructs are modelled:

- Immutable Kotlin data classes become datatypes, and their derived
  properties become member functions.
- `Filter`, whose `state` is a `var`, becomes a class. One constructor per
  subclass keeps that subclass's default state.
- The `UserAgentManager` companion object, whose lists are cleared and
  refilled in place, becomes a class whose methods state the new lists.
- Regular-expression searches are written as explicit leftmost scans. Each is
  proved against a declarative description of a match.

## Model

| member | source | states |
|---|---|---|
| `HttpMethods.FindByName` | core-util/src/main/kotlin/com/flixclusive/core/util/network/okhttp/HttpMethod.kt:94 | an entry with the given name, `None` exactly when no entry has it, and every entry with that name is the one returned (names are distinct, so the lookup is unambiguous) |
| `HttpMethods.ValueOf` | core-util/src/main/kotlin/com/flixclusive/core/util/network/okhttp/HttpMethod.kt:94 | `valueOf` yields the constant with exactly this name; it fails exactly when no constant has it |
| `HttpMethods.Parse` | core-util/src/main/kotlin/com/flixclusive/core/util/network/okhttp/HttpMethod.kt:92-97 | parsing succeeds exactly when the upper-cased input is a constant's name, and yields that constant; otherwise the error is "Unknown HTTP method: " followed by the input as given |
| `HttpMethods.HttpMethod.RequiresBody` | core-util/src/main/kotlin/com/flixclusive/core/util/network/okhttp/HttpMethod.kt:17-60 | the `requiresBody` constructor argument of each constant, `false` by default; characterized by `HttpMethods.RequiresBodyExactly` |
| `HttpMethods.HttpMethod.IsSafe` | core-util/src/main/kotlin/com/flixclusive/core/util/network/okhttp/HttpMethod.kt:68-69 | `isSafe`, membership in the safe set; characterized by `HttpMethods.SafeExactly` |
| `HttpMethods.HttpMethod.IsIdempotent` | core-util/src/main/kotlin/com/flixclusive/core/util/network/okhttp/HttpMethod.kt:77-78 | `isIdempotent`, membership in the idempotent set; related to `isSafe` by `HttpMethods.IdempotentIsSafeOrPutOrDelete` |
| `HttpMethods.HttpMethod.Name` | core-util/src/main/kotlin/com/flixclusive/core/util/network/okhttp/HttpMethod.kt:22-60 | the enum constant's `name`, the spelling `valueOf` accepts; distinct and upper case by `HttpMethods.NameInjective` and `HttpMethods.UpperOfName` |
| `HttpMethods.EntriesComplete` | core-util/src/main/kotlin/com/flixclusive/core/util/network/okhttp/HttpMethod.kt:17-60 | `entries` lists every constant |
| `HttpMethods.RequiresBodyExactly` | core-util/src/main/kotlin/com/flixclusive/core/util/network/okhttp/HttpMethod.kt:17-60 | `requiresBody` holds for exactly POST, PUT and PATCH; the other five keep the default `false` |
| `HttpMethods.SafeExactly` | core-util/src/main/kotlin/com/flixclusive/core/util/network/okhttp/HttpMethod.kt:68-69 | `isSafe` holds for exactly GET, HEAD, OPTIONS and TRACE |
| `HttpMethods.IdempotentIsSafeOrPutOrDelete` | core-util/src/main/kotlin/com/flixclusive/core/util/network/okhttp/HttpMethod.kt:77-78 | `isIdempotent` holds exactly for the safe methods plus PUT and DELETE, as section 9.2.2 of RFC 9110 describes |
| `HttpMethods.SafeImpliesIdempotent` | core-util/src/main/kotlin/com/flixclusive/core/util/network/okhttp/HttpMethod.kt:68-78 | every safe method is idempotent; POST and PATCH are neither safe nor idempotent |
| `HttpMethods.SafeNeedsNoBody` | core-util/src/main/kotlin/com/flixclusive/core/util/network/okhttp/HttpMethod.kt:17-69 | no safe method requires a body |
| `HttpMethods.NameInjective` | core-util/src/main/kotlin/com/flixclusive/core/util/network/okhttp/HttpMethod.kt:17-60 | different constants have different names |
| `HttpMethods.UpperOfName` | core-util/src/main/kotlin/com/flixclusive/core/util/network/okhttp/HttpMethod.kt:17-60 | every constant name is ASCII and already upper case |
| `HttpMethods.ParseAnyCase` | core-util/src/main/kotlin/com/flixclusive/core/util/network/okhttp/HttpMethod.kt:92-94 | any spelling that upper-cases to a constant's name parses to that constant |
| `HttpMethods.ParseName` | core-util/src/main/kotlin/com/flixclusive/core/util/network/okhttp/HttpMethod.kt:92-94 | round trip: a constant's name, its lower-case spelling and any mixed-case spelling all parse back to that constant |
| `HttpMethods.ParseFailsOnUnknown` | core-util/src/main/kotlin/com/flixclusive/core/util/network/okhttp/HttpMethod.kt:93-97 | parsing fails exactly when the upper-cased input is none of the eight names, and the message keeps the caller's spelling |
| `Providers.RunEnd` | model-provider/src/main/kotlin/com/flixclusive/model/provider/ProviderData.kt:55 | the end of the maximal run of characters other than '/' (what the greedy `[^/]+` consumes) |
| `Providers.GroupAtIsRuns` | model-provider/src/main/kotlin/com/flixclusive/model/provider/ProviderData.kt:55 | a match of the pattern has its owner and repository ending exactly where the runs of non-'/' characters end |
| `Providers.FindRepository` | model-provider/src/main/kotlin/com/flixclusive/model/provider/ProviderData.kt:55-56 | `Regex.find` returns the leftmost match at or after the start position, and `None` only when no position matches |
| `Providers.RepositoryName` | model-provider/src/main/kotlin/com/flixclusive/model/provider/ProviderData.kt:54-58 | with no match the whole URL is returned; otherwise the result is group 1 of the leftmost match |
| `Providers.RepositorySuffix` | model-provider/src/main/kotlin/com/flixclusive/model/provider/ProviderData.kt:47-49 | `"-" + getRepositoryNameFromUrl(repositoryUrl)` for a non-null URL, the empty string otherwise; its shape is stated by `Providers.IdShape` |
| `Providers.Id` | model-provider/src/main/kotlin/com/flixclusive/model/provider/ProviderData.kt:45-52 | `ProviderData.id`; its shape and its dependence on three fields are stated by `Providers.IdShape` and `Providers.IdReadsThreeFields` |
| `Providers.IdShape` | model-provider/src/main/kotlin/com/flixclusive/model/provider/ProviderData.kt:45-51 | `id` starts with `name` and ends with '-' and the decimal `versionCode`; without a repository URL it is `name-versionCode`, and with one it is `name-repo-versionCode` |
| `Providers.IdReadsThreeFields` | model-provider/src/main/kotlin/com/flixclusive/model/provider/ProviderData.kt:45-52 | `id` depends only on `name`, `repositoryUrl` and `versionCode` |
| `Providers.RepositoryOfGithubUrl` | model-provider/src/main/kotlin/com/flixclusive/model/provider/ProviderData.kt:55-58 | for a URL holding `github.com/<owner>/<repo>`, the leftmost occurrence's repository is chosen; it is non-empty and contains no '/' |
| `Providers.FindLeftmost` | model-provider/src/main/kotlin/com/flixclusive/model/provider/ProviderData.kt:55-56 | the scan stops at the leftmost match and reports the ends of its owner and repository |
| `Providers.NoPrefixNoMatch` | model-provider/src/main/kotlin/com/flixclusive/model/provider/ProviderData.kt:55 | no match starts where the literal `github.com/` does not |
| `Providers.NoDotMeansWholeUrl` | model-provider/src/main/kotlin/com/flixclusive/model/provider/ProviderData.kt:55-58 | a URL without a '.' cannot match, so it is used whole |
| `Providers.DotIsLiteral` | model-provider/src/main/kotlin/com/flixclusive/model/provider/ProviderData.kt:55 | the dot is escaped: `githubXcom/a/b` does not match and is used whole |
| `Providers.TypicalGithubUrl` | model-provider/src/main/kotlin/com/flixclusive/model/provider/ProviderData.kt:54-58 | `https://github.com/owner/repo/tree/main` gives `repo` |
| `Flags.Flag.IsTrusted` | model-provider/src/main/kotlin/com/flixclusive/model/provider/link/Flag.kt:79-86 | a trusted flag is trusted exactly when some table entry holds: the key equals or contains the name ignoring case, or the table URL equals or contains the flag's URL ignoring case, with a null URL searched for as "NULL!" |
| `Flags.EntryTrusts` | model-provider/src/main/kotlin/com/flixclusive/model/provider/link/Flag.kt:81-84 | the four-way test of the `any` lambda for one table entry; the null-URL case searches for "NULL!", which `Flags.NoUrlContainsNullText` shows never matches |
| `Flags.AnyEntryTrusts` | model-provider/src/main/kotlin/com/flixclusive/model/provider/link/Flag.kt:80-85 | the `any` over the table holds exactly when some entry passes the four-way test |
| `Flags.TrustedByName` | model-provider/src/main/kotlin/com/flixclusive/model/provider/link/Flag.kt:81 | a name equal to a table key, ignoring case, is trusted |
| `Flags.TrustedByNamePart` | model-provider/src/main/kotlin/com/flixclusive/model/provider/link/Flag.kt:82 | a name contained in a table key, ignoring case, is trusted |
| `Flags.EmptyNameTrusted` | model-provider/src/main/kotlin/com/flixclusive/model/provider/link/Flag.kt:82 | the empty name is contained in every key, so it is always trusted |
| `Flags.HuluTrusted` | model-provider/src/main/kotlin/com/flixclusive/model/provider/link/Flag.kt:82 | "hULu" is contained, ignoring case, in the key "Hulu + Live TV", so it is trusted |
| `Flags.TrustedByUrl` | model-provider/src/main/kotlin/com/flixclusive/model/provider/link/Flag.kt:83 | a URL equal to a table URL, ignoring case, is trusted |
| `Flags.TrustedByUrlPart` | model-provider/src/main/kotlin/com/flixclusive/model/provider/link/Flag.kt:84 | a URL contained in a table URL, ignoring case, is trusted |
| `Flags.EmptyUrlTrusted` | model-provider/src/main/kotlin/com/flixclusive/model/provider/link/Flag.kt:84 | the empty URL is part of every table URL, so it is trusted |
| `Flags.NoUrlHasBang` | model-provider/src/main/kotlin/com/flixclusive/model/provider/link/Flag.kt:51-72 | no table URL contains a '!' |
| `Flags.NoUrlContainsNullText` | model-provider/src/main/kotlin/com/flixclusive/model/provider/link/Flag.kt:52-84 | no table URL contains "NULL!", ignoring case |
| `Flags.NullUrlDecidedByName` | model-provider/src/main/kotlin/com/flixclusive/model/provider/link/Flag.kt:79-86 | with a null URL the flag is trusted exactly when some key equals or contains its name, ignoring case |
| `Flags.NetflixOriginalsNotTrusted` | model-provider/src/main/kotlin/com/flixclusive/model/provider/link/Flag.kt:82 | the test is key-contains-name: "Netflix Originals" contains the key "Netflix", yet with a null URL it is not trusted |
| `Flags.NotContainedWithoutChar` | model-provider/src/main/kotlin/com/flixclusive/model/provider/link/Flag.kt:82 | a part holding a character that the text lacks, up to case, is not contained in the text |
| `Flags.IsTrustedReadsNameAndUrl` | model-provider/src/main/kotlin/com/flixclusive/model/provider/link/Flag.kt:42-86 | `isTrusted` ignores logo, description, rating, category and contact |
| `Filters.Filter.Select` | provider/src/main/kotlin/com/flixclusive/provider/filter/Filter.kt:27-31 | a `Select` keeps its name and options, and its state defaults to 0 |
| `Filters.Filter.CheckBox` | provider/src/main/kotlin/com/flixclusive/provider/filter/Filter.kt:45-48 | a `CheckBox` state defaults to `false` |
| `Filters.Filter.TriState` | provider/src/main/kotlin/com/flixclusive/provider/filter/Filter.kt:61-64 | a `TriState` state defaults to `STATE_UNSELECTED` |
| `Filters.Filter.Sort` | provider/src/main/kotlin/com/flixclusive/provider/filter/Filter.kt:89-93 | a `Sort` keeps its name and options, and its state defaults to null |
| `Filters.Filter.SetState` | provider/src/main/kotlin/com/flixclusive/provider/filter/Filter.kt:15-18 | assigning `state` sets it to the new value of the subclass's state type; only `state` can change, since `name` and `options` are immutable |
| `Filters.StateHashCode` | provider/src/main/kotlin/com/flixclusive/provider/filter/Filter.kt:112 | `state?.hashCode() ?: 0`: an `Int` hashes to itself, a `Boolean` to 1231 or 1237, a `Selection` as the data-class hash `31 * index + ascending.hashCode()`, null to 0; used by `Filters.HashCodeConsistent` |
| `Filters.Filter.IsUnselected` | provider/src/main/kotlin/com/flixclusive/provider/filter/Filter.kt:66 | `isUnselected()`; exclusivity with the other two is `Filters.TriStateExclusive` |
| `Filters.Filter.IsSelected` | provider/src/main/kotlin/com/flixclusive/provider/filter/Filter.kt:68 | `isSelected()`; exclusivity with the other two is `Filters.TriStateExclusive` |
| `Filters.Filter.IsIndeterminate` | provider/src/main/kotlin/com/flixclusive/provider/filter/Filter.kt:70 | `isIndeterminate()`; exclusivity with the other two is `Filters.TriStateExclusive` |
| `Filters.Filter.Equals` | provider/src/main/kotlin/com/flixclusive/provider/filter/Filter.kt:103-108 | `equals`: identity, then null, then name and state; characterized by `Filters.EqualsByNameAndState` and `Filters.EqualsIsEquivalence` |
| `Filters.Filter.HashCode` | provider/src/main/kotlin/com/flixclusive/provider/filter/Filter.kt:110-114 | `hashCode` in `Int` arithmetic; consistent with `Equals` by `Filters.HashCodeConsistent` |
| `Filters.TriStateExclusive` | provider/src/main/kotlin/com/flixclusive/provider/filter/Filter.kt:66-78 | at most one of `isUnselected`, `isSelected` and `isIndeterminate` holds; one holds exactly when the state is 0, 1 or 2 |
| `Filters.EqualsByNameAndState` | provider/src/main/kotlin/com/flixclusive/provider/filter/Filter.kt:103-108 | two filters are equal exactly when their names and states are equal; subclass and options do not enter |
| `Filters.EqualsIsEquivalence` | provider/src/main/kotlin/com/flixclusive/provider/filter/Filter.kt:103-108 | equality is reflexive, symmetric and transitive, and no filter equals null |
| `Filters.HashCodeConsistent` | provider/src/main/kotlin/com/flixclusive/provider/filter/Filter.kt:103-114 | equal filters have equal hash codes, as the `equals`/`hashCode` contract requires |
| `Filters.SelectEqualsTriState` | provider/src/main/kotlin/com/flixclusive/provider/filter/Filter.kt:103-114 | a `Select` and a `TriState` with the same name and `Int` state are equal and hash alike |
| `Filters.DefaultStates` | provider/src/main/kotlin/com/flixclusive/provider/filter/Filter.kt:30-92 | the four subclass defaults are 0, `false`, `STATE_UNSELECTED` and null |
| `Filters.ReassignState` | provider/src/main/kotlin/com/flixclusive/provider/filter/Filter.kt:103-108 | after reassigning one filter's state, other filters keep theirs, and the filter's equality follows the new state |
| `Episodes.Episode.ReleaseDate` | model-film/src/main/kotlin/com/flixclusive/model/film/common/tv/Episode.kt:40-45 | a null or empty air date gives "No release date"; an air date that makes `formatDate` throw (one starting with a letter, other than a leading "NaN") comes back raw; a valid `yyyy-MM-dd` air date gives text that reads back as that same date |
| `Episodes.Episode.Equals` | model-film/src/main/kotlin/com/flixclusive/model/film/common/tv/Episode.kt:64-69 | `equals` between two episodes; characterized by `Episodes.EqualsIgnoresOtherFields` and `Episodes.EqualsIsEquivalence` |
| `Episodes.Episode.HashCode` | model-film/src/main/kotlin/com/flixclusive/model/film/common/tv/Episode.kt:52-54 | `Objects.hash(season, number, id)` in `Int` arithmetic; consistent with `Equals` by `Episodes.HashCodeConsistent` |
| `Episodes.EqualsIgnoresOtherFields` | model-film/src/main/kotlin/com/flixclusive/model/film/common/tv/Episode.kt:64-69 | equality is decided by season, number and id; title, overview, runtime, air date, image and rating are ignored |
| `Episodes.EqualsIsEquivalence` | model-film/src/main/kotlin/com/flixclusive/model/film/common/tv/Episode.kt:64-69 | episode equality is reflexive, symmetric and transitive |
| `Episodes.HashCodeConsistent` | model-film/src/main/kotlin/com/flixclusive/model/film/common/tv/Episode.kt:52-69 | equal episodes have equal hash codes, as the `equals`/`hashCode` contract requires |
| `Episodes.DefaultsAreEqual` | model-film/src/main/kotlin/com/flixclusive/model/film/common/tv/Episode.kt:64-69 | two episodes built from the defaults (id "", number 0, season 0) are equal |
| `FilmFormat.MonthName` | model-film/src/main/kotlin/com/flixclusive/model/film/util/FilmFormatHelper.kt:12-15 | the `MMMM` names in `Locale.US`: at least three letters, no space and no comma |
| `FilmFormat.MonthNumber` | model-film/src/main/kotlin/com/flixclusive/model/film/util/FilmFormatHelper.kt:12-15 | reading a month name back gives the month it names |
| `FilmFormat.FormatDate` | model-film/src/main/kotlin/com/flixclusive/model/film/util/FilmFormatHelper.kt:8-20 | null or empty input gives "No release date"; input starting with a letter (other than a leading "NaN") throws with the input in the message; for other covered input the result is `Success` |
| `FilmFormat.UsText` | model-film/src/main/kotlin/com/flixclusive/model/film/util/FilmFormatHelper.kt:15 | `MMMM d, yyyy` in `Locale.US`; read back by `FilmFormat.ReadUsTextOfUsText` |
| `FilmFormat.FormattedReadsBack` | model-film/src/main/kotlin/com/flixclusive/model/film/util/FilmFormatHelper.kt:8-20 | whatever `formatDate` produces from a valid `yyyy-MM-dd` string is a success that reads back as the input's date |
| `FilmFormat.IndexOf` | model-film/src/main/kotlin/com/flixclusive/model/film/util/FilmFormatHelper.kt:15 | finds the first occurrence of a character (used to read `MMMM d, yyyy` back) |
| `FilmFormat.MonthNameRoundTrip` | model-film/src/main/kotlin/com/flixclusive/model/film/util/FilmFormatHelper.kt:12-15 | every month name reads back as its month |
| `FilmFormat.Pad2OfDigits` | model-film/src/main/kotlin/com/flixclusive/model/film/util/FilmFormatHelper.kt:14 | two digits are the zero-padded rendering of their value (`MM`, `dd`) |
| `FilmFormat.Pad4OfDigits` | model-film/src/main/kotlin/com/flixclusive/model/film/util/FilmFormatHelper.kt:14-15 | four digits are the zero-padded rendering of their value (`yyyy`) |
| `FilmFormat.ValueOfPad4` | model-film/src/main/kotlin/com/flixclusive/model/film/util/FilmFormatHelper.kt:15 | a year rendered with `yyyy` reads back as itself |
| `FilmFormat.CanonicalIsIsoText` | model-film/src/main/kotlin/com/flixclusive/model/film/util/FilmFormatHelper.kt:14-17 | a valid `yyyy-MM-dd` string is exactly the canonical spelling of the date it parses to |
| `FilmFormat.ReadUsTextOfUsText` | model-film/src/main/kotlin/com/flixclusive/model/film/util/FilmFormatHelper.kt:15-19 | round trip: text rendered as `MMMM d, yyyy` reads back as the date it came from |
| `FilmFormat.FormatValidDate` | model-film/src/main/kotlin/com/flixclusive/model/film/util/FilmFormatHelper.kt:12-20 | a valid date becomes "<month name of MM> <day without leading zero>, <the input's yyyy>", and this text reads back as the input's date |
| `FilmFormat.OneCommaThenYear` | model-film/src/main/kotlin/com/flixclusive/model/film/util/FilmFormatHelper.kt:15-19 | the formatted text of a valid date has exactly one ',', followed by a space and then the four-digit year that ends the text |
| `FilmFormat.FormatInjective` | model-film/src/main/kotlin/com/flixclusive/model/film/util/FilmFormatHelper.kt:12-20 | different valid date strings never format to the same text |
| `FilmFormat.FormatExample` | model-film/src/main/kotlin/com/flixclusive/model/film/util/FilmFormatHelper.kt:14-20 | "2023-01-05" becomes "January 5, 2023" |
| `FilmFormat.LeapDayFormats` | model-film/src/main/kotlin/com/flixclusive/model/film/util/FilmFormatHelper.kt:14-20 | "2024-02-29" is a valid date and becomes "February 29, 2024" |
| `FilmFormat.NoLeapDayInCommonYear` | model-film/src/main/kotlin/com/flixclusive/model/film/util/FilmFormatHelper.kt:14 | "2023-02-29" is not a canonical date, so it lies outside the modelled inputs (the lenient parser would roll it over to March 1, 2023) |
| `FilmFormat.LetterInputThrows` | model-film/src/main/kotlin/com/flixclusive/model/film/util/FilmFormatHelper.kt:17 | input that starts with a letter, and not with "NaN", makes `formatDate` throw "Unparseable date: ..." rather than return |
| `FilmFormat.LeapDayFields` | model-film/src/main/kotlin/com/flixclusive/model/film/util/FilmFormatHelper.kt:14 | "2024-02-29" is accepted by `yyyy-MM-dd` as February 29 of 2024 |
| `Seasons.AirDateMeansReleased` | model-film/src/main/kotlin/com/flixclusive/model/film/common/tv/Season.kt:36-37 | a season with an air date is never unreleased |
| `Seasons.Season.IsUnreleased` | model-film/src/main/kotlin/com/flixclusive/model/film/common/tv/Season.kt:36-37 | `isUnreleased`; its behaviour on present, absent and zero fields is stated by the three lemmas below it |
| `Seasons.AbsenceIsNotZero` | model-film/src/main/kotlin/com/flixclusive/model/film/common/tv/Season.kt:27-37 | a null episode count or a null rating means the season is not unreleased: the rule tests for zero, not absence |
| `Seasons.DefaultSeason` | model-film/src/main/kotlin/com/flixclusive/model/film/common/tv/Season.kt:26-37 | a season built from the defaults is not unreleased; with an episode count of 0 and a rating of 0.0 it is |
| `Seasons.UnreleasedReadsThreeFields` | model-film/src/main/kotlin/com/flixclusive/model/film/common/tv/Season.kt:36-37 | `isUnreleased` depends only on the air date, the episode count and the rating |
| `Tmdb.FindYear` | model-film/src/main/kotlin/com/flixclusive/model/film/util/TMDBHelper.kt:85-86 | the leftmost standalone four-digit run at or after a position, or `None` when there is none |
| `Tmdb.ExtractYear` | model-film/src/main/kotlin/com/flixclusive/model/film/util/TMDBHelper.kt:84-87 | `None` exactly when no run of four digits is bounded on both sides by a non-word character or an edge; otherwise the value of the leftmost such run, in 0..9999 |
| `Tmdb.FourDigitsBelow10000` | model-film/src/main/kotlin/com/flixclusive/model/film/util/TMDBHelper.kt:86 | four digits denote a number of at most 9999 |
| `Tmdb.ExtractYearLeftmost` | model-film/src/main/kotlin/com/flixclusive/model/film/util/TMDBHelper.kt:85-86 | "Movie (1999) 2001" gives 1999 |
| `Tmdb.ExtractYearLeadingZeros` | model-film/src/main/kotlin/com/flixclusive/model/film/util/TMDBHelper.kt:85-86 | "0042" gives 42 |
| `Tmdb.ExtractYearNeedsBoundaries` | model-film/src/main/kotlin/com/flixclusive/model/film/util/TMDBHelper.kt:85 | "12345", "abc2023" and "2023x" give null |
| `Tmdb.LowerRunEnd` | model-film/src/main/kotlin/com/flixclusive/model/film/util/TMDBHelper.kt:69 | the end of the maximal run of lower-case letters (what the greedy `[a-z]+` consumes) |
| `Tmdb.TypeAtIsRun` | model-film/src/main/kotlin/com/flixclusive/model/film/util/TMDBHelper.kt:69 | a match of `(?<=/)[a-z]+(?=\?)` ends exactly where the run of letters ends |
| `Tmdb.FindType` | model-film/src/main/kotlin/com/flixclusive/model/film/util/TMDBHelper.kt:69-72 | `find()` returns the leftmost match, and `None` only when nothing matches |
| `Tmdb.ReplaceTypeInUrl` | model-film/src/main/kotlin/com/flixclusive/model/film/util/TMDBHelper.kt:68-77 | unchanged when no lower-case run sits between '/' and '?'; otherwise only the leftmost such run is replaced by `type` |
| `Tmdb.FindTypeLeftmost` | model-film/src/main/kotlin/com/flixclusive/model/film/util/TMDBHelper.kt:69-73 | the scan finds the leftmost match and its end |
| `Tmdb.ReplaceKeepsPrefixAndSuffix` | model-film/src/main/kotlin/com/flixclusive/model/film/util/TMDBHelper.kt:69-73 | the replacement keeps the prefix ending in '/' and the suffix starting with '?', with `type` in between |
| `Tmdb.EarlierStartsUnchanged` | model-film/src/main/kotlin/com/flixclusive/model/film/util/TMDBHelper.kt:69 | positions before the replaced segment start the same matches after the replacement as before |
| `Tmdb.ReplaceIdempotent` | model-film/src/main/kotlin/com/flixclusive/model/film/util/TMDBHelper.kt:68-77 | for a non-empty lower-case `type`, replacing twice gives the same string as replacing once |
| `Tmdb.NoTypeBefore` | model-film/src/main/kotlin/com/flixclusive/model/film/util/TMDBHelper.kt:69 | no match starts before position `m` when the text before `m` holds no '?' and its last character is not a lower-case letter |
| `Tmdb.ReplaceExample` | model-film/src/main/kotlin/com/flixclusive/model/film/util/TMDBHelper.kt:68-77 | `trending/all/day?page=1` with type `week` becomes `trending/all/week?page=1` |
| `Tmdb.FilterOutUnreleasedFilms` | model-film/src/main/kotlin/com/flixclusive/model/film/util/TMDBHelper.kt:16-23 | the result is a subsequence of the input in its order; every kept item has a non-null, non-empty poster and passes the date test; each item is kept as often as it occurs exactly when it passes |
| `Tmdb.HasPoster` | model-film/src/main/kotlin/com/flixclusive/model/film/util/TMDBHelper.kt:22 | the negation of `posterImage.isNullOrEmpty()` |
| `Tmdb.InFuture` | model-film/src/main/kotlin/com/flixclusive/model/film/util/TMDBHelper.kt:18-21 | `isDateInFuture(parsedReleaseDate!!)`, with the `!!` failure and any exception read as `false`; see `Tmdb.FailedDateCheckKeepsPostered` |
| `Tmdb.Keeps` | model-film/src/main/kotlin/com/flixclusive/model/film/util/TMDBHelper.kt:17-22 | the negation of the `filterNot` predicate; what the filter keeps, as `Tmdb.FilterMembership` states |
| `Tmdb.SubsequenceOfTail` | model-film/src/main/kotlin/com/flixclusive/model/film/util/TMDBHelper.kt:17 | a subsequence of the tail is a subsequence of the whole list |
| `Tmdb.SubsequenceDropHead` | model-film/src/main/kotlin/com/flixclusive/model/film/util/TMDBHelper.kt:17 | dropping the first element of a subsequence keeps it a subsequence |
| `Tmdb.FailedDateCheckKeepsPostered` | model-film/src/main/kotlin/com/flixclusive/model/film/util/TMDBHelper.kt:18-22 | when the date test throws (no parsed date, or `isDateInFuture` fails), the item is kept exactly when it has a poster |
| `Tmdb.FilterMembership` | model-film/src/main/kotlin/com/flixclusive/model/film/util/TMDBHelper.kt:16-23 | an item is in the result exactly when it is in the input and passes the test |
| `Tmdb.FilterIdempotent` | model-film/src/main/kotlin/com/flixclusive/model/film/util/TMDBHelper.kt:16-23 | filtering an already filtered list changes nothing |
| `UserAgents.UserAgentManager.constructor` | core-util/src/main/kotlin/com/flixclusive/core/util/network/okhttp/UserAgentManager.kt:22-25 | both lists start empty |
| `UserAgents.UserAgentManager.GetRandomMobileUserAgent` | core-util/src/main/kotlin/com/flixclusive/core/util/network/okhttp/UserAgentManager.kt:52-54 | an element of `mobileUserAgents`, or `USER_AGENT` exactly when that list is empty; no list changes |
| `UserAgents.UserAgentManager.GetRandomDesktopUserAgent` | core-util/src/main/kotlin/com/flixclusive/core/util/network/okhttp/UserAgentManager.kt:64-66 | an element of `desktopUserAgents`, or `USER_AGENT` exactly when that list is empty; no list changes |
| `UserAgents.UserAgentManager.GetRandomUserAgent` | core-util/src/main/kotlin/com/flixclusive/core/util/network/okhttp/UserAgentManager.kt:35-42 | an element of the coin-chosen list, or `USER_AGENT` when that list is empty even if the other is not; with both empty always `USER_AGENT`; no list changes |
| `UserAgents.UserAgentManager.LoadLatestUserAgents` | core-util/src/main/kotlin/com/flixclusive/core/util/network/okhttp/UserAgentManager.kt:79-95 | the lists afterwards are those of the load specification: unchanged on a failed fetch, else the "desktop" and "mobile" entries |
| `UserAgents.AfterLoad` | core-util/src/main/kotlin/com/flixclusive/core/util/network/okhttp/UserAgentManager.kt:83-93 | the lists after a load; `UserAgents.FailedLoadKeepsPools`, `UserAgents.LoadReplaces` and `UserAgents.LoadIdempotent` state what it does |
| `UserAgents.PickOr` | core-util/src/main/kotlin/com/flixclusive/core/util/network/okhttp/UserAgentManager.kt:53 | `randomOrNull() ?: fallback`: some element of a non-empty list, else the fallback |
| `UserAgents.FailedLoadKeepsPools` | core-util/src/main/kotlin/com/flixclusive/core/util/network/okhttp/UserAgentManager.kt:83-90 | a failed fetch or parse, which happens before the clears, leaves both lists unchanged |
| `UserAgents.LoadReplaces` | core-util/src/main/kotlin/com/flixclusive/core/util/network/okhttp/UserAgentManager.kt:89-93 | a successful load replaces rather than appends: the lists equal the fetched entries (empty for a missing key), whatever they held before |
| `UserAgents.LoadIdempotent` | core-util/src/main/kotlin/com/flixclusive/core/util/network/okhttp/UserAgentManager.kt:89-93 | loading the same data twice gives the lists that loading it once gives |
| `UserAgents.LoadTwice` | core-util/src/main/kotlin/com/flixclusive/core/util/network/okhttp/UserAgentManager.kt:79-95 | two loads in a row on the manager leave the state that one load leaves |
| `Jvm.Wrap32` | provider/src/main/kotlin/com/flixclusive/provider/filter/Filter.kt:112 | Kotlin `Int` arithmetic: the result is the 32-bit value congruent to the exact result modulo 2^32 |
| `Jvm.HashUnitsIsHorner` | provider/src/main/kotlin/com/flixclusive/provider/filter/Filter.kt:111 | `String.hashCode()` is the polynomial `s[0]*31^(n-1) + ... + s[n-1]` over UTF-16 units, reduced to 32 bits; the per-step wrap gives the same value |
| `Jvm.StringHashCode` | provider/src/main/kotlin/com/flixclusive/provider/filter/Filter.kt:111 | `String.hashCode()` over UTF-16 code units; equal to the documented polynomial by `Jvm.HashUnitsIsHorner` |
| `Jvm.BooleanHashCode` | provider/src/main/kotlin/com/flixclusive/provider/filter/Filter.kt:112 | `Boolean.hashCode()`: 1231 for `true`, 1237 for `false` |
| `Jvm.EqualsIgnoreCase` | model-provider/src/main/kotlin/com/flixclusive/model/provider/link/Flag.kt:81 | `equals(other, ignoreCase = true)` for a non-null `other` on ASCII text: equal lengths and equal characters after upper-casing |
| `Jvm.ContainsIgnoreCase` | model-provider/src/main/kotlin/com/flixclusive/model/provider/link/Flag.kt:82 | `contains(other, ignoreCase = true)` on ASCII text: some position starts a region that matches ignoring case |
| `Jvm.Upper` | core-util/src/main/kotlin/com/flixclusive/core/util/network/okhttp/HttpMethod.kt:94 | `uppercase()` keeps the length and upper-cases each character (ASCII letters only) |
| `Jvm.UpperOfLower` | core-util/src/main/kotlin/com/flixclusive/core/util/network/okhttp/HttpMethod.kt:94 | upper-casing a lower-cased string gives the upper-cased original |
| `Jvm.IntToDecimal` | model-provider/src/main/kotlin/com/flixclusive/model/provider/ProviderData.kt:51 | the `Long` in a string template is its shortest decimal spelling: a '-' exactly for negative values, then digits denoting the magnitude, with no leading zero except for "0" itself |
| `Jvm.EqualsIgnoreCaseContains` | model-provider/src/main/kotlin/com/flixclusive/model/provider/link/Flag.kt:81-82 | a key equal to the name ignoring case also contains it, so the first test of `isTrusted` is subsumed by the second |
| `Jvm.ContainsEmpty` | model-provider/src/main/kotlin/com/flixclusive/model/provider/link/Flag.kt:82-84 | every text contains the empty string, ignoring case |

## Left out

- `HttpMethods.Parse`: requires an ASCII input; Kotlin's `uppercase()` applies full Unicode case mapping (for example 'ß' to "SS"), which is not modelled.
- `Flags.Flag.IsTrusted`: requires ASCII name and URL, since `equals`/`contains` with `ignoreCase` are modelled with ASCII case folding only.
- `Tmdb.ExtractYear`: requires an ASCII input; Kotlin's `\b` and `\d` are modelled as ASCII word characters and ASCII digits.
- `FilmFormat.FormatDate`: defined only on null, empty, canonical `yyyy-MM-dd` dates with years 1583..9999, and strings starting with a letter other than those opening with "NaN" (in any case). Lenient `SimpleDateFormat` parsing of other strings is not modelled: out-of-range fields that roll over ("2023-02-29" becomes March 1, 2023), trailing text, signs, Julian-calendar years, and a leading NaN symbol, which the year's number parser reads as a number ("NaN-01-01" formats as a date).
- `Episodes.Episode.ReleaseDate`: inherits the same domain restriction on the air date as `FilmFormat.FormatDate`.
- `FilmFormat.FormatDate`: assumes a default time zone in which every calendar day exists. Both `SimpleDateFormat`s use the device's default zone, and in a zone that skipped a day the source prints a different date (in Pacific/Apia "2011-12-30" becomes "December 31, 2011", the same text as "2011-12-31"; in Pacific/Kiritimati "1994-12-31" becomes "January 1, 1995"). The zone is not modelled.
- `FilmFormat.FormatValidDate`: assumes the same time zone as `FilmFormat.FormatDate`, one in which every calendar day exists. The exact text, and the input's year at its end, hold only under that assumption.
- `FilmFormat.OneCommaThenYear`: assumes the same time zone as `FilmFormat.FormatDate`, one in which every calendar day exists. The trailing year equals the input's only under that assumption.
- `FilmFormat.FormatInjective`: assumes the same time zone as `FilmFormat.FormatDate`, one in which every calendar day exists. Two inputs can share one output in such a zone.
- `FilmFormat.FormattedReadsBack`: assumes the same time zone as `FilmFormat.FormatDate`, one in which every calendar day exists. The read-back date is the input's only under that assumption.
- `Episodes.Episode.ReleaseDate`: assumes the same time zone as `FilmFormat.FormatDate`, one in which every calendar day exists. Its read-back clause holds only under that assumption.
- `Tmdb.ReplaceTypeInUrl`: requires that `type` holds no '$' or '\'; group references and escapes in `replaceFirst`'s replacement syntax are not modelled.
- `Tmdb.FilterOutUnreleasedFilms`: `isDateInFuture` depends on the clock, the Android SDK level and `java.time` parsing. It is a parameter, a function that returns `None` when it would throw, rather than a modelled operation.
- `UserAgents.UserAgentManager.LoadLatestUserAgents`: the HTTP request and Gson decoding are an input (`None` for any exception that `safeCall` swallows). A document that decodes to `null`, and `null` elements inside a list, are not modelled.
- `UserAgents.UserAgentManager.GetRandomUserAgent`: `Random.nextBoolean()` and `randomOrNull()` are nondeterministic choices; the distribution is not modelled.
- `UserAgents.UserAgentManager.constructor`: `USER_AGENT` is defined outside these files and is a constructor parameter; the companion object is one manager instance; concurrent access to the lists is not modelled.
- `Episodes.Episode.Equals`: only the episode-to-episode case is modelled; `equals` with a non-`Episode` or null argument always returns false, which the model does not state.
- `Filters.StateHashCode`: the `Selection` case assumes the data-class `hashCode` that the Kotlin compiler generates calls `Boolean.hashCode()` (1231/1237) for `ascending`. A compiler that emits 1/0 for a Boolean component gives a different value. Only the consistency of `hashCode` with `equals` is proved, and that holds under either reading.
- `Filters.Filter.Equals`: the argument is a `Filter` or null; the source's `other !is Filter<*>` case for an object of another class, which returns false, is not represented.
- `Filters.Filter.Select`: options are kept as their option names (`getOptionName`, that is `toString()`), since the generic option type is never inspected.
- `Filters.Filter.SetState`: requires the new state to fit the subclass's state type, which Kotlin's generics enforce at compile time.
- Ratings (`Double?`) are real numbers: NaN and the difference between -0.0 and 0.0 are not modelled.
- `Language`, `ProviderType` and `Status` of `ProviderData` are kept as strings, and `Author` only as data, because the modelled code never inspects them.
- `Film.kt` is not part of this model. `FilmSearchItem` keeps only the fields `filterOutUnreleasedFilms` reads, and `parsedReleaseDate` is a stored field.
- The Season KDoc describes an unreleased season as one with "no" episode count or rating. The code tests for zero, and the model follows the code (see `Seasons.AbsenceIsNotZero`).
- Plugin and provider base classes, provider settings, Android glue, JSON helpers, coroutine and file utilities, logging and exception plumbing are outside the modelled core.
