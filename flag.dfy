/**
 * Flags attached to a media link (`Flag`): locked to an IP address,
 * expiring, requiring authentication, or coming from a trusted provider,
 * with the test `Trusted.isTrusted` against a fixed table of twenty
 * streaming services.
 */
module Flags {
  import opened Wrappers
  import opened Jvm

  /**
   * The sealed class `Flag`. `IPLocked` is a data object (one value); the
   * other three are data classes, so equality is structural on their fields.
   * `Trusted.rating` is a `Double`, never computed with; it is kept as a real.
   */
  datatype Flag =
    | IPLocked
    | Expires(expiresOn: Int64)
    | RequiresAuth(customHeaders: Option<map<string, string>>)
    | Trusted(
        name: string,
        logo: Option<string> := None,
        description: Option<string> := None,
        rating: Option<real> := None,
        url: Option<string> := None,
        category: Option<string> := None,
        contact: Option<string> := None)
  {
    /**
     * `Trusted.isTrusted()`: some table entry `(provider, url)` has
     * `provider` equal to, or containing, the flag's name, ignoring case, or
     * has `url` equal to, or containing, the flag's URL, ignoring case; a
     * null URL is searched for as the text "NULL!".
     */
    function IsTrusted(): (r: bool)
      requires Trusted?
      requires IsAscii(name) && (url.Some? ==> IsAscii(url.value))
      ensures r <==> exists k :: 0 <= k < |TrustedProviders| && EntryTrusts(TrustedProviders[k], name, url)
    {
      AnyEntryTrusts(TrustedProviders, name, url)
    }
  }

  /** `trustedProviders`: service name to official URL, in the table's order. */
  const TrustedProviders: seq<(string, string)> := [
    ("Netflix", "https://www.netflix.com"),
    ("Amazon Prime Video", "https://www.amazon.com/Prime-Video"),
    ("Hulu", "https://www.hulu.com"),
    ("Disney+", "https://www.disneyplus.com"),
    ("HBO Max", "https://www.hbomax.com"),
    ("Apple TV+", "https://tv.apple.com"),
    ("Paramount+", "https://www.paramountplus.com"),
    ("Peacock", "https://www.peacocktv.com"),
    ("YouTube Premium", "https://www.youtube.com/premium"),
    ("BBC iPlayer", "https://www.bbc.co.uk/iplayer"),
    ("Hulu + Live TV", "https://www.hulu.com/live-tv"),
    ("Starz", "https://www.starz.com"),
    ("Showtime", "https://www.showtime.com"),
    ("Sundance Now", "https://www.sundancenow.com"),
    ("Discovery+", "https://www.discoveryplus.com"),
    ("Crunchyroll", "https://www.crunchyroll.com"),
    ("FuboTV", "https://www.fubo.tv"),
    ("Vudu", "https://www.vudu.com"),
    ("Tubi", "https://www.tubi.tv"),
    ("Acorn TV", "https://www.acorn.tv")
  ]

  /** What `url ?: "NULL!"` searches a table URL for. */
  const NullUrlText: string := "NULL!"

  /** The body of the `any` lambda for one table entry. */
  predicate EntryTrusts(entry: (string, string), name: string, url: Option<string>) {
    var (provider, providerUrl) := entry;
    || EqualsIgnoreCase(provider, name)
    || ContainsIgnoreCase(provider, name)
    || (url.Some? && EqualsIgnoreCase(providerUrl, url.value))
    || ContainsIgnoreCase(providerUrl, url.GetOr(NullUrlText))
  }

  /** `entries.any { ... }`. */
  function AnyEntryTrusts(entries: seq<(string, string)>, name: string, url: Option<string>): (r: bool)
    ensures r <==> exists k :: 0 <= k < |entries| && EntryTrusts(entries[k], name, url)
  {
    if entries == [] then false
    else if EntryTrusts(entries[0], name, url) then true
    else
      var r := AnyEntryTrusts(entries[1..], name, url);
      assert forall k :: 1 <= k < |entries| ==> entries[k] == entries[1..][k - 1];
      r
  }

  // ---------------------------------------------------------------- properties

  /** A name equal to a table key, ignoring case, is trusted. */
  lemma TrustedByName(f: Flag, k: nat)
    requires f.Trusted? && IsAscii(f.name) && (f.url.Some? ==> IsAscii(f.url.value))
    requires k < |TrustedProviders| && EqualsIgnoreCase(TrustedProviders[k].0, f.name)
    ensures f.IsTrusted()
  {
    assert EntryTrusts(TrustedProviders[k], f.name, f.url);
  }

  /** A name contained in a table key, ignoring case, is trusted. */
  lemma TrustedByNamePart(f: Flag, k: nat)
    requires f.Trusted? && IsAscii(f.name) && (f.url.Some? ==> IsAscii(f.url.value))
    requires k < |TrustedProviders| && ContainsIgnoreCase(TrustedProviders[k].0, f.name)
    ensures f.IsTrusted()
  {
    assert EntryTrusts(TrustedProviders[k], f.name, f.url);
  }

  /** The empty name is contained in every key, so it is always trusted. */
  lemma EmptyNameTrusted(f: Flag)
    requires f.Trusted? && f.name == "" && (f.url.Some? ==> IsAscii(f.url.value))
    ensures f.IsTrusted()
  {
    ContainsEmpty(TrustedProviders[0].0);
    TrustedByNamePart(f, 0);
  }

  /** "Hulu" is a key and also part of the key "Hulu + Live TV"; any casing of it is trusted. */
  lemma HuluTrusted(f: Flag)
    requires f.Trusted? && f.name == "hULu" && (f.url.Some? ==> IsAscii(f.url.value))
    ensures ContainsIgnoreCase(TrustedProviders[10].0, f.name)
    ensures f.IsTrusted()
  {
    assert RegionMatchesIgnoreCase(TrustedProviders[10].0, 0, f.name);
    TrustedByNamePart(f, 10);
  }

  /** A URL equal to a table URL, ignoring case, is trusted. */
  lemma TrustedByUrl(f: Flag, k: nat)
    requires f.Trusted? && IsAscii(f.name) && f.url.Some? && IsAscii(f.url.value)
    requires k < |TrustedProviders| && EqualsIgnoreCase(TrustedProviders[k].1, f.url.value)
    ensures f.IsTrusted()
  {
    assert EntryTrusts(TrustedProviders[k], f.name, f.url);
  }

  /** A URL contained in a table URL, ignoring case, is trusted; so is the empty URL. */
  lemma TrustedByUrlPart(f: Flag, k: nat)
    requires f.Trusted? && IsAscii(f.name) && f.url.Some? && IsAscii(f.url.value)
    requires k < |TrustedProviders| && ContainsIgnoreCase(TrustedProviders[k].1, f.url.value)
    ensures f.IsTrusted()
  {
    assert EntryTrusts(TrustedProviders[k], f.name, f.url);
  }

  /** The empty URL is part of every table URL. */
  lemma EmptyUrlTrusted(f: Flag)
    requires f.Trusted? && IsAscii(f.name) && f.url == Some("")
    ensures f.IsTrusted()
  {
    ContainsEmpty(TrustedProviders[0].1);
    TrustedByUrlPart(f, 0);
  }

  /** No character of the `k`-th table URL is a '!'. */
  ghost predicate UrlLacksBang(k: nat)
    requires k < |TrustedProviders|
  {
    forall j :: 0 <= j < |TrustedProviders[k].1| ==> TrustedProviders[k].1[j] != '!'
  }

  /** No table URL has a '!'; checked five rows at a time, each URL as a literal. */
  lemma NoUrlHasBang(k: nat)
    requires k < |TrustedProviders|
    ensures UrlLacksBang(k)
  {
    if k < 5 { NoUrlHasBang0(k); }
    else if k < 10 { NoUrlHasBang5(k); }
    else if k < 15 { NoUrlHasBang10(k); }
    else { NoUrlHasBang15(k); }
  }

  lemma NoUrlHasBang0(k: nat)
    requires 0 <= k < 5
    ensures UrlLacksBang(k)
  {
    if k == 0 { var u := TrustedProviders[0].1; assert forall j :: 0 <= j < |u| ==> u[j] != '!'; }
    else if k == 1 { var u := TrustedProviders[1].1; assert forall j :: 0 <= j < |u| ==> u[j] != '!'; }
    else if k == 2 { var u := TrustedProviders[2].1; assert forall j :: 0 <= j < |u| ==> u[j] != '!'; }
    else if k == 3 { var u := TrustedProviders[3].1; assert forall j :: 0 <= j < |u| ==> u[j] != '!'; }
    else { var u := TrustedProviders[4].1; assert forall j :: 0 <= j < |u| ==> u[j] != '!'; }
  }

  lemma NoUrlHasBang5(k: nat)
    requires 5 <= k < 10
    ensures UrlLacksBang(k)
  {
    if k == 5 { var u := TrustedProviders[5].1; assert forall j :: 0 <= j < |u| ==> u[j] != '!'; }
    else if k == 6 { var u := TrustedProviders[6].1; assert forall j :: 0 <= j < |u| ==> u[j] != '!'; }
    else if k == 7 { var u := TrustedProviders[7].1; assert forall j :: 0 <= j < |u| ==> u[j] != '!'; }
    else if k == 8 { var u := TrustedProviders[8].1; assert forall j :: 0 <= j < |u| ==> u[j] != '!'; }
    else { var u := TrustedProviders[9].1; assert forall j :: 0 <= j < |u| ==> u[j] != '!'; }
  }

  lemma NoUrlHasBang10(k: nat)
    requires 10 <= k < 15
    ensures UrlLacksBang(k)
  {
    if k == 10 { var u := TrustedProviders[10].1; assert forall j :: 0 <= j < |u| ==> u[j] != '!'; }
    else if k == 11 { var u := TrustedProviders[11].1; assert forall j :: 0 <= j < |u| ==> u[j] != '!'; }
    else if k == 12 { var u := TrustedProviders[12].1; assert forall j :: 0 <= j < |u| ==> u[j] != '!'; }
    else if k == 13 { var u := TrustedProviders[13].1; assert forall j :: 0 <= j < |u| ==> u[j] != '!'; }
    else { var u := TrustedProviders[14].1; assert forall j :: 0 <= j < |u| ==> u[j] != '!'; }
  }

  lemma NoUrlHasBang15(k: nat)
    requires 15 <= k < 20
    ensures UrlLacksBang(k)
  {
    if k == 15 { var u := TrustedProviders[15].1; assert forall j :: 0 <= j < |u| ==> u[j] != '!'; }
    else if k == 16 { var u := TrustedProviders[16].1; assert forall j :: 0 <= j < |u| ==> u[j] != '!'; }
    else if k == 17 { var u := TrustedProviders[17].1; assert forall j :: 0 <= j < |u| ==> u[j] != '!'; }
    else if k == 18 { var u := TrustedProviders[18].1; assert forall j :: 0 <= j < |u| ==> u[j] != '!'; }
    else { var u := TrustedProviders[19].1; assert forall j :: 0 <= j < |u| ==> u[j] != '!'; }
  }

  /** No table URL has a '!', so none contains "NULL!". */
  lemma NoUrlContainsNullText(k: nat)
    requires k < |TrustedProviders|
    ensures !ContainsIgnoreCase(TrustedProviders[k].1, NullUrlText)
  {
    NoUrlHasBang(k);
    NotContainedWithoutChar(TrustedProviders[k].1, NullUrlText, 4);
  }

  /** With a null URL, only the name decides. */
  lemma NullUrlDecidedByName(f: Flag)
    requires f.Trusted? && IsAscii(f.name) && f.url.None?
    ensures f.IsTrusted() <==>
      exists k :: 0 <= k < |TrustedProviders| &&
        (EqualsIgnoreCase(TrustedProviders[k].0, f.name) || ContainsIgnoreCase(TrustedProviders[k].0, f.name))
  {
    forall k | 0 <= k < |TrustedProviders| {
      NoUrlContainsNullText(k);
    }
  }

  /**
   * The substring test runs key-contains-name: "Netflix Originals" contains
   * the key "Netflix", yet with a null URL it is not trusted.
   */
  lemma NetflixOriginalsNotTrusted(f: Flag)
    requires f.Trusted? && f.name == "Netflix Originals" && f.url.None?
    ensures ContainsIgnoreCase(f.name, TrustedProviders[0].0)
    ensures !f.IsTrusted()
  {
    assert RegionMatchesIgnoreCase(f.name, 0, TrustedProviders[0].0);
    forall k | 0 <= k < |TrustedProviders|
      ensures !EqualsIgnoreCase(TrustedProviders[k].0, f.name)
      ensures !ContainsIgnoreCase(TrustedProviders[k].0, f.name)
    {
      var key := TrustedProviders[k].0;
      if k == 1 {
        // "Amazon Prime Video" is longer than the name, but has no 'g'.
        assert forall j :: 0 <= j < |key| ==> UpperChar(key[j]) != 'G';
        NotContainedWithoutChar(key, f.name, 11);
      } else {
        assert |key| < |f.name|;
      }
    }
    NullUrlDecidedByName(f);
  }

  /** A part with a character that the text lacks, up to case, is not contained in it. */
  lemma NotContainedWithoutChar(text: string, part: string, k: nat)
    requires k < |part|
    requires forall j :: 0 <= j < |text| ==> UpperChar(text[j]) != UpperChar(part[k])
    ensures !ContainsIgnoreCase(text, part)
  {
    forall at: nat | at + |part| <= |text| ensures !RegionMatchesIgnoreCase(text, at, part) {
      assert UpperChar(text[at + k]) != UpperChar(part[k]);
    }
  }

  /** `isTrusted` ignores logo, description, rating, category and contact. */
  lemma IsTrustedReadsNameAndUrl(f: Flag, g: Flag)
    requires f.Trusted? && g.Trusted? && f.name == g.name && f.url == g.url
    requires IsAscii(f.name) && (f.url.Some? ==> IsAscii(f.url.value))
    ensures f.IsTrusted() == g.IsTrusted()
  {
  }
}
