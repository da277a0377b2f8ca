/**
 * Provider metadata and the identifier derived from it
 * (`ProviderData.id`): `name[-repo]-versionCode`, where `repo` is the
 * repository part of a GitHub URL, or the whole URL when it is not one.
 */
module Providers {
  import opened Wrappers
  import opened Jvm

  /** A contributor to a provider. */
  datatype Author = Author(name: string, image: Option<string> := None, socialLink: Option<string> := None)

  /**
   * `ProviderData`. Language, ProviderType and Status are not part of this
   * model; they are carried as their string renderings.
   */
  datatype ProviderData = ProviderData(
    authors: seq<Author>,
    repositoryUrl: Option<string>,
    buildUrl: Option<string>,
    changelog: Option<string> := None,
    versionName: string,
    versionCode: Int64,
    adult: bool := false,
    description: Option<string>,
    iconUrl: Option<string>,
    language: string,
    name: string,
    providerType: string,
    status: string)

  /** The literal text the pattern `github\.com/[^/]+/([^/]+)` opens with (the dot escaped). */
  const GithubPrefix: string := "github.com/"

  /** No '/' among `s[lo..hi]`. */
  predicate NoSlash(s: string, lo: nat, hi: nat)
    requires lo <= hi <= |s|
  {
    forall k :: lo <= k < hi ==> s[k] != '/'
  }

  /**
   * The pattern matches at `i` with owner `s[i+11..j]` and group 1 `s[j+1..b]`:
   * the literal prefix, a non-empty slash-free owner, a '/', and a non-empty
   * slash-free repository that the greedy `[^/]+` extends up to the next '/'
   * or the end.
   */
  ghost predicate GroupAt(s: string, i: nat, j: nat, b: nat) {
    && i + |GithubPrefix| < j < b <= |s|
    && s[i..i + |GithubPrefix|] == GithubPrefix
    && NoSlash(s, i + |GithubPrefix|, j)
    && s[j] == '/'
    && j + 1 < b
    && NoSlash(s, j + 1, b)
    && (b == |s| || s[b] == '/')
  }

  /** Some match of the pattern starts at `i`. */
  ghost predicate MatchesAt(s: string, i: nat) {
    exists j: nat, b: nat :: GroupAt(s, i, j, b)
  }

  /** The end of the maximal run of characters other than '/' that starts at `from`. */
  function RunEnd(s: string, from: nat): (e: nat)
    requires from <= |s|
    ensures from <= e <= |s|
    ensures NoSlash(s, from, e)
    ensures e < |s| ==> s[e] == '/'
    decreases |s| - from
  {
    if from == |s| || s[from] == '/' then from else RunEnd(s, from + 1)
  }

  /** A match at `i` has its owner and repository ending where the runs of non-'/' end. */
  lemma GroupAtIsRuns(s: string, i: nat, j: nat, b: nat)
    requires GroupAt(s, i, j, b)
    ensures j == RunEnd(s, i + |GithubPrefix|)
    ensures b == RunEnd(s, j + 1)
  {
    var e := RunEnd(s, i + |GithubPrefix|);
    var f := RunEnd(s, j + 1);
  }

  /**
   * `Regex.find` from position `from`: the leftmost start `i >= from` of a
   * match, with the end `j` of its owner and the end `b` of group 1.
   */
  function FindRepository(s: string, from: nat): (r: Option<(nat, nat, nat)>)
    requires from <= |s|
    ensures r.Some? ==> from <= r.value.0 && GroupAt(s, r.value.0, r.value.1, r.value.2)
    ensures r.Some? ==> forall i: nat :: from <= i < r.value.0 ==> !MatchesAt(s, i)
    ensures r.None? ==> forall i: nat :: from <= i ==> !MatchesAt(s, i)
    decreases |s| - from
  {
    var o := from + |GithubPrefix|;
    if o > |s| then
      assert forall i: nat :: from <= i ==> !MatchesAt(s, i);
      None
    else
      var j := RunEnd(s, o);
      if s[from..o] == GithubPrefix && o < j && j + 1 < |s| && s[j + 1] != '/' then
        var b := RunEnd(s, j + 1);
        Some((from, j, b))
      else
        FindRepository(s, from + 1)
  }

  /**
   * `getRepositoryNameFromUrl`: group 1 of the leftmost match of
   * `github\.com/[^/]+/([^/]+)`, or the whole URL when nothing matches.
   */
  function RepositoryName(url: string): (r: string)
    ensures (forall i: nat :: !MatchesAt(url, i)) ==> r == url
    ensures (exists i: nat :: MatchesAt(url, i)) ==>
      exists i: nat, j: nat, b: nat ::
        && GroupAt(url, i, j, b)
        && (forall i': nat :: i' < i ==> !MatchesAt(url, i'))
        && r == url[j + 1..b]
  {
    match FindRepository(url, 0)
    case Some((i, j, b)) =>
      assert MatchesAt(url, i);
      url[j + 1..b]
    case None => url
  }

  /** The `-<repo>` part of the identifier: empty without a repository URL. */
  function RepositorySuffix(repositoryUrl: Option<string>): string {
    match repositoryUrl
    case Some(url) => "-" + RepositoryName(url)
    case None => ""
  }

  /** `ProviderData.id`: `"$name$repositoryName-$versionCode"`. */
  function Id(p: ProviderData): string {
    p.name + RepositorySuffix(p.repositoryUrl) + "-" + IntToDecimal(p.versionCode)
  }

  // ---------------------------------------------------------------- properties

  /**
   * The identifier starts with the name and ends with '-' and the decimal
   * rendering of the version code; without a repository URL nothing else is
   * in between.
   */
  lemma IdShape(p: ProviderData)
    ensures |Id(p)| > |p.name| + 1
    ensures Id(p)[..|p.name|] == p.name
    ensures var v := "-" + IntToDecimal(p.versionCode);
      |Id(p)| >= |v| && Id(p)[|Id(p)| - |v|..] == v
    ensures p.repositoryUrl.None? ==> Id(p) == p.name + "-" + IntToDecimal(p.versionCode)
    ensures p.repositoryUrl.Some? ==>
      Id(p) == p.name + "-" + RepositoryName(p.repositoryUrl.value) + "-" + IntToDecimal(p.versionCode)
  {
    var v := "-" + IntToDecimal(p.versionCode);
    var m := p.name + RepositorySuffix(p.repositoryUrl);
    assert Id(p) == m + v;
    assert (m + v)[..|p.name|] == p.name;
    assert (m + v)[|m + v| - |v|..] == v;
  }

  /** The identifier reads only the name, the repository URL and the version code. */
  lemma IdReadsThreeFields(p: ProviderData, q: ProviderData)
    requires p.name == q.name && p.repositoryUrl == q.repositoryUrl && p.versionCode == q.versionCode
    ensures Id(p) == Id(q)
  {
  }

  /** A URL that holds the pattern yields the repository of its leftmost match. */
  lemma RepositoryOfGithubUrl(url: string, i: nat, j: nat, b: nat)
    requires GroupAt(url, i, j, b)
    requires forall i': nat :: i' < i ==> !MatchesAt(url, i')
    ensures RepositoryName(url) == url[j + 1..b]
    ensures |RepositoryName(url)| > 0 && '/' !in RepositoryName(url)
  {
    FindLeftmost(url, i, j, b);
    var r := url[j + 1..b];
    forall k | 0 <= k < |r| ensures r[k] != '/' {
      assert r[k] == url[j + 1 + k];
    }
  }

  /** The scan stops at the leftmost match and reports its owner and group ends. */
  lemma FindLeftmost(url: string, i: nat, j: nat, b: nat)
    requires GroupAt(url, i, j, b)
    requires forall i': nat :: i' < i ==> !MatchesAt(url, i')
    ensures FindRepository(url, 0) == Some((i, j, b))
  {
    var r := FindRepository(url, 0);
    assert MatchesAt(url, i);
    assert r.Some?;
    var t := r.value;
    assert MatchesAt(url, t.0);
    assert t.0 == i;
    GroupAtIsRuns(url, i, j, b);
    GroupAtIsRuns(url, i, t.1, t.2);
  }

  /** No match starts where the literal prefix does not. */
  lemma NoPrefixNoMatch(s: string, i: nat)
    requires i + |GithubPrefix| <= |s| ==> s[i..i + |GithubPrefix|] != GithubPrefix
    ensures !MatchesAt(s, i)
  {
  }

  /** A URL without the literal `github.com/` (a '.' is needed) is used whole. */
  lemma NoDotMeansWholeUrl(url: string)
    requires '.' !in url
    ensures RepositoryName(url) == url
  {
    forall i: nat ensures !MatchesAt(url, i) {
      if i + |GithubPrefix| <= |url| {
        var window := url[i..i + |GithubPrefix|];
        assert window[6] == url[i + 6];
        assert window[6] != GithubPrefix[6];
      }
      NoPrefixNoMatch(url, i);
    }
  }

  /** The dot in the pattern is literal: `githubXcom/a/b` does not match. */
  lemma DotIsLiteral()
    ensures RepositoryName("githubXcom/a/b") == "githubXcom/a/b"
  {
    NoDotMeansWholeUrl("githubXcom/a/b");
  }

  /** A typical repository URL: the repository segment, without what follows it. */
  lemma TypicalGithubUrl()
    ensures RepositoryName("https://github.com/owner/repo/tree/main") == "repo"
  {
    var u := "https://github.com/owner/repo/tree/main";
    assert u == "https://" + GithubPrefix + "owner/" + "repo" + "/tree/main";
    assert u[8..19] == GithubPrefix && u[25..29] == "repo";
    assert GroupAt(u, 8, 24, 29) by {
      assert NoSlash(u, 19, 24);
      assert NoSlash(u, 25, 29);
    }
    forall i': nat | i' < 8 ensures !MatchesAt(u, i') {
      assert u[i'] != 'g';
      assert u[i'..i' + |GithubPrefix|][0] != GithubPrefix[0];
    }
    RepositoryOfGithubUrl(u, 8, 24, 29);
  }
}
