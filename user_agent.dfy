/**
 * The user-agent pool (`UserAgentManager`): two lists of user-agent
 * strings, replaced wholesale by a load from a remote JSON document, and
 * getters that pick any element or fall back to the default user agent.
 */
module UserAgents {
  import opened Wrappers

  /** The JSON keys of the two lists. */
  const DesktopKey: string := "desktop"
  const MobileKey: string := "mobile"

  /**
   * The decoded document: each key maps to a list, or to `None` for a JSON
   * `null`.
   */
  type UserAgentDocument = map<string, Option<seq<string>>>

  /** The pair (desktop list, mobile list). */
  datatype Pools = Pools(desktop: seq<string>, mobile: seq<string>)

  /** `userAgents[key]`, read as the empty list when the key is missing or `null`. */
  function Entry(document: UserAgentDocument, key: string): seq<string> {
    if key in document && document[key].Some? then document[key].value else []
  }

  /**
   * The lists after `loadLatestUserAgents`: a failed fetch or parse
   * (`None`) is swallowed and changes nothing; a decoded document replaces
   * both lists by its two entries.
   */
  function AfterLoad(before: Pools, fetched: Option<UserAgentDocument>): Pools {
    match fetched
    case None => before
    case Some(document) => Pools(Entry(document, DesktopKey), Entry(document, MobileKey))
  }

  /**
   * The companion object's state. `defaultUserAgent` is `USER_AGENT`,
   * defined outside the modelled code and fixed here at construction.
   */
  class UserAgentManager {
    var desktopUserAgents: seq<string>
    var mobileUserAgents: seq<string>
    const defaultUserAgent: string

    /** Both lists start empty. */
    constructor (defaultUserAgent: string)
      ensures desktopUserAgents == [] && mobileUserAgents == []
      ensures this.defaultUserAgent == defaultUserAgent
    {
      desktopUserAgents := [];
      mobileUserAgents := [];
      this.defaultUserAgent := defaultUserAgent;
    }

    /** The two lists as a value. */
    function State(): Pools
      reads this
    {
      Pools(desktopUserAgents, mobileUserAgents)
    }

    /** `getRandomMobileUserAgent()`: some mobile user agent, or the default when there is none. */
    method GetRandomMobileUserAgent() returns (r: string)
      ensures mobileUserAgents != [] ==> r in mobileUserAgents
      ensures mobileUserAgents == [] ==> r == defaultUserAgent
    {
      r := PickOr(mobileUserAgents, defaultUserAgent);
    }

    /** `getRandomDesktopUserAgent()`: some desktop user agent, or the default when there is none. */
    method GetRandomDesktopUserAgent() returns (r: string)
      ensures desktopUserAgents != [] ==> r in desktopUserAgents
      ensures desktopUserAgents == [] ==> r == defaultUserAgent
    {
      r := PickOr(desktopUserAgents, defaultUserAgent);
    }

    /**
     * `getRandomUserAgent()`: a coin picks the list, then some element of
     * it, or the default when the chosen list is empty, whatever the other
     * list holds. `isDesktop` is the coin.
     */
    method GetRandomUserAgent() returns (r: string, ghost isDesktop: bool)
      ensures isDesktop && desktopUserAgents != [] ==> r in desktopUserAgents
      ensures !isDesktop && mobileUserAgents != [] ==> r in mobileUserAgents
      ensures (if isDesktop then desktopUserAgents else mobileUserAgents) == [] ==> r == defaultUserAgent
      ensures desktopUserAgents == [] && mobileUserAgents == [] ==> r == defaultUserAgent
    {
      var coin :| true;
      isDesktop := coin;
      if coin {
        r := PickOr(desktopUserAgents, defaultUserAgent);
      } else {
        r := PickOr(mobileUserAgents, defaultUserAgent);
      }
    }

    /**
     * `loadLatestUserAgents()` with the network call and JSON decoding
     * given as `fetched`: on success both lists are cleared and refilled
     * from the document's "desktop" and "mobile" entries.
     */
    method LoadLatestUserAgents(fetched: Option<UserAgentDocument>)
      modifies this
      ensures State() == AfterLoad(old(State()), fetched)
    {
      if fetched.Some? {
        var userAgents := fetched.value;
        desktopUserAgents := [];
        mobileUserAgents := [];
        if DesktopKey in userAgents && userAgents[DesktopKey].Some? {
          desktopUserAgents := desktopUserAgents + userAgents[DesktopKey].value;
        }
        if MobileKey in userAgents && userAgents[MobileKey].Some? {
          mobileUserAgents := mobileUserAgents + userAgents[MobileKey].value;
        }
      }
    }
  }

  /** `randomOrNull() ?: fallback`: any element of a non-empty list, else the fallback. */
  method PickOr(pool: seq<string>, fallback: string) returns (r: string)
    ensures pool != [] ==> r in pool
    ensures pool == [] ==> r == fallback
  {
    if pool == [] {
      r := fallback;
    } else {
      assert pool[0] in pool;
      r :| r in pool;
    }
  }

  // ---------------------------------------------------------------- properties

  /** A failed load leaves both lists as they were. */
  lemma FailedLoadKeepsPools(before: Pools)
    ensures AfterLoad(before, None) == before
  {
  }

  /**
   * A successful load replaces rather than appends: the lists are the
   * document's entries (empty for a missing key), whatever they held before.
   */
  lemma LoadReplaces(before: Pools, other: Pools, document: UserAgentDocument)
    ensures AfterLoad(before, Some(document)) == AfterLoad(other, Some(document))
    ensures AfterLoad(before, Some(document)).desktop == Entry(document, DesktopKey)
    ensures AfterLoad(before, Some(document)).mobile == Entry(document, MobileKey)
    ensures DesktopKey !in document ==> AfterLoad(before, Some(document)).desktop == []
  {
  }

  /** Loading the same data twice gives the lists that loading it once gives. */
  lemma LoadIdempotent(before: Pools, fetched: Option<UserAgentDocument>)
    ensures AfterLoad(AfterLoad(before, fetched), fetched) == AfterLoad(before, fetched)
  {
  }

  /** Two loads in a row on the manager: the second leaves what the first produced. */
  method LoadTwice(manager: UserAgentManager, fetched: Option<UserAgentDocument>)
    modifies manager
    ensures manager.State() == AfterLoad(old(manager.State()), fetched)
  {
    manager.LoadLatestUserAgents(fetched);
    manager.LoadLatestUserAgents(fetched);
    LoadIdempotent(old(manager.State()), fetched);
  }
}
