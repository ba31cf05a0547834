/** The background worker's site blocking: the URL decision
    (`shouldBlockUrl`), the lazily loaded blocklist and the navigation gate
    of `onBeforeNavigate`. The host name of a URL is given already parsed:
    None stands for a URL that `new URL` rejects. */
module Background {
  import opened Wrappers
  import opened Text
  import opened Config

  datatype Blocklist = Blocklist(enabled: bool, sites: seq<string>, keywords: seq<string>)

  /** The list used when loading `blocklist.json` fails. */
  const Fallback := Blocklist(true, [], [])

  /** Some entry from index `from` on, lowercased, occurs in hay (the two
      early-return loops of `shouldBlockUrl`). */
  function AnyEntryFrom(hay: string, entries: seq<string>, from: nat): (r: bool)
    requires from <= |entries|
    ensures r <==> exists k :: from <= k < |entries| && Contains(hay, Lower(entries[k]))
    decreases |entries| - from
  {
    if from == |entries| then false
    else if Contains(hay, Lower(entries[from])) then true
    else AnyEntryFrom(hay, entries, from + 1)
  }

  predicate SiteHit(bl: Blocklist, host: string) {
    exists k :: 0 <= k < |bl.sites| && Contains(Lower(host), Lower(bl.sites[k]))
  }

  predicate UrlKeywordHit(bl: Blocklist, url: string) {
    exists k :: 0 <= k < |bl.keywords| && Contains(Lower(url), Lower(bl.keywords[k]))
  }

  /** `shouldBlockUrl(url)` against the current blocklist. */
  function ShouldBlockUrl(blocklist: Option<Blocklist>, url: string, host: Option<string>): (r: bool)
    ensures blocklist.None? || !blocklist.value.enabled ==> !r
    ensures host.None? ==> !r
    ensures blocklist.Some? && blocklist.value.enabled && host.Some? ==>
      (SiteHit(blocklist.value, host.value) ==> r)
      && (!SiteHit(blocklist.value, host.value) ==> (r <==> UrlKeywordHit(blocklist.value, url)))
  {
    if blocklist.None? || !blocklist.value.enabled then false
    else if host.None? then false
    else if AnyEntryFrom(Lower(host.value), blocklist.value.sites, 0) then true
    else AnyEntryFrom(Lower(url), blocklist.value.keywords, 0)
  }

  /** Every entry of `small` is also an entry of `big`. */
  predicate Includes(small: seq<string>, big: seq<string>) {
    forall k :: 0 <= k < |small| ==> small[k] in big
  }

  /** Adding sites or keywords never unblocks a URL. */
  lemma MoreEntriesStillBlock(bl: Blocklist, more: Blocklist, url: string, host: Option<string>)
    requires ShouldBlockUrl(Some(bl), url, host)
    requires more.enabled && Includes(bl.sites, more.sites) && Includes(bl.keywords, more.keywords)
    ensures ShouldBlockUrl(Some(more), url, host)
  {
    if SiteHit(bl, host.value) {
      var k :| 0 <= k < |bl.sites| && Contains(Lower(host.value), Lower(bl.sites[k]));
      var k' :| 0 <= k' < |more.sites| && more.sites[k'] == bl.sites[k];
      assert SiteHit(more, host.value);
    } else {
      var k :| 0 <= k < |bl.keywords| && Contains(Lower(url), Lower(bl.keywords[k]));
      var k' :| 0 <= k' < |more.keywords| && more.keywords[k'] == bl.keywords[k];
      assert UrlKeywordHit(more, url);
    }
  }

  /** Matching ignores the case of the URL, the host and the entries. */
  lemma CaseInsensitive(bl: Blocklist, url: string, host: string)
    ensures ShouldBlockUrl(Some(bl), url, Some(host)) == ShouldBlockUrl(Some(bl), Lower(url), Some(Lower(host)))
  {
    assert Lower(Lower(url)) == Lower(url);
    assert Lower(Lower(host)) == Lower(host);
  }

  /** The fallback list blocks nothing. */
  lemma FallbackBlocksNothing(url: string, host: Option<string>)
    ensures !ShouldBlockUrl(Some(Fallback), url, host)
  {
  }

  /** The settings test of `onBeforeNavigate`: settings are stored and both
      `enabled` and `siteBlockingEnabled` are true. */
  predicate NavigationGate(stored: Option<Settings>) {
    stored.Some? && stored.value.enabled == Some(true) && stored.value.siteBlockingEnabled
  }

  /** The worker's module state. */
  class Worker {
    /** The module variable `blocklist`; None until it is loaded. */
    var blocklist: Option<Blocklist>

    constructor ()
      ensures blocklist.None?
    {
      blocklist := None;
    }

    /** `loadBlocklist`: `fetched` is the parsed `blocklist.json`, None when
        fetching or parsing fails. */
    method LoadBlocklist(fetched: Option<Blocklist>)
      modifies this
      ensures blocklist == Some(fetched.GetOr(Fallback))
    {
      if fetched.Some? {
        blocklist := fetched;
      } else {
        blocklist := Some(Fallback);
      }
    }

    /** `ensureBlocklist`: loads only when nothing is loaded yet. */
    method EnsureBlocklist(fetched: Option<Blocklist>) returns (b: Blocklist)
      modifies this
      ensures blocklist == Some(b)
      ensures old(blocklist).Some? ==> blocklist == old(blocklist)
      ensures old(blocklist).None? ==> b == fetched.GetOr(Fallback)
    {
      if blocklist.None? {
        LoadBlocklist(fetched);
      }
      b := blocklist.value;
    }

    /** The `getBlocklist` message: ensure a list is loaded and answer it. */
    method GetBlocklist(fetched: Option<Blocklist>) returns (b: Blocklist)
      modifies this
      ensures blocklist == Some(b)
      ensures old(blocklist).Some? ==> blocklist == old(blocklist)
      ensures old(blocklist).None? ==> b == fetched.GetOr(Fallback)
    {
      b := EnsureBlocklist(fetched);
    }

    /** The `updateBlocklist` message: the supplied value replaces the list
        wholesale (a missing value included). */
    method UpdateBlocklist(supplied: Option<Blocklist>)
      modifies this
      ensures blocklist == supplied
    {
      blocklist := supplied;
    }

    /** `onBeforeNavigate`: whether the tab is redirected to the blocked page.
        Only main-frame navigations with site blocking on reach the
        blocklist, which is loaded on demand. */
    method OnBeforeNavigate(frameId: int, stored: Option<Settings>, url: string, host: Option<string>,
                            fetched: Option<Blocklist>) returns (redirect: bool)
      modifies this
      ensures !(frameId == 0 && NavigationGate(stored)) ==> !redirect && blocklist == old(blocklist)
      ensures frameId == 0 && NavigationGate(stored) ==>
        && blocklist == (if old(blocklist).Some? then old(blocklist) else Some(fetched.GetOr(Fallback)))
        && (redirect <==> ShouldBlockUrl(blocklist, url, host))
    {
      if frameId != 0 {
        return false;
      }
      if !NavigationGate(stored) {
        return false;
      }
      var _ := EnsureBlocklist(fetched);
      redirect := ShouldBlockUrl(blocklist, url, host);
    }
  }
}
