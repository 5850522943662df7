/**
 * Where a render cycle takes its records from (`renderRepos`): the static
 * project list when it is a non-empty array, else the cached list while it
 * is younger than the time-to-live, else the live API, whose normalised
 * result is then stored in the cache. The network, the browser storage and
 * the clock are inputs here.
 */
module DataSource {
  import opened Wrappers
  import opened Projects

  /** Ten minutes, in milliseconds (`CACHE_TTL`). */
  const CacheTtl := 1000 * 60 * 10

  datatype CacheEntry = CacheEntry(ts: int, data: seq<Project>)

  /**
   * The outcome of one API request (`githubFetch`): a transport error or a
   * non-success status gives `Failed` (null); a body that does not parse
   * gives `Unparsable`, whose rejection is not caught there (the response's
   * JSON promise is returned without being awaited) and so rejects the
   * whole batch.
   */
  datatype Fetch = Failed | Unparsable | Received(repo: RawRepo)

  datatype Resolution =
    | FromStatic(data: seq<Project>)
    | FromCache(data: seq<Project>)
    | FromApi(data: seq<Project>, stored: CacheEntry)
    | ApiRejected

  /** The static list is used only when it is an array with at least one element. */
  predicate StaticUsable(staticList: Option<seq<Project>>) {
    staticList != None && |staticList.value| > 0
  }

  /** A cache entry is used while `now - ts < CacheTtl`. */
  predicate Fresh(cache: Option<CacheEntry>, now: int) {
    cache != None && now - cache.value.ts < CacheTtl
  }

  predicate ConsultsApi(r: Resolution) {
    r.FromApi? || r.ApiRejected?
  }

  /** What `githubFetch` resolves to for each request that settles. */
  function FetchResults(fetches: seq<Fetch>): (rs: seq<Option<RawRepo>>)
    ensures |rs| == |fetches|
    ensures forall i :: 0 <= i < |fetches| ==> (rs[i] != None <==> fetches[i].Received?)
    ensures forall i :: 0 <= i < |fetches| && fetches[i].Received? ==> rs[i] == Some(fetches[i].repo)
  {
    seq(|fetches|, i requires 0 <= i < |fetches| =>
      match fetches[i]
      case Received(raw) => Some(raw)
      case _ => None)
  }

  /**
   * The tier chosen for one render cycle. `staticList` is `None` when
   * `/projects.json` could not be fetched or parsed or is not an array;
   * `cache` is `None` when no entry could be read; `fetches` holds the
   * outcome of the request for each slug.
   */
  function Resolve(slugs: seq<string>, staticList: Option<seq<Project>>, cache: Option<CacheEntry>,
                   now: int, fetches: seq<Fetch>): (r: Resolution)
    requires |fetches| == |slugs|
    ensures r.FromStatic? <==> StaticUsable(staticList)
    ensures r.FromStatic? ==> r.data == staticList.value
    ensures r.FromCache? <==> !StaticUsable(staticList) && Fresh(cache, now)
    ensures r.FromCache? ==> r.data == cache.value.data
    ensures ConsultsApi(r) <==> !StaticUsable(staticList) && !Fresh(cache, now)
    ensures r.ApiRejected? <==> ConsultsApi(r) && Unparsable in fetches
    ensures r.FromApi? ==> r.data == Normalize(slugs, FetchResults(fetches)) && r.stored == CacheEntry(now, r.data)
  {
    if StaticUsable(staticList) then FromStatic(staticList.value)
    else if Fresh(cache, now) then FromCache(cache.value.data)
    else if Unparsable in fetches then ApiRejected
    else
      var data := Normalize(slugs, FetchResults(fetches));
      FromApi(data, CacheEntry(now, data))
  }

  /** A usable static list decides alone: neither the cache nor the API matters. */
  lemma StaticIgnoresCacheAndApi(slugs: seq<string>, staticList: Option<seq<Project>>,
                                 cache1: Option<CacheEntry>, now1: int, fetches1: seq<Fetch>,
                                 cache2: Option<CacheEntry>, now2: int, fetches2: seq<Fetch>)
    requires |fetches1| == |slugs| && |fetches2| == |slugs|
    requires StaticUsable(staticList)
    ensures Resolve(slugs, staticList, cache1, now1, fetches1) == Resolve(slugs, staticList, cache2, now2, fetches2)
  {
  }

  /** A fresh cache decides alone when there is no static list: the API is not consulted. */
  lemma FreshCacheIgnoresApi(slugs: seq<string>, staticList: Option<seq<Project>>, cache: Option<CacheEntry>,
                             now: int, fetches1: seq<Fetch>, fetches2: seq<Fetch>)
    requires |fetches1| == |slugs| && |fetches2| == |slugs|
    requires !StaticUsable(staticList) && Fresh(cache, now)
    ensures Resolve(slugs, staticList, cache, now, fetches1) == Resolve(slugs, staticList, cache, now, fetches2)
  {
  }

  /**
   * The entry written by an API load is read back by a later load without a
   * static list exactly while less than `CacheTtl` has passed; from then on
   * the API is consulted again.
   */
  lemma StoredEntryReused(slugs: seq<string>, static1: Option<seq<Project>>, cache1: Option<CacheEntry>,
                          now1: int, fetches1: seq<Fetch>,
                          static2: Option<seq<Project>>, now2: int, fetches2: seq<Fetch>)
    requires |fetches1| == |slugs| && |fetches2| == |slugs|
    requires Resolve(slugs, static1, cache1, now1, fetches1).FromApi?
    requires !StaticUsable(static2)
    ensures var first := Resolve(slugs, static1, cache1, now1, fetches1);
      var second := Resolve(slugs, static2, Some(first.stored), now2, fetches2);
      && (now2 - now1 < CacheTtl ==> second == FromCache(first.data))
      && (now2 - now1 >= CacheTtl ==> ConsultsApi(second))
  {
  }

  /**
   * When every request fails the empty list is still stored, so for the
   * next ten minutes loads without a static list show the empty list from
   * the cache and make no request.
   */
  lemma FailedBatchIsCached(slugs: seq<string>, staticList: Option<seq<Project>>, cache: Option<CacheEntry>,
                            now: int, fetches: seq<Fetch>)
    requires |fetches| == |slugs|
    requires !StaticUsable(staticList) && !Fresh(cache, now)
    requires forall i :: 0 <= i < |fetches| ==> fetches[i] == Failed
    ensures Resolve(slugs, staticList, cache, now, fetches) == FromApi([], CacheEntry(now, []))
  {
    var rs := FetchResults(fetches);
    AllFailedIsEmpty(slugs, rs);
  }
}
