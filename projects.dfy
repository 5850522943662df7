/**
 * Project records: the repository API's response, the canonical record the
 * page renders, and the normalisation of one API result per configured slug
 * into canonical records (`results.map(...).filter(Boolean)` in
 * `renderRepos`).
 */
module Projects {
  import opened Wrappers

  /** The slugs the page shows, in order (`reposToShow`). */
  const ReposToShow: seq<string> := [
    "aleksastajic/lite-erp-backend",
    "aleksastajic/spring-react-task-manager",
    "aleksastajic/webhook-processor",
    "aleksastajic/banking-ledger-api"
  ]

  datatype RawOwner = RawOwner(login: Option<string>, avatarUrl: Option<string>, htmlUrl: Option<string>)

  /**
   * The fields of an API response that the page reads. `None` is an absent
   * or null field; `topics` is `None` when the field is not an array;
   * `pushedAt` is the push time in milliseconds.
   */
  datatype RawRepo = RawRepo(
    name: Option<string>,
    description: Option<string>,
    htmlUrl: Option<string>,
    language: Option<string>,
    stargazersCount: Option<int>,
    homepage: Option<string>,
    owner: Option<RawOwner>,
    pushedAt: Option<int>,
    topics: Option<seq<string>>)

  datatype Owner = Owner(login: Option<string>, avatar: Option<string>, url: Option<string>)

  /** The canonical record handed to the renderer and stored in the cache. */
  datatype Project = Project(
    slug: string,
    name: Option<string>,
    description: string,
    htmlUrl: Option<string>,
    language: string,
    stars: int,
    homepage: string,
    owner: Option<Owner>,
    pushedAt: Option<int>,
    topics: seq<string>)

  /** JavaScript truthiness of an optional string: present and non-empty. */
  predicate Truthy(v: Option<string>) {
    v != None && v.value != ""
  }

  /** `v || fallback` on an optional string. */
  function OrElse(v: Option<string>, fallback: string): (r: string)
    ensures Truthy(v) ==> r == v.value
    ensures !Truthy(v) ==> r == fallback
  {
    if Truthy(v) then v.value else fallback
  }

  /** The record built for the API result `raw` of slug `slug`. */
  function Canonical(slug: string, raw: RawRepo): (p: Project)
    ensures p.slug == slug && p.name == raw.name && p.htmlUrl == raw.htmlUrl
    ensures p.description == OrElse(raw.description, "")
    ensures p.language == OrElse(raw.language, "Unknown") && p.language != ""
    ensures p.homepage == OrElse(raw.homepage, "")
    ensures p.stars == raw.stargazersCount.GetOr(0)
    ensures p.owner == None <==> raw.owner == None
    ensures raw.owner != None ==>
      p.owner.value == Owner(raw.owner.value.login, raw.owner.value.avatarUrl, raw.owner.value.htmlUrl)
    ensures p.pushedAt == raw.pushedAt
    ensures p.topics == raw.topics.GetOr([])
  {
    Project(
      slug,
      raw.name,
      OrElse(raw.description, ""),
      raw.htmlUrl,
      OrElse(raw.language, "Unknown"),
      raw.stargazersCount.GetOr(0),
      OrElse(raw.homepage, ""),
      match raw.owner
      case None => None
      case Some(o) => Some(Owner(o.login, o.avatarUrl, o.htmlUrl)),
      raw.pushedAt,
      raw.topics.GetOr([]))
  }

  /** The `.map((r, i) => ...)` step: one optional record per result. */
  function MapResults(slugs: seq<string>, results: seq<Option<RawRepo>>): (out: seq<Option<Project>>)
    requires |results| == |slugs|
    ensures |out| == |results|
    ensures forall i :: 0 <= i < |out| ==> (out[i] == None <==> results[i] == None)
  {
    seq(|results|, i requires 0 <= i < |results| =>
      match results[i]
      case None => None
      case Some(r) => Some(Canonical(slugs[i], r)))
  }

  /**
   * The `.filter(Boolean)` step: drop the nulls, keep the order. The k-th
   * element kept is the entry at the k-th present index.
   */
  function Compact<T>(xs: seq<Option<T>>): (r: seq<T>)
    ensures |r| == |PresentIndices(xs)|
    ensures forall k :: 0 <= k < |r| ==> PresentIndices(xs)[k] < |xs| && xs[PresentIndices(xs)[k]] == Some(r[k])
  {
    if xs == [] then []
    else
      var init := xs[..|xs| - 1];
      assert forall i :: 0 <= i < |init| ==> init[i] == xs[i];
      Compact(init) + (match xs[|xs| - 1] case None => [] case Some(x) => [x])
  }

  /** The ascending indices of the present entries of `xs`. */
  function PresentIndices<T>(xs: seq<Option<T>>): seq<nat> {
    if xs == [] then []
    else PresentIndices(xs[..|xs| - 1]) + (if xs[|xs| - 1] != None then [|xs| - 1] else [])
  }

  function CountPresent<T>(xs: seq<Option<T>>): nat {
    if xs == [] then 0 else CountPresent(xs[..|xs| - 1]) + (if xs[|xs| - 1] != None then 1 else 0)
  }

  /**
   * `PresentIndices` lists exactly the present entries, in strictly
   * increasing order, and there are `CountPresent` of them.
   */
  lemma {:induction false} PresentIndicesExact<T>(xs: seq<Option<T>>)
    ensures |PresentIndices(xs)| == CountPresent(xs)
    ensures forall k :: 0 <= k < |PresentIndices(xs)| ==> PresentIndices(xs)[k] < |xs| && xs[PresentIndices(xs)[k]] != None
    ensures forall k, l :: 0 <= k < l < |PresentIndices(xs)| ==> PresentIndices(xs)[k] < PresentIndices(xs)[l]
    ensures forall i :: 0 <= i < |xs| && xs[i] != None ==> i in PresentIndices(xs)
  {
    if xs != [] {
      var init := xs[..|xs| - 1];
      PresentIndicesExact(init);
      assert forall i :: 0 <= i < |init| ==> init[i] == xs[i];
    }
  }

  /**
   * The canonical records of the successful results, in slug order:
   * one record per non-null result; the k-th record comes from the k-th
   * non-null result, carries that result's slug and has its fields
   * defaulted by `Canonical`.
   */
  function Normalize(slugs: seq<string>, results: seq<Option<RawRepo>>): (r: seq<Project>)
    requires |results| == |slugs|
    ensures |r| == CountPresent(results) == |PresentIndices(results)|
    ensures forall k :: 0 <= k < |r| ==>
      var i := PresentIndices(results)[k];
      && i < |results| && results[i] != None
      && r[k] == Canonical(slugs[i], results[i].value)
      && r[k].slug == slugs[i]
  {
    var mapped := MapResults(slugs, results);
    PresentIndicesExact(results);
    SamePresence(mapped, results);
    Compact(mapped)
  }

  /** Two sequences that are present at the same places have the same present indices. */
  lemma {:induction false} SamePresence<S, T>(xs: seq<Option<S>>, ys: seq<Option<T>>)
    requires |xs| == |ys|
    requires forall i :: 0 <= i < |xs| ==> (xs[i] == None <==> ys[i] == None)
    ensures PresentIndices(xs) == PresentIndices(ys)
    ensures CountPresent(xs) == CountPresent(ys)
  {
    if xs != [] {
      SamePresence(xs[..|xs| - 1], ys[..|ys| - 1]);
    }
  }

  /** With every request failed, nothing is left. */
  lemma AllFailedIsEmpty(slugs: seq<string>, results: seq<Option<RawRepo>>)
    requires |results| == |slugs|
    requires forall i :: 0 <= i < |results| ==> results[i] == None
    ensures Normalize(slugs, results) == []
  {
    NoneCountsZero(results);
  }

  lemma {:induction false} NoneCountsZero<T>(xs: seq<Option<T>>)
    requires forall i :: 0 <= i < |xs| ==> xs[i] == None
    ensures CountPresent(xs) == 0
  {
    if xs != [] {
      NoneCountsZero(xs[..|xs| - 1]);
    }
  }
}
