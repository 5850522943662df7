/**
 * The projects grid (`grid` in script.js) and what is put into it: loading
 * placeholders (`showSkeletons`), one card per record or a "no projects
 * found" message (`displayRepos`), and the whole load (`renderRepos`, with
 * the top-level failure message). A card is kept abstract: the text it
 * shows and the links it carries, not its markup.
 */
module Render {
  import opened Wrappers
  import Escape
  import RelativeTime
  import Topics
  import opened Projects
  import opened DataSource

  datatype Avatar =
    | Image(src: string, alt: string)   // the owner's avatar picture
    | Initial(letter: string)           // fallback: the first letter of the name

  datatype Card = Card(
    avatar: Avatar,
    name: string,
    language: string,
    description: string,
    topics: Option<seq<Topics.Badge>>,
    repoUrl: Option<string>,
    live: Option<string>,
    updated: Option<string>)

  datatype Item = Skeleton | EmptyMessage | FailureMessage | ProjectCard(card: Card)

  predicate NoMarkup(s: string) {
    '<' !in s && '>' !in s
  }

  /** Every piece of API-controlled text on the card is free of `<` and `>`; URLs are not covered. */
  predicate TextEscaped(c: Card) {
    && (match c.avatar case Image(_, alt) => NoMarkup(alt) case Initial(l) => NoMarkup(l))
    && NoMarkup(c.name) && NoMarkup(c.language) && NoMarkup(c.description)
    && (c.topics != None ==> forall b :: b in c.topics.value ==> NoMarkup(Topics.BadgeText(b)))
  }

  /**
   * The owner's picture, described by the escaped login, when the record has
   * one; otherwise the escaped first character of the name, which decodes
   * back to exactly that one character.
   */
  function AvatarOf(p: Project): (a: Avatar)
    ensures a.Image? <==> p.owner != None && Truthy(p.owner.value.avatar)
    ensures a.Image? ==> a.src == p.owner.value.avatar.value
    ensures a.Image? ==> a.alt == Escape.EscapeValue(p.owner.value.login) + " avatar"
    ensures a.Initial? ==> (a.letter == "" <==> !Truthy(p.name))
    ensures a.Initial? && Truthy(p.name) ==> a.letter == Escape.EscapeHtml([p.name.value[0]])
    ensures a.Initial? && Truthy(p.name) ==> Escape.Unescape(a.letter) == [p.name.value[0]]
    ensures match a case Image(_, alt) => NoMarkup(alt) case Initial(l) => NoMarkup(l)
  {
    Escape.UnescapeEscapeHtml(if Truthy(p.name) then [p.name.value[0]] else "");
    if p.owner != None && Truthy(p.owner.value.avatar) then
      var login := Escape.EscapeValue(p.owner.value.login);
      assert NoMarkup(login + " avatar");
      Image(p.owner.value.avatar.value, login + " avatar")
    else
      Initial(Escape.EscapeValue(if Truthy(p.name) then Some([p.name.value[0]]) else None))
  }

  /** The card `displayRepos` builds for record `p` at time `now`. */
  function CardOf(p: Project, now: int): Card {
    Card(
      AvatarOf(p),
      Escape.EscapeValue(p.name),
      Escape.EscapeHtml(p.language),
      Escape.EscapeHtml(p.description),
      Topics.TopicBadges(p.topics),
      p.htmlUrl,
      if p.homepage != "" then Some(p.homepage) else None,
      if p.pushedAt != None then Some("Updated " + RelativeTime.TimeAgo(p.pushedAt, now)) else None)
  }

  /**
   * All API-controlled text on a card is escaped, while the repository and
   * homepage URLs are kept as they are; the Live link appears exactly when
   * the record has a homepage and points at it, and the Updated label
   * appears exactly when it has a push time and reads "Updated " followed
   * by `timeAgo` of that time.
   */
  lemma CardOfSpec(p: Project, now: int)
    ensures TextEscaped(CardOf(p, now))
    ensures CardOf(p, now).name == Escape.EscapeValue(p.name)
    ensures CardOf(p, now).description == Escape.EscapeHtml(p.description)
    ensures CardOf(p, now).topics == Topics.TopicBadges(p.topics)
    ensures CardOf(p, now).avatar == AvatarOf(p)
    ensures CardOf(p, now).language == Escape.EscapeHtml(p.language)
    ensures CardOf(p, now).repoUrl == p.htmlUrl
    ensures CardOf(p, now).live != None <==> p.homepage != ""
    ensures CardOf(p, now).live != None ==> CardOf(p, now).live.value == p.homepage
    ensures CardOf(p, now).updated != None <==> p.pushedAt != None
    ensures p.pushedAt != None ==> CardOf(p, now).updated == Some("Updated " + RelativeTime.TimeAgo(p.pushedAt, now))
  {
    Topics.TopicBadgesEscaped(p.topics);
  }

  function Skeletons(count: nat): seq<Item> {
    seq(count, _ => Skeleton)
  }

  function Cards(repos: seq<Project>, now: int): seq<Item> {
    seq(|repos|, i requires 0 <= i < |repos| => ProjectCard(CardOf(repos[i], now)))
  }

  /** The grid's contents after `displayRepos(repos)`. */
  function Displayed(repos: seq<Project>, now: int): seq<Item> {
    if |repos| == 0 then [EmptyMessage] else Cards(repos, now)
  }

  /** The grid's contents at the end of a render cycle that chose `r`. */
  function Outcome(r: Resolution, now: int): seq<Item> {
    if r.ApiRejected? then [FailureMessage] else Displayed(r.data, now)
  }

  function CountCards(items: seq<Item>): nat {
    if items == [] then 0 else (if items[0].ProjectCard? then 1 else 0) + CountCards(items[1..])
  }

  function CountMessages(items: seq<Item>): nat {
    if items == [] then 0 else (if items[0].EmptyMessage? then 1 else 0) + CountMessages(items[1..])
  }

  lemma {:induction false} AllCardsCounts(items: seq<Item>)
    requires forall i :: 0 <= i < |items| ==> items[i].ProjectCard?
    ensures CountCards(items) == |items| && CountMessages(items) == 0
  {
    if items != [] {
      AllCardsCounts(items[1..]);
    }
  }

  /**
   * After `displayRepos(repos)` the grid holds one card per record, in input
   * order, and no message; for an empty list it holds exactly one "no
   * projects found" message and no card. No skeleton is left either way.
   */
  lemma DisplayedShape(repos: seq<Project>, now: int)
    ensures CountCards(Displayed(repos, now)) == |repos|
    ensures CountMessages(Displayed(repos, now)) == (if |repos| == 0 then 1 else 0)
    ensures |Displayed(repos, now)| == (if |repos| == 0 then 1 else |repos|)
    ensures Skeleton !in Displayed(repos, now) && FailureMessage !in Displayed(repos, now)
    ensures forall i :: 0 <= i < |repos| ==> Displayed(repos, now)[i] == ProjectCard(CardOf(repos[i], now))
  {
    if repos == [] {
      assert [EmptyMessage][1..] == [];
    } else {
      AllCardsCounts(Cards(repos, now));
    }
  }

  /**
   * A batch in which every request failed shows "no projects found" and is
   * cached; for the next ten minutes a load without a static list takes the
   * same empty list from the cache, makes no request and shows the same
   * message.
   */
  lemma FailedBatchShowsEmptyForTtl(slugs: seq<string>, static1: Option<seq<Project>>, cache: Option<CacheEntry>,
                                    now1: int, fetches1: seq<Fetch>,
                                    static2: Option<seq<Project>>, now2: int, fetches2: seq<Fetch>)
    requires |fetches1| == |slugs| && |fetches2| == |slugs|
    requires !StaticUsable(static1) && !Fresh(cache, now1)
    requires forall i :: 0 <= i < |fetches1| ==> fetches1[i] == Failed
    requires !StaticUsable(static2) && now2 - now1 < CacheTtl
    ensures var first := Resolve(slugs, static1, cache, now1, fetches1);
      && first == FromApi([], CacheEntry(now1, []))
      && Outcome(first, now1) == [EmptyMessage]
      && Resolve(slugs, static2, Some(first.stored), now2, fetches2) == FromCache([])
      && Outcome(Resolve(slugs, static2, Some(first.stored), now2, fetches2), now2) == [EmptyMessage]
  {
    FailedBatchIsCached(slugs, static1, cache, now1, fetches1);
    StoredEntryReused(slugs, static1, cache, now1, fetches1, static2, now2, fetches2);
  }

  /** The model of the projects grid: a list of items replaced by each render. */
  class Grid {
    var items: seq<Item>

    constructor ()
      ensures items == []
    {
      items := [];
    }

    /** `showSkeletons(count)`: clear, then append `count` placeholders. */
    method ShowSkeletons(count: nat)
      modifies this
      ensures items == Skeletons(count)
    {
      items := [];
      var i := 0;
      while i < count
        invariant 0 <= i <= count
        invariant items == Skeletons(i)
      {
        items := items + [Skeleton];
        i := i + 1;
      }
    }

    /** `displayRepos(repos)`: clear, then the empty message or one card per record. */
    method DisplayRepos(repos: seq<Project>, now: int)
      modifies this
      ensures items == Displayed(repos, now)
    {
      items := [];
      if |repos| == 0 {
        items := [EmptyMessage];
        return;
      }
      var i := 0;
      while i < |repos|
        invariant 0 <= i <= |repos|
        invariant |items| == i
        invariant forall k :: 0 <= k < i ==> items[k] == ProjectCard(CardOf(repos[k], now))
      {
        items := items + [ProjectCard(CardOf(repos[i], now))];
        i := i + 1;
      }
      assert items == Cards(repos, now);
    }

    /**
     * `renderRepos()` with its top-level handler: placeholders first, then
     * the records of the chosen tier, or the failure message when the API
     * batch rejects. Returns the entry to store in the cache, if any.
     */
    method RenderRepos(staticList: Option<seq<Project>>, cache: Option<CacheEntry>, now: int, fetches: seq<Fetch>)
      returns (stored: Option<CacheEntry>)
      requires |fetches| == |ReposToShow|
      modifies this
      ensures var r := Resolve(ReposToShow, staticList, cache, now, fetches);
        && items == Outcome(r, now)
        && stored == (if r.FromApi? then Some(r.stored) else None)
    {
      ShowSkeletons(|ReposToShow|);
      var r := Resolve(ReposToShow, staticList, cache, now, fetches);
      if r.ApiRejected? {
        items := [FailureMessage];
        stored := None;
      } else {
        DisplayRepos(r.data, now);
        stored := if r.FromApi? then Some(r.stored) else None;
      }
    }
  }
}
