# Portfolio projects grid — a Dafny model

`script.js` drives a personal portfolio page. Its core loads a fixed list of
repositories and renders them as cards in the projects grid. This project models
that core in Dafny:

- the records come from one of three sources, tried in order: a static
  `/projects.json` list, a browser cache entry younger than ten minutes, or one
  API request per configured repository slug;
- the API responses are normalised into canonical project records;
- the grid is filled with loading placeholders, then with one card per record,
  or with a "no projects found" or "failed to fetch" message;
- a card's text is HTML-escaped (`escapeHtml`), it shows at most five topic
  badges plus a `+N` badge, and it has an "Updated N units ago" label
  (`timeAgo`).

Modules, one per component:

| file | module | what it holds |
|---|---|---|
| wrappers.dfy | `Wrappers` | `Option` for null and undefined |
| escape.dfy | `Escape` | `escapeHtml`, a one-pass reference escape, and its inverse `Unescape` |
| decimal.dfy | `Decimal` | decimal text of a number, as a template literal writes it, and the parse back |
| relative_time.dfy | `RelativeTime` | `timeAgo`: cascaded floor division, unit choice, plural |
| topics.dfy | `Topics` | the topic badges of a card |
| projects.dfy | `Projects` | API response, canonical record, normalisation and null filter |
| data_source.dfy | `DataSource` | tier choice, cache time-to-live, cache entry written |
| render.dfy | `Render` | cards, the `Grid` class, `showSkeletons`, `displayRepos`, `renderRepos` |

The pure parts of the script are functions and lemmas. These are the chained
`replaceAll`, `timeAgo`, the topic `slice`/`map`, the `map(...).filter(Boolean)`
normalisation and the tier choice. The grid is a class holding a sequence of
items. Its methods clear that sequence and append to it in loops, as the script
does with `innerHTML` and `appendChild`.

Behaviours of the script that the model keeps:
- An API batch in which every request failed is still written to the cache.
  A load within the next ten minutes then shows "no projects found" and makes no
  request (`Render.FailedBatchShowsEmptyForTtl`).
- A single response whose body does not parse as JSON rejects the whole batch.
  The failure message is then shown and nothing is cached. This happens because
  `githubFetch` returns `res.json()` without awaiting it, so its `catch` does not
  see the failure.
- A push time in the future is shown as a negative number of seconds ("-1 second
  ago"). It is not clamped to the smallest unit.
- A cached entry is used even when its list is empty. Only the static list must
  be non-empty to be used.

## Model

| member | source | states |
|---|---|---|
| `Escape.ReplaceAll` | script.js:191-194 | every character of the result comes from the replacement or is a non-pattern character of the input; input without the pattern is unchanged |
| `Escape.EscapeHtml` | script.js:190-195 | the output contains no `<` and no `>`; a string without `&`, `<`, `>` is returned unchanged |
| `Escape.EscapeValue` | script.js:191 | null, undefined and the empty string escape to the empty string; a present value is escaped exactly as `EscapeHtml` does, and decoding the result gives the value back; the output never contains `<` or `>` |
| `Escape.EscapeHtmlIsCharwise` | script.js:191-194 | replacing `&` first, then `<`, then `>` equals escaping each character on its own: produced entities are not escaped again |
| `Escape.EscapedAmpersandsAreEntities` | script.js:191-194 | every `&` in the output starts `&amp;`, `&lt;` or `&gt;` |
| `Escape.UnescapeEscapeHtml` | script.js:190-195 | escaping loses nothing: decoding the three entities gives the input back |
| `Decimal.NatToString` | script.js:149-154 | a count is written as one or more decimal digits with no leading zero |
| `Decimal.IntToString` | script.js:149-154 | a count is written as a canonical numeral (digits with no leading zero, "0" alone, no "-0") with a leading `-` exactly when it is negative |
| `Decimal.IntToStringRoundTrip` | script.js:149-154 | reading the written count back gives the count |
| `Decimal.CanonicalRoundTrip` | script.js:149-154 | every canonical numeral is the written form of the integer it denotes, so distinct canonical numerals never denote the same count |
| `RelativeTime.CascadeCounts` | script.js:143-148 | each cascaded floored quotient equals the elapsed time floored by one unit's length (a month is 30 days, a year 365) |
| `RelativeTime.Bucket` | script.js:143-154 | the reported unit is the largest one of which at least one whole unit elapsed, with its floored count, and seconds otherwise |
| `RelativeTime.BucketBoundsForPast` | script.js:143-153 | for a past time the count is at least 0 and below the next unit (under 60 seconds or minutes, 24 hours, 30 days, at most 12 months) |
| `RelativeTime.FutureIsNegativeSeconds` | script.js:143-154 | a future time is reported in seconds with a negative count |
| `RelativeTime.Label` | script.js:149-154 | the label ends in `s ago` exactly when the count is greater than one, so 0 and 1 stay singular |
| `RelativeTime.TimeAgo` | script.js:140-155 | the result is empty exactly when the time is absent; otherwise the unit is plural exactly when the count exceeds one |
| `RelativeTime.TimeAgoReadsBack` | script.js:140-155 | the text of a present time reads back as the count and unit that `Bucket` chose, so years are shown when day/365 > 0, else months when day/30 > 0, and so on; the text before the first space is exactly `${n}` of that count |
| `RelativeTime.NinetyDaysAgo` | script.js:140-155 | 90 days ago reads "3 months ago" |
| `RelativeTime.OneDayAgo` | script.js:140-155 | one day ago reads "1 day ago" |
| `RelativeTime.JustNow` | script.js:140-155 | under a second ago reads "0 second ago" |
| `Topics.TopicBadges` | script.js:163-169 | no topics give no badge block; otherwise the first min(5, n) topics are shown escaped and in order, followed by a `+(n-5)` badge when n > 5 |
| `Topics.TopicBadgeCounts` | script.js:163-169 | there are exactly min(5, n) topic badges and one overflow badge exactly when n > 5; shown and hidden topics add up to n |
| `Topics.TopicBadgesEscaped` | script.js:166-167 | no badge text contains `<` or `>` |
| `Topics.SevenTopics` | script.js:163-169 | seven topics give six badges, the last reading "+2" |
| `Projects.OrElse` | script.js:114-120 | JavaScript's `or` default: the value when present and non-empty, the fallback otherwise |
| `Projects.Canonical` | script.js:109-122 | a record has the slug of its index; missing or empty description and homepage become "", language "Unknown", stars 0, non-array topics `[]`; the owner's login, avatar and URL are kept when the owner is present |
| `Projects.MapResults` | script.js:108-123 | one entry per result, null exactly where the result is null |
| `Projects.PresentIndicesExact` | script.js:124 | the index list holds exactly the non-null positions, strictly increasing |
| `Projects.Compact` | script.js:124 | the filter keeps the non-null entries in their original order: the k-th kept element is the entry at the k-th non-null position |
| `Projects.Normalize` | script.js:105-124 | one record per non-null result, in order; the k-th record is built from the k-th non-null result and carries `reposToShow[i]` for its index i |
| `Projects.AllFailedIsEmpty` | script.js:105-124 | when every request fails the list is empty |
| `DataSource.FetchResults` | script.js:36-51 | a request gives a record exactly when its response was received and parsed, and that record is the response body |
| `DataSource.Resolve` | script.js:80-127 | a non-empty static list wins; otherwise the cache is used exactly when `now - ts < 600000`; otherwise the API runs, and its batch rejects exactly when a body does not parse, else the normalised list is returned and stored with timestamp `now` |
| `DataSource.StaticIgnoresCacheAndApi` | script.js:80-91 | with a usable static list neither the cache, the clock nor the API results change the outcome |
| `DataSource.FreshCacheIgnoresApi` | script.js:94-103 | with a fresh cache and no static list the API results do not change the outcome |
| `DataSource.StoredEntryReused` | script.js:94-127 | an entry stored by an API load is reused exactly while less than ten minutes have passed; after that the API is consulted again |
| `DataSource.FailedBatchIsCached` | script.js:105-127 | a batch in which every request failed yields the empty list and stores it |
| `DataSource.StaticUsable` | script.js:84 | the static list counts only when it is an array with at least one element; its effect is stated by `DataSource.Resolve` |
| `DataSource.Fresh` | script.js:98 | a cache entry counts while `now - ts < 600000`; its effect is stated by `DataSource.Resolve` and `DataSource.StoredEntryReused` |
| `Render.AvatarOf` | script.js:160 | the avatar picture is used exactly when the owner has an avatar URL, with that URL as its source and the escaped login plus " avatar" as its alternative text; otherwise the fallback is the escaped first character of the name, which decodes back to that one character, and is empty exactly when the name is missing or empty |
| `Render.CardOf` | script.js:157-187 | the card built for one record; its contract is `Render.CardOfSpec` |
| `Render.CardOfSpec` | script.js:157-187 | name, language, description, avatar text and topic badges are escaped; the avatar is `AvatarOf`; the repository URL is kept as it is; a Live link appears exactly when there is a homepage and points at it; an Updated label appears exactly when there is a push time and reads "Updated " followed by `TimeAgo` of it |
| `Render.Displayed` | script.js:133-187 | the grid after `displayRepos`; its contract is `Render.DisplayedShape` |
| `Render.DisplayedShape` | script.js:133-187 | after displaying, the grid holds exactly one card per record in input order and nothing else, or for an empty list exactly the one empty-state message; no skeleton and no failure message remains |
| `Render.Outcome` | script.js:197-199 | the grid at the end of a load: the failure message when the API batch rejects, else what `Render.Displayed` gives for the chosen records |
| `Render.FailedBatchShowsEmptyForTtl` | script.js:94-136 | an all-failed batch shows the empty-state message and is cached; a load within ten minutes without a static list takes the empty list from the cache and shows the same message |
| `Render.Grid.ShowSkeletons` | script.js:58-74 | the grid holds exactly `count` placeholders, whatever it held before |
| `Render.Grid.DisplayRepos` | script.js:133-188 | the grid holds the empty-state message for an empty list, or the cards of the records in order, whatever it held before |
| `Render.Grid.RenderRepos` | script.js:76-131 | the grid ends with what the chosen tier gives, or the failure message when the API batch rejects; the cache entry returned is the one an API load writes, and nothing otherwise |

## Left out

- Network I/O is left out: `githubFetch`, the `fetch` of `/projects.json` and `Promise.all`. Each request's outcome is an input (`DataSource.Fetch`). A request that never settles is not modelled.
- Browser storage is left out: `localStorage`, `JSON.parse` and `JSON.stringify`. The cache entry read is an input. The entry to write is returned, and a failed write is a no-op outside the model.
- `Date.now()` and ISO date parsing are left out. `now` and the push time are integer milliseconds. An unparsable date, which gives `NaN` and the label "NaN second ago", is not modelled.
- `RelativeTime.TimeAgo`: one `now` is used for the whole render cycle. The script reads the clock separately for the cache check, the cache write and each card.
- `RelativeTime.Bucket`: the floating-point division before `Math.floor` is taken as exact. That holds for integer millisecond differences well below 2^53.
- Static and cached records are assumed to have the canonical record shape. If `displayRepos` throws on a malformed record inside the static or cache `try` block, the script falls through to the next tier; that path is not modelled.
- `Escape.EscapeValue` handles absent and string values. `String(x)` of numbers or objects is not modelled.
- URL attributes (the repository link, homepage and avatar `src`) are not escaped in the script, and the model keeps them unchanged. Quotes are not escaped either.
- Page wiring (`setIf` and the profile fields) and `initAuraBackground` are left out. They are DOM decoration with no logic.
- Card markup, inline styles and `window.__repos` are left out. A card is the text and links it shows.
- Strings are sequences of characters. JavaScript's first-character index (`name[0]`) works on UTF-16 code units, which is not modelled.
