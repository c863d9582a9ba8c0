# Gitnalyzer profile data service: a Dafny model

Gitnalyzer shows a visual summary of a GitHub account. The user types a
username and the page fetches three things: the profile, the repository list
and a language distribution. It then renders a stat card, a language pie
chart and the six most-starred repositories. This project models the part of
that program that holds logic:

- `GitHubService` (`src/services/githubService.ts`). This covers the request
  URLs, the classification of HTTP statuses into error messages, the
  language-counting loop, the repository-count activity proxy, and the
  top-repository ranking (`sort` by stars, then `slice`).
- The `handleSearch` handler of `GitHubStatsVisualizer`
  (`src/components/GitHubStatsVisualizer.tsx`) as a transition on its state
  record. This covers the blank-input guard, the reset, `Promise.all` with
  all-or-nothing commit, and the `finally` that clears `loading`. It also
  covers three render derivations: the `topRepos` list, the display name and
  the blog link.

Each `fetch` is replaced by the outcome it settled with
(`Http.FetchOutcome`). That is either a response, with a status code and a
body that `response.json()` parses or fails to parse, or a transport failure.
Transport failures reject with `fetch`'s own `TypeError`. The rest is pure
functions over immutable records. The exception is the ranking's in-place
sort, which is a method on an array.

Modules, one per concern:

| file | module | models |
|---|---|---|
| js.dfy | `Js` | `null`, string truthiness, `trim`, `startsWith`, the `slice` end index |
| records.dfy | `Records` | the `GitHubUser` and `Repository` shapes, `LanguageStats` |
| http.dfy | `Http` | fetch outcomes, `response.ok`, `response.json()`, thrown values, settled promises |
| languages.dfy | `Languages` | the counting loop of `fetchLanguageStats` and its reference counts |
| ranking.dfy | `Ranking` | `getTopRepositories`: stable descending sort, `slice(0, count)` |
| github_service.dfy | `GitHubService` | URLs, `fetchUser`, `fetchRepositories`, `fetchLanguageStats`, `fetchContributionData` |
| visualizer.dfy | `Visualizer` | `handleSearch`, `Promise.all`, `topRepos`, display name, blog link |
| scenarios.dfy | `Scenarios` | one concrete four-repository example |

Behaviour that is easy to misread, which the model follows as written:

- Only a 404 on the profile endpoint has its own message. A 403 (rate limit)
  and every other non-2xx status give "Failed to fetch user data".
- A transport failure is not classified. The `TypeError` from `fetch` reaches
  the handler unchanged, and its message is shown.
- A 404 on the repository endpoint gives "Failed to fetch repositories", like
  any other non-2xx status.
- `getTopRepositories` sorts the caller's array in place and does not copy it.
  The render passes the component's own `repositories` state array, so that
  array is left sorted by stars.
- No request headers, token or cache policy are sent. The only request inputs
  are the base URL and the username.
- `handleSearch` fetches the repository list twice, once directly and once
  inside `fetchLanguageStats`. The two responses are independent inputs of the
  model (`Visualizer.Network`).

## Model

| member | source | states |
|---|---|---|
| `Js.Trim` | src/components/GitHubStatsVisualizer.tsx:29 | `trim()` returns a contiguous part of the username with only whitespace before and after it, and that neither begins nor ends with whitespace |
| `Js.TrimEmptyIffAllWhitespace` | src/components/GitHubStatsVisualizer.tsx:29 | `username.trim()` is empty exactly when every character is JavaScript whitespace or a line terminator |
| `Languages.LanguageStatsOf` | src/services/githubService.ts:63-72 | each label's count is the number of repositories with that truthy language; a label is a key exactly when that count is positive; every key is some repository's language; "" is never a key; the counts add up to the number of labelled repositories |
| `Languages.AggregateLanguages` | src/services/githubService.ts:66-70 | the loop over the repositories computes exactly the per-label counts (and no other keys) of the reference distribution |
| `Languages.EmptyListEmptyStats` | src/services/githubService.ts:63-72 | no repositories give an empty distribution |
| `Ranking.SortByStars` | src/services/githubService.ts:84 | the sort keeps the number of repositories; its order is stated by `Ranking.SortByStarsIsStableSort` |
| `Ranking.SortByStarsIsStableSort` | src/services/githubService.ts:84 | the sorted array is ordered by stargazer count, highest first; it is a permutation of the input; equal-star repositories keep their input order |
| `Ranking.StableSortCharacterization` | src/services/githubService.ts:84 | a sequence is a stable descending sort of the input if and only if it equals `SortByStars` of it, so the sort's result is uniquely determined |
| `Ranking.SortIdempotent` | src/services/githubService.ts:84 | sorting an already sorted list leaves it as it is |
| `Js.SliceEnd` | src/services/githubService.ts:85 | `slice(0, count)` stops at `count` when it lies within the array, at the array's length when it is larger, and counts back from the end, not below 0, when it is negative |
| `Ranking.TopRepositories` | src/services/githubService.ts:82-86 | for `count >= 0` the result has `min(count, n)` entries, and for negative `count` it has `max(n + count, 0)`; it is a prefix of the sorted permutation; it is sorted; it is a sub-multiset of the input; every entry has at least as many stars as every entry left out; within each star count it keeps a prefix of the input order |
| `Ranking.GetTopRepositories` | src/services/githubService.ts:82-86 | the caller's array is left holding the full sorted permutation, and the returned list is its leading `count` entries |
| `Ranking.TopOfEmpty` | src/services/githubService.ts:82-86 | ranking an empty list gives an empty list for every `count` |
| `GitHubService.UserUrl` | src/services/githubService.ts:37 | the profile URL string is the API base and `/users/` followed by the username, spliced in unescaped |
| `GitHubService.ReposUrl` | src/services/githubService.ts:50-51 | the repository URL string is the profile URL string followed by the `/repos` path and the `sort=updated&per_page=100` query |
| `GitHubService.UrlRoundTrip` | src/services/githubService.ts:34-52 | the username is read back unchanged from both request URL strings, whatever characters it holds |
| `GitHubService.UrlsInjective` | src/services/githubService.ts:34-52 | two different usernames never produce the same profile URL string or the same repository URL string |
| `Http.ReadJson` | src/services/githubService.ts:46 | `response.json()` (here and at line 58) resolves to a parseable body, and otherwise rejects with a `SyntaxError` carrying the parser's message |
| `GitHubService.FetchUser` | src/services/githubService.ts:36-47 | a 2xx response with a parseable body resolves to that body; 404 rejects with "User not found" and only 404 does; every other non-2xx status rejects with "Failed to fetch user data"; an unparsable 2xx body rejects with its `SyntaxError`; a transport failure rejects with its `TypeError`; every rejection is an `Error` |
| `GitHubService.FetchRepositories` | src/services/githubService.ts:49-59 | a 2xx response with a parseable body resolves to the list; every non-2xx status, 404 included, rejects with "Failed to fetch repositories" and nothing else does; an unparsable 2xx body rejects with its `SyntaxError`; a transport failure rejects with its `TypeError` |
| `GitHubService.NoRateLimitClassification` | src/services/githubService.ts:39-44 | a 403 gives the same profile result as any other non-2xx status except 404; a repository 404 gives the same result as any other non-2xx status |
| `GitHubService.FetchLanguageStats` | src/services/githubService.ts:61-73 | resolves exactly when its repository fetch resolves, to the language distribution of that list; otherwise it rejects with the same reason |
| `GitHubService.FetchContributionData` | src/services/githubService.ts:75-80 | resolves exactly when the repository fetch resolves, to the number of repositories; otherwise it rejects with the same reason |
| `GitHubService.LanguageStatsTotal` | src/services/githubService.ts:61-80 | the counts of a fetched distribution add up to the labelled repositories of the page, and never exceed the activity proxy |
| `Visualizer.Submit` | src/components/GitHubStatsVisualizer.tsx:26-38 | a username of only whitespace sets only the error "Please enter a GitHub username"; any other input resets to loading with an empty error, no user, no repositories and no statistics; the username is never changed |
| `Visualizer.SearchRequests` | src/components/GitHubStatsVisualizer.tsx:29-45 | blank input issues no request; otherwise three requests are issued (profile, repositories, repositories again), whose URL strings carry the username exactly as typed |
| `Visualizer.UntrimmedUsernameIsSent` | src/components/GitHubStatsVisualizer.tsx:29-44 | " octocat " passes the trimmed guard, but the profile URL string carries it with its spaces |
| `Visualizer.MessageOf` | src/components/GitHubStatsVisualizer.tsx:51 | an `Error`'s own message is shown, and any other thrown value shows "An error occurred" |
| `Visualizer.FirstRejection` | src/components/GitHubStatsVisualizer.tsx:41-45 | finds no rejection exactly when no promise rejected; otherwise returns the reason of a rejected promise, and every promise that settled before it resolved |
| `Visualizer.PromiseAll` | src/components/GitHubStatsVisualizer.tsx:41-45 | resolves exactly when all three fetches resolve, with their three values; otherwise rejects with the first rejection in settlement order |
| `Visualizer.Settle` | src/components/GitHubStatsVisualizer.tsx:40-54 | on success, the profile, list and statistics are committed together and the error is kept; on failure, nothing but the error changes, and the error is the thrown message or "An error occurred"; loading is false afterwards either way |
| `Visualizer.HandleSearch` | src/components/GitHubStatsVisualizer.tsx:26-55 | blank input changes only the error; otherwise loading ends false; a user is shown exactly when all three fetches succeed, together with their list and statistics and an empty error; on failure no user, no repositories and no statistics are shown, and the error is the message of one of the failed fetches; the username never changes |
| `Visualizer.RejectionsAreErrors` | src/components/GitHubStatsVisualizer.tsx:50-51 | every rejection the service produces is an `Error`, so the "An error occurred" fallback is never taken; the service's own errors carry one of its three messages |
| `Visualizer.CommittedStatsMatchRepositories` | src/components/GitHubStatsVisualizer.tsx:41-49 | when both repository requests got the same answer, the committed statistics are the distribution of the committed repository list |
| `Visualizer.MissingUserMessage` | src/components/GitHubStatsVisualizer.tsx:41-51 | a 404 on the profile, with both repository fetches succeeding, always shows "User not found" and no user, whatever order the fetches settle in |
| `Visualizer.TopRepos` | src/components/GitHubStatsVisualizer.tsx:64 | holds `min(6, n)` repositories; is empty exactly when the list is empty; equals `getTopRepositories` with the default count, so the emptiness guard changes nothing |
| `Visualizer.RenderTopRepos` | src/components/GitHubStatsVisualizer.tsx:64 | rendering a non-empty state array leaves it sorted by stars; an empty array is left alone |
| `Visualizer.RerenderIsStable` | src/components/GitHubStatsVisualizer.tsx:64 | after the in-place sort, the next render derives the same top list |
| `Visualizer.DisplayName` | src/components/GitHubStatsVisualizer.tsx:141 | shows the name when it is truthy, otherwise the login; the result is empty only if both are |
| `Visualizer.DisplayNameLogin` | src/components/GitHubStatsVisualizer.tsx:141 | the heading equals the login exactly when the name is missing, empty or equal to it; without a name the login is shown; a non-empty login never gives an empty heading |
| `Visualizer.BlogHref` | src/components/GitHubStatsVisualizer.tsx:160 | as written: the link always starts with "http"; it is kept when it already does, and otherwise "https://" is put in front |
| `Visualizer.BlogHrefIdempotent` | src/components/GitHubStatsVisualizer.tsx:160 | normalising a normalised link changes nothing |
| `Visualizer.BlogHrefSchemelessHost` | src/components/GitHubStatsVisualizer.tsx:160 | the blog "httpie.io" is kept as it is, so its link has no URL scheme |
| `Visualizer.BlogHrefWithScheme` | src/components/GitHubStatsVisualizer.tsx:160 | corrected: the link always has an http or https scheme, and is kept exactly when it already has one |
| `Visualizer.BlogHrefCorrectionAgrees` | src/components/GitHubStatsVisualizer.tsx:160 | the corrected link equals the original whenever the blog has a scheme or does not start with "http"; the corrected link is idempotent |
| `Visualizer.BlogLink` | src/components/GitHubStatsVisualizer.tsx:158-168 | as written: a link is shown exactly when the blog field is truthy; its href is `BlogHref` of the blog, so it starts with "http" and ends with the blog value |
| `Visualizer.BlogLinkWithScheme` | src/components/GitHubStatsVisualizer.tsx:158-168 | corrected: a link is shown exactly when the blog field is truthy, and it always has an http or https scheme |
| `Visualizer.BlogLinkSchemelessHost` | src/components/GitHubStatsVisualizer.tsx:158-168 | the card as written links the blog "httpie.io" with no scheme, where the corrected card links "https://httpie.io" |
| `Scenarios.ScenarioLanguages` | src/services/githubService.ts:66-70 | for [Go 10★, Go 30★, Rust 30★, "" 5★] the distribution is {Go: 2, Rust: 1} |
| `Scenarios.ScenarioTopTwo` | src/services/githubService.ts:82-86 | for the same list, the top two are the 30★ Go and Rust repositories, in that order |

## Left out

- The `fetch` calls and JSON decoding are left out. Each request is an input
  outcome. A parsed body is assumed to have the declared record shape; the
  TypeScript types are not checked at run time.
- `Promise.all` concurrency is reduced to its result. The order in which the
  three promises settle is an input (`Visualizer.IsSettlementOrder`).
- Two searches racing each other are left out. The model has one submission
  at a time, and the submit button is disabled while loading.
- `Ranking.TopRepositories`, `Ranking.GetTopRepositories`: `count` is an
  integer. `slice`'s handling of fractional, `NaN` or infinite arguments is
  not modelled.
- `Ranking.SortByStars`: the stars are natural numbers, so the comparator
  `b - a` is exact. JavaScript doubles are not modelled.
- `Languages.LanguageStatsOf`: the distribution is a plain map. The counting
  object in JavaScript inherits from `Object.prototype`, and a label such as
  `constructor` or `__proto__` would read an inherited value. GitHub's
  language labels never take those values.
- `GitHubService.UserUrl`, `GitHubService.ReposUrl`: the URLs are strings,
  and the URL lemmas speak only of those strings. `fetch`'s URL parser is left
  out. It percent-encodes characters such as inner spaces, removes tabs and
  newlines, strips leading and trailing spaces of the whole URL string (here
  only a trailing one on the profile URL), resolves "." and ".." path
  segments, and splits the string at "?" and "#". So "octo\tcat" and
  "a/../octocat" reach the same endpoint as "octocat"; " octocat " requests
  `/users/%20octocat` for the profile and `/users/%20octocat%20/repos` for the
  repositories, so it reaches neither `octocat` endpoint; and "octocat?" sends
  the repository request to `/users/octocat`.
- `formatDate` is left out because it depends on the locale and `Date`.
- The avatar initials are left out because `toUpperCase` depends on Unicode
  case mapping.
- The JSX rendering, `RepoCards`, `LanguageChart` (floating-point
  percentages, random colours) and the animated backgrounds are left out.
  They only present data.
- `test-api.js` is left out. It is a stand-alone network smoke test.

## Findings

| source | as written | input that shows it | evidently intended | confidence | as-written member | corrected member |
|---|---|---|---|---|---|---|
| src/components/GitHubStatsVisualizer.tsx:160 | a blog value is taken as a full URL when it starts with "http" | blog "httpie.io" gives `href="httpie.io"`, which the browser resolves as a relative path on the site itself | put "https://" in front unless the value already starts with "http://" or "https://" | medium, not executed | `Visualizer.BlogHref`, `Visualizer.BlogLink` (with `Visualizer.BlogHrefSchemelessHost`, `Visualizer.BlogLinkSchemelessHost`) | `Visualizer.BlogHrefWithScheme`, `Visualizer.BlogLinkWithScheme` |
