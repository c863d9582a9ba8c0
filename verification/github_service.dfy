/**
 The GitHub data service (`GitHubService` in `src/services/githubService.ts`).
 Each `fetch` is replaced by the outcome it settled with; what remains is the
 request URL, the status-to-error classification and the derivations applied
 to a successful body.
 */
module GitHubService {
  import opened Js
  import opened Records
  import opened Http
  import opened Languages

  const BaseUrl: string := "https://api.github.com"
  const UsersPath: string := "/users/"
  const ReposQuery: string := "/repos?sort=updated&per_page=100"

  const UserNotFound: string := "User not found"
  const UserFetchFailed: string := "Failed to fetch user data"
  const ReposFetchFailed: string := "Failed to fetch repositories"

  /** The profile request URL string: the username is spliced in as given, without escaping. */
  function UserUrl(username: string): (url: string)
    ensures StartsWith(url, BaseUrl + UsersPath)
    ensures url[|BaseUrl + UsersPath|..] == username
  {
    BaseUrl + UsersPath + username
  }

  /**
   The repository-list request URL string: the first page of 100, most
   recently updated first.
   */
  function ReposUrl(username: string): (url: string)
    ensures StartsWith(url, UserUrl(username))
    ensures |url| == |UserUrl(username)| + |ReposQuery|
    ensures url[|url| - |ReposQuery|..] == ReposQuery
  {
    UserUrl(username) + ReposQuery
  }

  /** Reads the username back out of a profile request URL. */
  function UsernameOfUserUrl(url: string): (r: Option<string>)
    ensures r.Some? ==> UserUrl(r.value) == url
  {
    var prefix := BaseUrl + UsersPath;
    if StartsWith(url, prefix) then Some(url[|prefix|..]) else None
  }

  /** Reads the username back out of a repository-list request URL. */
  function UsernameOfReposUrl(url: string): (r: Option<string>)
    ensures r.Some? ==> ReposUrl(r.value) == url
  {
    var prefix := BaseUrl + UsersPath;
    if |prefix| + |ReposQuery| <= |url| && StartsWith(url, prefix)
       && url[|url| - |ReposQuery|..] == ReposQuery
    then
      var name := url[|prefix|..|url| - |ReposQuery|];
      assert url == prefix + name + ReposQuery;
      Some(name)
    else None
  }

  /** Every username, including one with spaces or slashes, is recovered from its URLs. */
  lemma UrlRoundTrip(username: string)
    ensures UsernameOfUserUrl(UserUrl(username)) == Some(username)
    ensures UsernameOfReposUrl(ReposUrl(username)) == Some(username)
  {
  }

  /** Distinct usernames never give the same URL string (before `fetch` parses it). */
  lemma UrlsInjective(u1: string, u2: string)
    ensures UserUrl(u1) == UserUrl(u2) ==> u1 == u2
    ensures ReposUrl(u1) == ReposUrl(u2) ==> u1 == u2
  {
    UrlRoundTrip(u1);
    UrlRoundTrip(u2);
  }

  /**
   `fetchUser`: a 2xx response yields the parsed profile, or the `SyntaxError`
   of a body that does not parse; 404 rejects with "User not found"; every
   other non-2xx status, 403 included, rejects with "Failed to fetch user
   data"; a transport failure rejects with `fetch`'s own
   `TypeError`, unclassified.
   */
  function FetchUser(outcome: FetchOutcome<GitHubUser>): (r: Settled<GitHubUser>)
    ensures r.Resolved? <==>
              outcome.Responded? && IsOk(outcome.response.status) && outcome.response.body.Parsed?
    ensures r.Resolved? ==> r.value == outcome.response.body.value
    ensures r == Rejected(ErrorObject(PlainError, UserNotFound)) <==>
              outcome.Responded? && outcome.response.status == 404
    ensures r == Rejected(ErrorObject(PlainError, UserFetchFailed)) <==>
              outcome.Responded? && !IsOk(outcome.response.status) && outcome.response.status != 404
    ensures outcome.Responded? && IsOk(outcome.response.status) && outcome.response.body.Unparsable? ==>
              r == Rejected(ErrorObject(JsonSyntaxError, outcome.response.body.message))
    ensures outcome.TransportFailure? ==> r == Rejected(ErrorObject(NetworkTypeError, outcome.message))
    ensures r.Rejected? ==> r.reason.ErrorObject?
  {
    match outcome
    case TransportFailure(m) => Rejected(ErrorObject(NetworkTypeError, m))
    case Responded(response) =>
      if !IsOk(response.status) then
        if response.status == 404 then Rejected(ErrorObject(PlainError, UserNotFound))
        else Rejected(ErrorObject(PlainError, UserFetchFailed))
      else ReadJson(response.body)
  }

  /**
   `fetchRepositories`: a 2xx response yields the parsed list, or the
   `SyntaxError` of a body that does not parse; every non-2xx status, 404
   included, rejects with "Failed to fetch repositories".
   */
  function FetchRepositories(outcome: FetchOutcome<seq<Repository>>): (r: Settled<seq<Repository>>)
    ensures r.Resolved? <==>
              outcome.Responded? && IsOk(outcome.response.status) && outcome.response.body.Parsed?
    ensures r.Resolved? ==> r.value == outcome.response.body.value
    ensures r == Rejected(ErrorObject(PlainError, ReposFetchFailed)) <==>
              outcome.Responded? && !IsOk(outcome.response.status)
    ensures outcome.Responded? && IsOk(outcome.response.status) && outcome.response.body.Unparsable? ==>
              r == Rejected(ErrorObject(JsonSyntaxError, outcome.response.body.message))
    ensures outcome.TransportFailure? ==> r == Rejected(ErrorObject(NetworkTypeError, outcome.message))
    ensures r.Rejected? ==> r.reason.ErrorObject?
  {
    match outcome
    case TransportFailure(m) => Rejected(ErrorObject(NetworkTypeError, m))
    case Responded(response) =>
      if !IsOk(response.status) then Rejected(ErrorObject(PlainError, ReposFetchFailed))
      else ReadJson(response.body)
  }

  /** Only 404 on the profile endpoint is told apart: a rate-limited 403 reads like a 500. */
  lemma NoRateLimitClassification(body: Body<GitHubUser>, repoBody: Body<seq<Repository>>, status: int)
    requires !IsOk(status) && status != 404
    ensures FetchUser(Responded(Response(status, body)))
            == FetchUser(Responded(Response(403, body)))
    ensures FetchRepositories(Responded(Response(status, repoBody)))
            == FetchRepositories(Responded(Response(404, repoBody)))
  {
  }

  /**
   `fetchLanguageStats`: its own repository request, then the counting loop.
   It fails exactly when that request fails, with the same reason.
   */
  function FetchLanguageStats(outcome: FetchOutcome<seq<Repository>>): (r: Settled<LanguageStats>)
    ensures r.Resolved? <==> FetchRepositories(outcome).Resolved?
    ensures r.Resolved? ==> r.value == LanguageStatsOf(FetchRepositories(outcome).value)
    ensures r.Rejected? ==> r.reason == FetchRepositories(outcome).reason
  {
    match FetchRepositories(outcome)
    case Resolved(repos) => Resolved(LanguageStatsOf(repos))
    case Rejected(reason) => Rejected(reason)
  }

  /**
   `fetchContributionData`: the number of repositories on the fetched page,
   a stand-in for activity. At most 100 when the server honours `per_page`.
   */
  function FetchContributionData(outcome: FetchOutcome<seq<Repository>>): (r: Settled<nat>)
    ensures r.Resolved? <==> FetchRepositories(outcome).Resolved?
    ensures r.Resolved? ==> r.value == |FetchRepositories(outcome).value|
    ensures r.Rejected? ==> r.reason == FetchRepositories(outcome).reason
  {
    match FetchRepositories(outcome)
    case Resolved(repos) => Resolved(|repos|)
    case Rejected(reason) => Rejected(reason)
  }

  /** A successful language distribution accounts for every labelled repository of the page. */
  lemma LanguageStatsTotal(outcome: FetchOutcome<seq<Repository>>)
    requires FetchLanguageStats(outcome).Resolved?
    ensures Total(FetchLanguageStats(outcome).value) == CountLabelled(FetchRepositories(outcome).value)
    ensures Total(FetchLanguageStats(outcome).value) <= FetchContributionData(outcome).value
  {
    CountLabelledBound(FetchRepositories(outcome).value);
  }

  lemma {:induction false} CountLabelledBound(repos: seq<Repository>)
    ensures CountLabelled(repos) <= |repos|
  {
    if repos != [] {
      CountLabelledBound(repos[..|repos| - 1]);
    }
  }
}
