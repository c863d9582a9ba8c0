/**
 The search handler of the `GitHubStatsVisualizer` component and the small
 derivations its render makes from the state: the top-repository list, the
 display name and the blog link. React state is one immutable record; each
 `set...` call of the handler is a field update of it.
 */
module Visualizer {
  import opened Js
  import opened Records
  import opened Http
  import opened Languages
  import opened Ranking
  import opened GitHubService

  const BlankUsername: string := "Please enter a GitHub username"
  const UnknownError: string := "An error occurred"

  datatype State = State(
    username: string,
    loading: bool,
    error: string,
    user: Option<GitHubUser>,
    repositories: seq<Repository>,
    languageStats: LanguageStats
  )

  /** The state the component mounts with. */
  const Initial: State := State("", false, "", None, [], map[])

  /** The guard `!username.trim()`. */
  predicate IsBlank(username: string) {
    Trim(username) == []
  }

  /** What the handler does before its first `await`. */
  datatype Submission =
    | Refused(state: State)   // blank input: only the error is set, nothing is fetched
    | Started(pending: State) // the reset state shown while the fetches run

  /**
   The synchronous part of `handleSearch`. A blank username sets only the error
   message; otherwise the previous results and error are cleared and loading
   starts. The username itself is never changed by the handler.
   */
  function Submit(s: State): (r: Submission)
    ensures r.Refused? <==> AllWhitespace(s.username)
    ensures r.Refused? ==> r.state == s.(error := BlankUsername)
    ensures r.Started? ==>
              && r.pending.username == s.username
              && r.pending.loading
              && r.pending.error == ""
              && r.pending.user == None
              && r.pending.repositories == []
              && r.pending.languageStats == map[]
  {
    TrimEmptyIffAllWhitespace(s.username);
    if IsBlank(s.username) then Refused(s.(error := BlankUsername))
    else Started(State(s.username, true, "", None, [], map[]))
  }

  /**
   The three requests a submission issues, in argument order of `Promise.all`:
   the profile, the repository list, and the repository list again for the
   language statistics. They use the username exactly as typed, not trimmed.
   */
  function SearchRequests(s: State): (urls: seq<string>)
    ensures AllWhitespace(s.username) ==> urls == []
    ensures !AllWhitespace(s.username) ==>
              && |urls| == 3
              && UsernameOfUserUrl(urls[0]) == Some(s.username)
              && UsernameOfReposUrl(urls[1]) == Some(s.username)
              && urls[2] == urls[1]
  {
    UrlRoundTrip(s.username);
    if Submit(s).Refused? then []
    else [UserUrl(s.username), ReposUrl(s.username), ReposUrl(s.username)]
  }

  /** A username with surrounding spaces passes the guard and is sent with its spaces. */
  lemma UntrimmedUsernameIsSent()
    ensures var s := Initial.(username := " octocat ");
            && !AllWhitespace(s.username)
            && Trim(s.username) != s.username
            && UsernameOfUserUrl(SearchRequests(s)[0]) == Some(" octocat ")
  {
    var s := Initial.(username := " octocat ");
    assert !IsWhitespace(s.username[1]);
    assert Trim(s.username) != s.username by {
      assert TrimStart(s.username) == TrimStart(s.username[1..]);
      assert |TrimStart(s.username)| < |s.username|;
    }
  }

  /** The three promises handed to `Promise.all`. */
  datatype Slot = UserSlot | ReposSlot | LangsSlot

  datatype Settlements = Settlements(
    user: Settled<GitHubUser>,
    repos: Settled<seq<Repository>>,
    langs: Settled<LanguageStats>
  ) {
    /** The rejection reason of one promise, if it rejected. */
    function ReasonAt(slot: Slot): Option<Thrown> {
      match slot
      case UserSlot => if user.Rejected? then Some(user.reason) else None
      case ReposSlot => if repos.Rejected? then Some(repos.reason) else None
      case LangsSlot => if langs.Rejected? then Some(langs.reason) else None
    }
  }

  /** The order in which the three promises settled in time. */
  predicate IsSettlementOrder(order: seq<Slot>) {
    |order| == 3 && UserSlot in order && ReposSlot in order && LangsSlot in order
  }

  /** The reason of the first promise, in settlement order, that rejected. */
  function FirstRejection(st: Settlements, order: seq<Slot>): (r: Option<Thrown>)
    ensures r.None? <==> forall i :: 0 <= i < |order| ==> st.ReasonAt(order[i]).None?
    ensures r.Some? ==> exists i :: (0 <= i < |order| && st.ReasonAt(order[i]) == r
                                     && forall j :: 0 <= j < i ==> st.ReasonAt(order[j]).None?)
  {
    if order == [] then None
    else if st.ReasonAt(order[0]).Some? then
      st.ReasonAt(order[0])
    else
      var r := FirstRejection(st, order[1..]);
      if r.Some? then
        var i :| 0 <= i < |order[1..]| && st.ReasonAt(order[1..][i]) == r
                 && forall j :: 0 <= j < i ==> st.ReasonAt(order[1..][j]).None?;
        assert st.ReasonAt(order[i + 1]) == r;
        assert forall j :: 0 <= j < i + 1 ==> st.ReasonAt(order[j]).None? by {
          forall j | 0 <= j < i + 1
            ensures st.ReasonAt(order[j]).None?
          {
            if j > 0 { assert order[j] == order[1..][j - 1]; }
          }
        }
        r
      else
        assert forall i :: 0 <= i < |order| ==> st.ReasonAt(order[i]).None? by {
          forall i | 0 <= i < |order|
            ensures st.ReasonAt(order[i]).None?
          {
            if i > 0 { assert order[i] == order[1..][i - 1]; }
          }
        }
        r
  }

  /** What `await Promise.all([...])` produces: all three values, or one rejection. */
  datatype Joined =
    | AllResolved(user: GitHubUser, repos: seq<Repository>, langs: LanguageStats)
    | OneRejected(reason: Thrown)

  /**
   `Promise.all` over the three fetches: it resolves exactly when all three
   resolve, and otherwise rejects with the reason of whichever rejection
   settled first.
   */
  function PromiseAll(st: Settlements, order: seq<Slot>): (r: Joined)
    requires IsSettlementOrder(order)
    ensures r.AllResolved? <==> st.user.Resolved? && st.repos.Resolved? && st.langs.Resolved?
    ensures r.AllResolved? ==>
              r.user == st.user.value && r.repos == st.repos.value && r.langs == st.langs.value
    ensures r.OneRejected? ==> Some(r.reason) == FirstRejection(st, order)
  {
    var first := FirstRejection(st, order);
    if first.Some? then OneRejected(first.value)
    else
      assert st.ReasonAt(UserSlot).None? && st.ReasonAt(ReposSlot).None?
             && st.ReasonAt(LangsSlot).None?;
      AllResolved(st.user.value, st.repos.value, st.langs.value)
  }

  /** The text shown for a rejection: an `Error`'s message, or a fixed fallback for any other value. */
  function MessageOf(t: Thrown): (m: string)
    ensures t.ErrorObject? ==> m == t.message
    ensures t.NonErrorValue? ==> m == UnknownError
  {
    match t
    case ErrorObject(_, m) => m
    case NonErrorValue => UnknownError
  }

  /**
   The part of `handleSearch` after the `await`: commit all three results at
   once, or none of them and the failure message; `finally` clears loading.
   */
  function Settle(p: State, st: Settlements, order: seq<Slot>): (r: State)
    requires IsSettlementOrder(order)
    ensures !r.loading
    ensures r.username == p.username
    ensures PromiseAll(st, order).AllResolved? ==>
              && r.user == Some(st.user.value)
              && r.repositories == st.repos.value
              && r.languageStats == st.langs.value
              && r.error == p.error
    ensures PromiseAll(st, order).OneRejected? ==>
              && r == p.(loading := false, error := MessageOf(PromiseAll(st, order).reason))
  {
    match PromiseAll(st, order)
    case AllResolved(u, repos, langs) =>
      p.(user := Some(u), repositories := repos, languageStats := langs, loading := false)
    case OneRejected(reason) =>
      p.(error := MessageOf(reason), loading := false)
  }

  /** The three outcomes the network gave to the three requests of a submission. */
  datatype Network = Network(
    userOutcome: FetchOutcome<GitHubUser>,
    reposOutcome: FetchOutcome<seq<Repository>>,
    langsOutcome: FetchOutcome<seq<Repository>>
  )

  /** What the three service calls settle with. */
  function Fetch(net: Network): Settlements {
    Settlements(
      FetchUser(net.userOutcome),
      FetchRepositories(net.reposOutcome),
      FetchLanguageStats(net.langsOutcome))
  }

  /**
   One whole `handleSearch`, from the state at submission to the state after
   the `finally` block. Blank input changes only the error. Otherwise the
   result is all-or-nothing: the profile, list and statistics are committed
   together with no error, or none is committed and the error is the message
   of the first failure; loading ends false either way.
   */
  function HandleSearch(s: State, net: Network, order: seq<Slot>): (r: State)
    requires IsSettlementOrder(order)
    ensures r.username == s.username
    ensures AllWhitespace(s.username) ==> r == s.(error := BlankUsername)
    ensures !AllWhitespace(s.username) ==>
              && !r.loading
              && (r.user.Some? <==> Fetch(net).user.Resolved? && Fetch(net).repos.Resolved?
                                     && Fetch(net).langs.Resolved?)
              && (r.user.Some? ==>
                    && r.error == ""
                    && r.user == Some(FetchUser(net.userOutcome).value)
                    && r.repositories == FetchRepositories(net.reposOutcome).value
                    && r.languageStats == FetchLanguageStats(net.langsOutcome).value)
              && (r.user.None? ==> r.repositories == [] && r.languageStats == map[])
              && (r.user.None? ==> exists i :: 0 <= i < |order| && Fetch(net).ReasonAt(order[i]).Some?
                                     && r.error == MessageOf(Fetch(net).ReasonAt(order[i]).value))
  {
    match Submit(s)
    case Refused(t) => t
    case Started(p) =>
      Settle(p, Fetch(net), order)
  }

  /** Every rejection from the service is an `Error` instance; those the service throws itself carry one of its three messages. */
  lemma RejectionsAreErrors(net: Network, slot: Slot)
    requires Fetch(net).ReasonAt(slot).Some?
    ensures Fetch(net).ReasonAt(slot).value.ErrorObject?
    ensures Fetch(net).ReasonAt(slot).value.kind == PlainError ==>
              MessageOf(Fetch(net).ReasonAt(slot).value) in {UserNotFound, UserFetchFailed, ReposFetchFailed}
  {
  }

  /**
   When both repository requests got the same answer, the committed statistics
   are exactly the distribution of the committed repository list.
   */
  lemma CommittedStatsMatchRepositories(s: State, net: Network, order: seq<Slot>)
    requires IsSettlementOrder(order)
    requires net.reposOutcome == net.langsOutcome
    ensures var r := HandleSearch(s, net, order);
            !AllWhitespace(s.username) && r.user.Some? ==>
              && r.languageStats == LanguageStatsOf(r.repositories)
              && Total(r.languageStats) == CountLabelled(r.repositories)
  {
  }

  /** A 404 on the profile alone surfaces as "User not found", whatever settles first. */
  lemma MissingUserMessage(s: State, net: Network, order: seq<Slot>)
    requires IsSettlementOrder(order)
    requires !AllWhitespace(s.username)
    requires net.userOutcome.Responded? && net.userOutcome.response.status == 404
    requires FetchRepositories(net.reposOutcome).Resolved?
    requires FetchRepositories(net.langsOutcome).Resolved?
    ensures HandleSearch(s, net, order).error == UserNotFound
    ensures HandleSearch(s, net, order).user == None
  {
    var st := Fetch(net);
    var reason := PromiseAll(st, order).reason;
    var i :| 0 <= i < |order| && st.ReasonAt(order[i]) == Some(reason);
    assert order[i] == UserSlot;
  }

  /** The top repositories the render derives: the default-count ranking of a non-empty list, else nothing. */
  function TopRepos(repositories: seq<Repository>): (top: seq<Repository>)
    ensures |top| <= 6
    ensures |top| == if |repositories| < 6 then |repositories| else 6
    ensures top == [] <==> repositories == []
    ensures top == TopRepositories(repositories, DefaultCount)
  {
    if |repositories| > 0 then TopRepositories(repositories, DefaultCount) else []
  }

  /**
   The render-time derivation on the component's own state array: because the
   sort is in place, rendering leaves the state's repository list sorted.
   */
  method RenderTopRepos(repositories: array<Repository>) returns (top: seq<Repository>)
    modifies repositories
    ensures repositories.Length > 0 ==> repositories[..] == SortByStars(old(repositories[..]))
    ensures repositories.Length == 0 ==> repositories[..] == old(repositories[..])
    ensures top == TopRepos(old(repositories[..]))
  {
    if repositories.Length > 0 {
      top := GetTopRepositories(repositories, DefaultCount);
    } else {
      top := [];
    }
  }

  /** A second render of the already sorted list derives the same list and sorts nothing. */
  lemma RerenderIsStable(repositories: seq<Repository>)
    ensures TopRepos(SortByStars(repositories)) == TopRepos(repositories)
  {
    SortIdempotent(repositories);
  }

  /** The heading: the profile name when it is truthy, otherwise the login. */
  function DisplayName(user: GitHubUser): (shown: string)
    ensures Truthy(user.name) ==> shown == user.name.value
    ensures !Truthy(user.name) ==> shown == user.login
    ensures shown != "" <==> Truthy(user.name) || user.login != ""
  {
    if Truthy(user.name) then user.name.value else user.login
  }

  /** The heading falls back to the login exactly when the name is missing or empty, or equals it. */
  lemma DisplayNameLogin(user: GitHubUser)
    ensures DisplayName(user) == user.login <==> !Truthy(user.name) || user.name.value == user.login
    ensures DisplayName(user.(name := None)) == user.login
    ensures user.login != "" ==> DisplayName(user) != ""
  {
  }

  /**
   The blog link's `href` as written: kept when it starts with "http",
   otherwise prefixed with "https://".
   */
  function BlogHref(blog: string): (href: string)
    ensures StartsWith(href, "http")
    ensures StartsWith(blog, "http") ==> href == blog
    ensures !StartsWith(blog, "http") ==> href == "https://" + blog
  {
    if StartsWith(blog, "http") then blog else "https://" + blog
  }

  /** Normalising an already normalised link changes nothing. */
  lemma BlogHrefIdempotent(blog: string)
    ensures BlogHref(BlogHref(blog)) == BlogHref(blog)
  {
  }

  /** The href carries a URL scheme, so the browser does not resolve it as a relative path. */
  predicate HasWebScheme(href: string) {
    StartsWith(href, "http://") || StartsWith(href, "https://")
  }

  /** A site whose host name begins with "http" is left without a scheme. */
  lemma BlogHrefSchemelessHost()
    ensures BlogHref("httpie.io") == "httpie.io"
    ensures !HasWebScheme(BlogHref("httpie.io"))
  {
    assert "httpie.io"[..4] == "http";
    assert "httpie.io"[..7][4] != "http://"[4];
    assert "httpie.io"[..8][4] != "https://"[4];
  }

  /**
   The blog link with the scheme test the prefix check evidently stands for:
   kept when it already has an http or https scheme, otherwise prefixed.
   */
  function BlogHrefWithScheme(blog: string): (href: string)
    ensures HasWebScheme(href)
    ensures HasWebScheme(blog) <==> href == blog
    ensures !HasWebScheme(blog) ==> href == "https://" + blog
  {
    if HasWebScheme(blog) then blog
    else
      assert ("https://" + blog)[..8] == "https://";
      "https://" + blog
  }

  /** The corrected link agrees with the original on every blog that has a scheme or does not start with "http". */
  lemma BlogHrefCorrectionAgrees(blog: string)
    ensures HasWebScheme(blog) || !StartsWith(blog, "http") ==>
              BlogHrefWithScheme(blog) == BlogHref(blog)
    ensures BlogHrefWithScheme(BlogHrefWithScheme(blog)) == BlogHrefWithScheme(blog)
  {
    if HasWebScheme(blog) {
      if StartsWith(blog, "http://") {
        assert blog[..4] == blog[..7][..4];
      } else {
        assert blog[..4] == blog[..8][..4];
      }
    }
  }

  /**
   The link the profile card shows, if the blog field is truthy, with the
   href as written: it starts with "http" and ends with the blog value.
   */
  function BlogLink(user: GitHubUser): (link: Option<string>)
    ensures link.Some? <==> Truthy(user.blog)
    ensures link.Some? ==> link.value == BlogHref(user.blog.value)
    ensures link.Some? ==> StartsWith(link.value, "http")
    ensures link.Some? ==> |user.blog.value| <= |link.value|
                           && link.value[|link.value| - |user.blog.value|..] == user.blog.value
  {
    if Truthy(user.blog) then
      var b := user.blog.value;
      assert ("https://" + b)[|"https://" + b| - |b|..] == b;
      Some(BlogHref(b))
    else None
  }

  /** The profile card's link with the corrected scheme test; it always has an http or https scheme. */
  function BlogLinkWithScheme(user: GitHubUser): (link: Option<string>)
    ensures link.Some? <==> Truthy(user.blog)
    ensures link.Some? ==> link.value == BlogHrefWithScheme(user.blog.value)
    ensures link.Some? ==> HasWebScheme(link.value)
  {
    if Truthy(user.blog) then Some(BlogHrefWithScheme(user.blog.value)) else None
  }

  /** The card as written links "httpie.io" without a scheme; the corrected card adds one. */
  lemma BlogLinkSchemelessHost(user: GitHubUser)
    requires user.blog == Some("httpie.io")
    ensures BlogLink(user) == Some("httpie.io")
    ensures !HasWebScheme(BlogLink(user).value)
    ensures BlogLinkWithScheme(user) == Some("https://httpie.io")
  {
    BlogHrefSchemelessHost();
    assert !HasWebScheme("httpie.io");
    assert "https://" + "httpie.io" == "https://httpie.io";
  }
}
