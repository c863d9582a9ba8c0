/**
 The two record shapes the GitHub REST API returns to the service: the
 profile of `/users/{login}` and one element of `/users/{login}/repos`.
 JSON `null` is modelled with `Js.Option`; counts are non-negative integers.
 */
module Records {
  import opened Js

  datatype GitHubUser = GitHubUser(
    login: string,
    name: Option<string>,
    avatarUrl: string,
    bio: Option<string>,
    publicRepos: nat,
    followers: nat,
    following: nat,
    location: Option<string>,
    blog: Option<string>,
    company: Option<string>,
    createdAt: string
  )

  datatype Repository = Repository(
    id: int,
    name: string,
    fullName: string,
    description: Option<string>,
    htmlUrl: string,
    stargazersCount: nat,
    forksCount: nat,
    language: Option<string>,
    topics: seq<string>,
    updatedAt: string,
    openIssuesCount: nat
  )

  /** Language label to number of repositories with that primary language. */
  type LanguageStats = map<string, nat>
}
