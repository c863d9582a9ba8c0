/**
 A worked scenario: four repositories listed most recently updated first,
 two of them tied on stars and one without a language.
 */
module Scenarios {
  import opened Js
  import opened Records
  import opened Languages
  import opened Ranking

  function Repo(id: int, stars: nat, language: Option<string>): Repository {
    Repository(id, "r", "o/r", None, "u", stars, 0, language, [], "t", 0)
  }

  const Listed: seq<Repository> :=
    [Repo(1, 10, Some("Go")), Repo(2, 30, Some("Go")), Repo(3, 30, Some("Rust")), Repo(4, 5, Some(""))]

  lemma ScenarioAfterOne()
    ensures LanguageStatsOf(Listed[..1]) == map["Go" := 1]
  {
    assert Listed[..1][..0] == [];
  }

  lemma ScenarioAfterTwo()
    ensures LanguageStatsOf(Listed[..2]) == map["Go" := 2]
  {
    ScenarioAfterOne();
    StatsOfPrefix(Listed, 1);
  }

  lemma ScenarioAfterThree()
    ensures LanguageStatsOf(Listed[..3]) == map["Go" := 2, "Rust" := 1]
  {
    ScenarioAfterTwo();
    StatsOfPrefix(Listed, 2);
  }

  /** Go is counted twice and Rust once; the empty label is not counted. */
  lemma ScenarioLanguages()
    ensures LanguageStatsOf(Listed) == map["Go" := 2, "Rust" := 1]
  {
    ScenarioAfterThree();
    StatsOfPrefix(Listed, 3);
    assert Listed[..4] == Listed;
  }

  lemma ScenarioSortedTail()
    ensures SortByStars(Listed[1..]) == [Listed[1], Listed[2], Listed[3]]
  {
    assert Listed[1..][1..][1..] == [Listed[3]];
    assert SortByStars([Listed[3]]) == [Listed[3]];
    assert SortByStars(Listed[1..][1..]) == [Listed[2], Listed[3]];
  }

  lemma ScenarioSorted()
    ensures SortByStars(Listed) == [Listed[1], Listed[2], Listed[0], Listed[3]]
  {
    ScenarioSortedTail();
    var t := [Listed[1], Listed[2], Listed[3]];
    assert SortByStars(Listed) == Insert(Listed[0], t);
    assert Insert(Listed[0], [Listed[3]]) == [Listed[0], Listed[3]];
    assert Insert(Listed[0], t[1..]) == [Listed[2], Listed[0], Listed[3]];
  }

  /** The two 30-star repositories lead, Go before Rust as they were listed. */
  lemma ScenarioTopTwo()
    ensures TopRepositories(Listed, 2) == [Repo(2, 30, Some("Go")), Repo(3, 30, Some("Rust"))]
  {
    ScenarioSorted();
  }
}
