/**
 Language distribution: the counting loop of `fetchLanguageStats`. A
 repository is counted under its primary language label when that label is
 truthy; a `null` or empty label is skipped and never counted under any key.
 */
module Languages {
  import opened Js
  import opened Records

  /** The label a repository is counted under: its language, when that is truthy. */
  function LabelOf(repo: Repository): (l: Option<string>)
    ensures l.Some? <==> Truthy(repo.language)
    ensures l.Some? ==> l.value != "" && repo.language == Some(l.value)
  {
    if Truthy(repo.language) then repo.language else None
  }

  /** Reference count: how many repositories carry the label `lang`. */
  function CountLabel(repos: seq<Repository>, lang: string): nat {
    if repos == [] then 0
    else CountLabel(repos[..|repos| - 1], lang)
         + (if LabelOf(repos[|repos| - 1]) == Some(lang) then 1 else 0)
  }

  /** Reference count: how many repositories carry any label at all. */
  function CountLabelled(repos: seq<Repository>): nat {
    if repos == [] then 0
    else CountLabelled(repos[..|repos| - 1])
         + (if LabelOf(repos[|repos| - 1]).Some? then 1 else 0)
  }

  /** Sum of all counts of a distribution. */
  ghost function Total(m: LanguageStats): nat
    decreases |m|
  {
    if m == map[] then 0
    else
      var k :| k in m;
      assert |m - {k}| < |m| by { assert (m - {k}).Keys < m.Keys; }
      m[k] + Total(m - {k})
  }

  /** `Total` does not depend on which key it removes first. */
  lemma {:induction false} TotalRemove(m: LanguageStats, k: string)
    requires k in m
    ensures Total(m) == m[k] + Total(m - {k})
    decreases |m|
  {
    var j :| j in m && Total(m) == m[j] + Total(m - {j});
    if j != k {
      var mj := m - {j};
      var mk := m - {k};
      assert (m - {j}).Keys < m.Keys;
      assert (m - {k}).Keys < m.Keys;
      TotalRemove(mj, k);
      TotalRemove(mk, j);
      assert mj - {k} == mk - {j};
    }
  }

  /** Counting one more repository under `k` adds one to the total. */
  lemma TotalBump(m: LanguageStats, k: string)
    ensures Total(Bump(m, k)) == Total(m) + 1
  {
    var b := Bump(m, k);
    TotalRemove(b, k);
    if k in m {
      TotalRemove(m, k);
      assert b - {k} == m - {k};
    } else {
      assert b - {k} == m;
    }
  }

  /** One more repository under `lang`; a missing key counts as zero first. */
  function Bump(m: LanguageStats, lang: string): LanguageStats {
    m[lang := (if lang in m then m[lang] else 0) + 1]
  }

  /** One step of the loop: count `repo` if it has a label. */
  function Step(m: LanguageStats, repo: Repository): LanguageStats {
    match LabelOf(repo)
    case Some(lang) => Bump(m, lang)
    case None => m
  }

  /**
   The distribution of `repos`, folded in list order as the loop does. Every
   label is counted exactly, every key is the label of some repository, and
   the counts add up to the number of labelled repositories.
   */
  function LanguageStatsOf(repos: seq<Repository>): (m: LanguageStats)
    ensures forall lang :: lang in m <==> CountLabel(repos, lang) > 0
    ensures forall lang :: lang in m ==> m[lang] == CountLabel(repos, lang)
    ensures "" !in m
    ensures forall lang :: lang in m ==>
              exists i :: 0 <= i < |repos| && repos[i].language == Some(lang)
    ensures Total(m) == CountLabelled(repos)
  {
    if repos == [] then map[]
    else
      var init := repos[..|repos| - 1];
      var last := repos[|repos| - 1];
      var m0 := LanguageStatsOf(init);
      var m := Step(m0, last);
      assert forall lang :: lang in m0 ==>
               exists i :: 0 <= i < |repos| && repos[i].language == Some(lang) by {
        forall lang | lang in m0
          ensures exists i :: 0 <= i < |repos| && repos[i].language == Some(lang)
        {
          var i :| 0 <= i < |init| && init[i].language == Some(lang);
          assert repos[i] == init[i];
        }
      }
      if LabelOf(last).Some? then
        TotalBump(m0, LabelOf(last).value);
        m
      else
        m
  }

  /** The distribution of an empty repository list is empty. */
  lemma EmptyListEmptyStats()
    ensures LanguageStatsOf([]) == map[]
  {
  }

  /** Extending the prefix by one repository is one more loop step. */
  lemma StatsOfPrefix(repos: seq<Repository>, i: nat)
    requires i < |repos|
    ensures LanguageStatsOf(repos[..i + 1]) == Step(LanguageStatsOf(repos[..i]), repos[i])
  {
    assert repos[..i + 1][..i] == repos[..i];
  }

  /** The loop of `fetchLanguageStats`, iterating over `repos` in order. */
  method AggregateLanguages(repos: seq<Repository>) returns (stats: LanguageStats)
    ensures stats == LanguageStatsOf(repos)
    ensures forall lang :: lang in stats <==> CountLabel(repos, lang) > 0
    ensures forall lang :: lang in stats ==> stats[lang] == CountLabel(repos, lang)
  {
    stats := map[];
    var i := 0;
    while i < |repos|
      invariant 0 <= i <= |repos|
      invariant stats == LanguageStatsOf(repos[..i])
    {
      var repo := repos[i];
      if repo.language.Some? && repo.language.value != "" {
        stats := Bump(stats, repo.language.value);
      }
      StatsOfPrefix(repos, i);
      i := i + 1;
    }
    assert repos[..i] == repos;
  }
}
