/** What `analyze_results` makes of a sweep's runs: the runs grouped by their
    four strategy knobs, one summary of statistics per group, and the five
    groups with the highest mean total score
    (players/player_10/sim/monte_carlo.py, the side of its unresolved merge
    that precedes the `=======` markers). */
module SweepAnalysis {
  import opened Common
  import opened Sorting
  import opened RunMetrics

  /** The four strategy knobs a sweep varies; runs are grouped by them. */
  datatype Key = Key(altruism: real, tau: real, epsFresh: real, epsMono: real)

  // ---------------------------------------------------------------------
  // Statistics of a list of values
  // ---------------------------------------------------------------------

  /** `_stat`: mean, spread, extremes and count of a list; all zero for an
      empty list. The spread is kept as the sample variance, the square of
      the standard deviation `_calculate_std` reports. */
  datatype Stat = Stat(mean: real, variance: real, min: real, max: real, count: nat)

  const EmptyStat := Stat(0.0, 0.0, 0.0, 0.0, 0)

  /** Sum of the squared deviations of the values from `m`. */
  function SquaredDeviations(xs: seq<real>, m: real): (r: real)
    ensures r >= 0.0
  {
    if xs == [] then 0.0
    else
      var d := xs[0] - m;
      assert d * d >= 0.0 by {
        if d < 0.0 {
          assert d * d > 0.0;
        }
      }
      d * d + SquaredDeviations(xs[1..], m)
  }

  /** `_calculate_std` before its square root: 0 for fewer than two values,
      otherwise the squared deviations from the mean over `n - 1`. */
  function SampleVariance(xs: seq<real>): (v: real)
    ensures v >= 0.0
  {
    if |xs| < 2 then 0.0 else SquaredDeviations(xs, Mean(xs)) / ((|xs| - 1) as real)
  }

  lemma {:induction false} SquaredDeviationsAtValue(xs: seq<real>, m: real)
    requires forall k :: 0 <= k < |xs| ==> xs[k] == m
    ensures SquaredDeviations(xs, m) == 0.0
  {
    if xs != [] {
      var rest := xs[1..];
      assert forall k :: 0 <= k < |rest| ==> rest[k] == xs[k + 1];
      SquaredDeviationsAtValue(rest, m);
      assert xs[0] - m == 0.0;
    }
  }

  /** A list of equal values has mean that value. */
  lemma MeanOfConstant(xs: seq<real>, c: real)
    requires xs != [] && forall k :: 0 <= k < |xs| ==> xs[k] == c
    ensures Mean(xs) == c
  {
    MeanBounds(xs, c, c);
  }

  /** Equal values have no spread: their mean is that value and their
      variance is zero. */
  lemma {:induction false} ConstantStat(xs: seq<real>, c: real)
    requires xs != [] && forall k :: 0 <= k < |xs| ==> xs[k] == c
    ensures StatOf(xs) == Stat(c, 0.0, c, c, |xs|)
  {
    MeanOfConstant(xs, c);
    if |xs| >= 2 {
      SquaredDeviationsAtValue(xs, c);
    }
    assert MinOf(xs) in xs && MaxOf(xs) in xs;
  }

  /** `_stat` (and the `total_score` summary, which is the same on a
      non-empty list). */
  function StatOf(xs: seq<real>): Stat
  {
    if xs == [] then EmptyStat
    else Stat(Mean(xs), SampleVariance(xs), MinOf(xs), MaxOf(xs), |xs|)
  }

  /** The statistics count the values; an empty list gives all zeros; the mean
      lies between the extremes, which are values of the list bounding all
      the others; the spread is never negative. */
  lemma StatSpec(xs: seq<real>)
    ensures StatOf(xs).count == |xs|
    ensures xs == [] ==> StatOf(xs) == EmptyStat
    ensures xs != [] ==>
      var s := StatOf(xs);
      && s.min in xs && s.max in xs
      && (forall k :: 0 <= k < |xs| ==> s.min <= xs[k] <= s.max)
      && s.min <= s.mean <= s.max
      && s.variance >= 0.0
  {
    if xs != [] {
      MeanBounds(xs, MinOf(xs), MaxOf(xs));
    }
  }

  // ---------------------------------------------------------------------
  // Columns of a group of runs
  // ---------------------------------------------------------------------

  function TotalScoreOf(r: RunRecord): real { r.totalScore }
  function BestTotalOf(r: RunRecord): real { r.bestTotalScore }
  function LengthOf(r: RunRecord): real { r.conversationLength as real }
  function EarlyOf(r: RunRecord): real { if r.earlyTermination then 1.0 else 0.0 }
  function PausesOf(r: RunRecord): real { r.pauseCount as real }
  function UniqueOf(r: RunRecord): real { r.uniqueItemsUsed as real }
  function P10TotalOf(r: RunRecord): Option<real> { r.p10TotalMean }
  function P10IndividualOf(r: RunRecord): Option<real> { r.p10IndividualMean }
  function P10RankOf(r: RunRecord): Option<real> { r.p10RankMean }
  function P10GapOf(r: RunRecord): Option<real> { r.p10GapToBest }

  /** `[f(r) for r in rs]`. */
  function Column(rs: seq<RunRecord>, f: RunRecord -> real): (c: seq<real>)
    ensures |c| == |rs| && forall k :: 0 <= k < |rs| ==> c[k] == f(rs[k])
  {
    seq(|rs|, k requires 0 <= k < |rs| => f(rs[k]))
  }

  /** `[f(r) for r in rs if f(r) is not None]`. */
  function PresentColumn(rs: seq<RunRecord>, f: RunRecord -> Option<real>): (c: seq<real>)
    ensures |c| <= |rs|
  {
    if rs == [] then []
    else
      PresentColumn(rs[..|rs| - 1], f)
      + (if f(rs[|rs| - 1]).Some? then [f(rs[|rs| - 1]).value] else [])
  }

  /** The present column has one value per run where `f` is present, and
      every value of it is one of those. */
  lemma {:induction false} PresentColumnSpec(rs: seq<RunRecord>, f: RunRecord -> Option<real>, lo: real)
    ensures (forall k :: 0 <= k < |rs| ==> f(rs[k]).None?) <==> PresentColumn(rs, f) == []
    ensures (forall k :: 0 <= k < |rs| ==> f(rs[k]).Some? ==> f(rs[k]).value >= lo) ==>
      forall j :: 0 <= j < |PresentColumn(rs, f)| ==> PresentColumn(rs, f)[j] >= lo
  {
    if rs != [] {
      var front := rs[..|rs| - 1];
      PresentColumnSpec(front, f, lo);
      assert forall k :: 0 <= k < |front| ==> front[k] == rs[k];
    }
  }

  // ---------------------------------------------------------------------
  // Score components
  // ---------------------------------------------------------------------

  /** The pairs of a score breakdown other than `total`, in order. */
  function NonTotal(b: ODict<string, real>): (r: seq<(string, real)>)
    ensures |r| <= |b|
  {
    if b == [] then []
    else NonTotal(b[..|b| - 1]) + (if b[|b| - 1].0 == "total" then [] else [b[|b| - 1]])
  }

  /** Every (component, value) the component loop visits, run by run. */
  function ComponentPairs(rs: seq<RunRecord>): seq<(string, real)>
  {
    if rs == [] then [] else ComponentPairs(rs[..|rs| - 1]) + NonTotal(rs[|rs| - 1].breakdown)
  }

  /** `score_components`: each component's values, in the order visited. */
  function ComponentLists(rs: seq<RunRecord>): ODict<string, seq<real>>
  {
    AppendAll([], ComponentPairs(rs))
  }

  /** `{component: _stat(values) for component, values in ...}`. */
  function StatEach(d: ODict<string, seq<real>>): (r: ODict<string, Stat>)
    ensures |r| == |d| && forall k :: 0 <= k < |d| ==> r[k] == (d[k].0, StatOf(d[k].1))
  {
    seq(|d|, k requires 0 <= k < |d| => (d[k].0, StatOf(d[k].1)))
  }

  lemma {:induction false} NoTotalPairs(rs: seq<RunRecord>)
    ensures ValuesFor(ComponentPairs(rs), "total") == []
  {
    if rs != [] {
      var front := rs[..|rs| - 1];
      NoTotalPairs(front);
      NonTotalValues(rs[|rs| - 1].breakdown);
      ValuesForAppend(ComponentPairs(front), NonTotal(rs[|rs| - 1].breakdown), "total");
    }
  }

  lemma {:induction false} NonTotalValues(b: ODict<string, real>)
    ensures ValuesFor(NonTotal(b), "total") == []
  {
    if b != [] {
      var front := b[..|b| - 1];
      NonTotalValues(front);
      var tail := if b[|b| - 1].0 == "total" then [] else [b[|b| - 1]];
      ValuesForAppend(NonTotal(front), tail, "total");
      if tail != [] {
        assert tail[..0] == [];
      }
    }
  }

  lemma {:induction false} ValuesForAppend<K, V>(a: seq<(K, V)>, b: seq<(K, V)>, q: K)
    ensures ValuesFor(a + b, q) == ValuesFor(a, q) + ValuesFor(b, q)
    decreases |b|
  {
    if b == [] {
      assert a + b == a;
    } else {
      var front := b[..|b| - 1];
      ValuesForAppend(a, front, q);
      assert (a + b)[..|a + b| - 1] == a + front;
      assert (a + b)[|a + b| - 1] == b[|b| - 1];
    }
  }

  /** The components never include `total`; each is listed once, with the
      values of that component over the group's runs, in order. */
  lemma ComponentsSpec(rs: seq<RunRecord>, c: string)
    ensures !HasKey(ComponentLists(rs), "total")
    ensures DistinctKeys(ComponentLists(rs))
    ensures ListOf(ComponentLists(rs), c) == ValuesFor(ComponentPairs(rs), c)
  {
    var pairs := ComponentPairs(rs);
    var none: ODict<string, seq<real>> := [];
    assert !HasKey(ComponentLists(rs), "total") by {
      NoTotalPairs(rs);
      AppendAllListOf(none, pairs, "total");
    }
    assert DistinctKeys(ComponentLists(rs)) by {
      AppendAllKeepsDistinct(none, pairs);
    }
    assert ListOf(ComponentLists(rs), c) == ValuesFor(pairs, c) by {
      AppendAllListOf(none, pairs, c);
      assert ListOf(none, c) == [];
    }
  }

  // ---------------------------------------------------------------------
  // One configuration's summary
  // ---------------------------------------------------------------------

  datatype Summary = Summary(
    config: Key,
    totalScore: Stat,
    p10Score: Stat,
    p10Individual: Stat,
    p10Rank: Stat,
    p10GapToBest: Stat,
    bestTotalScore: Stat,
    avgLength: real,
    earlyTerminationRate: real,
    avgPauseCount: real,
    avgUniqueItems: real,
    components: ODict<string, Stat>)

  /** The summary of one group of runs. */
  function Summarize(key: Key, rs: seq<RunRecord>): Summary
  {
    Summary(
      key,
      StatOf(Column(rs, TotalScoreOf)),
      StatOf(PresentColumn(rs, P10TotalOf)),
      StatOf(PresentColumn(rs, P10IndividualOf)),
      StatOf(PresentColumn(rs, P10RankOf)),
      StatOf(PresentColumn(rs, P10GapOf)),
      StatOf(Column(rs, BestTotalOf)),
      Mean(Column(rs, LengthOf)),
      Mean(Column(rs, EarlyOf)),
      Mean(Column(rs, PausesOf)),
      Mean(Column(rs, UniqueOf)),
      StatEach(ComponentLists(rs)))
  }

  /** A group's total-score statistics count its runs and bound every run's
      total; Player 10's statistics are empty exactly when no run had a
      Player 10, and its gap statistics are non-negative when every run's gap
      is; the early-termination rate is a fraction; the components exclude
      `total`. */
  lemma SummarySpec(key: Key, rs: seq<RunRecord>)
    requires rs != []
    ensures var s := Summarize(key, rs);
      && s.config == key
      && s.totalScore.count == |rs|
      && (forall k :: 0 <= k < |rs| ==> s.totalScore.min <= rs[k].totalScore <= s.totalScore.max)
      && s.totalScore.min <= s.totalScore.mean <= s.totalScore.max
      && s.p10Score.count <= |rs|
      && (s.p10Score == EmptyStat <==> forall k :: 0 <= k < |rs| ==> rs[k].p10TotalMean.None?)
      && ((forall k :: 0 <= k < |rs| ==> rs[k].p10GapToBest.Some? ==> rs[k].p10GapToBest.value >= 0.0) ==>
            s.p10GapToBest.min >= 0.0 && s.p10GapToBest.mean >= 0.0)
      && 0.0 <= s.earlyTerminationRate <= 1.0
      && |s.components| == |ComponentLists(rs)|
      && (forall k :: 0 <= k < |s.components| ==> s.components[k].0 != "total")
  {
    var s := Summarize(key, rs);
    assert s.totalScore == StatOf(Column(rs, TotalScoreOf));
    TotalStat(rs);
    assert s.p10Score == StatOf(PresentColumn(rs, P10TotalOf));
    P10Stat(rs);
    assert (forall k :: 0 <= k < |rs| ==> rs[k].p10GapToBest.Some? ==> rs[k].p10GapToBest.value >= 0.0) ==>
      s.p10GapToBest.min >= 0.0 && s.p10GapToBest.mean >= 0.0
    by {
      assert s.p10GapToBest == StatOf(PresentColumn(rs, P10GapOf));
      GapStat(rs);
    }
    assert 0.0 <= s.earlyTerminationRate <= 1.0 by {
      assert s.earlyTerminationRate == Mean(Column(rs, EarlyOf));
      EarlyRate(rs);
    }
    assert forall k :: 0 <= k < |s.components| ==> s.components[k].0 != "total" by {
      assert s.components == StatEach(ComponentLists(rs));
      ComponentKeys(rs);
    }
  }

  /** The total-score statistics count every run and bound every total. */
  lemma TotalStat(rs: seq<RunRecord>)
    requires rs != []
    ensures var st := StatOf(Column(rs, TotalScoreOf));
      && st.count == |rs|
      && (forall k :: 0 <= k < |rs| ==> st.min <= rs[k].totalScore <= st.max)
      && st.min <= st.mean <= st.max
  {
    var totals := Column(rs, TotalScoreOf);
    StatSpec(totals);
    assert forall k :: 0 <= k < |rs| ==> totals[k] == rs[k].totalScore;
  }

  /** Player 10's statistics count at most every run, and are empty exactly
      when no run had a Player 10. */
  lemma P10Stat(rs: seq<RunRecord>)
    ensures var st := StatOf(PresentColumn(rs, P10TotalOf));
      st.count <= |rs| && (st == EmptyStat <==> forall k :: 0 <= k < |rs| ==> rs[k].p10TotalMean.None?)
  {
    var p10 := PresentColumn(rs, P10TotalOf);
    PresentColumnSpec(rs, P10TotalOf, 0.0);
    StatSpec(p10);
  }

  /** Non-negative gaps give non-negative gap statistics. */
  lemma GapStat(rs: seq<RunRecord>)
    ensures (forall k :: 0 <= k < |rs| ==> rs[k].p10GapToBest.Some? ==> rs[k].p10GapToBest.value >= 0.0) ==>
      StatOf(PresentColumn(rs, P10GapOf)).min >= 0.0 && StatOf(PresentColumn(rs, P10GapOf)).mean >= 0.0
  {
    var gaps := PresentColumn(rs, P10GapOf);
    PresentColumnSpec(rs, P10GapOf, 0.0);
    StatSpec(gaps);
    if gaps != [] {
      assert StatOf(gaps).min in gaps;
    }
  }

  /** The early-termination rate is a mean of zeros and ones. */
  lemma EarlyRate(rs: seq<RunRecord>)
    ensures 0.0 <= Mean(Column(rs, EarlyOf)) <= 1.0
  {
    var e := Column(rs, EarlyOf);
    if e != [] {
      forall k | 0 <= k < |e| ensures 0.0 <= e[k] <= 1.0 {
        assert e[k] == EarlyOf(rs[k]);
      }
      MeanBounds(e, 0.0, 1.0);
    }
  }

  /** No component statistic is filed under `total`. */
  lemma ComponentKeys(rs: seq<RunRecord>)
    ensures forall k :: 0 <= k < |StatEach(ComponentLists(rs))| ==> StatEach(ComponentLists(rs))[k].0 != "total"
  {
    var lists := ComponentLists(rs);
    ComponentsSpec(rs, "total");
    forall k | 0 <= k < |lists| ensures lists[k].0 != "total" {
      assert Keys(lists)[k] == lists[k].0;
    }
  }

  // ---------------------------------------------------------------------
  // Grouping and ranking the configurations
  // ---------------------------------------------------------------------

  /** `config_groups`: the runs of each key, keys in order of first run. */
  function Groups(runs: seq<(Key, RunRecord)>): ODict<Key, seq<RunRecord>>
  {
    AppendAll([], runs)
  }

  lemma {:induction false} ValuesForEmpty<K, V>(kvs: seq<(K, V)>, q: K)
    ensures ValuesFor(kvs, q) == [] <==> forall i :: 0 <= i < |kvs| ==> kvs[i].0 != q
  {
    if kvs != [] {
      var front := kvs[..|kvs| - 1];
      ValuesForEmpty(front, q);
      assert forall i :: 0 <= i < |front| ==> front[i] == kvs[i];
    }
  }

  /** Each key is grouped once; a key has a group exactly when some run has
      it, and its group holds exactly its runs, in order; no group is empty. */
  lemma GroupsSpec(runs: seq<(Key, RunRecord)>, q: Key)
    ensures DistinctKeys(Groups(runs))
    ensures HasKey(Groups(runs), q) <==> exists i :: 0 <= i < |runs| && runs[i].0 == q
    ensures ListOf(Groups(runs), q) == ValuesFor(runs, q)
    ensures forall k :: 0 <= k < |Groups(runs)| ==> Groups(runs)[k].1 != []
  {
    var g := Groups(runs);
    var none: ODict<Key, seq<RunRecord>> := [];
    assert DistinctKeys(g) by {
      AppendAllKeepsDistinct(none, runs);
    }
    assert ListOf(g, q) == ValuesFor(runs, q) && (HasKey(g, q) <==> ValuesFor(runs, q) != []) by {
      AppendAllListOf(none, runs, q);
      assert ListOf(none, q) == [];
    }
    ValuesForEmpty(runs, q);
    forall k | 0 <= k < |g| ensures g[k].1 != [] {
      GroupNonEmpty(runs, k);
    }
  }

  lemma GroupNonEmpty(runs: seq<(Key, RunRecord)>, k: nat)
    requires k < |Groups(runs)|
    ensures Groups(runs)[k].1 != []
  {
    var g := Groups(runs);
    var q := g[k].0;
    AppendAllKeepsDistinct([], runs);
    AppendAllListOf([], runs, q);
    assert HasKey(g, q) by {
      assert Keys(g)[k] == q;
    }
    GetUnique(g, k);
  }

  function Second(p: (Key, real)): real { p.1 }

  /** `[(k, g(v)) for k, v in d]`. */
  function Scored<K, B>(d: seq<(K, B)>, g: B -> real): (r: seq<(K, real)>)
    ensures |r| == |d|
    ensures forall k :: 0 <= k < |r| ==> r[k] == (d[k].0, g(d[k].1))
  {
    seq(|d|, k requires 0 <= k < |d| => (d[k].0, g(d[k].1)))
  }

  function MeanTotal(s: Summary): real { s.totalScore.mean }

  /** The (key, mean total score) pairs, one per summary, in group order. */
  function ConfigScores(summaries: ODict<Key, Summary>): (r: seq<(Key, real)>)
  {
    Scored(summaries, MeanTotal)
  }

  /** `config_scores.sort(key=..., reverse=True)` then `[:5]`. */
  function Best(scores: seq<(Key, real)>): seq<(Key, real)>
  {
    Take(SortDesc(scores, Second), 5)
  }

  /** The best list holds five configurations, or all of them when there are
      fewer, by descending mean score. */
  lemma BestSorted(scores: seq<(Key, real)>)
    ensures |Best(scores)| == if |scores| < 5 then |scores| else 5
    ensures forall i, j :: 0 <= i < j < |Best(scores)| ==> Best(scores)[i].1 >= Best(scores)[j].1
  {
    var sorted := SortDesc(scores, Second);
    SortDescSorted(scores, Second);
    assert forall i :: 0 <= i < |Best(scores)| ==> Best(scores)[i] == sorted[i];
  }

  /** The best list is drawn from the scores, and nothing left out scores
      above anything kept. */
  lemma BestDominates(scores: seq<(Key, real)>)
    ensures multiset(Best(scores)) <= multiset(scores)
    ensures forall p :: p in multiset(scores) - multiset(Best(scores)) ==>
      forall i :: 0 <= i < |Best(scores)| ==> p.1 <= Best(scores)[i].1
  {
    var sorted := SortDesc(scores, Second);
    var best := Best(scores);
    assert sorted == best + sorted[|best|..];
    SortDescSorted(scores, Second);
    PrefixDominates(sorted, |best|);
  }

  /** In a list sorted by descending score, whatever is left after a prefix
      scores no more than anything in the prefix. */
  lemma PrefixDominates(s: seq<(Key, real)>, n: nat)
    requires n <= |s|
    requires forall i, j :: 0 <= i < j < |s| ==> s[i].1 >= s[j].1
    ensures forall p :: p in multiset(s) - multiset(s[..n]) ==> forall i :: 0 <= i < n ==> p.1 <= s[i].1
  {
    var rest := s[n..];
    assert s == s[..n] + rest;
    assert multiset(s) - multiset(s[..n]) == multiset(rest);
    forall p: (Key, real) | p in multiset(rest) ensures forall i :: 0 <= i < n ==> p.1 <= s[i].1 {
      var j :| 0 <= j < |rest| && rest[j] == p;
      assert s[n + j] == p;
    }
  }

  /** Distinct configurations stay distinct in the best list. */
  lemma BestDistinct(scores: seq<(Key, real)>)
    requires Injective(scores, (p: (Key, real)) => p.0)
    ensures Injective(Best(scores), (p: (Key, real)) => p.0)
  {
    SortDescInjective(scores, Second, (p: (Key, real)) => p.0);
  }

  /** `[(k, f(k, v)) for k, v in d]`. */
  function MapValues<K, A, B>(d: seq<(K, A)>, f: (K, A) -> B): (r: seq<(K, B)>)
    ensures |r| == |d|
    ensures forall k :: 0 <= k < |d| ==> r[k] == (d[k].0, f(d[k].0, d[k].1))
  {
    seq(|d|, k requires 0 <= k < |d| => (d[k].0, f(d[k].0, d[k].1)))
  }

  /** The summaries, one per group in group order. */
  function Summaries(groups: ODict<Key, seq<RunRecord>>): (r: ODict<Key, Summary>)
  {
    MapValues(groups, Summarize)
  }

  datatype Analysis = Analysis(
    totalSimulations: nat,
    uniqueConfigurations: nat,
    summaries: ODict<Key, Summary>,
    best: seq<(Key, real)>)

  /** `analyze_results` on the (key, run) pairs of the results: `{}` (None)
      when there are none. */
  function Analyze(runs: seq<(Key, RunRecord)>): Option<Analysis>
  {
    if runs == [] then None
    else
      var groups := Groups(runs);
      var summaries := Summaries(groups);
      Some(Analysis(|runs|, |groups|, summaries, Best(ConfigScores(summaries))))
  }

  /** No runs, no analysis; otherwise one summary per distinct key, at least
      one and at most one per run, summarising exactly that key's runs. */
  lemma AnalyzeSpec(runs: seq<(Key, RunRecord)>)
    ensures Analyze(runs).None? <==> runs == []
    ensures runs != [] ==>
      var a := Analyze(runs).value;
      && a.totalSimulations == |runs|
      && a.uniqueConfigurations == |a.summaries|
      && 1 <= a.uniqueConfigurations <= |runs|
      && DistinctKeys(a.summaries)
      && (forall k :: 0 <= k < |a.summaries| ==>
            a.summaries[k].1 == Summarize(a.summaries[k].0, ValuesFor(runs, a.summaries[k].0)))
  {
    if runs != [] {
      var g := Groups(runs);
      var s := Summaries(g);
      assert Analyze(runs).value == Analysis(|runs|, |g|, s, Best(ConfigScores(s)));
      assert 1 <= |g| <= |runs| by {
        GroupsSpec(runs, runs[0].0);
        GroupsBound(runs);
      }
      SummariesSpec(runs);
    }
  }

  /** The best list holds at most five configurations, none twice, by
      descending mean score. */
  lemma AnalyzeBest(runs: seq<(Key, RunRecord)>)
    requires runs != []
    ensures var best := Analyze(runs).value.best;
      && |best| <= 5
      && Injective(best, (p: (Key, real)) => p.0)
      && (forall i, j :: 0 <= i < j < |best| ==> best[i].1 >= best[j].1)
  {
    var cs := ConfigScores(Summaries(Groups(runs)));
    assert Analyze(runs).value.best == Best(cs);
    BestConfigsDistinct(runs);
    BestSorted(cs);
  }

  /** One summary per group, of that key's runs. */
  lemma SummariesSpec(runs: seq<(Key, RunRecord)>)
    ensures var s := Summaries(Groups(runs));
      && DistinctKeys(s)
      && forall k :: 0 <= k < |s| ==> s[k].1 == Summarize(s[k].0, ValuesFor(runs, s[k].0))
  {
    var g := Groups(runs);
    var s := Summaries(g);
    assert DistinctKeys(s) by {
      AppendAllKeepsDistinct([], runs);
      assert forall k :: 0 <= k < |s| ==> s[k].0 == g[k].0;
    }
    forall k | 0 <= k < |s|
      ensures s[k].1 == Summarize(s[k].0, ValuesFor(runs, s[k].0))
    {
      GroupValues(runs, k);
    }
  }

  /** The best list never names a configuration twice. */
  lemma BestConfigsDistinct(runs: seq<(Key, RunRecord)>)
    ensures Injective(Best(ConfigScores(Summaries(Groups(runs)))), (p: (Key, real)) => p.0)
  {
    var g := Groups(runs);
    var cs := ConfigScores(Summaries(g));
    AppendAllKeepsDistinct([], runs);
    assert forall k :: 0 <= k < |cs| ==> cs[k].0 == g[k].0;
    BestDistinct(cs);
  }

  /** Group `k` holds the runs of its key. */
  lemma GroupValues(runs: seq<(Key, RunRecord)>, k: nat)
    requires k < |Groups(runs)|
    ensures Groups(runs)[k].1 == ValuesFor(runs, Groups(runs)[k].0)
  {
    var g := Groups(runs);
    var q := g[k].0;
    AppendAllKeepsDistinct([], runs);
    AppendAllListOf([], runs, q);
    assert HasKey(g, q) by {
      assert Keys(g)[k] == q;
    }
    GetUnique(g, k);
  }

  /** There are never more groups than runs. */
  lemma {:induction false} GroupsBound(runs: seq<(Key, RunRecord)>)
    ensures |Groups(runs)| <= |runs|
  {
    if runs != [] {
      var front := runs[..|runs| - 1];
      GroupsBound(front);
      var (q, r) := runs[|runs| - 1];
      PutShape(Groups(front), q, ListOf(Groups(front), q) + [r]);
      assert Groups(runs) == Put(Groups(front), q, ListOf(Groups(front), q) + [r]);
    }
  }

  /** `config_groups`, built run by run. */
  method GroupRuns(runs: seq<(Key, RunRecord)>) returns (groups: ODict<Key, seq<RunRecord>>)
    ensures groups == Groups(runs)
  {
    groups := [];
    for i := 0 to |runs|
      invariant groups == AppendAll([], runs[..i])
    {
      assert runs[..i + 1][..i] == runs[..i];
      groups := AppendTo(groups, runs[i].0, runs[i].1);
    }
    assert runs[..|runs|] == runs;
  }

  /** The summary loop of `analyze_results`, for any summary `f` and score
      `g`: each group's summary and its score, in group order. */
  method SummarizeGroups<K, A, B>(groups: seq<(K, A)>, f: (K, A) -> B, g: B -> real)
    returns (summaries: seq<(K, B)>, scores: seq<(K, real)>)
    ensures summaries == MapValues(groups, f)
    ensures scores == Scored(summaries, g)
  {
    summaries := [];
    scores := [];
    for j := 0 to |groups|
      invariant |summaries| == |scores| == j
      invariant forall k :: 0 <= k < j ==> summaries[k] == (groups[k].0, f(groups[k].0, groups[k].1))
      invariant forall k :: 0 <= k < j ==> scores[k] == (summaries[k].0, g(summaries[k].1))
    {
      var s := f(groups[j].0, groups[j].1);
      summaries := summaries + [(groups[j].0, s)];
      scores := scores + [(groups[j].0, g(s))];
    }
  }
}
