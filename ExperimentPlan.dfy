/** The plan of `run_manual_experiments` (players/player_10/tools/manual_dashboard.py),
    independent of what a run produces: rosters crossed with the two
    altruism settings, each group run over the seeds in order, the results
    collected in loop order and each group's totals kept under its key. */
module ExperimentPlan {
  import opened Common
  import SweepAnalysis

  /** `p10_config`: the module-level setting Player10 reads while it plays. */
  class Player10Settings {
    var altruismUseProb: real

    constructor (p: real)
      ensures altruismUseProb == p
    {
      altruismUseProb := p;
    }
  }

  /** The two altruism settings, `(0.0, 0.6)`, by position. */
  function AltruismAt(j: nat): real
  {
    if j == 0 then 0.0 else 0.6
  }

  /** `f'{value:.1f}'` for the two altruism settings. */
  function AltruismText(j: nat): string
  {
    if j == 0 then "0.0" else "0.6"
  }

  /** `f'{roster_name} | altruism={altruism_value:.1f}'`. */
  function GroupKey(name: string, j: nat): (key: string)
    ensures |key| == |name| + 15
  {
    name + " | altruism=" + AltruismText(j)
  }

  /** Different rosters or settings never share a key: the suffix has a
      fixed length, so the key gives back the name, and its last character
      the setting. */
  lemma GroupKeyInjective(n1: string, j1: nat, n2: string, j2: nat)
    requires j1 < 2 && j2 < 2
    requires GroupKey(n1, j1) == GroupKey(n2, j2)
    ensures n1 == n2 && j1 == j2
  {
    var k1 := GroupKey(n1, j1);
    var k2 := GroupKey(n2, j2);
    assert n1 == k1[..|n1|] && n2 == k2[..|n2|];
    assert k1[|k1| - 1] == AltruismText(j1)[2] && k2[|k2| - 1] == AltruismText(j2)[2];
  }

  /** A run of an engine built from a roster and a seed at an altruism
      setting, and the result made of it; `Raises` when building the result
      raises. */
  type Runner<R> = (seq<string>, int, real) -> Outcome<R>

  /** A list of results' values, in order. */
  function Totals<R>(rs: seq<R>, total: R -> real): (r: seq<real>)
    ensures |r| == |rs| && forall k :: 0 <= k < |rs| ==> r[k] == total(rs[k])
  {
    seq(|rs|, k requires 0 <= k < |rs| => total(rs[k]))
  }

  /** One roster at one setting over the seeds, in order; the first run that
      raises ends the experiment. */
  function SeedRuns<R>(run: Runner<R>, roster: seq<string>, a: real, seeds: seq<int>): Outcome<seq<R>>
  {
    if seeds == [] then Returns([])
    else
      match SeedRuns(run, roster, a, seeds[..|seeds| - 1])
      case Raises => Raises
      case Returns(rs) =>
        match run(roster, seeds[|seeds| - 1], a)
        case Raises => Raises
        case Returns(res) => Returns(rs + [res])
  }

  /** A group's runs succeed exactly when every seed's run does; then they
      are the seeds' results in seed order. */
  lemma {:induction false} SeedRunsSpec<R>(run: Runner<R>, roster: seq<string>, a: real, seeds: seq<int>)
    ensures SeedRuns(run, roster, a, seeds).Returns? <==> forall k :: 0 <= k < |seeds| ==> run(roster, seeds[k], a).Returns?
    ensures SeedRuns(run, roster, a, seeds).Returns? ==>
      var rs := SeedRuns(run, roster, a, seeds).value;
      |rs| == |seeds| && forall k :: 0 <= k < |seeds| ==> rs[k] == run(roster, seeds[k], a).value
  {
    if seeds != [] {
      var n := |seeds| - 1;
      var front := seeds[..n];
      SeedRunsSpec(run, roster, a, front);
      assert forall k :: 0 <= k < n ==> front[k] == seeds[k];
    }
  }

  /** A group of runs: a roster, by name, at the setting `AltruismAt(j)`. */
  datatype Group = Group(name: string, roster: seq<string>, j: nat)

  /** The groups in loop order: each roster at 0.0, then at 0.6. */
  function GroupsOf(rosters: ODict<string, seq<string>>): (r: seq<Group>)
    ensures |r| == 2 * |rosters|
  {
    if rosters == [] then []
    else
      var (name, roster) := rosters[|rosters| - 1];
      var front := GroupsOf(rosters[..|rosters| - 1]);
      front + [Group(name, roster, 0), Group(name, roster, 1)]
  }

  /** Roster `i` makes groups `2i` (at 0.0) and `2i + 1` (at 0.6). */
  lemma {:induction false} GroupsOfAt(rosters: ODict<string, seq<string>>, i: nat, j: nat)
    requires i < |rosters| && j < 2
    ensures GroupsOf(rosters)[2 * i + j] == Group(rosters[i].0, rosters[i].1, j)
  {
    var n := |rosters| - 1;
    if i < n {
      var front := rosters[..n];
      assert front[i] == rosters[i];
      GroupsOfAt(front, i, j);
      assert GroupsOf(rosters)[2 * i + j] == GroupsOf(front)[2 * i + j];
    }
  }

  /** A group's runs: its roster at its setting over the seeds. */
  function GroupRuns<R>(run: Runner<R>, g: Group, seeds: seq<int>): Outcome<seq<R>>
  {
    SeedRuns(run, g.roster, AltruismAt(g.j), seeds)
  }

  /** The experiment so far, extended by one more group. */
  function Extend<R>(sofar: Outcome<(seq<R>, ODict<string, seq<real>>)>, run: Runner<R>, total: R -> real,
                     g: Group, seeds: seq<int>): Outcome<(seq<R>, ODict<string, seq<real>>)>
  {
    match sofar
    case Raises => Raises
    case Returns((results, aggregates)) =>
      match GroupRuns(run, g, seeds)
      case Raises => Raises
      case Returns(rs) => Returns((results + rs, Put(aggregates, GroupKey(g.name, g.j), Totals(rs, total))))
  }

  /** The experiment loop over the groups: every run's result in order, and
      for each group's key the list of its run totals. */
  function Experiments<R>(run: Runner<R>, total: R -> real, groups: seq<Group>, seeds: seq<int>): Outcome<(seq<R>, ODict<string, seq<real>>)>
  {
    if groups == [] then Returns(([], []))
    else Extend(Experiments(run, total, groups[..|groups| - 1], seeds), run, total, groups[|groups| - 1], seeds)
  }

  /** A group's summary: the mean of its totals and their population
      variance (`stats.pstdev` before its square root; 0.0 for one value). */
  datatype Spread = Spread(mean: real, variance: real)

  function SpreadOf(values: seq<real>): Spread
  {
    var m := Mean(values);
    Spread(m, if |values| > 1 then SweepAnalysis.SquaredDeviations(values, m) / (|values| as real) else 0.0)
  }

  /** The aggregate summary: one spread per key, in the keys' order. */
  function Summary(aggregates: ODict<string, seq<real>>): (r: ODict<string, Spread>)
    ensures |r| == |aggregates|
    ensures forall k :: 0 <= k < |r| ==> r[k] == (aggregates[k].0, SpreadOf(aggregates[k].1))
  {
    seq(|aggregates|, k requires 0 <= k < |aggregates| => (aggregates[k].0, SpreadOf(aggregates[k].1)))
  }

  /** One more seed: the group so far and the new run decide the outcome. */
  lemma SeedRunsSnoc<R>(run: Runner<R>, roster: seq<string>, a: real, seeds: seq<int>, k: nat)
    requires k < |seeds|
    ensures SeedRuns(run, roster, a, seeds[..k + 1]) ==
      match SeedRuns(run, roster, a, seeds[..k])
      case Raises => Raises
      case Returns(rs) =>
        match run(roster, seeds[k], a)
        case Raises => Raises
        case Returns(res) => Returns(rs + [res])
  {
    assert seeds[..k + 1][..k] == seeds[..k];
  }

  /** A raise among the first `n` seeds ends the whole group. */
  lemma {:induction false} SeedRunsStop<R>(run: Runner<R>, roster: seq<string>, a: real, seeds: seq<int>, n: nat)
    requires n <= |seeds| && SeedRuns(run, roster, a, seeds[..n]).Raises?
    ensures SeedRuns(run, roster, a, seeds).Raises?
    decreases |seeds| - n
  {
    if n < |seeds| {
      assert seeds[..n + 1][..n] == seeds[..n];
      SeedRunsStop(run, roster, a, seeds, n + 1);
    } else {
      assert seeds[..n] == seeds;
    }
  }

  /** Appending a total to a key's list, after the key was given the
      totals so far. */
  lemma AppendTotal<R>(d: ODict<string, seq<real>>, key: string, rs: seq<R>, res: R, total: R -> real)
    ensures HasKey(Put(d, key, Totals(rs, total)), key)
    ensures Put(Put(d, key, Totals(rs, total)), key, Get(Put(d, key, Totals(rs, total)), key) + [total(res)]) ==
            Put(d, key, Totals(rs + [res], total))
  {
    PutThenGet(d, key, Totals(rs, total), key);
    PutTwice(d, key, Totals(rs, total), Totals(rs, total) + [total(res)]);
    assert Totals(rs + [res], total) == Totals(rs, total) + [total(res)];
  }

  /** A raise in the first `n` groups ends the whole experiment. */
  lemma {:induction false} ExperimentsStop<R>(run: Runner<R>, total: R -> real, groups: seq<Group>, seeds: seq<int>, n: nat)
    requires n <= |groups|
    requires Experiments(run, total, groups[..n], seeds).Raises?
    ensures Experiments(run, total, groups, seeds).Raises?
    decreases |groups| - n
  {
    if n < |groups| {
      assert groups[..n + 1][..n] == groups[..n];
      ExperimentsStop(run, total, groups, seeds, n + 1);
    } else {
      assert groups[..n] == groups;
    }
  }

  /** One more group: the groups so far and the new group's seeds decide
      the outcome. */
  lemma ExperimentsSnoc<R>(run: Runner<R>, total: R -> real, groups: seq<Group>, seeds: seq<int>, n: nat)
    requires n < |groups|
    ensures Experiments(run, total, groups[..n + 1], seeds) ==
            Extend(Experiments(run, total, groups[..n], seeds), run, total, groups[n], seeds)
  {
    assert groups[..n + 1][..n] == groups[..n];
  }

  /** The innermost loop: one group's seeds, each run while the setting
      holds the group's altruism value, its result appended to `results`
      and its total to the group's list, which starts out empty. */
  method RunSeeds<R>(settings: Player10Settings, run: Runner<R>, total: R -> real, roster: seq<string>, j: nat,
                     seeds: seq<int>, key: string, results0: seq<R>, aggregates0: ODict<string, seq<real>>)
    returns (r: Outcome<(seq<R>, ODict<string, seq<real>>)>)
    requires settings.altruismUseProb == AltruismAt(j)
    ensures r.Returns? <==> SeedRuns(run, roster, AltruismAt(j), seeds).Returns?
    ensures r.Returns? ==>
      var rs := SeedRuns(run, roster, AltruismAt(j), seeds).value;
      r.value == (results0 + rs, Put(aggregates0, key, Totals(rs, total)))
  {
    var a := AltruismAt(j);
    var results := results0;
    var aggregates := Put(aggregates0, key, []);
    ghost var rs: seq<R> := [];
    assert Totals(rs, total) == [];
    for k := 0 to |seeds|
      invariant SeedRuns(run, roster, a, seeds[..k]) == Returns(rs)
      invariant results == results0 + rs
      invariant aggregates == Put(aggregates0, key, Totals(rs, total))
    {
      var seed := seeds[k];
      var result := run(roster, seed, settings.altruismUseProb);
      if result.Raises? {
        assert SeedRuns(run, roster, a, seeds[..k + 1]).Raises? by {
          SeedRunsSnoc(run, roster, a, seeds, k);
        }
        SeedRunsStop(run, roster, a, seeds, k + 1);
        return Raises;
      }
      assert SeedRuns(run, roster, a, seeds[..k + 1]) == Returns(rs + [result.value]) by {
        SeedRunsSnoc(run, roster, a, seeds, k);
      }
      results := results + [result.value];
      AppendTotal(aggregates0, key, rs, result.value, total);
      aggregates := Put(aggregates, key, Get(aggregates, key) + [total(result.value)]);
      rs := rs + [result.value];
    }
    assert seeds[..|seeds|] == seeds;
    r := Returns((results, aggregates));
  }

  /** The first `n` groups of `rosters` come to `v`. */
  ghost predicate Reached<R>(run: Runner<R>, total: R -> real, rosters: ODict<string, seq<string>>, seeds: seq<int>,
                             n: nat, v: Outcome<(seq<R>, ODict<string, seq<real>>)>)
  {
    n <= |GroupsOf(rosters)| && Experiments(run, total, GroupsOf(rosters)[..n], seeds) == v
  }

  /** One pass of the loop over the altruism settings: the setting is
      switched to `AltruismAt(j)` and group `2i + j` is run. */
  method RunGroup<R>(settings: Player10Settings, run: Runner<R>, total: R -> real,
                     rosters: ODict<string, seq<string>>, i: nat, j: nat, seeds: seq<int>, results0: seq<R>, aggregates0: ODict<string, seq<real>>)
    returns (r: Outcome<(seq<R>, ODict<string, seq<real>>)>)
    modifies settings
    requires i < |rosters| && j < 2
    requires Reached(run, total, rosters, seeds, 2 * i + j, Returns((results0, aggregates0)))
    ensures Reached(run, total, rosters, seeds, 2 * i + j + 1, r)
    ensures settings.altruismUseProb == AltruismAt(j)
  {
    var (name, roster) := rosters[i];
    settings.altruismUseProb := AltruismAt(j);
    var key := GroupKey(name, j);
    r := RunSeeds(settings, run, total, roster, j, seeds, key, results0, aggregates0);
    GroupsOfAt(rosters, i, j);
    ExperimentsSnoc(run, total, GroupsOf(rosters), seeds, 2 * i + j);
  }

  /** The loop over the two altruism settings for roster `i`. */
  method RunRoster<R>(settings: Player10Settings, run: Runner<R>, total: R -> real,
                      rosters: ODict<string, seq<string>>, i: nat, seeds: seq<int>, results0: seq<R>, aggregates0: ODict<string, seq<real>>)
    returns (r: Outcome<(seq<R>, ODict<string, seq<real>>)>)
    modifies settings
    requires i < |rosters|
    requires Experiments(run, total, GroupsOf(rosters)[..2 * i], seeds) == Returns((results0, aggregates0))
    ensures r.Returns? ==> Experiments(run, total, GroupsOf(rosters)[..2 * i + 2], seeds) == r
    ensures r.Raises? ==> Experiments(run, total, GroupsOf(rosters), seeds).Raises?
    ensures r.Raises? ==> (settings.altruismUseProb == 0.0 || settings.altruismUseProb == 0.6)
  {
    var results, aggregates := results0, aggregates0;
    for j := 0 to 2
      invariant Reached(run, total, rosters, seeds, 2 * i + j, Returns((results, aggregates)))
    {
      var step := RunGroup(settings, run, total, rosters, i, j, seeds, results, aggregates);
      if step.Raises? {
        assert settings.altruismUseProb == AltruismAt(j);
        ExperimentsStop(run, total, GroupsOf(rosters), seeds, 2 * i + j + 1);
        return Raises;
      }
      results, aggregates := step.value.0, step.value.1;
    }
    r := Returns((results, aggregates));
  }

  /** The experiment loops over any rosters and seeds: the setting is
      switched to each altruism value before its runs and put back after
      the last; a raise leaves it at the value of the group that raised. */
  method RunExperiments<R>(settings: Player10Settings, run: Runner<R>, total: R -> real, rosters: ODict<string, seq<string>>, seeds: seq<int>)
    returns (r: Outcome<(seq<R>, ODict<string, Spread>)>)
    modifies settings
    ensures r.Returns? <==> Experiments(run, total, GroupsOf(rosters), seeds).Returns?
    ensures r.Returns? ==>
      var (results, aggregates) := Experiments(run, total, GroupsOf(rosters), seeds).value;
      r.value == (results, Summary(aggregates))
    ensures r.Returns? ==> settings.altruismUseProb == old(settings.altruismUseProb)
    ensures r.Raises? ==> (settings.altruismUseProb == 0.0 || settings.altruismUseProb == 0.6)
  {
    var original := settings.altruismUseProb;
    var results: seq<R> := [];
    var aggregates: ODict<string, seq<real>> := [];
    ghost var groups := GroupsOf(rosters);
    for i := 0 to |rosters|
      invariant Experiments(run, total, groups[..2 * i], seeds) == Returns((results, aggregates))
    {
      var step := RunRoster(settings, run, total, rosters, i, seeds, results, aggregates);
      if step.Raises? {
        return Raises;
      }
      results, aggregates := step.value.0, step.value.1;
    }
    assert groups[..2 * |rosters|] == groups;
    settings.altruismUseProb := original;
    r := Returns((results, Summary(aggregates)));
  }

  /** The last group's step of a successful experiment: the groups before
      it succeed, its own runs succeed, their results follow the earlier
      ones and its totals are put under its key. */
  lemma ExperimentsLast<R>(run: Runner<R>, total: R -> real, groups: seq<Group>, seeds: seq<int>,
                           results: seq<R>, aggregates: ODict<string, seq<real>>)
    requires groups != []
    requires Experiments(run, total, groups, seeds) == Returns((results, aggregates))
    ensures var n := |groups| - 1;
      Experiments(run, total, groups[..n], seeds).Returns? && GroupRuns(run, groups[n], seeds).Returns? &&
      var (before, beforeAggregates) := Experiments(run, total, groups[..n], seeds).value;
      var rs := GroupRuns(run, groups[n], seeds).value;
      results == before + rs &&
      aggregates == Put(beforeAggregates, GroupKey(groups[n].name, groups[n].j), Totals(rs, total))
  {
  }

  /** The results before the last group, with their aggregates, and the
      last group's results. */
  lemma ExperimentsSplit<R>(run: Runner<R>, total: R -> real, groups: seq<Group>, seeds: seq<int>,
                            results: seq<R>, aggregates: ODict<string, seq<real>>)
    returns (before: seq<R>, beforeAggregates: ODict<string, seq<real>>, rs: seq<R>)
    requires groups != []
    requires Experiments(run, total, groups, seeds) == Returns((results, aggregates))
    ensures Experiments(run, total, groups[..|groups| - 1], seeds) == Returns((before, beforeAggregates))
    ensures GroupRuns(run, groups[|groups| - 1], seeds) == Returns(rs)
    ensures results == before + rs && |before| == Offset(|groups| - 1, |seeds|)
  {
    var n := |groups| - 1;
    ExperimentsLast(run, total, groups, seeds, results, aggregates);
    before, beforeAggregates := Experiments(run, total, groups[..n], seeds).value.0, Experiments(run, total, groups[..n], seeds).value.1;
    rs := GroupRuns(run, groups[n], seeds).value;
    ExperimentsResultCount(run, total, groups[..n], seeds, before, beforeAggregates);
  }

  /** The experiment succeeds exactly when every group's runs do. */
  lemma {:induction false} ExperimentsReturns<R>(run: Runner<R>, total: R -> real, groups: seq<Group>, seeds: seq<int>)
    ensures Experiments(run, total, groups, seeds).Returns? <==>
            forall g :: 0 <= g < |groups| ==> GroupRuns(run, groups[g], seeds).Returns?
  {
    if groups != [] {
      var n := |groups| - 1;
      var front := groups[..n];
      assert forall g :: 0 <= g < n ==> front[g] == groups[g];
      ExperimentsReturns(run, total, front, seeds);
    }
  }

  /** Where group `g`'s results start when every group has `m` of them,
      counted group by group. */
  function Offset(g: nat, m: nat): nat
  {
    if g == 0 then 0 else Offset(g - 1, m) + m
  }

  lemma {:induction false} OffsetIsProduct(g: nat, m: nat)
    ensures Offset(g, m) == g * m
  {
    if g > 0 {
      OffsetIsProduct(g - 1, m);
    }
  }

  /** A result of an earlier group lies before a later group's start. */
  lemma {:induction false} OffsetBelow(g: nat, n: nat, m: nat, k: nat)
    requires g < n && k < m
    ensures Offset(g, m) + k < Offset(n, m)
  {
    if g < n - 1 {
      OffsetBelow(g, n - 1, m, k);
    }
  }

  /** There are `|seeds|` results per group. */
  lemma {:induction false} ExperimentsResultCount<R>(run: Runner<R>, total: R -> real, groups: seq<Group>, seeds: seq<int>,
                                                     results: seq<R>, aggregates: ODict<string, seq<real>>)
    requires Experiments(run, total, groups, seeds) == Returns((results, aggregates))
    ensures |results| == Offset(|groups|, |seeds|)
  {
    if groups != [] {
      var n := |groups| - 1;
      ExperimentsLast(run, total, groups, seeds, results, aggregates);
      var (before, beforeAggregates) := Experiments(run, total, groups[..n], seeds).value;
      ExperimentsResultCount(run, total, groups[..n], seeds, before, beforeAggregates);
      SeedRunsSpec(run, groups[n].roster, AltruismAt(groups[n].j), seeds);
    }
  }

  /** Group `g`'s run with seed `k` succeeded, and its result sits at
      `Offset(g, |seeds|) + k`: the results come group by group, and within
      a group seed by seed. */
  lemma {:induction false} ExperimentsResultAt<R>(run: Runner<R>, total: R -> real, groups: seq<Group>, seeds: seq<int>,
                                                  results: seq<R>, aggregates: ODict<string, seq<real>>, g: nat, k: nat)
    requires Experiments(run, total, groups, seeds) == Returns((results, aggregates))
    requires g < |groups| && k < |seeds|
    ensures Offset(g, |seeds|) + k < |results|
    ensures run(groups[g].roster, seeds[k], AltruismAt(groups[g].j)).Returns?
    ensures results[Offset(g, |seeds|) + k] == run(groups[g].roster, seeds[k], AltruismAt(groups[g].j)).value
  {
    var n := |groups| - 1;
    var front := groups[..n];
    var before, beforeAggregates, rs := ExperimentsSplit(run, total, groups, seeds, results, aggregates);
    if g < n {
      assert front[g] == groups[g];
      OffsetBelow(g, n, |seeds|, k);
      ExperimentsResultAt(run, total, front, seeds, before, beforeAggregates, g, k);
    } else {
      LastGroupResult(run, groups[n], seeds, before, rs, k);
    }
  }

  /** Seed `k`'s run of the last group sits `k` places after the results
      before it. */
  lemma LastGroupResult<R>(run: Runner<R>, grp: Group, seeds: seq<int>, before: seq<R>, rs: seq<R>, k: nat)
    requires GroupRuns(run, grp, seeds) == Returns(rs) && k < |seeds|
    ensures run(grp.roster, seeds[k], AltruismAt(grp.j)).Returns?
    ensures |before| + k < |before + rs|
    ensures (before + rs)[|before| + k] == run(grp.roster, seeds[k], AltruismAt(grp.j)).value
  {
    SeedRunsSpec(run, grp.roster, AltruismAt(grp.j), seeds);
  }

  /** Every group has a key of its own. */
  predicate DistinctGroupKeys(groups: seq<Group>)
  {
    forall g1, g2 :: 0 <= g1 < g2 < |groups| ==>
      GroupKey(groups[g1].name, groups[g1].j) != GroupKey(groups[g2].name, groups[g2].j)
  }

  /** Rosters with distinct names (the keys of a dict) give groups with
      distinct keys. */
  lemma GroupKeysDistinct(rosters: ODict<string, seq<string>>)
    requires DistinctKeys(rosters)
    ensures DistinctGroupKeys(GroupsOf(rosters))
  {
    var groups := GroupsOf(rosters);
    forall g1, g2 | 0 <= g1 < g2 < |groups|
      ensures GroupKey(groups[g1].name, groups[g1].j) != GroupKey(groups[g2].name, groups[g2].j)
    {
      var i1, j1, i2, j2 := g1 / 2, g1 % 2, g2 / 2, g2 % 2;
      assert g1 == 2 * i1 + j1 && g2 == 2 * i2 + j2;
      GroupsOfAt(rosters, i1, j1);
      GroupsOfAt(rosters, i2, j2);
      if GroupKey(groups[g1].name, j1) == GroupKey(groups[g2].name, j2) {
        GroupKeyInjective(groups[g1].name, j1, groups[g2].name, j2);
      }
    }
  }

  /** The groups before the last one have one aggregate each, none under
      the last group's key. */
  lemma {:induction false} EarlierKeys<R>(run: Runner<R>, total: R -> real, groups: seq<Group>, seeds: seq<int>,
                                          before: seq<R>, beforeAggregates: ODict<string, seq<real>>)
    requires DistinctGroupKeys(groups) && groups != []
    requires Experiments(run, total, groups[..|groups| - 1], seeds) == Returns((before, beforeAggregates))
    ensures |beforeAggregates| == |groups| - 1
    ensures forall i :: 0 <= i < |groups| - 1 ==>
      beforeAggregates[i].0 != GroupKey(groups[|groups| - 1].name, groups[|groups| - 1].j)
    decreases |groups|, 0
  {
    var n := |groups| - 1;
    var front := groups[..n];
    assert DistinctGroupKeys(front) by {
      assert forall i :: 0 <= i < n ==> front[i] == groups[i];
    }
    if n == 0 {
      assert front == [];
    } else {
      ExperimentsAggregateAt(run, total, front, seeds, before, beforeAggregates, 0);
      forall i | 0 <= i < n
        ensures beforeAggregates[i].0 != GroupKey(groups[n].name, groups[n].j)
      {
        ExperimentsAggregateAt(run, total, front, seeds, before, beforeAggregates, i);
        assert front[i] == groups[i];
      }
    }
  }

  /** With distinct keys, the aggregates hold one list per group, in group
      order: group `g`'s key and its runs' totals in seed order. */
  lemma {:induction false} ExperimentsAggregateAt<R>(run: Runner<R>, total: R -> real, groups: seq<Group>, seeds: seq<int>,
                                                     results: seq<R>, aggregates: ODict<string, seq<real>>, g: nat)
    requires DistinctGroupKeys(groups)
    requires Experiments(run, total, groups, seeds) == Returns((results, aggregates))
    requires g < |groups|
    ensures |aggregates| == |groups|
    ensures GroupRuns(run, groups[g], seeds).Returns?
    ensures aggregates[g] == (GroupKey(groups[g].name, groups[g].j), Totals(GroupRuns(run, groups[g], seeds).value, total))
    decreases |groups|, 1
  {
    var n := |groups| - 1;
    var front := groups[..n];
    var last := groups[n];
    var key := GroupKey(last.name, last.j);
    ExperimentsLast(run, total, groups, seeds, results, aggregates);
    var (before, beforeAggregates) := Experiments(run, total, front, seeds).value;
    var lastTotals := Totals(GroupRuns(run, last, seeds).value, total);
    assert aggregates == Put(beforeAggregates, key, lastTotals);
    assert |beforeAggregates| == n && aggregates == beforeAggregates + [(key, lastTotals)] by {
      EarlierKeys(run, total, groups, seeds, before, beforeAggregates);
      assert !HasKey(beforeAggregates, key) by {
        assert forall i :: 0 <= i < n ==> Keys(beforeAggregates)[i] != key;
      }
      PutShape(beforeAggregates, key, lastTotals);
    }
    if g < n {
      assert beforeAggregates[g] == (GroupKey(front[g].name, front[g].j), Totals(GroupRuns(run, front[g], seeds).value, total)) by {
        assert DistinctGroupKeys(front) by {
          assert forall i :: 0 <= i < n ==> front[i] == groups[i];
        }
        ExperimentsAggregateAt(run, total, front, seeds, before, beforeAggregates, g);
      }
      assert front[g] == groups[g];
    }
  }

  /** The aggregates, all groups at once. */
  lemma ExperimentsAggregates<R>(run: Runner<R>, total: R -> real, groups: seq<Group>, seeds: seq<int>,
                                 results: seq<R>, aggregates: ODict<string, seq<real>>)
    requires DistinctGroupKeys(groups)
    requires Experiments(run, total, groups, seeds) == Returns((results, aggregates))
    ensures |aggregates| == |groups|
    ensures forall g :: 0 <= g < |groups| ==>
      GroupRuns(run, groups[g], seeds).Returns? &&
      aggregates[g] == (GroupKey(groups[g].name, groups[g].j), Totals(GroupRuns(run, groups[g], seeds).value, total))
  {
    if groups != [] {
      ExperimentsAggregateAt(run, total, groups, seeds, results, aggregates, 0);
    }
    forall g | 0 <= g < |groups|
      ensures GroupRuns(run, groups[g], seeds).Returns?
      ensures aggregates[g] == (GroupKey(groups[g].name, groups[g].j), Totals(GroupRuns(run, groups[g], seeds).value, total))
    {
      ExperimentsAggregateAt(run, total, groups, seeds, results, aggregates, g);
    }
  }

  /** A group's mean lies between its smallest and its largest total, and
      its variance is never negative. */
  lemma SpreadBounds(values: seq<real>)
    requires values != []
    ensures MinOf(values) <= SpreadOf(values).mean <= MaxOf(values)
    ensures SpreadOf(values).variance >= 0.0
  {
    assert SpreadOf(values).mean == Mean(values);
    MeanBounds(values, MinOf(values), MaxOf(values));
    if |values| > 1 {
      var n := |values| as real;
      var sq := SweepAnalysis.SquaredDeviations(values, Mean(values));
      assert SpreadOf(values).variance == sq / n;
      assert sq / n >= 0.0 by {
        assert n > 0.0 && sq >= 0.0;
        assert (sq / n) * n == sq;
      }
    }
  }

  /** Equal totals have that total as their mean and no spread. */
  lemma SpreadOfConstant(values: seq<real>, c: real)
    requires values != [] && forall k :: 0 <= k < |values| ==> values[k] == c
    ensures SpreadOf(values) == Spread(c, 0.0)
  {
    SweepAnalysis.MeanOfConstant(values, c);
    SweepAnalysis.SquaredDeviationsAtValue(values, c);
  }
}
