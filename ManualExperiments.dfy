/** `run_manual_experiments` (players/player_10/tools/manual_dashboard.py):
    every roster is run at two altruism settings over sixteen seeds, with
    Player10's module-level altruism probability switched to the setting for
    the runs and restored afterwards; the run totals are grouped per
    roster and setting and summarised by their mean and spread. */
module ManualExperiments {
  import opened Common
  import opened ManualDashboard
  import opened ExperimentPlan

  /** An engine built from a roster of class names and a seed, run while the
      altruism setting holds the given value. The engine is foreign code. */
  type Engine = (seq<string>, int, real) -> EngineOutput

  const Subjects: nat := 10
  const MemorySize: nat := 16
  const ConversationLength: nat := 40
  const Seeds: seq<int> := seq(16, k => 100 + k)

  const Rosters: ODict<string, seq<string>> := [
    ("Balanced support (3 Random)", [Player10Class, "RandomPlayer", "RandomPlayer", "RandomPlayer"]),
    ("Adversarial mix (Random, RandomPause, Pause)", [Player10Class, "RandomPlayer", "RandomPausePlayer", "PausePlayer"])
  ]

  /** The runs of `run_manual_experiments`: the engine's output turned into
      a result by `_build_manual_result`. */
  function RunnerOf(engine: Engine): Runner<ManualResult>
  {
    (roster, seed, a) => ManualResultOf(engine(roster, seed, a), seed, a, Subjects, MemorySize, ConversationLength)
  }

  function TotalScoreOf(r: ManualResult): real { r.totalScore }

  /** A run's result records the altruism setting its engine ran with and
      its seed. */
  lemma RunRecords(engine: Engine, roster: seq<string>, a: real, seed: int)
    requires RunnerOf(engine)(roster, seed, a).Returns?
    ensures RunnerOf(engine)(roster, seed, a).value.config.altruism == a
    ensures RunnerOf(engine)(roster, seed, a).value.config.seed == seed
  {
    ManualResultHistory(engine(roster, seed, a), seed, a, Subjects, MemorySize, ConversationLength);
  }

  /** One run: an engine is built for the roster and the seed and run while
      the setting holds `a`, and its output turned into a result. */
  method RunOnce(settings: Player10Settings, engine: Engine, roster: seq<string>, a: real, seed: int)
    returns (result: Outcome<ManualResult>)
    requires settings.altruismUseProb == a
    ensures result == RunnerOf(engine)(roster, seed, a)
  {
    var out := engine(roster, seed, settings.altruismUseProb);
    result := BuildManualResult(out, seed, a, Subjects, MemorySize, ConversationLength);
  }

  /** `run_manual_experiments`: the two rosters, the settings 0.0 and 0.6,
      seeds 100 to 115. */
  method RunManualExperiments(settings: Player10Settings, engine: Engine)
    returns (r: Outcome<(seq<ManualResult>, ODict<string, Spread>)>)
    modifies settings
    ensures r.Returns? <==> Experiments(RunnerOf(engine), TotalScoreOf, GroupsOf(Rosters), Seeds).Returns?
    ensures r.Returns? ==>
      var (results, aggregates) := Experiments(RunnerOf(engine), TotalScoreOf, GroupsOf(Rosters), Seeds).value;
      r.value == (results, Summary(aggregates))
    ensures r.Returns? ==> settings.altruismUseProb == old(settings.altruismUseProb)
    ensures r.Raises? ==> (settings.altruismUseProb == 0.0 || settings.altruismUseProb == 0.6)
  {
    r := RunExperiments(settings, RunnerOf(engine), TotalScoreOf, Rosters, Seeds);
  }

  /** `run_manual_experiments` runs 2 rosters at 2 settings over 16 seeds:
      64 results and 4 summaries, in loop order, each summarising the 16
      totals of its group. */
  lemma ManualExperimentsCounts(run: Runner<ManualResult>, results: seq<ManualResult>, aggregates: ODict<string, seq<real>>)
    requires Experiments(run, TotalScoreOf, GroupsOf(Rosters), Seeds) == Returns((results, aggregates))
    ensures |results| == 64 && |Summary(aggregates)| == 4
    ensures forall g :: 0 <= g < 4 ==>
      Summary(aggregates)[g].0 == GroupKey(GroupsOf(Rosters)[g].name, GroupsOf(Rosters)[g].j) &&
      |aggregates[g].1| == 16
  {
    var groups := GroupsOf(Rosters);
    assert DistinctKeys(Rosters) by {
      assert |Rosters[0].0| != |Rosters[1].0|;
    }
    GroupKeysDistinct(Rosters);
    ExperimentsResultCount(run, TotalScoreOf, groups, Seeds, results, aggregates);
    OffsetIsProduct(4, 16);
    ExperimentsAggregates(run, TotalScoreOf, groups, Seeds, results, aggregates);
    forall g | 0 <= g < 4
      ensures |aggregates[g].1| == 16
    {
      SeedRunsSpec(run, groups[g].roster, AltruismAt(groups[g].j), Seeds);
    }
  }
}
