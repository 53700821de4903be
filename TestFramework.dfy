/** The configurable test runner around the Monte Carlo simulator: test
    configurations with their defaults, the builder that edits them, the
    cartesian product of the ten parameter ranges, and the seed scheme of a
    test run (players/player_10/sim/test_framework.py). */
module TestFramework {
  import opened Common
  import opened Product
  import opened RunMetrics
  import opened SweepAnalysis
  import opened MonteCarlo
  import Scoring

  // ---------------------------------------------------------------------
  // Configurations
  // ---------------------------------------------------------------------

  /** The values tried for one parameter, with a name and a description. */
  datatype ParameterRange<T> = ParameterRange(values: seq<T>, name: string, description: string)

  /** A test: the ranges to combine, the rosters to run each combination
      with, and the per-run settings. */
  datatype TestConfiguration = TestConfiguration(
    name: string,
    description: string,
    altruismProbs: ParameterRange<real>,
    tauMargins: ParameterRange<real>,
    epsilonFreshValues: ParameterRange<real>,
    epsilonMonoValues: ParameterRange<real>,
    playerConfigs: seq<Roster>,
    numSimulations: nat,
    conversationLength: nat,
    subjects: nat,
    memorySize: nat,
    baseSeed: int,
    outputDir: string,
    saveResults: bool,
    printProgress: bool,
    minSamplesValues: ParameterRange<int>,
    ewmaAlphaValues: ParameterRange<real>,
    importanceWeights: ParameterRange<real>,
    coherenceWeights: ParameterRange<real>,
    freshnessWeights: ParameterRange<real>,
    monotonyWeights: ParameterRange<real>)

  /** A configuration with every field at its default. */
  function DefaultConfig(name: string, description: string): TestConfiguration
  {
    TestConfiguration(
      name, description,
      ParameterRange([0.0, 0.2, 0.5, 1.0], "altruism_prob", "Altruism probability"),
      ParameterRange([0.05], "tau_margin", "Tau margin"),
      ParameterRange([0.05], "epsilon_fresh", "Epsilon fresh"),
      ParameterRange([0.05], "epsilon_mono", "Epsilon mono"),
      [[("p10", 10)]],
      50, 50, 20, 10, 42,
      "simulation_results", true, true,
      ParameterRange([3], "min_samples_pid", "Min samples per player for trusted mean"),
      ParameterRange([0.10], "ewma_alpha", "EWMA alpha"),
      ParameterRange([1.0], "importance_weight", "Importance weight"),
      ParameterRange([1.0], "coherence_weight", "Coherence weight"),
      ParameterRange([1.0], "freshness_weight", "Freshness weight"),
      ParameterRange([1.0], "monotony_weight", "Monotony weight"))
  }

  // ---------------------------------------------------------------------
  // The builder
  // ---------------------------------------------------------------------

  // The edit each builder setter makes: one field replaced, the rest kept.

  function WithAltruism(c: TestConfiguration, values: seq<real>): TestConfiguration
  {
    c.(altruismProbs := ParameterRange(values, "altruism_prob", "Altruism probability"))
  }

  function WithTau(c: TestConfiguration, values: seq<real>): TestConfiguration
  {
    c.(tauMargins := ParameterRange(values, "tau_margin", "Tau margin"))
  }

  function WithEpsilonFresh(c: TestConfiguration, values: seq<real>): TestConfiguration
  {
    c.(epsilonFreshValues := ParameterRange(values, "epsilon_fresh", "Epsilon fresh"))
  }

  function WithEpsilonMono(c: TestConfiguration, values: seq<real>): TestConfiguration
  {
    c.(epsilonMonoValues := ParameterRange(values, "epsilon_mono", "Epsilon mono"))
  }

  function WithPlayerConfigs(c: TestConfiguration, configs: seq<Roster>): TestConfiguration
  {
    c.(playerConfigs := configs)
  }

  function WithPlayerConfigAdded(c: TestConfiguration, roster: Roster): TestConfiguration
  {
    c.(playerConfigs := c.playerConfigs + [roster])
  }

  function WithSimulations(c: TestConfiguration, count: nat): TestConfiguration
  {
    c.(numSimulations := count)
  }

  function WithConversationLength(c: TestConfiguration, length: nat): TestConfiguration
  {
    c.(conversationLength := length)
  }

  function WithSubjects(c: TestConfiguration, count: nat): TestConfiguration
  {
    c.(subjects := count)
  }

  function WithMemorySize(c: TestConfiguration, size: nat): TestConfiguration
  {
    c.(memorySize := size)
  }

  function WithMinSamples(c: TestConfiguration, values: seq<int>): TestConfiguration
  {
    c.(minSamplesValues := ParameterRange(values, "min_samples_pid", "Min samples per player"))
  }

  function WithEwmaAlpha(c: TestConfiguration, values: seq<real>): TestConfiguration
  {
    c.(ewmaAlphaValues := ParameterRange(values, "ewma_alpha", "EWMA alpha"))
  }

  function WithImportanceWeight(c: TestConfiguration, values: seq<real>): TestConfiguration
  {
    c.(importanceWeights := ParameterRange(values, "importance_weight", "Importance weight"))
  }

  function WithCoherenceWeight(c: TestConfiguration, values: seq<real>): TestConfiguration
  {
    c.(coherenceWeights := ParameterRange(values, "coherence_weight", "Coherence weight"))
  }

  function WithFreshnessWeight(c: TestConfiguration, values: seq<real>): TestConfiguration
  {
    c.(freshnessWeights := ParameterRange(values, "freshness_weight", "Freshness weight"))
  }

  function WithMonotonyWeight(c: TestConfiguration, values: seq<real>): TestConfiguration
  {
    c.(monotonyWeights := ParameterRange(values, "monotony_weight", "Monotony weight"))
  }

  function WithOutputDir(c: TestConfiguration, directory: string): TestConfiguration
  {
    c.(outputDir := directory)
  }

  /** `TestBuilder`: every setter makes its edit to the configuration being
      built and hands back the same builder. */
  class TestBuilder {
    var config: TestConfiguration

    constructor(name: string, description: string)
      ensures config == DefaultConfig(name, description)
    {
      config := DefaultConfig(name, description);
    }

    method AltruismRange(values: seq<real>) returns (b: TestBuilder)
      modifies this`config
      ensures b == this && config == WithAltruism(old(config), values)
    {
      config := WithAltruism(config, values);
      b := this;
    }

    method TauRange(values: seq<real>) returns (b: TestBuilder)
      modifies this`config
      ensures b == this && config == WithTau(old(config), values)
    {
      config := WithTau(config, values);
      b := this;
    }

    method EpsilonFreshRange(values: seq<real>) returns (b: TestBuilder)
      modifies this`config
      ensures b == this && config == WithEpsilonFresh(old(config), values)
    {
      config := WithEpsilonFresh(config, values);
      b := this;
    }

    method EpsilonMonoRange(values: seq<real>) returns (b: TestBuilder)
      modifies this`config
      ensures b == this && config == WithEpsilonMono(old(config), values)
    {
      config := WithEpsilonMono(config, values);
      b := this;
    }

    method PlayerConfigs(configs: seq<Roster>) returns (b: TestBuilder)
      modifies this`config
      ensures b == this && config == WithPlayerConfigs(old(config), configs)
    {
      config := WithPlayerConfigs(config, configs);
      b := this;
    }

    /** Appends one roster to the list of rosters. */
    method AddPlayerConfig(roster: Roster) returns (b: TestBuilder)
      modifies this`config
      ensures b == this && config == WithPlayerConfigAdded(old(config), roster)
    {
      config := WithPlayerConfigAdded(config, roster);
      b := this;
    }

    method Simulations(count: nat) returns (b: TestBuilder)
      modifies this`config
      ensures b == this && config == WithSimulations(old(config), count)
    {
      config := WithSimulations(config, count);
      b := this;
    }

    method ConversationLength(length: nat) returns (b: TestBuilder)
      modifies this`config
      ensures b == this && config == WithConversationLength(old(config), length)
    {
      config := WithConversationLength(config, length);
      b := this;
    }

    method Subjects(count: nat) returns (b: TestBuilder)
      modifies this`config
      ensures b == this && config == WithSubjects(old(config), count)
    {
      config := WithSubjects(config, count);
      b := this;
    }

    method MemorySize(size: nat) returns (b: TestBuilder)
      modifies this`config
      ensures b == this && config == WithMemorySize(old(config), size)
    {
      config := WithMemorySize(config, size);
      b := this;
    }

    method MinSamplesRange(values: seq<int>) returns (b: TestBuilder)
      modifies this`config
      ensures b == this && config == WithMinSamples(old(config), values)
    {
      config := WithMinSamples(config, values);
      b := this;
    }

    method EwmaAlphaRange(values: seq<real>) returns (b: TestBuilder)
      modifies this`config
      ensures b == this && config == WithEwmaAlpha(old(config), values)
    {
      config := WithEwmaAlpha(config, values);
      b := this;
    }

    method ImportanceWeightRange(values: seq<real>) returns (b: TestBuilder)
      modifies this`config
      ensures b == this && config == WithImportanceWeight(old(config), values)
    {
      config := WithImportanceWeight(config, values);
      b := this;
    }

    method CoherenceWeightRange(values: seq<real>) returns (b: TestBuilder)
      modifies this`config
      ensures b == this && config == WithCoherenceWeight(old(config), values)
    {
      config := WithCoherenceWeight(config, values);
      b := this;
    }

    method FreshnessWeightRange(values: seq<real>) returns (b: TestBuilder)
      modifies this`config
      ensures b == this && config == WithFreshnessWeight(old(config), values)
    {
      config := WithFreshnessWeight(config, values);
      b := this;
    }

    method MonotonyWeightRange(values: seq<real>) returns (b: TestBuilder)
      modifies this`config
      ensures b == this && config == WithMonotonyWeight(old(config), values)
    {
      config := WithMonotonyWeight(config, values);
      b := this;
    }

    method OutputDir(directory: string) returns (b: TestBuilder)
      modifies this`config
      ensures b == this && config == WithOutputDir(old(config), directory)
    {
      config := WithOutputDir(config, directory);
      b := this;
    }

    method Build() returns (c: TestConfiguration)
      ensures c == config
    {
      c := config;
    }
  }

  // ---------------------------------------------------------------------
  // Parameter combinations
  // ---------------------------------------------------------------------

  /** One combination of the ten ranges: the sweep key and the knobs. */
  type Combo = (Key, Knobs)

  /** The four core ranges in the order of their nested loops. */
  function CoreGrid(c: TestConfiguration): seq<Key>
  {
    Grid(c.altruismProbs.values, c.tauMargins.values, c.epsilonFreshValues.values, c.epsilonMonoValues.values)
  }

  /** The knob settings from six nested pairings, flattened into records. */
  function KnobsOf(x: seq<(int, (real, (real, (real, (real, real)))))>): (r: seq<Knobs>)
    ensures |r| == |x|
    ensures forall i :: 0 <= i < |x| ==>
      r[i] == Knobs(x[i].0, x[i].1.0, x[i].1.1.0, x[i].1.1.1.0, x[i].1.1.1.1.0, x[i].1.1.1.1.1)
  {
    seq(|x|, i requires 0 <= i < |x| =>
      Knobs(x[i].0, x[i].1.0, x[i].1.1.0, x[i].1.1.1.0, x[i].1.1.1.1.0, x[i].1.1.1.1.1))
  }

  /** The six extended ranges, nested in the order of their loops. */
  function KnobTuples(c: TestConfiguration): seq<(int, (real, (real, (real, (real, real)))))>
  {
    Cross(c.minSamplesValues.values,
      Cross(c.ewmaAlphaValues.values,
        Cross(c.importanceWeights.values,
          Cross(c.coherenceWeights.values,
            Cross(c.freshnessWeights.values, c.monotonyWeights.values)))))
  }

  function KnobGrid(c: TestConfiguration): seq<Knobs>
  {
    KnobsOf(KnobTuples(c))
  }

  /** `_generate_parameter_combinations`: the ten nested loops, the four
      core ranges outermost. */
  function Combinations(c: TestConfiguration): seq<Combo>
  {
    Cross(CoreGrid(c), KnobGrid(c))
  }

  function CoreCount(c: TestConfiguration): nat
  {
    |c.altruismProbs.values| * (|c.tauMargins.values| * (|c.epsilonFreshValues.values| * |c.epsilonMonoValues.values|))
  }

  function ExtendedCount(c: TestConfiguration): nat
  {
    |c.minSamplesValues.values| * (|c.ewmaAlphaValues.values| * (|c.importanceWeights.values|
      * (|c.coherenceWeights.values| * (|c.freshnessWeights.values| * |c.monotonyWeights.values|))))
  }

  lemma KnobGridLength(c: TestConfiguration)
    ensures |KnobGrid(c)| == ExtendedCount(c)
  {
    var ms, ew, wi, wc, wf, wm := c.minSamplesValues.values, c.ewmaAlphaValues.values, c.importanceWeights.values,
      c.coherenceWeights.values, c.freshnessWeights.values, c.monotonyWeights.values;
    CrossLength(wf, wm);
    CrossLength(wc, Cross(wf, wm));
    CrossLength(wi, Cross(wc, Cross(wf, wm)));
    CrossLength(ew, Cross(wi, Cross(wc, Cross(wf, wm))));
    CrossLength(ms, Cross(ew, Cross(wi, Cross(wc, Cross(wf, wm)))));
  }

  /** There is one combination per choice of a value from each of the ten
      ranges: the product of the ten range sizes. */
  lemma CombinationsLength(c: TestConfiguration)
    ensures |Combinations(c)| == CoreCount(c) * ExtendedCount(c)
  {
    GridLength(c.altruismProbs.values, c.tauMargins.values, c.epsilonFreshValues.values, c.epsilonMonoValues.values);
    KnobGridLength(c);
    CrossLength(CoreGrid(c), KnobGrid(c));
    assert |CoreGrid(c)| == CoreCount(c);
  }

  /** A knob setting is generated exactly when each knob is in its range. */
  lemma KnobGridMember(c: TestConfiguration, k: Knobs)
    ensures k in KnobGrid(c) <==>
      && k.minSamplesPid in c.minSamplesValues.values
      && k.ewmaAlpha in c.ewmaAlphaValues.values
      && k.importanceWeight in c.importanceWeights.values
      && k.coherenceWeight in c.coherenceWeights.values
      && k.freshnessWeight in c.freshnessWeights.values
      && k.monotonyWeight in c.monotonyWeights.values
  {
    var x := KnobTuples(c);
    var p := (k.minSamplesPid, (k.ewmaAlpha, (k.importanceWeight, (k.coherenceWeight, (k.freshnessWeight, k.monotonyWeight)))));
    var g := KnobGrid(c);
    CrossMember(c.minSamplesValues.values, Cross(c.ewmaAlphaValues.values, Cross(c.importanceWeights.values,
      Cross(c.coherenceWeights.values, Cross(c.freshnessWeights.values, c.monotonyWeights.values)))), p);
    CrossMember(c.ewmaAlphaValues.values, Cross(c.importanceWeights.values,
      Cross(c.coherenceWeights.values, Cross(c.freshnessWeights.values, c.monotonyWeights.values))), p.1);
    CrossMember(c.importanceWeights.values,
      Cross(c.coherenceWeights.values, Cross(c.freshnessWeights.values, c.monotonyWeights.values)), p.1.1);
    CrossMember(c.coherenceWeights.values, Cross(c.freshnessWeights.values, c.monotonyWeights.values), p.1.1.1);
    CrossMember(c.freshnessWeights.values, c.monotonyWeights.values, p.1.1.1.1);
    if k in g {
      var i :| 0 <= i < |g| && g[i] == k;
      assert x[i] == p;
    }
    if p in x {
      var i :| 0 <= i < |x| && x[i] == p;
      assert g[i] == k;
    }
  }

  /** A combination is generated exactly when every one of its ten values
      lies in its range. */
  lemma CombinationsMember(c: TestConfiguration, combo: Combo)
    ensures combo in Combinations(c) <==>
      && combo.0.altruism in c.altruismProbs.values
      && combo.0.tau in c.tauMargins.values
      && combo.0.epsFresh in c.epsilonFreshValues.values
      && combo.0.epsMono in c.epsilonMonoValues.values
      && combo.1.minSamplesPid in c.minSamplesValues.values
      && combo.1.ewmaAlpha in c.ewmaAlphaValues.values
      && combo.1.importanceWeight in c.importanceWeights.values
      && combo.1.coherenceWeight in c.coherenceWeights.values
      && combo.1.freshnessWeight in c.freshnessWeights.values
      && combo.1.monotonyWeight in c.monotonyWeights.values
  {
    CrossMember(CoreGrid(c), KnobGrid(c), combo);
    GridMember(c.altruismProbs.values, c.tauMargins.values, c.epsilonFreshValues.values, c.epsilonMonoValues.values, combo.0);
    KnobGridMember(c, combo.1);
  }

  /** `_generate_parameter_combinations`, its ten nested loops run as nine
      nested pairings: the same values in the same order. */
  method GenerateCombinations(c: TestConfiguration) returns (combos: seq<Combo>)
    ensures combos == Combinations(c)
  {
    var fm := CrossLoop(c.epsilonFreshValues.values, c.epsilonMonoValues.values);
    var tfm := CrossLoop(c.tauMargins.values, fm);
    var core := CrossLoop(c.altruismProbs.values, tfm);
    var fwm := CrossLoop(c.freshnessWeights.values, c.monotonyWeights.values);
    var cfwm := CrossLoop(c.coherenceWeights.values, fwm);
    var icfwm := CrossLoop(c.importanceWeights.values, cfwm);
    var eicfwm := CrossLoop(c.ewmaAlphaValues.values, icfwm);
    var knobs := CrossLoop(c.minSamplesValues.values, eicfwm);
    combos := CrossLoop(KeysOf(core), KnobsOf(knobs));
  }

  /** A builder left at its defaults yields the four altruism levels, each
      with the other knobs at the sweep's and Player 10's own defaults. */
  lemma DefaultCombinations(name: string, description: string)
    ensures |Combinations(DefaultConfig(name, description))| == 4
    ensures forall combo :: combo in Combinations(DefaultConfig(name, description)) <==>
      && combo.0.altruism in [0.0, 0.2, 0.5, 1.0]
      && combo.0.tau == combo.0.epsFresh == combo.0.epsMono == DefaultMargin
      && combo.1 == DefaultKnobs
  {
    var c := DefaultConfig(name, description);
    CombinationsLength(c);
    forall combo
      ensures combo in Combinations(c) <==>
        && combo.0.altruism in [0.0, 0.2, 0.5, 1.0]
        && combo.0.tau == combo.0.epsFresh == combo.0.epsMono == DefaultMargin
        && combo.1 == DefaultKnobs
    {
      CombinationsMember(c, combo);
    }
  }

  // ---------------------------------------------------------------------
  // Counting
  // ---------------------------------------------------------------------

  /** `_count_combinations` as written: the four core ranges times the
      rosters; the six extended ranges are left out of the product. */
  function CountCombinationsAsWritten(c: TestConfiguration): nat
  {
    CoreCount(c) * |c.playerConfigs|
  }

  /** The number of (combination, roster) pairs a test runs: all ten range
      sizes times the rosters. */
  function CountCombinations(c: TestConfiguration): nat
  {
    CoreCount(c) * ExtendedCount(c) * |c.playerConfigs|
  }

  /** What a test runs: every combination with every roster, the rosters
      varying fastest. */
  function Pairs(c: TestConfiguration): seq<(Combo, Roster)>
  {
    Cross(Combinations(c), c.playerConfigs)
  }

  /** The corrected count is the number of pairs a test runs. */
  lemma PairsLength(c: TestConfiguration)
    ensures |Pairs(c)| == CountCombinations(c)
  {
    CombinationsLength(c);
    CrossLength(Combinations(c), c.playerConfigs);
  }

  lemma MulSwap(a: nat, e: nat, p: nat)
    ensures a * e * p == a * p * e
  {
  }

  lemma ScaledEqual(z: nat, e: nat)
    ensures z * e == z <==> z == 0 || e == 1
  {
    if z != 0 && e > 1 {
      assert z * e == z + z * (e - 1);
    }
  }

  /** The count as written agrees with the pairs run only when it is zero or
      the extended ranges multiply to one. */
  lemma CountAsWrittenAgrees(c: TestConfiguration)
    ensures CountCombinationsAsWritten(c) == |Pairs(c)| <==>
      CountCombinationsAsWritten(c) == 0 || ExtendedCount(c) == 1
  {
    PairsLength(c);
    var a, e, p := CoreCount(c), ExtendedCount(c), |c.playerConfigs|;
    MulSwap(a, e, p);
    ScaledEqual(a * p, e);
  }

  /** Two values for `min_samples_pid` and defaults elsewhere: eight pairs are
      run while four are counted. */
  lemma CountAsWrittenExample()
    ensures var c := DefaultConfig("t", "").(minSamplesValues := ParameterRange([3, 5], "min_samples_pid", ""));
      CountCombinationsAsWritten(c) == 4 && |Pairs(c)| == 8
  {
    var c := DefaultConfig("t", "").(minSamplesValues := ParameterRange([3, 5], "min_samples_pid", ""));
    assert CoreCount(c) == 4 && |c.playerConfigs| == 1;
    assert ExtendedCount(c) == 2;
    PairsLength(c);
  }

  // ---------------------------------------------------------------------
  // Running a test
  // ---------------------------------------------------------------------

  /** The run parameters of one simulation of a (combination, roster) pair. */
  function RunParams(c: TestConfiguration, pair: (Combo, Roster), seed: int): SimParams
  {
    SimParams(pair.0.0, seed, pair.1, c.subjects, c.memorySize, c.conversationLength, pair.0.1)
  }

  /** The pair of each simulation of a test: each pair `numSimulations` times. */
  function Runs(c: TestConfiguration): seq<(Combo, Roster)>
  {
    SweepKeys(Pairs(c), c.numSimulations)
  }

  /** Simulation `s` of the pair counted `g + 1` is run `g * n + s` of the
      test, and its seed `baseSeed + n + (g * n + s)` is the source's
      `base_seed + combination_count * num_simulations + sim_idx`. */
  lemma RunOfPair(c: TestConfiguration, g: nat, s: nat)
    requires g < |Pairs(c)| && s < c.numSimulations
    ensures g * c.numSimulations + s < |Runs(c)| && Runs(c)[g * c.numSimulations + s] == Pairs(c)[g]
    ensures c.baseSeed + c.numSimulations + (g * c.numSimulations + s) == c.baseSeed + (g + 1) * c.numSimulations + s
  {
    SweepKeysAt(Pairs(c), c.numSimulations, g, s);
    MulSucc(g, c.numSimulations);
  }

  /** The inner loop of `run_test` as written: one configuration object for
      the pair, its seed overwritten before each of the `n` runs, and every
      result holding that same object. */
  method RunGroupAsWritten(c: TestConfiguration, pair: (Combo, Roster), firstSeed: int, seedFrom: int,
                           run: SimParams -> RunRecord)
    returns (group: seq<SimResult>)
    ensures |group| == c.numSimulations
    ensures forall k :: 0 <= k < |group| ==>
      && group[k].config.WithSeed(seedFrom + k) == RunParams(c, pair, seedFrom + k)
      && group[k].config.seed == seedFrom + c.numSimulations - 1
      && group[k].record == run(RunParams(c, pair, seedFrom + k))
  {
    var n := c.numSimulations;
    var config := new SimConfig(pair.0.0, firstSeed, pair.1, c.subjects, c.memorySize, c.conversationLength, pair.0.1);
    group := [];
    for s := 0 to n
      invariant |group| == s
      invariant forall k :: 0 <= k < s ==>
        group[k].config == config && group[k].record == run(RunParams(c, pair, seedFrom + k))
      invariant s > 0 ==> config.seed == seedFrom + s - 1
    {
      config.seed := seedFrom + s;
      group := group + [SimResult(config, run(config.Params()))];
    }
  }

  /** The inner loop with a configuration object per run. */
  method RunGroup(c: TestConfiguration, pair: (Combo, Roster), seedFrom: int, run: SimParams -> RunRecord)
    returns (group: seq<SimResult>)
    ensures |group| == c.numSimulations
    ensures forall k :: 0 <= k < |group| ==>
      group[k].config.Params() == RunParams(c, pair, seedFrom + k) && group[k].record == run(group[k].config.Params())
  {
    group := [];
    for s := 0 to c.numSimulations
      invariant |group| == s
      invariant forall k :: 0 <= k < s ==>
        group[k].config.Params() == RunParams(c, pair, seedFrom + k) && group[k].record == run(group[k].config.Params())
    {
      var config := new SimConfig(pair.0.0, seedFrom + s, pair.1, c.subjects, c.memorySize, c.conversationLength, pair.0.1);
      group := group + [SimResult(config, run(config.Params()))];
    }
  }

  /** The results of the as-written runner after the pairs `done`: run `k`
      was made with seed `baseSeed + n + k` and the settings of its pair,
      and each result records the last seed of its pair. */
  ghost predicate RanAsWritten(c: TestConfiguration, all: seq<SimResult>, done: seq<(Combo, Roster)>,
                               run: SimParams -> RunRecord)
    reads set k | 0 <= k < |all| :: all[k].config
  {
    var n := c.numSimulations;
    && |all| == |done| * n
    && forall k :: 0 <= k < |all| ==>
      && all[k].config.WithSeed(c.baseSeed + n + k) == RunParams(c, SweepKeys(done, n)[k], c.baseSeed + n + k)
      && all[k].record == run(RunParams(c, SweepKeys(done, n)[k], c.baseSeed + n + k))
      && all[k].config.seed == LastSeeds(|done|, n, c.baseSeed + n)[k]
  }

  lemma RanAsWrittenStep(c: TestConfiguration, all: seq<SimResult>, done: seq<(Combo, Roster)>,
                         pair: (Combo, Roster), group: seq<SimResult>, seedFrom: int, run: SimParams -> RunRecord)
    requires RanAsWritten(c, all, done, run)
    requires seedFrom == c.baseSeed + c.numSimulations + |all|
    requires |group| == c.numSimulations
    requires forall k :: 0 <= k < |group| ==>
      && group[k].config.WithSeed(seedFrom + k) == RunParams(c, pair, seedFrom + k)
      && group[k].config.seed == seedFrom + c.numSimulations - 1
      && group[k].record == run(RunParams(c, pair, seedFrom + k))
    ensures RanAsWritten(c, all + group, done + [pair], run)
  {
    var n := c.numSimulations;
    var grid := done + [pair];
    var keys, seeds := SweepKeys(done, n), LastSeeds(|done|, n, c.baseSeed + n);
    var keys', seeds' := SweepKeys(grid, n), LastSeeds(|grid|, n, c.baseSeed + n);
    assert keys' == keys + Repeat(pair, n) && seeds' == seeds + Repeat(seedFrom + n - 1, n) by {
      assert grid[..|done| + 1] == grid && grid[..|done|] == done;
      SweepStep(grid, |done|, n, c.baseSeed + n);
    }
    assert |all + group| == |grid| * n by {
      MulSucc(|done|, n);
    }
    var all' := all + group;
    forall k | 0 <= k < |all'|
      ensures all'[k].config.WithSeed(c.baseSeed + n + k) == RunParams(c, keys'[k], c.baseSeed + n + k)
      ensures all'[k].record == run(RunParams(c, keys'[k], c.baseSeed + n + k))
      ensures all'[k].config.seed == seeds'[k]
    {
      if k < |all| {
        assert all'[k] == all[k] && keys'[k] == keys[k] && seeds'[k] == seeds[k];
      } else {
        assert all'[k] == group[k - |all|] && keys'[k] == pair && seeds'[k] == seedFrom + n - 1;
      }
    }
  }

  /** The results of the corrected runner after the pairs `done`: each has a
      configuration of its own holding the settings it was run with. */
  ghost predicate Ran(c: TestConfiguration, all: seq<SimResult>, done: seq<(Combo, Roster)>,
                      run: SimParams -> RunRecord)
    reads set k | 0 <= k < |all| :: all[k].config
  {
    var n := c.numSimulations;
    && |all| == |done| * n
    && forall k :: 0 <= k < |all| ==>
      && all[k].config.Params() == RunParams(c, SweepKeys(done, n)[k], c.baseSeed + n + k)
      && all[k].record == run(all[k].config.Params())
  }

  lemma RanStep(c: TestConfiguration, all: seq<SimResult>, done: seq<(Combo, Roster)>,
                pair: (Combo, Roster), group: seq<SimResult>, seedFrom: int, run: SimParams -> RunRecord)
    requires Ran(c, all, done, run)
    requires seedFrom == c.baseSeed + c.numSimulations + |all|
    requires |group| == c.numSimulations
    requires forall k :: 0 <= k < |group| ==>
      && group[k].config.Params() == RunParams(c, pair, seedFrom + k)
      && group[k].record == run(group[k].config.Params())
    ensures Ran(c, all + group, done + [pair], run)
  {
    var n := c.numSimulations;
    var grid := done + [pair];
    var keys := SweepKeys(done, n);
    assert SweepKeys(grid, n) == keys + Repeat(pair, n) by {
      assert grid[..|done| + 1] == grid && grid[..|done|] == done;
      SweepStep(grid, |done|, n, c.baseSeed + n);
    }
    assert |all + group| == |grid| * n by {
      MulSucc(|done|, n);
    }
    var all' := all + group;
    forall k | 0 <= k < |all'|
      ensures all'[k].config.Params() == RunParams(c, SweepKeys(grid, n)[k], c.baseSeed + n + k)
      ensures all'[k].record == run(all'[k].config.Params())
    {
      if k < |all| {
        assert all'[k] == all[k] && SweepKeys(grid, n)[k] == keys[k];
      } else {
        assert all'[k] == group[k - |all|] && SweepKeys(grid, n)[k] == pair;
      }
    }
  }

  /** The middle loop of `run_test` as written: the rosters of one
      combination, each run through `RunGroupAsWritten`. */
  method RunCombinationAsWritten(c: TestConfiguration, combo: Combo, count: nat, ghost done: seq<(Combo, Roster)>,
                                 all: seq<SimResult>, run: SimParams -> RunRecord)
    returns (all': seq<SimResult>, count': nat)
    requires count == |done| && RanAsWritten(c, all, done, run)
    ensures count' == |done + Row(combo, c.playerConfigs)|
    ensures RanAsWritten(c, all', done + Row(combo, c.playerConfigs), run)
  {
    var n := c.numSimulations;
    var players := c.playerConfigs;
    all', count' := all, count;
    ghost var done' := done;
    for j := 0 to |players|
      invariant done' == done + Row(combo, players)[..j]
      invariant count' == |done'| && RanAsWritten(c, all', done', run)
    {
      var pair := (combo, players[j]);
      count' := count' + 1;
      MulSucc(|done'|, n);
      var group := RunGroupAsWritten(c, pair, c.baseSeed + count', c.baseSeed + count' * n, run);
      assert RanAsWritten(c, all' + group, done' + [pair], run) by {
        RanAsWrittenStep(c, all', done', pair, group, c.baseSeed + count' * n, run);
      }
      all' := all' + group;
      assert Row(combo, players)[..j + 1] == Row(combo, players)[..j] + [pair];
      done' := done' + [pair];
    }
    assert Row(combo, players)[..|players|] == Row(combo, players);
  }

  /** The middle loop with a configuration object per simulation. */
  method RunCombination(c: TestConfiguration, combo: Combo, count: nat, ghost done: seq<(Combo, Roster)>,
                        all: seq<SimResult>, run: SimParams -> RunRecord)
    returns (all': seq<SimResult>, count': nat)
    requires count == |done| && Ran(c, all, done, run)
    ensures count' == |done + Row(combo, c.playerConfigs)|
    ensures Ran(c, all', done + Row(combo, c.playerConfigs), run)
  {
    var n := c.numSimulations;
    var players := c.playerConfigs;
    all', count' := all, count;
    ghost var done' := done;
    for j := 0 to |players|
      invariant done' == done + Row(combo, players)[..j]
      invariant count' == |done'| && Ran(c, all', done', run)
    {
      var pair := (combo, players[j]);
      count' := count' + 1;
      MulSucc(|done'|, n);
      var group := RunGroup(c, pair, c.baseSeed + count' * n, run);
      assert Ran(c, all' + group, done' + [pair], run) by {
        RanStep(c, all', done', pair, group, c.baseSeed + count' * n, run);
      }
      all' := all' + group;
      assert Row(combo, players)[..j + 1] == Row(combo, players)[..j] + [pair];
      done' := done' + [pair];
    }
    assert Row(combo, players)[..|players|] == Row(combo, players);
  }

  /** `FlexibleTestRunner`: the results of the last test run. */
  class TestRunner {
    var results: seq<SimResult>

    constructor()
      ensures results == []
    {
      results := [];
    }

    /** `run_test` as written. The pair counted `c` (from 1) runs its
        simulation `s` with seed `baseSeed + c * n + s`, so run `k` of the
        test uses seed `baseSeed + n + k`; but the results of a pair share
        one configuration object and all record its last seed. */
    method RunTestAsWritten(c: TestConfiguration, run: SimParams -> RunRecord) returns (all: seq<SimResult>)
      modifies this`results
      ensures results == all
      ensures |all| == |Pairs(c)| * c.numSimulations
      ensures forall k :: 0 <= k < |all| ==>
        && all[k].config.WithSeed(c.baseSeed + c.numSimulations + k) ==
             RunParams(c, Runs(c)[k], c.baseSeed + c.numSimulations + k)
        && all[k].record == run(RunParams(c, Runs(c)[k], c.baseSeed + c.numSimulations + k))
        && all[k].config.seed == LastSeeds(|Pairs(c)|, c.numSimulations, c.baseSeed + c.numSimulations)[k]
    {
      var combos := GenerateCombinations(c);
      all := [];
      var count := 0;
      ghost var done: seq<(Combo, Roster)> := [];
      for i := 0 to |combos|
        invariant done == Cross(combos[..i], c.playerConfigs)
        invariant count == |done| && RanAsWritten(c, all, done, run)
      {
        all, count := RunCombinationAsWritten(c, combos[i], count, done, all, run);
        assert combos[..i + 1] == combos[..i] + [combos[i]];
        CrossSnoc(combos[..i], combos[i], c.playerConfigs);
        done := done + Row(combos[i], c.playerConfigs);
      }
      assert combos[..|combos|] == combos;
      results := all;
    }

    /** `run_test` with a configuration object per simulation: every result
        records the seed it was run with, and those seeds are distinct. */
    method RunTest(c: TestConfiguration, run: SimParams -> RunRecord) returns (all: seq<SimResult>)
      modifies this`results
      ensures results == all
      ensures |all| == |Pairs(c)| * c.numSimulations
      ensures forall k :: 0 <= k < |all| ==>
        && all[k].config.Params() == RunParams(c, Runs(c)[k], c.baseSeed + c.numSimulations + k)
        && all[k].record == run(all[k].config.Params())
      ensures forall i, j :: 0 <= i < j < |all| ==> all[i].config.seed != all[j].config.seed
    {
      var combos := GenerateCombinations(c);
      all := [];
      var count := 0;
      ghost var done: seq<(Combo, Roster)> := [];
      for i := 0 to |combos|
        invariant done == Cross(combos[..i], c.playerConfigs)
        invariant count == |done| && Ran(c, all, done, run)
      {
        all, count := RunCombination(c, combos[i], count, done, all, run);
        assert combos[..i + 1] == combos[..i] + [combos[i]];
        CrossSnoc(combos[..i], combos[i], c.playerConfigs);
        done := done + Row(combos[i], c.playerConfigs);
      }
      assert combos[..|combos|] == combos;
      results := all;
    }
  }
}
