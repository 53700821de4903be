/** The Monte Carlo sweep over Player 10's strategy knobs: the grid of
    configurations and their seeds, the per-run metrics pulled out of the
    engine's output, the grouping and ranking of runs, and the tolerant
    loading of saved results (players/player_10/sim/monte_carlo.py, the
    side of its unresolved merge that precedes the `=======` markers). */
module MonteCarlo {
  import opened Common
  import opened Sorting
  import opened Product
  import opened RunMetrics
  import opened SweepAnalysis
  import Scoring

  // ---------------------------------------------------------------------
  // Configurations
  // ---------------------------------------------------------------------

  /** The extended knobs, defaulting to Player 10's configuration constants. */
  datatype Knobs = Knobs(
    minSamplesPid: int,
    ewmaAlpha: real,
    importanceWeight: real,
    coherenceWeight: real,
    freshnessWeight: real,
    monotonyWeight: real)

  const DefaultKnobs := Knobs(Scoring.MinSamplesPid, Scoring.EwmaAlpha, Scoring.ImportanceWeight,
                              Scoring.CoherenceWeight, Scoring.FreshnessWeight, Scoring.MonotonyWeight)
  const DefaultSubjects: nat := 20
  const DefaultMemorySize: nat := 10
  const DefaultConversationLength: nat := 50

  /** Player type code to number of seats (`{'p10': 1, ...}`). */
  type Roster = ODict<string, int>

  /** Everything a run is set up from, as it stands when the run starts. */
  datatype SimParams = SimParams(
    key: Key,
    seed: int,
    players: Roster,
    subjects: nat,
    memorySize: nat,
    conversationLength: nat,
    knobs: Knobs)

  /** `SimulationConfig`: a mutable record; the sweeps overwrite `seed`. */
  class SimConfig {
    const key: Key
    var seed: int
    const players: Roster
    const subjects: nat
    const memorySize: nat
    const conversationLength: nat
    const knobs: Knobs

    constructor(key: Key, seed: int, players: Roster, subjects: nat, memorySize: nat,
                conversationLength: nat, knobs: Knobs)
      ensures this.key == key && this.seed == seed && this.players == players
      ensures this.subjects == subjects && this.memorySize == memorySize
      ensures this.conversationLength == conversationLength && this.knobs == knobs
    {
      this.key := key;
      this.seed := seed;
      this.players := players;
      this.subjects := subjects;
      this.memorySize := memorySize;
      this.conversationLength := conversationLength;
      this.knobs := knobs;
    }

    /** The configuration's values with the given seed. */
    function WithSeed(seed: int): SimParams
    {
      SimParams(key, seed, players, subjects, memorySize, conversationLength, knobs)
    }

    /** The configuration's current values. */
    function Params(): SimParams
      reads this
    {
      WithSeed(seed)
    }
  }

  // ---------------------------------------------------------------------
  // Results
  // ---------------------------------------------------------------------

  /** A result keeps a reference to the configuration object it was run
      with, as the dataclass does. */
  datatype SimResult = SimResult(config: SimConfig, record: RunRecord)

  /** The (knobs, run) pairs `analyze_results` groups. */
  function Keyed(results: seq<SimResult>): (r: seq<(Key, RunRecord)>)
    ensures |r| == |results|
    ensures forall k :: 0 <= k < |results| ==> r[k] == (results[k].config.key, results[k].record)
  {
    seq(|results|, k requires 0 <= k < |results| => (results[k].config.key, results[k].record))
  }

  // ---------------------------------------------------------------------
  // Saved results
  // ---------------------------------------------------------------------

  /** One element of a saved file's result list. The fields every version
      writes are plain; a field only newer versions write is `None` when the
      key is missing, and a nullable one is `Some(None)` when saved as null. */
  datatype SavedRun = SavedRun(
    config: SimParams,
    totalScore: real,
    playerScores: ODict<Label, real>,
    contributions: ODict<Label, nat>,
    conversationLength: nat,
    earlyTermination: bool,
    pauseCount: nat,
    uniqueItemsUsed: nat,
    breakdown: Option<ODict<string, real>>,
    playerMetrics: Option<ODict<Label, PlayerMetric>>,
    p10TotalMean: Option<Option<real>>,
    p10IndividualMean: Option<Option<real>>,
    p10RankMean: Option<Option<real>>,
    p10Instances: Option<nat>,
    bestTotalScore: Option<real>,
    p10GapToBest: Option<Option<real>>)

  /** The top level of a saved file: the current `{metadata, results}` object
      (metadata possibly missing), the older bare list, or any other object. */
  datatype Payload =
    | Wrapped(metadata: Option<ODict<string, string>>, results: seq<SavedRun>)
    | Bare(runs: seq<SavedRun>)
    | OtherObject(keys: seq<string>)

  /** `item.get(key)` on a nullable field: missing and null both read as None. */
  function Flatten(o: Option<Option<real>>): Option<real>
  {
    if o.Some? then o.value else None
  }

  /** The entry `save_results` writes for one run. */
  function SaveRun(params: SimParams, r: RunRecord): SavedRun
  {
    SavedRun(params, r.totalScore, r.playerScores, r.contributions, r.conversationLength,
             r.earlyTermination, r.pauseCount, r.uniqueItemsUsed, Some(r.breakdown),
             Some(r.playerMetrics), Some(r.p10TotalMean), Some(r.p10IndividualMean),
             Some(r.p10RankMean), Some(r.p10Instances), Some(r.bestTotalScore),
             Some(r.p10GapToBest))
  }

  /** The run `load_results` rebuilds from one entry, filling the fields an
      older file lacks with `{}`, `None`, `0` and `0.0`. */
  function LoadRun(s: SavedRun): (r: RunRecord)
    ensures r.totalScore == s.totalScore && r.playerScores == s.playerScores
    ensures s.breakdown.None? ==> r.breakdown == []
    ensures s.playerMetrics.None? ==> r.playerMetrics == []
    ensures s.p10TotalMean.None? ==> r.p10TotalMean.None?
    ensures s.p10Instances.None? ==> r.p10Instances == 0
    ensures s.bestTotalScore.None? ==> r.bestTotalScore == 0.0
    ensures s.p10GapToBest.None? ==> r.p10GapToBest.None?
  {
    RunRecord(s.totalScore, s.playerScores, s.contributions, s.conversationLength,
              s.earlyTermination, s.pauseCount, s.uniqueItemsUsed, OrDefault(s.breakdown, []),
              OrDefault(s.playerMetrics, []), Flatten(s.p10TotalMean), Flatten(s.p10IndividualMean),
              Flatten(s.p10RankMean), OrDefault(s.p10Instances, 0), OrDefault(s.bestTotalScore, 0.0),
              Flatten(s.p10GapToBest))
  }

  /** Loading what was saved gives back the run. */
  lemma LoadSaveRun(params: SimParams, r: RunRecord)
    ensures SaveRun(params, r).config == params
    ensures LoadRun(SaveRun(params, r)) == r
  {
  }

  /** `last_metadata` after loading: the saved metadata, `{}` when it or the
      wrapper is missing. */
  function LoadedMetadata(data: Payload): ODict<string, string>
  {
    if data.Wrapped? then OrDefault(data.metadata, []) else []
  }

  /** The entries `load_results` walks, or `Raises` for an object without a
      `results` key that has any key, since iterating it yields the key
      strings, which cannot be indexed by `'config'`. */
  function LoadedEntries(data: Payload): Outcome<seq<SavedRun>>
  {
    match data
    case Wrapped(_, rs) => Returns(rs)
    case Bare(rs) => Returns(rs)
    case OtherObject(ks) => if ks == [] then Returns([]) else Raises
  }

  /** The payload `save_results` writes for the given runs. */
  function SavedPayload(metadata: Option<ODict<string, string>>, runs: seq<(SimParams, RunRecord)>): (p: Payload)
    ensures p.Wrapped? && |p.results| == |runs|
  {
    Wrapped(Some(OrDefault(metadata, [])),
            seq(|runs|, k requires 0 <= k < |runs| => SaveRun(runs[k].0, runs[k].1)))
  }

  /** Saving then loading gives back every run's parameters and record, in
      order, and the metadata written. */
  lemma SaveThenLoad(metadata: Option<ODict<string, string>>, runs: seq<(SimParams, RunRecord)>)
    ensures LoadedMetadata(SavedPayload(metadata, runs)) == OrDefault(metadata, [])
    ensures LoadedEntries(SavedPayload(metadata, runs)).Returns?
    ensures var es := LoadedEntries(SavedPayload(metadata, runs)).value;
      |es| == |runs| && forall k :: 0 <= k < |runs| ==> es[k].config == runs[k].0 && LoadRun(es[k]) == runs[k].1
  {
    var es := LoadedEntries(SavedPayload(metadata, runs)).value;
    forall k | 0 <= k < |runs| ensures es[k].config == runs[k].0 && LoadRun(es[k]) == runs[k].1 {
      LoadSaveRun(runs[k].0, runs[k].1);
    }
  }

  // ---------------------------------------------------------------------
  // The parameter sweep
  // ---------------------------------------------------------------------

  const DefaultMargin: real := 0.05

  function DefaultPlayers(): Roster
  {
    [("p10", 1), ("p0", 1), ("p1", 1), ("p2", 1)]
  }

  /** The keys from four nested pairings, flattened into records. */
  function KeysOf(c: seq<(real, (real, (real, real)))>): (r: seq<Key>)
    ensures |r| == |c|
    ensures forall i :: 0 <= i < |c| ==> r[i] == Key(c[i].0, c[i].1.0, c[i].1.1.0, c[i].1.1.1)
  {
    seq(|c|, i requires 0 <= i < |c| => Key(c[i].0, c[i].1.0, c[i].1.1.0, c[i].1.1.1))
  }

  /** The sweep's configurations in the order of its four nested loops. */
  function Grid(altruism: seq<real>, taus: seq<real>, freshes: seq<real>, monos: seq<real>): seq<Key>
  {
    KeysOf(Cross(altruism, Cross(taus, Cross(freshes, monos))))
  }

  /** The grid has one configuration per combination of the four lists, and
      holds exactly those combinations. */
  lemma GridLength(altruism: seq<real>, taus: seq<real>, freshes: seq<real>, monos: seq<real>)
    ensures |Grid(altruism, taus, freshes, monos)| == |altruism| * (|taus| * (|freshes| * |monos|))
  {
    CrossLength(freshes, monos);
    CrossLength(taus, Cross(freshes, monos));
    CrossLength(altruism, Cross(taus, Cross(freshes, monos)));
  }

  lemma GridMember(altruism: seq<real>, taus: seq<real>, freshes: seq<real>, monos: seq<real>, k: Key)
    ensures k in Grid(altruism, taus, freshes, monos) <==>
      k.altruism in altruism && k.tau in taus && k.epsFresh in freshes && k.epsMono in monos
  {
    var inner := Cross(freshes, monos);
    var middle := Cross(taus, inner);
    var c := Cross(altruism, middle);
    var g := Grid(altruism, taus, freshes, monos);
    var p := (k.altruism, (k.tau, (k.epsFresh, k.epsMono)));
    CrossMember(altruism, middle, p);
    CrossMember(taus, inner, p.1);
    CrossMember(freshes, monos, p.1.1);
    if k in g {
      var i :| 0 <= i < |g| && g[i] == k;
      assert c[i] == p;
    }
    if p in c {
      var i :| 0 <= i < |c| && c[i] == p;
      assert g[i] == k;
    }
  }

  /** The grid a call to `run_parameter_sweep` walks, defaults filled in. */
  function SweepGrid(altruism: seq<real>, taus: Option<seq<real>>, freshes: Option<seq<real>>,
                     monos: Option<seq<real>>): seq<Key>
  {
    Grid(altruism, OrDefault(taus, [DefaultMargin]), OrDefault(freshes, [DefaultMargin]),
         OrDefault(monos, [DefaultMargin]))
  }

  /** The run parameters of one sweep run. */
  function SweepParams(key: Key, seed: int, players: Roster): SimParams
  {
    SimParams(key, seed, players, DefaultSubjects, DefaultMemorySize, DefaultConversationLength, DefaultKnobs)
  }

  function Repeat<T>(x: T, n: nat): (r: seq<T>)
    ensures |r| == n && forall i :: 0 <= i < n ==> r[i] == x
  {
    seq(n, _ => x)
  }

  /** The entry of each sweep run: each grid point `n` times, in order. */
  function SweepKeys<T>(grid: seq<T>, n: nat): (r: seq<T>)
    ensures |r| == |grid| * n
  {
    if grid == [] then []
    else
      var prior := SweepKeys(grid[..|grid| - 1], n);
      assert |grid| * n == (|grid| - 1) * n + n;
      prior + Repeat(grid[|grid| - 1], n)
  }

  /** The seed each result of the as-written sweep ends up recording: every
      group of `n` runs shows the seed of its last run. */
  function LastSeeds(groups: nat, n: nat, baseSeed: int): (r: seq<int>)
    ensures |r| == groups * n
  {
    if groups == 0 then []
    else
      var prior := LastSeeds(groups - 1, n, baseSeed);
      assert groups * n == (groups - 1) * n + n;
      prior + Repeat(baseSeed + |prior| + n - 1, n)
  }

  /** Run `s` of grid point `c` is run `c * n + s` of the sweep. */
  lemma {:induction false} SweepKeysAt<T>(grid: seq<T>, n: nat, c: nat, s: nat)
    requires c < |grid| && s < n
    ensures c * n + s < |SweepKeys(grid, n)| && SweepKeys(grid, n)[c * n + s] == grid[c]
  {
    var m := |grid| - 1;
    assert |grid| * n == m * n + n;
    if c < m {
      SweepKeysAt(grid[..m], n, c, s);
      assert c * n + s < m * n by {
        assert (c + 1) * n <= m * n;
      }
    }
  }

  /** Every result of group `c` of the as-written sweep records the seed of
      the group's last run, `baseSeed + c * n + n - 1`. */
  lemma {:induction false} LastSeedsAt(groups: nat, n: nat, baseSeed: int, c: nat, s: nat)
    requires c < groups && s < n
    ensures c * n + s < |LastSeeds(groups, n, baseSeed)|
    ensures LastSeeds(groups, n, baseSeed)[c * n + s] == baseSeed + c * n + n - 1
  {
    var m := groups - 1;
    assert groups * n == m * n + n;
    if c < m {
      LastSeedsAt(m, n, baseSeed, c, s);
      assert c * n + s < m * n by {
        assert (c + 1) * n <= m * n;
      }
    }
  }

  /** With two or more runs per group, the first two results of the
      as-written sweep record the same seed, though they ran with
      `baseSeed` and `baseSeed + 1`. */
  lemma LastSeedsCollide(groups: nat, n: nat, baseSeed: int)
    requires groups >= 1 && n >= 2
    ensures |LastSeeds(groups, n, baseSeed)| >= 2
    ensures LastSeeds(groups, n, baseSeed)[0] == LastSeeds(groups, n, baseSeed)[1] == baseSeed + n - 1
  {
    LastSeedsAt(groups, n, baseSeed, 0, 0);
    LastSeedsAt(groups, n, baseSeed, 0, 1);
  }

  /** The keys and recorded seeds after one more grid point. */
  lemma SweepStep<T>(grid: seq<T>, c: nat, n: nat, baseSeed: int)
    requires c < |grid|
    ensures SweepKeys(grid[..c + 1], n) == SweepKeys(grid[..c], n) + Repeat(grid[c], n)
    ensures LastSeeds(c + 1, n, baseSeed) ==
      LastSeeds(c, n, baseSeed) + Repeat(baseSeed + |LastSeeds(c, n, baseSeed)| + n - 1, n)
  {
    assert grid[..c + 1][..c] == grid[..c];
  }

  /** The inner loop of the as-written sweep: `n` runs through one shared
      configuration object, its seed set to `seedFrom + s` before run `s`. */
  method SweepGroupAsWritten(key: Key, n: nat, seedFrom: int, players: Roster, run: SimParams -> RunRecord)
    returns (group: seq<SimResult>)
    ensures |group| == n
    ensures forall k :: 0 <= k < n ==>
      && group[k].config.key == key
      && group[k].config.seed == seedFrom + n - 1
      && group[k].record == run(SweepParams(key, seedFrom + k, players))
  {
    var config := new SimConfig(key, seedFrom, players, DefaultSubjects, DefaultMemorySize,
                                DefaultConversationLength, DefaultKnobs);
    group := [];
    for s := 0 to n
      invariant |group| == s
      invariant forall k :: 0 <= k < s ==>
        group[k].config == config && group[k].record == run(SweepParams(key, seedFrom + k, players))
      invariant s > 0 ==> config.seed == seedFrom + s - 1
    {
      config.seed := seedFrom + s;
      group := group + [SimResult(config, run(config.Params()))];
    }
  }

  /** The sweep's nested loops as written, over the grid with defaults filled in. */
  method SweepAsWritten(grid: seq<Key>, n: nat, players: Roster, baseSeed: int, run: SimParams -> RunRecord)
    returns (all: seq<SimResult>)
    ensures |all| == |grid| * n
    ensures forall k :: 0 <= k < |all| ==> all[k].config.key == SweepKeys(grid, n)[k]
    ensures forall k :: 0 <= k < |all| ==> all[k].record == run(SweepParams(all[k].config.key, baseSeed + k, players))
    ensures forall k :: 0 <= k < |all| ==> all[k].config.seed == LastSeeds(|grid|, n, baseSeed)[k]
  {
    all := [];
    var simCount := 0;
    for c := 0 to |grid|
      invariant |all| == |LastSeeds(c, n, baseSeed)| == |SweepKeys(grid[..c], n)| && simCount == |all|
      invariant forall k :: 0 <= k < |all| ==> all[k].config.key == SweepKeys(grid[..c], n)[k]
      invariant forall k :: 0 <= k < |all| ==> all[k].record == run(SweepParams(all[k].config.key, baseSeed + k, players))
      invariant forall k :: 0 <= k < |all| ==> all[k].config.seed == LastSeeds(c, n, baseSeed)[k]
    {
      ghost var before := all;
      var group := SweepGroupAsWritten(grid[c], n, baseSeed + simCount, players, run);
      all := all + group;
      simCount := simCount + n;
      SweepStep(grid, c, n, baseSeed);
      forall k | |before| <= k < |all|
        ensures all[k].config.key == SweepKeys(grid[..c + 1], n)[k]
        ensures all[k].config.seed == LastSeeds(c + 1, n, baseSeed)[k]
        ensures all[k].record == run(SweepParams(all[k].config.key, baseSeed + k, players))
      {
        assert all[k] == group[k - |before|];
      }
    }
    assert grid[..|grid|] == grid;
  }

  /** The corrected sweep: a fresh configuration object for every run. */
  method Sweep(grid: seq<Key>, n: nat, players: Roster, baseSeed: int, run: SimParams -> RunRecord)
    returns (all: seq<SimResult>)
    ensures |all| == |grid| * n
    ensures forall k :: 0 <= k < |all| ==>
      && all[k].config.key == SweepKeys(grid, n)[k]
      && all[k].config.seed == baseSeed + k
      && all[k].record == run(all[k].config.Params())
    ensures forall i, j :: 0 <= i < j < |all| ==> all[i].config.seed != all[j].config.seed
  {
    all := [];
    for c := 0 to |grid|
      invariant |all| == |SweepKeys(grid[..c], n)|
      invariant forall k :: 0 <= k < |all| ==>
        && all[k].config.key == SweepKeys(grid[..c], n)[k]
        && all[k].config.seed == baseSeed + k
        && all[k].record == run(all[k].config.Params())
    {
      ghost var start := |all|;
      ghost var keys := SweepKeys(grid[..c], n);
      for s := 0 to n
        invariant |all| == start + s
        invariant forall k :: 0 <= k < start ==> all[k].config.key == keys[k]
        invariant forall k :: start <= k < |all| ==> all[k].config.key == grid[c]
        invariant forall k :: 0 <= k < |all| ==>
          all[k].config.seed == baseSeed + k && all[k].record == run(all[k].config.Params())
      {
        var config := new SimConfig(grid[c], baseSeed + |all|, players, DefaultSubjects, DefaultMemorySize,
                                    DefaultConversationLength, DefaultKnobs);
        all := all + [SimResult(config, run(config.Params()))];
      }
      SweepStep(grid, c, n, baseSeed);
    }
    assert grid[..|grid|] == grid;
  }

  class Simulator {
    var results: seq<SimResult>
    var lastMetadata: ODict<string, string>

    constructor()
      ensures results == [] && lastMetadata == []
    {
      results := [];
      lastMetadata := [];
    }

    /** `run_parameter_sweep` as written: one configuration object per grid
        point, whose seed is overwritten before each of its runs. Run `k` is
        made with seed `baseSeed + k`, but the results of a group share the
        object, so they all record the seed of the group's last run. */
    method RunParameterSweepAsWritten(altruism: seq<real>, taus: Option<seq<real>>, freshes: Option<seq<real>>,
                                      monos: Option<seq<real>>, n: nat, basePlayers: Option<Roster>,
                                      baseSeed: int, run: SimParams -> RunRecord)
      modifies this`results
      ensures |results| == |SweepGrid(altruism, taus, freshes, monos)| * n
      ensures forall k :: 0 <= k < |results| ==>
        && results[k].config.key == SweepKeys(SweepGrid(altruism, taus, freshes, monos), n)[k]
        && results[k].record == run(SweepParams(results[k].config.key, baseSeed + k, OrDefault(basePlayers, DefaultPlayers())))
      ensures forall k :: 0 <= k < |results| ==>
        results[k].config.seed == LastSeeds(|SweepGrid(altruism, taus, freshes, monos)|, n, baseSeed)[k]
    {
      results := SweepAsWritten(SweepGrid(altruism, taus, freshes, monos), n,
                                OrDefault(basePlayers, DefaultPlayers()), baseSeed, run);
    }

    /** `run_parameter_sweep` with a configuration object per run, so that
        every result records the seed it was run with. */
    method RunParameterSweep(altruism: seq<real>, taus: Option<seq<real>>, freshes: Option<seq<real>>,
                             monos: Option<seq<real>>, n: nat, basePlayers: Option<Roster>,
                             baseSeed: int, run: SimParams -> RunRecord)
      modifies this`results
      ensures |results| == |SweepGrid(altruism, taus, freshes, monos)| * n
      ensures forall k :: 0 <= k < |results| ==>
        && results[k].config.key == SweepKeys(SweepGrid(altruism, taus, freshes, monos), n)[k]
        && results[k].config.seed == baseSeed + k
        && results[k].record == run(results[k].config.Params())
      ensures forall i, j :: 0 <= i < j < |results| ==> results[i].config.seed != results[j].config.seed
    {
      results := Sweep(SweepGrid(altruism, taus, freshes, monos), n,
                       OrDefault(basePlayers, DefaultPlayers()), baseSeed, run);
    }

    /** `analyze_results`: group the runs by their knobs, summarise each
        group, and rank the groups by mean total score. */
    method AnalyzeResults() returns (a: Option<Analysis>)
      ensures a == Analyze(Keyed(results))
    {
      if results == [] {
        return None;
      }
      var runs := Keyed(results);
      var groups := GroupRuns(runs);
      var summaries, scores := SummarizeGroups(groups, Summarize, MeanTotal);
      a := Some(Analysis(|results|, |groups|, summaries, Take(SortDesc(scores, Second), 5)));
    }

    /** `save_results`: the payload holding every result's configuration (its
        current values) and record; `last_metadata` becomes the metadata
        written. */
    method SaveResults(metadata: Option<ODict<string, string>>) returns (p: Payload)
      modifies this`lastMetadata
      ensures lastMetadata == OrDefault(metadata, [])
      ensures p.Wrapped? && p.metadata == Some(lastMetadata) && |p.results| == |results|
      ensures forall k :: 0 <= k < |results| ==> p.results[k] == SaveRun(results[k].config.Params(), results[k].record)
    {
      var saved: seq<SavedRun> := [];
      for i := 0 to |results|
        invariant |saved| == i
        invariant forall k :: 0 <= k < i ==> saved[k] == SaveRun(results[k].config.Params(), results[k].record)
      {
        saved := saved + [SaveRun(results[i].config.Params(), results[i].record)];
      }
      lastMetadata := OrDefault(metadata, []);
      p := Wrapped(Some(lastMetadata), saved);
    }

    /** `load_results`: `last_metadata` is set from the payload; then each
        entry becomes a result with a configuration object of its own, and
        the results replace the current ones, unless walking the entries
        raises, which leaves the results as they were. */
    method LoadResults(data: Payload) returns (r: Outcome<seq<SimResult>>)
      modifies this`results, this`lastMetadata
      ensures lastMetadata == LoadedMetadata(data)
      ensures r.Raises? <==> LoadedEntries(data).Raises?
      ensures r.Raises? ==> results == old(results)
      ensures r.Returns? ==>
        && results == r.value
        && |results| == |LoadedEntries(data).value|
        && forall k :: 0 <= k < |results| ==>
             && fresh(results[k].config)
             && results[k].config.Params() == LoadedEntries(data).value[k].config
             && results[k].record == LoadRun(LoadedEntries(data).value[k])
    {
      lastMetadata := LoadedMetadata(data);
      var entries := LoadedEntries(data);
      if entries.Raises? {
        return Raises;
      }
      var es := entries.value;
      var loaded: seq<SimResult> := [];
      for i := 0 to |es|
        invariant lastMetadata == LoadedMetadata(data)
        invariant |loaded| == i
        invariant forall k :: 0 <= k < i ==>
          && fresh(loaded[k].config)
          && loaded[k].config.Params() == es[k].config
          && loaded[k].record == LoadRun(es[k])
      {
        var c := es[i].config;
        var config := new SimConfig(c.key, c.seed, c.players, c.subjects, c.memorySize,
                                    c.conversationLength, c.knobs);
        loaded := loaded + [SimResult(config, LoadRun(es[i]))];
      }
      results := loaded;
      r := Returns(loaded);
    }
  }
}
