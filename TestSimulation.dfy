/** The batch-testing script `test_simulation.py`: the player configuration
    `main` builds from its `--player TYPE COUNT` pairs, the roster of player
    classes a simulation is given, and `group_scores_by_player_type`, which
    pools every run's per-player scores by player type and summarises them. */
module TestSimulation {
  import opened Common
  import opened Sorting
  import SweepAnalysis

  // ---------------------------------------------------------------------
  // Player codes
  // ---------------------------------------------------------------------

  /** The codes of `PLAYER_TYPES`, in its order: the types that have a class.
      `p10` is not among them. */
  const PlayerTypes: seq<string> :=
    ["pr", "pp", "prp", "p0", "p1", "p2", "p3", "p4", "p5", "p6", "p7", "p8", "p9", "p11"]

  /** The keys of `DEFAULT_PLAYERS`, in its order: the codes `--player` accepts. */
  const DefaultTypes: seq<string> :=
    ["p0", "p1", "p2", "p3", "p4", "p5", "p6", "p7", "p8", "p9", "p10", "p11", "pr", "pp", "prp"]

  lemma DefaultTypesDistinct()
    ensures forall i, j :: 0 <= i < j < |DefaultTypes| ==> DefaultTypes[i] != DefaultTypes[j]
  {
  }

  lemma DefaultPlayersDistinct()
    ensures DistinctKeys(DefaultPlayers())
  {
    var d := DefaultPlayers();
    assert forall i :: 0 <= i < |d| ==> d[i].0 == DefaultTypes[i] by {
      forall i | 0 <= i < |d| ensures d[i].0 == DefaultTypes[i] {
        assert Keys(d)[i] == d[i].0;
      }
    }
    DefaultTypesDistinct();
  }

  /** `DEFAULT_PLAYERS`: every accepted code with count 0. */
  function DefaultPlayers(): (d: ODict<string, int>)
    ensures Keys(d) == DefaultTypes
    ensures forall i :: 0 <= i < |d| ==> d[i].1 == 0
  {
    seq(|DefaultTypes|, i requires 0 <= i < |DefaultTypes| => (DefaultTypes[i], 0))
  }

  // ---------------------------------------------------------------------
  // main: the player configuration
  // ---------------------------------------------------------------------

  /** One `--player TYPE COUNT` pair, its count already converted by `int`. */
  datatype PlayerArg = PlayerArg(code: string, count: int)

  /** The configuration `main` ends with, and the codes it warned about. */
  datatype PlayerSetup = PlayerSetup(config: ODict<string, int>, ignored: seq<string>)

  /** The configuration after the given pairs, in order, from `defaults`: a
      known code has its count replaced, an unknown one is reported and
      ignored. */
  function ConfigureFrom(defaults: ODict<string, int>, args: seq<PlayerArg>): PlayerSetup
  {
    if args == [] then PlayerSetup(defaults, [])
    else
      var s := ConfigureFrom(defaults, args[..|args| - 1]);
      var a := args[|args| - 1];
      if HasKey(s.config, a.code) then s.(config := Put(s.config, a.code, a.count))
      else s.(ignored := s.ignored + [a.code])
  }

  /** One pair more: a known code has its count replaced, an unknown one is
      reported. */
  lemma ConfigureSnoc(defaults: ODict<string, int>, args: seq<PlayerArg>, i: nat)
    requires i < |args|
    ensures var s := ConfigureFrom(defaults, args[..i]);
      ConfigureFrom(defaults, args[..i + 1]) ==
        if HasKey(s.config, args[i].code) then s.(config := Put(s.config, args[i].code, args[i].count))
        else s.(ignored := s.ignored + [args[i].code])
  {
    assert args[..i + 1][..i] == args[..i];
  }

  /** What `main` makes of its `--player` pairs. */
  function Configure(args: seq<PlayerArg>): PlayerSetup
  {
    ConfigureFrom(DefaultPlayers(), args)
  }

  /** The count of the last pair naming `t`, if any. */
  function LastCount(args: seq<PlayerArg>, t: string): Option<int>
  {
    if args == [] then None
    else if args[|args| - 1].code == t then Some(args[|args| - 1].count)
    else LastCount(args[..|args| - 1], t)
  }

  /** `main`, lines that parse `--player`: the configuration is updated pair
      by pair, starting from a copy of the defaults. */
  method ParsePlayerArgs(args: seq<PlayerArg>) returns (config: ODict<string, int>, ignored: seq<string>)
    ensures PlayerSetup(config, ignored) == Configure(args)
  {
    var defaults := DefaultPlayers();
    config := defaults;
    ignored := [];
    for i := 0 to |args|
      invariant PlayerSetup(config, ignored) == ConfigureFrom(defaults, args[..i])
    {
      var a := args[i];
      ConfigureSnoc(defaults, args, i);
      if HasKey(config, a.code) {
        config := Put(config, a.code, a.count);
      } else {
        ignored := ignored + [a.code];
      }
    }
    assert args[..|args|] == args;
  }

  /** The configuration always has exactly the default codes, in their order. */
  lemma {:induction false} ConfigureKeys(defaults: ODict<string, int>, args: seq<PlayerArg>)
    ensures Keys(ConfigureFrom(defaults, args).config) == Keys(defaults)
  {
    if args != [] {
      var front := args[..|args| - 1];
      var d := ConfigureFrom(defaults, front).config;
      var a := args[|args| - 1];
      ConfigureKeys(defaults, front);
      if HasKey(d, a.code) {
        PutShape(d, a.code, a.count);
        var e := Put(d, a.code, a.count);
        assert Keys(e) == Keys(d) by {
          forall i | 0 <= i < |e| ensures Keys(e)[i] == Keys(d)[i] {
          }
        }
      }
    }
  }

  /** Each default code ends with the count of the last pair naming it, or
      its default when no pair names it. */
  lemma {:induction false} ConfigureCounts(defaults: ODict<string, int>, args: seq<PlayerArg>, t: string)
    requires HasKey(defaults, t)
    ensures HasKey(ConfigureFrom(defaults, args).config, t)
    ensures Get(ConfigureFrom(defaults, args).config, t) == OrDefault(LastCount(args, t), Get(defaults, t))
  {
    ConfigureKeys(defaults, args);
    if args != [] {
      var front := args[..|args| - 1];
      var d := ConfigureFrom(defaults, front).config;
      var a := args[|args| - 1];
      ConfigureKeys(defaults, front);
      ConfigureCounts(defaults, front, t);
      if HasKey(d, a.code) {
        PutThenGet(d, a.code, a.count, t);
      }
    }
  }

  /** A code is warned about exactly when some pair names it and it is not a
      default code. */
  lemma {:induction false} ConfigureIgnored(defaults: ODict<string, int>, args: seq<PlayerArg>, x: string)
    ensures x in ConfigureFrom(defaults, args).ignored <==>
      !HasKey(defaults, x) && exists k :: 0 <= k < |args| && args[k].code == x
  {
    if args != [] {
      var front := args[..|args| - 1];
      var a := args[|args| - 1];
      ConfigureKeys(defaults, front);
      ConfigureIgnored(defaults, front, x);
      assert forall k :: 0 <= k < |front| ==> front[k] == args[k];
    }
  }

  /** The codes `main` warns about are the unknown codes among the pairs. */
  lemma WarnedCodes(args: seq<PlayerArg>, x: string)
    ensures x in Configure(args).ignored <==>
      x !in DefaultTypes && exists k :: 0 <= k < |args| && args[k].code == x
  {
    ConfigureIgnored(DefaultPlayers(), args, x);
  }

  /** `sum(players_config.values())`. */
  function CountSum(d: ODict<string, int>): int
  {
    if d == [] then 0 else d[0].1 + CountSum(d[1..])
  }

  /** Counts that are never negative add up to zero exactly when all are zero. */
  lemma {:induction false} CountSumZero(d: ODict<string, int>)
    requires forall i :: 0 <= i < |d| ==> d[i].1 >= 0
    ensures CountSum(d) >= 0
    ensures CountSum(d) == 0 <==> forall i :: 0 <= i < |d| ==> d[i].1 == 0
  {
    if d != [] {
      var rest := d[1..];
      assert forall i :: 0 <= i < |rest| ==> rest[i] == d[i + 1];
      CountSumZero(rest);
      if CountSum(d) == 0 {
        forall i | 0 <= i < |d| ensures d[i].1 == 0 {
          if i > 0 {
            assert d[i] == rest[i - 1];
          }
        }
      }
    }
  }

  /** What `main` goes on with: nothing when the counts add up to zero (it
      stops with "No players specified"), otherwise the configuration and
      its total number of players. */
  function Launch(args: seq<PlayerArg>): Option<(ODict<string, int>, int)>
  {
    var d := Configure(args).config;
    if CountSum(d) == 0 then None else Some((d, CountSum(d)))
  }

  method LaunchPlayers(args: seq<PlayerArg>) returns (r: Option<(ODict<string, int>, int)>, ignored: seq<string>)
    ensures r == Launch(args)
    ensures ignored == Configure(args).ignored
  {
    var config;
    config, ignored := ParsePlayerArgs(args);
    var total := 0;
    for i := 0 to |config|
      invariant total + CountSum(config[i..]) == CountSum(config)
    {
      assert config[i..][1..] == config[i + 1..];
      total := total + config[i].1;
    }
    assert config[|config|..] == [];
    if total == 0 {
      r := None;
    } else {
      r := Some((config, total));
    }
  }

  lemma {:induction false} LastCountNonNegative(args: seq<PlayerArg>, t: string)
    requires forall k :: 0 <= k < |args| ==> args[k].count >= 0
    ensures OrDefault(LastCount(args, t), 0) >= 0
  {
    if args != [] && args[|args| - 1].code != t {
      LastCountNonNegative(args[..|args| - 1], t);
    }
  }

  /** Every code of `defaults` ends with count 0 after `args`. */
  ghost predicate AllEndZero(defaults: ODict<string, int>, args: seq<PlayerArg>)
  {
    forall t :: HasKey(defaults, t) ==> OrDefault(LastCount(args, t), 0) == 0
  }

  /** Every count of `d` is 0. */
  predicate AllZero(d: ODict<string, int>)
  {
    forall i :: 0 <= i < |d| ==> d[i].1 == 0
  }

  /** The `i`-th configured count is the last count given for its code. */
  lemma LaunchCountAt(defaults: ODict<string, int>, args: seq<PlayerArg>, i: nat)
    requires DistinctKeys(defaults) && forall j :: 0 <= j < |defaults| ==> defaults[j].1 == 0
    requires forall k :: 0 <= k < |args| ==> args[k].count >= 0
    requires i < |defaults|
    ensures Keys(ConfigureFrom(defaults, args).config) == Keys(defaults)
    ensures ConfigureFrom(defaults, args).config[i].0 == defaults[i].0
    ensures ConfigureFrom(defaults, args).config[i].1 == OrDefault(LastCount(args, defaults[i].0), 0) >= 0
  {
    var d := ConfigureFrom(defaults, args).config;
    ConfigureKeys(defaults, args);
    assert Keys(d)[i] == d[i].0 && Keys(defaults)[i] == defaults[i].0;
    assert DistinctKeys(d) by {
      forall a, b | 0 <= a < b < |d| ensures d[a].0 != d[b].0 {
        assert Keys(d)[a] == defaults[a].0 && Keys(d)[b] == defaults[b].0;
      }
    }
    ConfigureCounts(defaults, args, d[i].0);
    GetUnique(d, i);
    GetUnique(defaults, i);
    LastCountNonNegative(args, d[i].0);
  }

  /** From zero defaults under distinct codes, and with no negative count
      given, the counts add up to zero exactly when every code ends at 0. */
  lemma LaunchFrom(defaults: ODict<string, int>, args: seq<PlayerArg>)
    requires DistinctKeys(defaults) && forall i :: 0 <= i < |defaults| ==> defaults[i].1 == 0
    requires forall k :: 0 <= k < |args| ==> args[k].count >= 0
    ensures CountSum(ConfigureFrom(defaults, args).config) == 0 <==>
      forall t :: HasKey(defaults, t) ==> OrDefault(LastCount(args, t), 0) == 0
  {
    var d := ConfigureFrom(defaults, args).config;
    ConfigureKeys(defaults, args);
    assert |d| == |defaults|;
    assert forall i :: 0 <= i < |d| ==> d[i].0 == defaults[i].0 && d[i].1 == OrDefault(LastCount(args, defaults[i].0), 0) >= 0 by {
      forall i | 0 <= i < |d| ensures d[i].0 == defaults[i].0 && d[i].1 == OrDefault(LastCount(args, defaults[i].0), 0) >= 0 {
        LaunchCountAt(defaults, args, i);
      }
    }
    assert CountSum(d) == 0 <==> AllZero(d) by { CountSumZero(d); }
    assert AllZero(d) <==> AllEndZero(defaults, args) by {
      if AllZero(d) {
        forall t | HasKey(defaults, t) ensures OrDefault(LastCount(args, t), 0) == 0 {
          var k := IndexOf(Keys(defaults), t);
          assert defaults[k].0 == t;
        }
      }
      if AllEndZero(defaults, args) {
        forall i | 0 <= i < |d| ensures d[i].1 == 0 {
          assert Keys(defaults)[i] == defaults[i].0;
          assert HasKey(defaults, defaults[i].0);
        }
      }
    }
  }

  /** Without `--player` pairs `main` stops. When no count given is negative,
      it stops exactly when every default code ends with count 0. */
  lemma LaunchSpec(args: seq<PlayerArg>)
    ensures args == [] ==> Launch(args) == None
    ensures (forall k :: 0 <= k < |args| ==> args[k].count >= 0) ==>
      (Launch(args) == None <==> forall t :: t in DefaultTypes ==> OrDefault(LastCount(args, t), 0) == 0)
  {
    DefaultPlayersDistinct();
    if forall k :: 0 <= k < |args| ==> args[k].count >= 0 {
      LaunchFrom(DefaultPlayers(), args);
    }
  }

  // ---------------------------------------------------------------------
  // The roster
  // ---------------------------------------------------------------------

  /** `[PLAYER_TYPES[code]] * count` when the code has a class and the count
      is positive, nothing otherwise; a class is named by its code. */
  function Slots(code: string, count: int): (r: seq<string>)
    ensures |r| == if count > 0 && code in PlayerTypes then count else 0
    ensures forall i :: 0 <= i < |r| ==> r[i] == code
  {
    if count > 0 && code in PlayerTypes then seq(count, _ => code) else []
  }

  /** The roster a configuration gives, in the configuration's order. */
  function Roster(config: ODict<string, int>): seq<string>
  {
    if config == [] then []
    else Roster(config[..|config| - 1]) + Slots(config[|config| - 1].0, config[|config| - 1].1)
  }

  /** The roster loops of `run_single_simulation` and
      `group_scores_by_player_type`. */
  method BuildRoster(config: ODict<string, int>) returns (players: seq<string>)
    ensures players == Roster(config)
  {
    players := [];
    for i := 0 to |config|
      invariant players == Roster(config[..i])
    {
      var (code, count) := config[i];
      assert config[..i + 1][..i] == config[..i];
      if count > 0 && code in PlayerTypes {
        players := players + seq(count, _ => code);
      }
    }
    assert config[..|config|] == config;
  }

  lemma {:induction false} SlotsCount(code: string, count: int, t: string)
    ensures Multiplicity(Slots(code, count), t) == if code == t && code in PlayerTypes && count > 0 then count else 0
  {
    var s := Slots(code, count);
    if s != [] {
      SlotsCount(code, count - 1, t);
      assert s[1..] == Slots(code, count - 1);
    }
  }

  /** Under distinct keys the last pair is new, so the dictionary is its
      front with that pair put. */
  lemma LastIsPut<V>(d: ODict<string, V>)
    requires d != [] && DistinctKeys(d)
    ensures !HasKey(d[..|d| - 1], d[|d| - 1].0)
    ensures d == Put(d[..|d| - 1], d[|d| - 1].0, d[|d| - 1].1)
  {
    var front := d[..|d| - 1];
    var (c, v) := d[|d| - 1];
    PutShape(front, c, v);
  }

  /** Each code with a class appears in the roster as many times as its
      positive count says; any other code never appears. */
  lemma {:induction false} RosterCount(config: ODict<string, int>, t: string)
    requires DistinctKeys(config)
    ensures Multiplicity(Roster(config), t) ==
      if t in PlayerTypes && HasKey(config, t) && Get(config, t) > 0 then Get(config, t) else 0
  {
    if config != [] {
      var front := config[..|config| - 1];
      var (c, k) := config[|config| - 1];
      RosterCount(front, t);
      MultiplicityAppend(Roster(front), Slots(c, k), t);
      SlotsCount(c, k, t);
      LastIsPut(config);
      PutThenGet(front, c, k, t);
    }
  }

  lemma {:induction false} RosterMembers(config: ODict<string, int>)
    ensures forall i :: 0 <= i < |Roster(config)| ==> Roster(config)[i] in PlayerTypes && Roster(config)[i] in Keys(config)
  {
    if config != [] {
      var front := config[..|config| - 1];
      var (c, k) := config[|config| - 1];
      RosterMembers(front);
      assert Keys(config) == Keys(front) + [c];
    }
  }

  /** The roster keeps the configuration's order: the slots of the first `n`
      codes come first, ahead of those of every later code. */
  lemma {:induction false} RosterPrefix(config: ODict<string, int>, n: nat)
    requires n <= |config|
    ensures Roster(config[..n]) <= Roster(config)
    decreases |config| - n
  {
    if n < |config| {
      RosterPrefix(config, n + 1);
      assert config[..n + 1][..n] == config[..n];
    } else {
      assert config[..n] == config;
    }
  }

  /** The roster `main` hands each simulation: every code with a class appears
      as many times as its last positive `--player` count; `p10` is counted
      in the total but never gets a slot. */
  lemma RosterOfArgs(args: seq<PlayerArg>, t: string)
    ensures Multiplicity(Roster(Configure(args).config), t) ==
      if t in PlayerTypes && OrDefault(LastCount(args, t), 0) > 0 then OrDefault(LastCount(args, t), 0) else 0
  {
    var d0 := DefaultPlayers();
    var d := Configure(args).config;
    ConfigureKeys(d0, args);
    DefaultPlayersDistinct();
    assert DistinctKeys(d) by {
      forall i, j | 0 <= i < j < |d| ensures d[i].0 != d[j].0 {
        assert Keys(d)[i] == d[i].0 && Keys(d)[j] == d[j].0;
        assert Keys(d0)[i] == d0[i].0 && Keys(d0)[j] == d0[j].0;
      }
    }
    RosterCount(d, t);
    if t in PlayerTypes {
      assert HasKey(d0, t) by {
        assert t in DefaultTypes;
      }
      assert Get(d0, t) == 0 by {
        var i := IndexOf(Keys(d0), t);
        GetUnique(d0, i);
      }
      ConfigureCounts(d0, args, t);
    }
  }

  // ---------------------------------------------------------------------
  // group_scores_by_player_type: pooling the scores by type
  // ---------------------------------------------------------------------

  /** One entry of a run's `player_scores`: its `scores` dictionary, when the
      entry has one. */
  datatype PlayerEntry = PlayerEntry(scores: Option<ODict<string, real>>)

  /** What the grouping reads of one simulation's output: its
      `score_breakdown` and its `player_scores`. */
  datatype SimOutput = SimOutput(breakdown: ODict<string, real>, playerScores: seq<PlayerEntry>)

  /** One pooled score: player type, score name, value. */
  type Sample = (string, string, real)

  /** The samples one entry gives when its player type is `code`. */
  function EntrySamples(code: string, scores: ODict<string, real>): (r: seq<Sample>)
    ensures |r| == |scores|
    ensures forall j :: 0 <= j < |scores| ==> r[j] == (code, scores[j].0, scores[j].1)
  {
    seq(|scores|, j requires 0 <= j < |scores| => (code, scores[j].0, scores[j].1))
  }

  /** Entry `i` of a run is attributed to roster slot `i`: it counts when the
      roster has that slot and the entry has scores. */
  predicate Attributed(entries: seq<PlayerEntry>, roster: seq<string>, i: int)
  {
    0 <= i < |entries| && i < |roster| && entries[i].scores.Some?
  }

  /** The samples of one run's entries, in order. */
  function OutputSamples(entries: seq<PlayerEntry>, roster: seq<string>): seq<Sample>
  {
    if entries == [] then []
    else
      var i := |entries| - 1;
      OutputSamples(entries[..i], roster)
      + (if Attributed(entries, roster, i) then EntrySamples(roster[i], entries[i].scores.value) else [])
  }

  /** The samples of all runs, in order. */
  function Samples(results: seq<SimOutput>, roster: seq<string>): seq<Sample>
  {
    if results == [] then []
    else Samples(results[..|results| - 1], roster) + OutputSamples(results[|results| - 1].playerScores, roster)
  }

  /** A run's samples are exactly the scores of its attributed entries, each
      tagged with the type of the entry's roster slot: entries beyond the
      roster give nothing. */
  lemma {:induction false} OutputSamplesSpec(entries: seq<PlayerEntry>, roster: seq<string>, t: Sample)
    ensures t in OutputSamples(entries, roster) <==>
      exists i, j :: Attributed(entries, roster, i) && 0 <= j < |entries[i].scores.value|
        && t == (roster[i], entries[i].scores.value[j].0, entries[i].scores.value[j].1)
  {
    if entries != [] {
      var n := |entries| - 1;
      var front := entries[..n];
      var tail := if Attributed(entries, roster, n) then EntrySamples(roster[n], entries[n].scores.value) else [];
      OutputSamplesSpec(front, roster, t);
      assert OutputSamples(entries, roster) == OutputSamples(front, roster) + tail;
      if t in OutputSamples(entries, roster) {
        if t in tail {
          var j :| 0 <= j < |tail| && tail[j] == t;
          assert Attributed(entries, roster, n) && t == (roster[n], entries[n].scores.value[j].0, entries[n].scores.value[j].1);
        } else {
          var i, j :| Attributed(front, roster, i) && 0 <= j < |front[i].scores.value|
            && t == (roster[i], front[i].scores.value[j].0, front[i].scores.value[j].1);
          assert front[i] == entries[i];
        }
      }
      if exists i, j :: Attributed(entries, roster, i) && 0 <= j < |entries[i].scores.value| && t == (roster[i], entries[i].scores.value[j].0, entries[i].scores.value[j].1) {
        var i, j :| Attributed(entries, roster, i) && 0 <= j < |entries[i].scores.value|
          && t == (roster[i], entries[i].scores.value[j].0, entries[i].scores.value[j].1);
        if i < n {
          assert front[i] == entries[i] && Attributed(front, roster, i);
        } else {
          assert tail[j] == t;
        }
      }
    }
  }

  /** The samples of all runs are those of each run. */
  lemma {:induction false} SamplesSpec(results: seq<SimOutput>, roster: seq<string>, t: Sample)
    ensures t in Samples(results, roster) <==>
      exists r :: 0 <= r < |results| && t in OutputSamples(results[r].playerScores, roster)
  {
    if results != [] {
      var n := |results| - 1;
      var front := results[..n];
      var last := OutputSamples(results[n].playerScores, roster);
      assert Samples(results, roster) == Samples(front, roster) + last;
      SamplesSpec(front, roster, t);
      assert (exists r :: 0 <= r < |results| && t in OutputSamples(results[r].playerScores, roster)) <==>
        (exists r :: 0 <= r < n && t in OutputSamples(front[r].playerScores, roster)) || t in last
      by {
        assert forall r :: 0 <= r < n ==> front[r] == results[r];
      }
    }
  }

  /** The nested `type_scores[type][name]` lists. */
  type TypeScores = ODict<string, ODict<string, seq<real>>>

  /** `type_scores[type][name].append(value)` on the nested `defaultdict`. */
  function AddSample(d: TypeScores, t: Sample): TypeScores
  {
    Put(d, t.0, AppendTo(GetOr(d, t.0, []), t.1, t.2))
  }

  /** The lists after appending each sample in turn. */
  function Pool(d: TypeScores, ts: seq<Sample>): TypeScores
  {
    if ts == [] then d else AddSample(Pool(d, ts[..|ts| - 1]), ts[|ts| - 1])
  }

  /** The values of the samples of one type and name, in order. */
  function ValuesOf(ts: seq<Sample>, code: string, name: string): (r: seq<real>)
    ensures |r| <= |ts|
  {
    if ts == [] then []
    else
      var t := ts[|ts| - 1];
      ValuesOf(ts[..|ts| - 1], code, name) + (if t.0 == code && t.1 == name then [t.2] else [])
  }

  lemma {:induction false} PoolAppend(d: TypeScores, a: seq<Sample>, b: seq<Sample>)
    ensures Pool(d, a + b) == Pool(Pool(d, a), b)
  {
    if b == [] {
      assert a + b == a;
    } else {
      var front := b[..|b| - 1];
      PoolAppend(d, a, front);
      assert (a + b)[..|a + b| - 1] == a + front;
    }
  }

  lemma {:induction false} ValuesOfSpec(ts: seq<Sample>, code: string, name: string, v: real)
    ensures v in ValuesOf(ts, code, name) <==> (code, name, v) in ts
  {
    if ts != [] {
      var front := ts[..|ts| - 1];
      ValuesOfSpec(front, code, name, v);
      assert ts == front + [ts[|ts| - 1]];
    }
  }

  /** One more sample touches only its own type's lists. */
  lemma AddSampleAt(d: TypeScores, t: Sample, code: string)
    ensures HasKey(AddSample(d, t), code) <==> HasKey(d, code) || code == t.0
    ensures GetOr(AddSample(d, t), code, []) ==
      if code == t.0 then AppendTo(GetOr(d, code, []), t.1, t.2) else GetOr(d, code, [])
  {
    PutThenGet(d, t.0, AppendTo(GetOr(d, t.0, []), t.1, t.2), code);
  }

  /** Some sample has type `code`. */
  predicate HasType(ts: seq<Sample>, code: string)
  {
    exists k :: 0 <= k < |ts| && ts[k].0 == code
  }

  lemma HasTypeSnoc(ts: seq<Sample>, code: string)
    requires ts != []
    ensures HasType(ts, code) <==> HasType(ts[..|ts| - 1], code) || ts[|ts| - 1].0 == code
  {
    assert forall k :: 0 <= k < |ts| - 1 ==> ts[..|ts| - 1][k] == ts[k];
  }

  /** Pooling adds the types of the samples. */
  lemma {:induction false} PoolKeys(d: TypeScores, ts: seq<Sample>, code: string)
    ensures HasKey(Pool(d, ts), code) <==> HasKey(d, code) || HasType(ts, code)
  {
    if ts != [] {
      var n := |ts| - 1;
      var front := ts[..n];
      PoolKeys(d, front, code);
      AddSampleAt(Pool(d, front), ts[n], code);
      HasTypeSnoc(ts, code);
    }
  }

  /** Pooling extends each (type, name) list by exactly its values, in order. */
  lemma {:induction false} PoolLists(d: TypeScores, ts: seq<Sample>, code: string, name: string)
    ensures ListOf(GetOr(Pool(d, ts), code, []), name) == ListOf(GetOr(d, code, []), name) + ValuesOf(ts, code, name)
    ensures HasKey(GetOr(Pool(d, ts), code, []), name) <==>
      HasKey(GetOr(d, code, []), name) || ValuesOf(ts, code, name) != []
  {
    if ts != [] {
      var front := ts[..|ts| - 1];
      var t := ts[|ts| - 1];
      var e := Pool(d, front);
      var before := GetOr(e, code, []);
      var tail: seq<real> := if t.0 == code && t.1 == name then [t.2] else [];
      assert ValuesOf(ts, code, name) == ValuesOf(front, code, name) + tail;
      PoolLists(d, front, code, name);
      assert Pool(d, ts) == AddSample(e, t);
      AddSampleAt(e, t, code);
      var after := GetOr(Pool(d, ts), code, []);
      if t.0 == code {
        AppendToListOf(before, t.1, t.2, name);
        assert after == AppendTo(before, t.1, t.2);
      } else {
        assert after == before;
      }
      assert ListOf(after, name) == ListOf(before, name) + tail;
      var start := ListOf(GetOr(d, code, []), name);
      AppendAssoc(start, ValuesOf(front, code, name), tail);
    }
  }

  lemma {:induction false} PoolDistinct(d: TypeScores, ts: seq<Sample>, code: string)
    requires DistinctKeys(d) && forall c :: DistinctKeys(GetOr(d, c, []))
    ensures DistinctKeys(Pool(d, ts)) && DistinctKeys(GetOr(Pool(d, ts), code, []))
  {
    if ts != [] {
      var front := ts[..|ts| - 1];
      var t := ts[|ts| - 1];
      var e := Pool(d, front);
      PoolDistinct(d, front, code);
      PoolDistinct(d, front, t.0);
      PutKeepsDistinct(e, t.0, AppendTo(GetOr(e, t.0, []), t.1, t.2));
      AddSampleAt(e, t, code);
      var inner := GetOr(e, t.0, []);
      PutKeepsDistinct(inner, t.1, ListOf(inner, t.1) + [t.2]);
    }
  }

  // ---------------------------------------------------------------------
  // group_scores_by_player_type: the statistics
  // ---------------------------------------------------------------------

  function Le(a: real, b: real): bool { a <= b }

  /** `statistics.median`: the middle of the sorted values, or the mean of
      the two middle ones when their number is even. */
  function Median(xs: seq<real>): real
    requires xs != []
  {
    var s := SortBy(xs, Le);
    var n := |s|;
    if n % 2 == 1 then s[n / 2] else (s[n / 2 - 1] + s[n / 2]) / 2.0
  }

  /** The summary of one list: mean, median, spread, extremes. The spread is
      kept as the sample variance, the square of the `statistics.stdev` the
      source reports, and 0 for a single value. */
  datatype Stats = Stats(mean: real, median: real, variance: real, min: real, max: real)

  function StatsOf(xs: seq<real>): Stats
    requires xs != []
  {
    Stats(Mean(xs), Median(xs), SweepAnalysis.SampleVariance(xs), MinOf(xs), MaxOf(xs))
  }

  /** Sorting the values gives them ascending, the same values. */
  lemma MedianSorted(xs: seq<real>)
    ensures multiset(SortBy(xs, Le)) == multiset(xs)
    ensures forall i, j :: 0 <= i < j < |xs| ==> SortBy(xs, Le)[i] <= SortBy(xs, Le)[j]
  {
    assert TotalPreorder(Le);
    SortBySorted(xs, Le);
  }

  function Id(x: real): real { x }
  function Neg(x: real): real { -x }

  lemma {:induction false} AboveNone(s: seq<real>, key: real -> real, t: real)
    requires forall i :: 0 <= i < |s| ==> key(s[i]) <= t
    ensures Above(s, key, t) == 0
  {
    if s != [] {
      AboveNone(s[1..], key, t);
    }
  }

  /** In ascending values, only those after position `k` can exceed `s[k]`. */
  lemma {:induction false} AboveSorted(s: seq<real>, k: nat)
    requires k < |s|
    requires forall i, j :: 0 <= i < j < |s| ==> s[i] <= s[j]
    ensures Above(s, Id, s[k]) <= |s| - 1 - k
  {
    if k > 0 {
      AboveSorted(s[1..], k - 1);
      assert s[1..][k - 1] == s[k];
    }
  }

  /** In ascending values, only those before position `k` can fall below `s[k]`. */
  lemma {:induction false} BelowSorted(s: seq<real>, k: nat)
    requires k < |s|
    requires forall i, j :: 0 <= i < j < |s| ==> s[i] <= s[j]
    ensures Above(s, Neg, Neg(s[k])) <= k
  {
    if k == 0 {
      AboveNone(s, Neg, Neg(s[0]));
    } else {
      BelowSorted(s[1..], k - 1);
      assert s[1..][k - 1] == s[k];
    }
  }

  /** For an odd number of values the median is one of them, with at most
      half of the values strictly below it and at most half strictly above. */
  lemma MedianSplits(xs: seq<real>)
    requires |xs| % 2 == 1
    ensures Median(xs) in xs
    ensures Above(xs, Neg, Neg(Median(xs))) <= |xs| / 2
    ensures Above(xs, Id, Median(xs)) <= |xs| / 2
  {
    var s := SortBy(xs, Le);
    var n := |xs|;
    var m := s[n / 2];
    assert Median(xs) == m;
    assert m in xs by {
      MedianSorted(xs);
      assert m in multiset(xs);
    }
    assert Above(xs, Id, m) <= n / 2 by {
      MedianSorted(xs);
      AboveSorted(s, n / 2);
      SortByAbove(xs, Le, Id, m);
    }
    assert Above(xs, Neg, Neg(m)) <= n / 2 by {
      MedianSorted(xs);
      BelowSorted(s, n / 2);
      SortByAbove(xs, Le, Neg, Neg(m));
    }
  }

  /** The summary lies within the values: the extremes are values bounding
      all the others, and the mean and the median lie between them; the
      spread is never negative, and a single value has none. */
  lemma StatsSpec(xs: seq<real>)
    requires xs != []
    ensures StatsOf(xs).min in xs && StatsOf(xs).max in xs
    ensures forall k :: 0 <= k < |xs| ==> StatsOf(xs).min <= xs[k] <= StatsOf(xs).max
    ensures StatsOf(xs).min <= StatsOf(xs).mean <= StatsOf(xs).max
    ensures StatsOf(xs).min <= StatsOf(xs).median <= StatsOf(xs).max
    ensures StatsOf(xs).variance >= 0.0
    ensures |xs| == 1 ==> StatsOf(xs) == Stats(xs[0], xs[0], 0.0, xs[0], xs[0])
  {
    var lo, hi := MinOf(xs), MaxOf(xs);
    assert StatsOf(xs) == Stats(Mean(xs), Median(xs), SweepAnalysis.SampleVariance(xs), lo, hi);
    MeanBounds(xs, lo, hi);
    MedianBounds(xs);
    if |xs| == 1 {
      assert lo == xs[0] && hi == xs[0];
    }
  }

  /** The median lies between the smallest and the largest value. */
  lemma MedianBounds(xs: seq<real>)
    requires xs != []
    ensures MinOf(xs) <= Median(xs) <= MaxOf(xs)
  {
    var s := SortBy(xs, Le);
    var n := |s|;
    MedianSorted(xs);
    assert s[n / 2] in multiset(xs);
    if n % 2 == 0 {
      assert s[n / 2 - 1] in multiset(xs);
    }
  }

  /** A per-type entry: the summary and the number of values. */
  datatype CountedStats = CountedStats(stats: Stats, count: nat)

  /** `avg_type_scores[type]`: a summary for each score name with values. */
  function TypeStats(inner: ODict<string, seq<real>>): ODict<string, CountedStats>
  {
    if inner == [] then []
    else
      var rest := TypeStats(inner[..|inner| - 1]);
      var (name, values) := inner[|inner| - 1];
      if values != [] then Put(rest, name, CountedStats(StatsOf(values), |values|)) else rest
  }

  /** `avg_type_scores`: the summaries of every type. */
  function AllStats(d: TypeScores): ODict<string, ODict<string, CountedStats>>
  {
    if d == [] then []
    else Put(AllStats(d[..|d| - 1]), d[|d| - 1].0, TypeStats(d[|d| - 1].1))
  }

  /** A name has a summary exactly when it has values; the summary is that of
      its values, with their number. */
  lemma {:induction false} TypeStatsAt(inner: ODict<string, seq<real>>, name: string)
    requires DistinctKeys(inner)
    ensures HasKey(TypeStats(inner), name) <==> HasKey(inner, name) && Get(inner, name) != []
    ensures HasKey(TypeStats(inner), name) ==>
      Get(TypeStats(inner), name) == CountedStats(StatsOf(Get(inner, name)), |Get(inner, name)|)
  {
    if inner != [] {
      var front := inner[..|inner| - 1];
      var (n, values) := inner[|inner| - 1];
      TypeStatsAt(front, name);
      LastIsPut(inner);
      PutThenGet(front, n, values, name);
      if values != [] {
        PutThenGet(TypeStats(front), n, CountedStats(StatsOf(values), |values|), name);
      }
    }
  }

  lemma {:induction false} AllStatsAt(d: TypeScores, code: string)
    requires DistinctKeys(d)
    ensures HasKey(AllStats(d), code) <==> HasKey(d, code)
    ensures HasKey(AllStats(d), code) ==> Get(AllStats(d), code) == TypeStats(Get(d, code))
  {
    if d != [] {
      var front := d[..|d| - 1];
      var (c, inner) := d[|d| - 1];
      AllStatsAt(front, code);
      LastIsPut(d);
      PutThenGet(front, c, inner, code);
      PutThenGet(AllStats(front), c, TypeStats(inner), code);
    }
  }

  // ---------------------------------------------------------------------
  // group_scores_by_player_type: the shared breakdown
  // ---------------------------------------------------------------------

  /** `[breakdown[key] for breakdown in breakdowns]`: a breakdown without the
      key raises `KeyError`. */
  function ColumnOf(breakdowns: seq<ODict<string, real>>, key: string): (r: Outcome<seq<real>>)
    ensures r.Returns? ==> |r.value| == |breakdowns|
  {
    if breakdowns == [] then Returns([])
    else
      var n := |breakdowns| - 1;
      var c := ColumnOf(breakdowns[..n], key);
      if c.Raises? || !HasKey(breakdowns[n], key) then Raises
      else Returns(c.value + [Get(breakdowns[n], key)])
  }

  /** The column raises exactly when some breakdown lacks the key; otherwise
      it holds each breakdown's value for the key, in order. */
  lemma {:induction false} ColumnSpec(breakdowns: seq<ODict<string, real>>, key: string)
    ensures ColumnOf(breakdowns, key).Raises? <==> exists k :: 0 <= k < |breakdowns| && !HasKey(breakdowns[k], key)
    ensures ColumnOf(breakdowns, key).Returns? ==>
      forall k :: 0 <= k < |breakdowns| ==> HasKey(breakdowns[k], key) && ColumnOf(breakdowns, key).value[k] == Get(breakdowns[k], key)
  {
    if breakdowns != [] {
      var n := |breakdowns| - 1;
      var front := breakdowns[..n];
      ColumnSpec(front, key);
      assert forall k :: 0 <= k < n ==> front[k] == breakdowns[k];
    }
  }

  /** The columns of the given keys, in order; the first column that
      raises makes the whole raise. */
  function Columns(breakdowns: seq<ODict<string, real>>, keys: seq<string>): (r: Outcome<ODict<string, seq<real>>>)
    ensures r.Returns? ==> forall i :: 0 <= i < |r.value| ==> |r.value[i].1| == |breakdowns|
  {
    if keys == [] then Returns([])
    else
      var rest := Columns(breakdowns, keys[..|keys| - 1]);
      var column := ColumnOf(breakdowns, keys[|keys| - 1]);
      if rest.Raises? || column.Raises? then Raises
      else
        PutPreserves(rest.value, keys[|keys| - 1], column.value, |breakdowns|);
        Returns(Put(rest.value, keys[|keys| - 1], column.value))
  }

  /** One key more: its column joins the others unless either raises. */
  lemma ColumnsSnoc(breakdowns: seq<ODict<string, real>>, keys: seq<string>, i: nat)
    requires i < |keys|
    ensures var rest := Columns(breakdowns, keys[..i]);
      var column := ColumnOf(breakdowns, keys[i]);
      Columns(breakdowns, keys[..i + 1]) ==
        if rest.Raises? || column.Raises? then Raises else Returns(Put(rest.value, keys[i], column.value))
  {
    assert keys[..i + 1][..i] == keys[..i];
  }

  lemma {:induction false} PutPreserves(d: ODict<string, seq<real>>, k: string, v: seq<real>, n: nat)
    requires |v| == n && forall i :: 0 <= i < |d| ==> |d[i].1| == n
    ensures forall i :: 0 <= i < |Put(d, k, v)| ==> |Put(d, k, v)[i].1| == n
  {
    if d != [] && d[0].0 != k {
      PutPreserves(d[1..], k, v, n);
    }
  }

  /** The summary of a list, zeros for an empty one (which the source never
      summarises). */
  function SummaryOf(xs: seq<real>): Stats
  {
    if xs == [] then Stats(0.0, 0.0, 0.0, 0.0, 0.0) else StatsOf(xs)
  }

  /** `{k: f(v) for k, v in d.items()}`. */
  function MapValues<V, W>(d: ODict<string, V>, f: V -> W): (r: ODict<string, W>)
    ensures |r| == |d|
    ensures forall i :: 0 <= i < |d| ==> r[i] == (d[i].0, f(d[i].1))
  {
    seq(|d|, i requires 0 <= i < |d| => (d[i].0, f(d[i].1)))
  }

  /** The summary of each column. */
  function Summaries(columns: ODict<string, seq<real>>): ODict<string, Stats>
  {
    MapValues(columns, SummaryOf)
  }

  /** `avg_shared_breakdown`: one summary per key of the first breakdown,
      nothing when there are no runs. */
  function SharedBreakdown(breakdowns: seq<ODict<string, real>>): Outcome<ODict<string, Stats>>
  {
    if breakdowns == [] then Returns([])
    else
      var columns := Columns(breakdowns, Keys(breakdowns[0]));
      if columns.Raises? then Raises else Returns(Summaries(columns.value))
  }

  /** What `group_scores_by_player_type` returns. */
  datatype Averages = Averages(
    playerTypeScores: ODict<string, ODict<string, CountedStats>>,
    sharedScoreBreakdown: ODict<string, Stats>,
    totalIterations: nat)

  function Breakdowns(results: seq<SimOutput>): (r: seq<ODict<string, real>>)
    ensures |r| == |results| && forall k :: 0 <= k < |results| ==> r[k] == results[k].breakdown
  {
    seq(|results|, k requires 0 <= k < |results| => results[k].breakdown)
  }

  function GroupScores(results: seq<SimOutput>, config: ODict<string, int>): Outcome<Averages>
  {
    var pooled := Pool([], Samples(results, Roster(config)));
    var shared := SharedBreakdown(Breakdowns(results));
    if shared.Raises? then Raises else Returns(Averages(AllStats(pooled), shared.value, |results|))
  }

  /** The columns raise exactly when one of the given keys is missing from
      some breakdown. */
  lemma {:induction false} ColumnsRaise(breakdowns: seq<ODict<string, real>>, keys: seq<string>)
    ensures Columns(breakdowns, keys).Raises? <==>
      exists i :: 0 <= i < |keys| && ColumnOf(breakdowns, keys[i]).Raises?
  {
    if keys != [] {
      var n := |keys| - 1;
      var front := keys[..n];
      ColumnsRaise(breakdowns, front);
      assert forall i :: 0 <= i < n ==> front[i] == keys[i];
    }
  }

  /** Otherwise each given key has its column, and only those keys have one. */
  lemma {:induction false} ColumnsAt(breakdowns: seq<ODict<string, real>>, keys: seq<string>, key: string)
    requires Columns(breakdowns, keys).Returns?
    ensures HasKey(Columns(breakdowns, keys).value, key) <==> key in keys
    ensures key in keys ==> ColumnOf(breakdowns, key).Returns?
    ensures key in keys ==> Get(Columns(breakdowns, keys).value, key) == ColumnOf(breakdowns, key).value
  {
    if keys != [] {
      var front := keys[..|keys| - 1];
      var k := keys[|keys| - 1];
      ColumnsAt(breakdowns, front, key);
      assert keys == front + [k];
      PutThenGet(Columns(breakdowns, front).value, k, ColumnOf(breakdowns, k).value, key);
    }
  }

  /** With distinct keys, the columns come in the keys' order. */
  lemma {:induction false} ColumnsKeys(breakdowns: seq<ODict<string, real>>, keys: seq<string>)
    requires forall i, j :: 0 <= i < j < |keys| ==> keys[i] != keys[j]
    requires Columns(breakdowns, keys).Returns?
    ensures Keys(Columns(breakdowns, keys).value) == keys
  {
    if keys != [] {
      var front := keys[..|keys| - 1];
      var k := keys[|keys| - 1];
      var rest := Columns(breakdowns, front).value;
      ColumnsKeys(breakdowns, front);
      ColumnsAt(breakdowns, front, k);
      PutShape(rest, k, ColumnOf(breakdowns, k).value);
      assert Keys(Put(rest, k, ColumnOf(breakdowns, k).value)) == Keys(rest) + [k];
    }
  }

  /** Mapping after `d[k] = v` is mapping first, then putting `f(v)`. */
  lemma {:induction false} MapValuesPut<V, W>(d: ODict<string, V>, k: string, v: V, f: V -> W)
    ensures MapValues(Put(d, k, v), f) == Put(MapValues(d, f), k, f(v))
  {
    if d != [] && d[0].0 != k {
      MapValuesPut(d[1..], k, v, f);
      assert MapValues(d, f)[1..] == MapValues(d[1..], f);
      assert MapValues(Put(d, k, v), f) == [MapValues(d, f)[0]] + MapValues(Put(d[1..], k, v), f);
    } else if d != [] {
      assert MapValues(Put(d, k, v), f) == [(k, f(v))] + MapValues(d, f)[1..];
    }
  }

  /** Mapping keeps the keys, and each key's value is mapped. */
  lemma {:induction false} MapValuesAt<V, W>(d: ODict<string, V>, f: V -> W, k: string)
    ensures Keys(MapValues(d, f)) == Keys(d)
    ensures HasKey(MapValues(d, f), k) <==> HasKey(d, k)
    ensures HasKey(d, k) ==> Get(MapValues(d, f), k) == f(Get(d, k))
  {
    assert Keys(MapValues(d, f)) == Keys(d) by {
      forall i | 0 <= i < |d| ensures Keys(MapValues(d, f))[i] == Keys(d)[i] {
      }
    }
    if d != [] && d[0].0 != k {
      MapValuesAt(d[1..], f, k);
      assert MapValues(d, f)[1..] == MapValues(d[1..], f);
    }
  }

  // ---------------------------------------------------------------------
  // group_scores_by_player_type: the loops
  // ---------------------------------------------------------------------

  /** The innermost loop: one entry's scores appended under its type. */
  method AddScores(d: TypeScores, code: string, scores: ODict<string, real>) returns (e: TypeScores)
    ensures e == Pool(d, EntrySamples(code, scores))
  {
    e := d;
    for j := 0 to |scores|
      invariant e == Pool(d, EntrySamples(code, scores[..j]))
    {
      var (name, value) := scores[j];
      var before := EntrySamples(code, scores[..j]);
      assert EntrySamples(code, scores[..j + 1]) == before + [(code, name, value)];
      assert (before + [(code, name, value)])[..|before|] == before;
      var inner := GetOr(e, code, []);
      inner := AppendTo(inner, name, value);
      e := Put(e, code, inner);
    }
    assert scores[..|scores|] == scores;
  }

  /** The loop over one run's entries: entry `i` goes to roster slot `i`. */
  method AddEntries(d: TypeScores, entries: seq<PlayerEntry>, roster: seq<string>) returns (e: TypeScores)
    ensures e == Pool(d, OutputSamples(entries, roster))
  {
    e := d;
    for i := 0 to |entries|
      invariant e == Pool(d, OutputSamples(entries[..i], roster))
    {
      ghost var before := OutputSamples(entries[..i], roster);
      ghost var front := entries[..i + 1];
      assert front[..i] == entries[..i] && front[i] == entries[i];
      assert Attributed(front, roster, i) == Attributed(entries, roster, i);
      if i < |roster| {
        var code := roster[i];
        if entries[i].scores.Some? {
          var samples := EntrySamples(code, entries[i].scores.value);
          assert OutputSamples(front, roster) == before + samples;
          PoolAppend(d, before, samples);
          e := AddScores(e, code, entries[i].scores.value);
        } else {
          assert OutputSamples(front, roster) == before + [];
          assert before + [] == before;
        }
      } else {
        assert OutputSamples(front, roster) == before + [];
        assert before + [] == before;
      }
    }
    assert entries[..|entries|] == entries;
  }

  lemma CollectStep(results: seq<SimOutput>, roster: seq<string>, r: nat)
    requires r < |results|
    ensures Pool([], Samples(results[..r + 1], roster)) ==
      Pool(Pool([], Samples(results[..r], roster)), OutputSamples(results[r].playerScores, roster))
  {
    var prefix := results[..r + 1];
    assert Samples(prefix, roster) == Samples(results[..r], roster) + OutputSamples(results[r].playerScores, roster) by {
      assert prefix[..r] == results[..r] && prefix[r] == results[r];
    }
    PoolAppend([], Samples(results[..r], roster), OutputSamples(results[r].playerScores, roster));
  }

  lemma BreakdownsSnoc(results: seq<SimOutput>, r: nat)
    requires r < |results|
    ensures Breakdowns(results[..r + 1]) == Breakdowns(results[..r]) + [results[r].breakdown]
  {
  }

  /** The loop over the runs: every run's breakdown is kept and its entries
      pooled. */
  method CollectScores(results: seq<SimOutput>, roster: seq<string>) returns (typeScores: TypeScores, breakdowns: seq<ODict<string, real>>)
    ensures typeScores == Pool([], Samples(results, roster))
    ensures breakdowns == Breakdowns(results)
  {
    typeScores := [];
    breakdowns := [];
    for r := 0 to |results|
      invariant typeScores == Pool([], Samples(results[..r], roster))
      invariant breakdowns == Breakdowns(results[..r])
    {
      CollectStep(results, roster, r);
      BreakdownsSnoc(results, r);
      breakdowns := breakdowns + [results[r].breakdown];
      typeScores := AddEntries(typeScores, results[r].playerScores, roster);
    }
    assert results[..|results|] == results;
  }

  method SummariseType(inner: ODict<string, seq<real>>) returns (avg: ODict<string, CountedStats>)
    ensures avg == TypeStats(inner)
  {
    avg := [];
    for k := 0 to |inner|
      invariant avg == TypeStats(inner[..k])
    {
      assert inner[..k + 1][..k] == inner[..k];
      var (name, values) := inner[k];
      if values != [] {
        avg := Put(avg, name, CountedStats(StatsOf(values), |values|));
      }
    }
    assert inner[..|inner|] == inner;
  }

  method SummariseTypes(d: TypeScores) returns (avg: ODict<string, ODict<string, CountedStats>>)
    ensures avg == AllStats(d)
  {
    avg := [];
    for k := 0 to |d|
      invariant avg == AllStats(d[..k])
    {
      assert d[..k + 1][..k] == d[..k];
      var summary := SummariseType(d[k].1);
      avg := Put(avg, d[k].0, summary);
    }
    assert d[..|d|] == d;
  }

  method Column(breakdowns: seq<ODict<string, real>>, key: string) returns (r: Outcome<seq<real>>)
    ensures r == ColumnOf(breakdowns, key)
  {
    var values := [];
    for k := 0 to |breakdowns|
      invariant ColumnOf(breakdowns[..k], key) == Returns(values)
    {
      assert breakdowns[..k + 1][..k] == breakdowns[..k];
      if !HasKey(breakdowns[k], key) {
        ColumnSpec(breakdowns, key);
        return Raises;
      }
      values := values + [Get(breakdowns[k], key)];
    }
    assert breakdowns[..|breakdowns|] == breakdowns;
    r := Returns(values);
  }

  method SummariseShared(breakdowns: seq<ODict<string, real>>) returns (r: Outcome<ODict<string, Stats>>)
    ensures r == SharedBreakdown(breakdowns)
  {
    if breakdowns == [] {
      return Returns([]);
    }
    var keys := Keys(breakdowns[0]);
    var shared := [];
    ghost var columns: ODict<string, seq<real>> := [];
    for i := 0 to |keys|
      invariant Columns(breakdowns, keys[..i]) == Returns(columns)
      invariant shared == Summaries(columns)
    {
      var column := Column(breakdowns, keys[i]);
      if column.Raises? {
        assert Columns(breakdowns, keys).Raises? by {
          ColumnsRaise(breakdowns, keys);
        }
        return Raises;
      }
      assert Columns(breakdowns, keys[..i + 1]) == Returns(Put(columns, keys[i], column.value)) by {
        ColumnsSnoc(breakdowns, keys, i);
      }
      assert SummaryOf(column.value) == StatsOf(column.value) by {
        assert breakdowns != [];
      }
      MapValuesPut(columns, keys[i], column.value, SummaryOf);
      shared := Put(shared, keys[i], StatsOf(column.value));
      columns := Put(columns, keys[i], column.value);
    }
    assert keys[..|keys|] == keys;
    r := Returns(shared);
  }

  /** `group_scores_by_player_type`. */
  method GroupScoresByPlayerType(results: seq<SimOutput>, config: ODict<string, int>) returns (r: Outcome<Averages>)
    ensures r == GroupScores(results, config)
  {
    var roster := BuildRoster(config);
    var typeScores, breakdowns := CollectScores(results, roster);
    var types := SummariseTypes(typeScores);
    var shared := SummariseShared(breakdowns);
    if shared.Raises? {
      return Raises;
    }
    r := Returns(Averages(types, shared.value, |results|));
  }

  // ---------------------------------------------------------------------
  // group_scores_by_player_type: what it returns
  // ---------------------------------------------------------------------

  /** Where a pooled score comes from: a value is pooled under a type and a
      score name exactly when entry `i` of some run has that score, the
      roster has a slot `i`, and that slot holds the type. Entries beyond the
      roster are dropped. */
  lemma PooledValue(results: seq<SimOutput>, roster: seq<string>, code: string, name: string, v: real)
    ensures v in ValuesOf(Samples(results, roster), code, name) <==>
      exists r, i, j :: 0 <= r < |results| && Attributed(results[r].playerScores, roster, i) && roster[i] == code
        && 0 <= j < |results[r].playerScores[i].scores.value| && results[r].playerScores[i].scores.value[j] == (name, v)
  {
    var t := (code, name, v);
    ValuesOfSpec(Samples(results, roster), code, name, v);
    SamplesSpec(results, roster, t);
    if t in Samples(results, roster) {
      var r :| 0 <= r < |results| && t in OutputSamples(results[r].playerScores, roster);
      var entries := results[r].playerScores;
      OutputSamplesSpec(entries, roster, t);
      var i, j :| Attributed(entries, roster, i) && 0 <= j < |entries[i].scores.value|
        && t == (roster[i], entries[i].scores.value[j].0, entries[i].scores.value[j].1);
      assert entries[i].scores.value[j] == (name, v);
    }
    if exists r, i, j :: 0 <= r < |results| && Attributed(results[r].playerScores, roster, i) && roster[i] == code && 0 <= j < |results[r].playerScores[i].scores.value| && results[r].playerScores[i].scores.value[j] == (name, v) {
      var r, i, j :| 0 <= r < |results| && Attributed(results[r].playerScores, roster, i) && roster[i] == code
        && 0 <= j < |results[r].playerScores[i].scores.value| && results[r].playerScores[i].scores.value[j] == (name, v);
      var entries := results[r].playerScores;
      OutputSamplesSpec(entries, roster, t);
      assert t == (roster[i], entries[i].scores.value[j].0, entries[i].scores.value[j].1);
    }
  }

  /** Each type and score name with pooled values has a summary of exactly
      those values, and their number as its count; no other pair has one. */
  lemma TypeSummary(results: seq<SimOutput>, config: ODict<string, int>, code: string, name: string)
    requires GroupScores(results, config).Returns?
    ensures
      var types := GroupScores(results, config).value.playerTypeScores;
      var values := ValuesOf(Samples(results, Roster(config)), code, name);
      && ((HasKey(types, code) && HasKey(Get(types, code), name)) <==> values != [])
      && (values != [] ==> Get(Get(types, code), name) == CountedStats(StatsOf(values), |values|))
  {
    var samples := Samples(results, Roster(config));
    var empty: TypeScores := [];
    var pooled := Pool(empty, samples);
    var values := ValuesOf(samples, code, name);
    var inner := GetOr(pooled, code, []);
    var types := AllStats(pooled);
    assert GroupScores(results, config).value.playerTypeScores == types;
    assert DistinctKeys(pooled) && DistinctKeys(inner) by {
      PoolDistinct(empty, samples, code);
    }
    assert ListOf(inner, name) == values && (HasKey(inner, name) <==> values != []) by {
      PoolLists(empty, samples, code, name);
    }
    assert (HasKey(types, code) <==> HasKey(pooled, code)) && (HasKey(types, code) ==> Get(types, code) == TypeStats(inner)) by {
      AllStatsAt(pooled, code);
    }
    TypeStatsAt(inner, name);
  }

  /** The reference column of a key: each run's breakdown value, in order. */
  function BreakdownColumn(results: seq<SimOutput>, key: string): (c: seq<real>)
    ensures |c| == |results|
  {
    seq(|results|, k requires 0 <= k < |results| => GetOr(results[k].breakdown, key, 0.0))
  }

  /** The columns of the first breakdown's keys raise exactly when some
      breakdown lacks one of those keys. */
  lemma {:induction false} ColumnsOutcome(bs: seq<ODict<string, real>>)
    requires bs != []
    ensures Columns(bs, Keys(bs[0])).Raises? <==>
      exists key, k :: key in Keys(bs[0]) && 0 <= k < |bs| && !HasKey(bs[k], key)
  {
    var keys := Keys(bs[0]);
    ColumnsRaise(bs, keys);
    if Columns(bs, keys).Raises? {
      var i :| 0 <= i < |keys| && ColumnOf(bs, keys[i]).Raises?;
      ColumnSpec(bs, keys[i]);
      var k :| 0 <= k < |bs| && !HasKey(bs[k], keys[i]);
      assert keys[i] in keys && !HasKey(bs[k], keys[i]);
    } else {
      forall key, k | key in keys && 0 <= k < |bs| ensures HasKey(bs[k], key) {
        ColumnSpec(bs, key);
        var i := IndexOf(keys, key);
        assert ColumnOf(bs, keys[i]).Returns?;
      }
    }
  }

  /** With no runs the shared breakdown is empty; otherwise it raises
      exactly when some run's breakdown lacks a key of the first run's. */
  lemma SharedOutcome(results: seq<SimOutput>)
    ensures results == [] ==> SharedBreakdown(Breakdowns(results)) == Returns([])
    ensures SharedBreakdown(Breakdowns(results)).Raises? <==>
      results != [] && exists key, k :: key in Keys(results[0].breakdown) && 0 <= k < |results| && !HasKey(results[k].breakdown, key)
  {
    if results != [] {
      var bs := Breakdowns(results);
      ColumnsOutcome(bs);
      assert bs[0] == results[0].breakdown;
    }
  }

  lemma ColumnIsReference(results: seq<SimOutput>, key: string)
    requires ColumnOf(Breakdowns(results), key).Returns?
    ensures ColumnOf(Breakdowns(results), key).value == BreakdownColumn(results, key)
  {
    ColumnSpec(Breakdowns(results), key);
  }

  /** Otherwise the shared breakdown has the first run's keys, each with the
      summary of that key's column across all runs. */
  lemma SharedKeys(results: seq<SimOutput>, key: string)
    requires results != [] && SharedBreakdown(Breakdowns(results)).Returns?
    ensures HasKey(SharedBreakdown(Breakdowns(results)).value, key) <==> HasKey(results[0].breakdown, key)
    ensures HasKey(results[0].breakdown, key) ==>
      Get(SharedBreakdown(Breakdowns(results)).value, key) == StatsOf(BreakdownColumn(results, key))
  {
    var bs := Breakdowns(results);
    var keys := Keys(results[0].breakdown);
    var columns := Columns(bs, keys).value;
    assert SharedBreakdown(bs).value == MapValues(columns, SummaryOf);
    ColumnsAt(bs, keys, key);
    MapValuesAt(columns, SummaryOf, key);
    if key in keys {
      ColumnIsReference(results, key);
    }
  }

  lemma SharedOrder(results: seq<SimOutput>)
    requires results != [] && SharedBreakdown(Breakdowns(results)).Returns?
    requires DistinctKeys(results[0].breakdown)
    ensures Keys(SharedBreakdown(Breakdowns(results)).value) == Keys(results[0].breakdown)
  {
    var bs := Breakdowns(results);
    var keys := Keys(results[0].breakdown);
    ColumnsKeys(bs, keys);
    MapValuesAt(Columns(bs, keys).value, SummaryOf, "");
  }

  /** `group_scores_by_player_type` reports the number of runs, and raises
      exactly when the shared breakdown does. */
  lemma GroupScoresOutcome(results: seq<SimOutput>, config: ODict<string, int>)
    ensures GroupScores(results, config).Raises? <==> SharedBreakdown(Breakdowns(results)).Raises?
    ensures GroupScores(results, config).Returns? ==>
      && GroupScores(results, config).value.totalIterations == |results|
      && GroupScores(results, config).value.sharedScoreBreakdown == SharedBreakdown(Breakdowns(results)).value
  {
  }
}
