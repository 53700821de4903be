/** The per-run metrics the Monte Carlo simulator pulls out of the engine's
    output after each run (`_extract_results` in
    players/player_10/sim/monte_carlo.py): one entry per player, ranked by
    total score, labelled by class name, with Player 10's averages, the
    contributions of each labelled player and the conversation metrics. */
module RunMetrics {
  import opened Common

  // ---------------------------------------------------------------------
  // Records
  // ---------------------------------------------------------------------

  /** A player's label: the class name for its first instance, `Name#k` for
      the k-th; a speaker no player entry claims is labelled `Player_<id>`. */
  datatype Label = Instance(className: string, k: nat) | Unclaimed(id: Id)

  /** One player's row of `player_metrics`. */
  datatype PlayerMetric = PlayerMetric(
    className: string,
    alias: string,
    total: real,
    individual: real,
    shared: real,
    rank: nat)

  /** `SimulationResult` without its configuration and wall-clock time. */
  datatype RunRecord = RunRecord(
    totalScore: real,
    playerScores: ODict<Label, real>,
    contributions: ODict<Label, nat>,
    conversationLength: nat,
    earlyTermination: bool,
    pauseCount: nat,
    uniqueItemsUsed: nat,
    breakdown: ODict<string, real>,
    playerMetrics: ODict<Label, PlayerMetric>,
    p10TotalMean: Option<real>,
    p10IndividualMean: Option<real>,
    p10RankMean: Option<real>,
    p10Instances: nat,
    bestTotalScore: real,
    p10GapToBest: Option<real>)

  /** One element of the engine's `scores['player_scores']`; a missing field
      is `None`. */
  datatype RawPlayer = RawPlayer(id: Option<Id>, total: Option<real>, individual: Option<real>, shared: Option<real>)

  /** The metadata recorded when the player was created. */
  datatype Meta = Meta(className: Option<string>, alias: Option<string>)

  /** The parts of the engine's output the extraction reads; a missing key is `None`. */
  datatype EngineOutput = EngineOutput(
    history: Option<History>,
    breakdown: Option<ODict<string, real>>,
    players: Option<seq<RawPlayer>>)

  /** A player entry of the first pass; the rank is set by the second. */
  datatype Entry = Entry(
    id: Option<Id>,
    className: string,
    alias: string,
    total: real,
    individual: real,
    shared: real,
    rank: nat)

  const UnknownClass: string := "UnknownPlayer"
  const Player10Class: string := "Player10"

  // ---------------------------------------------------------------------
  // First pass: entries
  // ---------------------------------------------------------------------

  function LowerChar(c: char): char
  {
    if 'A' <= c <= 'Z' then (c as int + 32) as char else c
  }

  /** `s.lower()` on ASCII letters. */
  function Lower(s: string): (r: string)
    ensures |r| == |s|
  {
    seq(|s|, i requires 0 <= i < |s| => LowerChar(s[i]))
  }

  /** The metadata of player `i`, empty past the end of the list. */
  function MetaAt(metas: seq<Meta>, i: nat): Meta
  {
    if i < |metas| then metas[i] else Meta(None, None)
  }

  /** A player's entry, every missing value defaulted: scores to 0 except the
      shared score, which defaults to the run's total. */
  function EntryOf(p: RawPlayer, m: Meta, totalScore: real): Entry
  {
    var className := OrDefault(m.className, UnknownClass);
    Entry(p.id, className, OrDefault(m.alias, Lower(className)), OrDefault(p.total, 0.0),
          OrDefault(p.individual, 0.0), OrDefault(p.shared, totalScore), 0)
  }

  /** The entries of the first pass, one per raw player, in order. */
  function Entries(players: seq<RawPlayer>, metas: seq<Meta>, totalScore: real): (r: seq<Entry>)
    ensures |r| == |players|
  {
    seq(|players|, i requires 0 <= i < |players| => EntryOf(players[i], MetaAt(metas, i), totalScore))
  }

  /** The first pass over the raw player scores. */
  method GatherEntries(players: seq<RawPlayer>, metas: seq<Meta>, totalScore: real) returns (entries: seq<Entry>)
    ensures entries == Entries(players, metas, totalScore)
  {
    entries := [];
    for i := 0 to |players|
      invariant |entries| == i
      invariant forall k :: 0 <= k < i ==> entries[k] == EntryOf(players[k], MetaAt(metas, k), totalScore)
    {
      entries := entries + [EntryOf(players[i], MetaAt(metas, i), totalScore)];
    }
  }

  // ---------------------------------------------------------------------
  // Ranks
  // ---------------------------------------------------------------------

  function Totals(es: seq<Entry>): (r: seq<real>)
    ensures |r| == |es|
    ensures forall i :: 0 <= i < |es| ==> r[i] == es[i].total
  {
    seq(|es|, i requires 0 <= i < |es| => es[i].total)
  }

  /** How many totals are strictly above `t`. */
  function CountAbove(totals: seq<real>, t: real): (n: nat)
    ensures n <= |totals|
  {
    if totals == [] then 0
    else CountAbove(totals[..|totals| - 1], t) + (if totals[|totals| - 1] > t then 1 else 0)
  }

  /** No total is above `t` exactly when the count is zero. */
  lemma {:induction false} CountAboveZero(totals: seq<real>, t: real)
    ensures CountAbove(totals, t) == 0 <==> forall i :: 0 <= i < |totals| ==> totals[i] <= t
  {
    if totals != [] {
      var front := totals[..|totals| - 1];
      CountAboveZero(front, t);
      assert totals == front + [totals[|totals| - 1]];
    }
  }

  /** Rank 1 is best; strict comparison, so tied totals share a rank. */
  function Rank(totals: seq<real>, t: real): nat
  {
    1 + CountAbove(totals, t)
  }

  /** A total raised never gains players above it; raised past a total that
      is present, it loses at least that one. */
  lemma {:induction false} CountAboveMonotone(totals: seq<real>, a: real, b: real)
    requires a <= b
    ensures CountAbove(totals, b) <= CountAbove(totals, a)
    ensures a < b && b in totals ==> CountAbove(totals, b) < CountAbove(totals, a)
  {
    if totals != [] {
      var front := totals[..|totals| - 1];
      CountAboveMonotone(front, a, b);
      assert totals == front + [totals[|totals| - 1]];
    }
  }

  /** A total that is present is not above itself, so not every total is above it. */
  lemma {:induction false} CountAboveBelow(totals: seq<real>, t: real)
    requires t in totals
    ensures CountAbove(totals, t) < |totals|
  {
    var front := totals[..|totals| - 1];
    assert totals == front + [totals[|totals| - 1]];
    if totals[|totals| - 1] != t {
      CountAboveBelow(front, t);
    }
  }

  /** A present total's rank lies between 1 and the number of players; it is
      1 exactly when no total is higher; a higher total has a smaller rank and
      equal totals have equal ranks. */
  lemma RankSpec(totals: seq<real>, a: real, b: real)
    requires a in totals && b in totals
    ensures 1 <= Rank(totals, a) <= |totals|
    ensures Rank(totals, a) == 1 <==> forall i :: 0 <= i < |totals| ==> totals[i] <= a
    ensures a < b ==> Rank(totals, b) < Rank(totals, a)
    ensures a == b ==> Rank(totals, b) == Rank(totals, a)
  {
    CountAboveBelow(totals, a);
    CountAboveZero(totals, a);
    if a < b {
      CountAboveMonotone(totals, a, b);
    }
  }

  /** The entry with its rank among the given totals. */
  function Ranked(e: Entry, totals: seq<real>): Entry
  {
    e.(rank := Rank(totals, e.total))
  }

  /** Every entry with its rank among all the totals. */
  function RankAll(es: seq<Entry>): (r: seq<Entry>)
    ensures |r| == |es|
  {
    seq(|es|, i requires 0 <= i < |es| => Ranked(es[i], Totals(es)))
  }

  /** The second pass: every entry gets its rank among all the totals. */
  method AssignRanks(entries: seq<Entry>) returns (ranked: seq<Entry>)
    ensures ranked == RankAll(entries)
  {
    var totals := Totals(entries);
    ranked := [];
    for i := 0 to |entries|
      invariant |ranked| == i
      invariant forall k :: 0 <= k < i ==> ranked[k] == Ranked(entries[k], totals)
    {
      ranked := ranked + [Ranked(entries[i], totals)];
    }
  }

  /** `max(totals)`, or 0 when there are no players. */
  function BestTotal(totals: seq<real>): (b: real)
    ensures totals == [] ==> b == 0.0
    ensures totals != [] ==> b in totals && forall i :: 0 <= i < |totals| ==> totals[i] <= b
  {
    if totals == [] then 0.0 else MaxOf(totals)
  }

  /** Ranking changes no total, so the best total is the same before and after. */
  lemma RankedTotals(es: seq<Entry>)
    ensures Totals(RankAll(es)) == Totals(es)
  {
    assert forall i :: 0 <= i < |es| ==> Totals(RankAll(es))[i] == es[i].total;
  }

  /** After ranking, every rank lies between 1 and the number of players,
      no total exceeds the best, and rank 1 goes exactly to the players
      holding the best total. */
  lemma RankedEntry(es: seq<Entry>, i: nat)
    requires i < |es|
    ensures 1 <= RankAll(es)[i].rank <= |es|
    ensures RankAll(es)[i].total <= BestTotal(Totals(RankAll(es)))
    ensures RankAll(es)[i].rank == 1 <==> RankAll(es)[i].total == BestTotal(Totals(RankAll(es)))
  {
    var totals := Totals(es);
    RankedTotals(es);
    assert totals[i] == es[i].total;
    RankSpec(totals, es[i].total, es[i].total);
  }

  /** A strictly higher total gets a strictly better (smaller) rank; equal
      totals share their rank. */
  lemma RankedOrder(es: seq<Entry>, i: nat, j: nat)
    requires i < |es| && j < |es|
    ensures RankAll(es)[i].total > RankAll(es)[j].total ==> RankAll(es)[i].rank < RankAll(es)[j].rank
    ensures RankAll(es)[i].total == RankAll(es)[j].total ==> RankAll(es)[i].rank == RankAll(es)[j].rank
  {
    var totals := Totals(es);
    assert totals[i] == es[i].total && totals[j] == es[j].total;
    RankSpec(totals, es[j].total, es[i].total);
  }

  // ---------------------------------------------------------------------
  // Labels
  // ---------------------------------------------------------------------

  function Classes(es: seq<Entry>): (r: seq<string>)
    ensures |r| == |es|
    ensures forall i :: 0 <= i < |es| ==> r[i] == es[i].className
  {
    seq(|es|, i requires 0 <= i < |es| => es[i].className)
  }

  /** Entry `i`'s label: its class name and how many entries up to and
      including it share that class. */
  function LabelOf(es: seq<Entry>, i: nat): Label
    requires i < |es|
  {
    Instance(es[i].className, Multiplicity(Classes(es)[..i + 1], es[i].className))
  }

  lemma MultiplicitySnoc<T>(xs: seq<T>, i: nat, x: T)
    requires i < |xs|
    ensures Multiplicity(xs[..i + 1], x) == Multiplicity(xs[..i], x) + (if xs[i] == x then 1 else 0)
  {
    assert xs[..i + 1] == xs[..i] + [xs[i]];
    MultiplicityAppend(xs[..i], [xs[i]], x);
    assert [xs[i]][1..] == [];
  }

  /** The first entry of a class is labelled with the bare class name (count
      1); later ones with their count. */
  lemma LabelBase(es: seq<Entry>, i: nat)
    requires i < |es|
    ensures LabelOf(es, i).k >= 1
    ensures LabelOf(es, i).k == 1 <==> forall j :: 0 <= j < i ==> es[j].className != es[i].className
  {
    var xs := Classes(es);
    MultiplicitySnoc(xs, i, es[i].className);
    MultiplicityZero(xs[..i], es[i].className);
    if exists j :: 0 <= j < i && es[j].className == es[i].className {
      var j :| 0 <= j < i && es[j].className == es[i].className;
      assert xs[..i][j] == es[i].className;
    }
  }

  /** No two entries get the same label, so no player's metrics overwrite another's. */
  lemma LabelsDistinct(es: seq<Entry>, i: nat, j: nat)
    requires i < j < |es|
    ensures LabelOf(es, i) != LabelOf(es, j)
  {
    var xs := Classes(es);
    var c := es[j].className;
    if es[i].className == c {
      assert xs[..j + 1] == xs[..i + 1] + xs[i + 1..j + 1];
      MultiplicityAppend(xs[..i + 1], xs[i + 1..j + 1], c);
      assert xs[i + 1..j + 1][j - i - 1] == c;
      MultiplicityZero(xs[i + 1..j + 1], c);
    }
  }

  /** The first `n` entries under their labels, each with `f` of the entry. */
  function LabelledUpTo<V>(es: seq<Entry>, n: nat, f: Entry -> V): (d: ODict<Label, V>)
    requires n <= |es|
    ensures |d| == n
    ensures forall i :: 0 <= i < n ==> d[i] == (LabelOf(es, i), f(es[i]))
  {
    seq(n, i requires 0 <= i < n => (LabelOf(es, i), f(es[i])))
  }

  /** The labelled dictionaries have distinct keys: each entry has its own pair. */
  lemma LabelledDistinct<V>(es: seq<Entry>, n: nat, f: Entry -> V)
    requires n <= |es|
    ensures DistinctKeys(LabelledUpTo(es, n, f))
    ensures n < |es| ==> !HasKey(LabelledUpTo(es, n, f), LabelOf(es, n))
  {
    var d := LabelledUpTo(es, n, f);
    forall i, j | 0 <= i < j < n ensures d[i].0 != d[j].0 {
      LabelsDistinct(es, i, j);
    }
    if n < |es| && HasKey(d, LabelOf(es, n)) {
      var i := HasKeyIndex(d, LabelOf(es, n));
      LabelsDistinct(es, i, n);
    }
  }

  function MetricOf(e: Entry): PlayerMetric
  {
    PlayerMetric(e.className, e.alias, e.total, e.individual, e.shared, e.rank)
  }

  function TotalOf(e: Entry): real
  {
    e.total
  }

  /** `id_to_label` after the first `n` entries: a later entry with the same
      id overwrites an earlier one's label. */
  function IdLabels(es: seq<Entry>, n: nat): ODict<Option<Id>, Label>
    requires n <= |es|
  {
    if n == 0 then [] else Put(IdLabels(es, n - 1), es[n - 1].id, LabelOf(es, n - 1))
  }

  /** An id is mapped exactly when some entry carries it. */
  lemma {:induction false} IdLabelsHas(es: seq<Entry>, n: nat, id: Option<Id>)
    requires n <= |es|
    ensures HasKey(IdLabels(es, n), id) <==> exists j :: 0 <= j < n && es[j].id == id
  {
    if n > 0 {
      var d := IdLabels(es, n - 1);
      assert IdLabels(es, n) == Put(d, es[n - 1].id, LabelOf(es, n - 1));
      IdLabelsHas(es, n - 1, id);
      PutThenGet(d, es[n - 1].id, LabelOf(es, n - 1), id);
      if HasKey(d, id) {
        var j :| 0 <= j < n - 1 && es[j].id == id;
        assert 0 <= j < n && es[j].id == id;
      }
      if exists j :: 0 <= j < n && es[j].id == id {
        var j :| 0 <= j < n && es[j].id == id;
        if j < n - 1 {
          assert HasKey(d, id);
        }
      }
    }
  }

  /** An id maps to the label of the last entry that carries it. */
  lemma {:induction false} IdLabelsLast(es: seq<Entry>, n: nat, j: nat)
    requires j < n <= |es|
    requires forall l :: j < l < n ==> es[l].id != es[j].id
    ensures HasKey(IdLabels(es, n), es[j].id) && Get(IdLabels(es, n), es[j].id) == LabelOf(es, j)
  {
    var d := IdLabels(es, n - 1);
    assert IdLabels(es, n) == Put(d, es[n - 1].id, LabelOf(es, n - 1));
    PutThenGet(d, es[n - 1].id, LabelOf(es, n - 1), es[j].id);
    if j < n - 1 {
      IdLabelsLast(es, n - 1, j);
      assert es[n - 1].id != es[j].id;
    }
  }

  function Player10Entries(es: seq<Entry>): (r: seq<Entry>)
    ensures |r| <= |es|
  {
    if es == [] then []
    else Player10Entries(es[..|es| - 1]) + (if es[|es| - 1].className == Player10Class then [es[|es| - 1]] else [])
  }

  /** What the labelling pass builds. */
  datatype Labelling = Labelling(
    metrics: ODict<Label, PlayerMetric>,
    scores: ODict<Label, real>,
    idToLabel: ODict<Option<Id>, Label>,
    player10: seq<Entry>)

  function LabellingOf(es: seq<Entry>): Labelling
  {
    Labelling(LabelledUpTo(es, |es|, MetricOf), LabelledUpTo(es, |es|, TotalOf), IdLabels(es, |es|),
              Player10Entries(es))
  }

  lemma LabelledSnoc<V>(es: seq<Entry>, i: nat, f: Entry -> V)
    requires i < |es|
    ensures LabelledUpTo(es, i, f) + [(LabelOf(es, i), f(es[i]))] == LabelledUpTo(es, i + 1, f)
  {
    var a := LabelledUpTo(es, i, f) + [(LabelOf(es, i), f(es[i]))];
    var b := LabelledUpTo(es, i + 1, f);
    forall k | 0 <= k < |b| ensures a[k] == b[k] {
      if k < i {
        assert a[k] == LabelledUpTo(es, i, f)[k];
      }
    }
  }

  /** One step of the labelling loop: entry `i` is new to the dictionary,
      so `d[label] = value` appends. */
  lemma LabelStep<V>(es: seq<Entry>, i: nat, f: Entry -> V)
    requires i < |es|
    ensures Put(LabelledUpTo(es, i, f), LabelOf(es, i), f(es[i])) == LabelledUpTo(es, i + 1, f)
  {
    LabelledDistinct(es, i, f);
    PutShape(LabelledUpTo(es, i, f), LabelOf(es, i), f(es[i]));
    LabelledSnoc(es, i, f);
  }

  lemma Player10Step(es: seq<Entry>, i: nat)
    requires i < |es|
    ensures Player10Entries(es[..i + 1]) ==
      Player10Entries(es[..i]) + (if es[i].className == Player10Class then [es[i]] else [])
  {
    assert es[..i + 1][..i] == es[..i];
  }

  /** The labelling pass: class counts, labels, metrics, scores, the
      id-to-label map and the Player 10 entries, in one walk over the entries. */
  method LabelEntries(es: seq<Entry>) returns (l: Labelling)
    ensures l == LabellingOf(es)
  {
    var counts: ODict<string, nat> := [];
    var metrics: ODict<Label, PlayerMetric> := [];
    var scores: ODict<Label, real> := [];
    var idToLabel: ODict<Option<Id>, Label> := [];
    var player10: seq<Entry> := [];
    for i := 0 to |es|
      invariant counts == Tally(Classes(es)[..i])
      invariant metrics == LabelledUpTo(es, i, MetricOf)
      invariant scores == LabelledUpTo(es, i, TotalOf)
      invariant idToLabel == IdLabels(es, i)
      invariant player10 == Player10Entries(es[..i])
    {
      var e := es[i];
      assert Classes(es)[..i + 1][..i] == Classes(es)[..i];
      counts := Put(counts, e.className, GetOr(counts, e.className, 0) + 1);
      TallyCounts(Classes(es)[..i + 1], e.className);
      var name := Instance(e.className, GetOr(counts, e.className, 0));
      idToLabel := Put(idToLabel, e.id, name);
      LabelStep(es, i, MetricOf);
      LabelStep(es, i, TotalOf);
      Player10Step(es, i);
      metrics := Put(metrics, name, MetricOf(e));
      scores := Put(scores, name, TotalOf(e));
      if e.className == Player10Class {
        player10 := player10 + [e];
      }
    }
    assert es[..|es|] == es;
    l := Labelling(metrics, scores, idToLabel, player10);
  }

  // ---------------------------------------------------------------------
  // Contributions
  // ---------------------------------------------------------------------

  /** The label a speaker is counted under: its entry's, else `Player_<id>`. */
  function LabelFor(idToLabel: ODict<Option<Id>, Label>, owner: Id): Label
  {
    GetOr(idToLabel, Some(owner), Unclaimed(owner))
  }

  /** The label of each item said, in order; pauses are skipped. */
  function Speakers(h: History, idToLabel: ODict<Option<Id>, Label>): seq<Label>
  {
    if h == [] then []
    else
      var front := h[..|h| - 1];
      Speakers(front, idToLabel) + (if h[|h| - 1].Said? then [LabelFor(idToLabel, h[|h| - 1].item.owner)] else [])
  }

  lemma SpeakersStep(h: History, i: nat, idToLabel: ODict<Option<Id>, Label>)
    requires i < |h|
    ensures Speakers(h[..i + 1], idToLabel) ==
      Speakers(h[..i], idToLabel) + (if h[i].Said? then [LabelFor(idToLabel, h[i].item.owner)] else [])
  {
    assert h[..i + 1][..i] == h[..i];
  }

  /** The count of items said under each label, unclaimed speakers included. */
  method CountContributions(h: History, idToLabel: ODict<Option<Id>, Label>) returns (counts: ODict<Label, nat>)
    ensures counts == Tally(Speakers(h, idToLabel))
  {
    counts := [];
    for i := 0 to |h|
      invariant counts == Tally(Speakers(h[..i], idToLabel))
    {
      SpeakersStep(h, i, idToLabel);
      if h[i].Said? {
        var speaker := LabelFor(idToLabel, h[i].item.owner);
        TallySnoc(Speakers(h[..i], idToLabel), speaker);
        counts := Put(counts, speaker, GetOr(counts, speaker, 0) + 1);
      } else {
        assert Speakers(h[..i], idToLabel) + [] == Speakers(h[..i], idToLabel);
      }
    }
    assert h[..|h|] == h;
  }

  /** Contributions are reported for the labelled players only, in their order. */
  function ContributionsFor(metrics: ODict<Label, PlayerMetric>, counts: ODict<Label, nat>): (r: ODict<Label, nat>)
    ensures |r| == |metrics|
  {
    seq(|metrics|, i requires 0 <= i < |metrics| => (metrics[i].0, GetOr(counts, metrics[i].0, 0)))
  }

  /** Each labelled player is credited with exactly the items said under its
      label; items of unclaimed speakers are counted and then dropped. */
  lemma ContributionsSpec(metrics: ODict<Label, PlayerMetric>, h: History, idToLabel: ODict<Option<Id>, Label>)
    ensures Keys(ContributionsFor(metrics, Tally(Speakers(h, idToLabel)))) == Keys(metrics)
    ensures forall i :: 0 <= i < |metrics| ==>
      ContributionsFor(metrics, Tally(Speakers(h, idToLabel)))[i].1 == Multiplicity(Speakers(h, idToLabel), metrics[i].0)
  {
    var r := ContributionsFor(metrics, Tally(Speakers(h, idToLabel)));
    forall i | 0 <= i < |metrics|
      ensures r[i].1 == Multiplicity(Speakers(h, idToLabel), metrics[i].0)
    {
      TallyCounts(Speakers(h, idToLabel), metrics[i].0);
    }
    assert forall i :: 0 <= i < |r| ==> Keys(r)[i] == Keys(metrics)[i];
  }

  // ---------------------------------------------------------------------
  // Conversation metrics
  // ---------------------------------------------------------------------

  /** The set of item ids used in the conversation. */
  method UniqueItems(h: History) returns (ids: set<Id>)
    ensures ids == IdsOf(h)
  {
    ids := {};
    for i := 0 to |h|
      invariant ids == IdsOf(h[..i])
    {
      assert h[..i + 1] == h[..i] + [h[i]];
      IdsOfSnoc(h[..i], h[i]);
      if h[i].Said? {
        ids := ids + {h[i].item.id};
      }
    }
    assert h[..|h|] == h;
  }

  /** Distinct items used never outnumber the items said. */
  lemma {:induction false} UniqueItemsBound(h: History)
    ensures |IdsOf(h)| <= |ItemsOf(h)|
  {
    if h != [] {
      var front := h[..|h| - 1];
      var last := h[|h| - 1];
      assert h == front + [last];
      UniqueItemsBound(front);
      ItemsOfAppend(front, [last]);
      IdsOfSnoc(front, last);
      assert |ItemsOf([last])| == if last.Said? then 1 else 0;
    }
  }

  // ---------------------------------------------------------------------
  // The whole extraction
  // ---------------------------------------------------------------------

  function MeanOrNone(xs: seq<real>): Option<real>
  {
    if xs == [] then None else Some(Mean(xs))
  }

  function Ranks(es: seq<Entry>): (r: seq<real>)
    ensures |r| == |es|
  {
    seq(|es|, i requires 0 <= i < |es| => es[i].rank as real)
  }

  function Gaps(es: seq<Entry>, best: real): (r: seq<real>)
    ensures |r| == |es|
  {
    seq(|es|, i requires 0 <= i < |es| => best - es[i].total)
  }

  function Individuals(es: seq<Entry>): (r: seq<real>)
    ensures |r| == |es|
  {
    seq(|es|, i requires 0 <= i < |es| => es[i].individual)
  }

  /** `player_scores`: each label's total, the first Player 10 instance's
      replaced by the mean over all Player 10 instances when there are any. */
  function PlayerScores(scores: ODict<Label, real>, player10: seq<Entry>): ODict<Label, real>
  {
    if player10 == [] then scores else Put(scores, Instance(Player10Class, 1), Mean(Totals(player10)))
  }

  /** The record `_extract_results` builds from the engine's output. */
  function Extract(configuredLength: nat, out: EngineOutput, metas: seq<Meta>): RunRecord
  {
    var h := OrDefault(out.history, []);
    var breakdown := OrDefault(out.breakdown, []);
    var totalScore := GetOr(breakdown, "total", 0.0);
    var es := RankAll(Entries(OrDefault(out.players, []), metas, totalScore));
    var best := BestTotal(Totals(es));
    var l := LabellingOf(es);
    var p10 := l.player10;
    RunRecord(
      totalScore,
      PlayerScores(l.scores, p10),
      ContributionsFor(l.metrics, Tally(Speakers(h, l.idToLabel))),
      |h|,
      |h| < configuredLength,
      PauseCount(h),
      |IdsOf(h)|,
      breakdown,
      l.metrics,
      MeanOrNone(Totals(p10)),
      MeanOrNone(Individuals(p10)),
      MeanOrNone(Ranks(p10)),
      |p10|,
      best,
      MeanOrNone(Gaps(p10, best)))
  }

  /** `_extract_results`: the passes over the players and the history. */
  method ExtractResults(configuredLength: nat, out: EngineOutput, metas: seq<Meta>) returns (rec: RunRecord)
    ensures rec == Extract(configuredLength, out, metas)
  {
    var h := OrDefault(out.history, []);
    var breakdown := OrDefault(out.breakdown, []);
    var totalScore := GetOr(breakdown, "total", 0.0);
    var entries := GatherEntries(OrDefault(out.players, []), metas, totalScore);
    var es := AssignRanks(entries);
    var best := BestTotal(Totals(es));
    var l := LabelEntries(es);
    var counts := CountContributions(h, l.idToLabel);
    var contributions := ContributionsFor(l.metrics, counts);
    var scores := l.scores;
    var p10 := l.player10;
    if p10 != [] {
      scores := Put(scores, Instance(Player10Class, 1), Mean(Totals(p10)));
    }
    var ids := UniqueItems(h);
    rec := RunRecord(totalScore, scores, contributions, |h|, |h| < configuredLength, PauseCount(h), |ids|,
                     breakdown, l.metrics, MeanOrNone(Totals(p10)), MeanOrNone(Individuals(p10)),
                     MeanOrNone(Ranks(p10)), |p10|, best, MeanOrNone(Gaps(p10, best)));
  }

  // ---------------------------------------------------------------------
  // What a run's record promises
  // ---------------------------------------------------------------------

  /** The ranked entries a run's record is built from. */
  function RunEntries(out: EngineOutput, metas: seq<Meta>): seq<Entry>
  {
    var breakdown := OrDefault(out.breakdown, []);
    RankAll(Entries(OrDefault(out.players, []), metas, GetOr(breakdown, "total", 0.0)))
  }

  /** One metrics row per player, under distinct labels; contributions are
      reported for exactly the labelled players, in the same order. */
  lemma ExtractMetrics(configuredLength: nat, out: EngineOutput, metas: seq<Meta>)
    ensures |Extract(configuredLength, out, metas).playerMetrics| == |OrDefault(out.players, [])|
    ensures DistinctKeys(Extract(configuredLength, out, metas).playerMetrics)
    ensures Keys(Extract(configuredLength, out, metas).contributions) == Keys(Extract(configuredLength, out, metas).playerMetrics)
  {
    var es := RunEntries(out, metas);
    var rec := Extract(configuredLength, out, metas);
    assert rec.playerMetrics == LabelledUpTo(es, |es|, MetricOf);
    LabelledDistinct(es, |es|, MetricOf);
    var h := OrDefault(out.history, []);
    ContributionsSpec(rec.playerMetrics, h, IdLabels(es, |es|));
  }

  /** The ranks in a run's record: between 1 and the number of players, rank
      1 exactly for the best total, a higher total never ranked worse. */
  lemma ExtractRanks(configuredLength: nat, out: EngineOutput, metas: seq<Meta>, i: nat, j: nat)
    requires i < |Extract(configuredLength, out, metas).playerMetrics|
    requires j < |Extract(configuredLength, out, metas).playerMetrics|
    ensures var rec := Extract(configuredLength, out, metas);
      var m := rec.playerMetrics;
      && 1 <= m[i].1.rank <= |m|
      && m[i].1.total <= rec.bestTotalScore
      && (m[i].1.rank == 1 <==> m[i].1.total == rec.bestTotalScore)
      && (m[i].1.total > m[j].1.total ==> m[i].1.rank < m[j].1.rank)
      && (m[i].1.total == m[j].1.total ==> m[i].1.rank == m[j].1.rank)
  {
    var es := RunEntries(out, metas);
    var breakdown := OrDefault(out.breakdown, []);
    var es0 := Entries(OrDefault(out.players, []), metas, GetOr(breakdown, "total", 0.0));
    var rec := Extract(configuredLength, out, metas);
    assert rec.playerMetrics == LabelledUpTo(es, |es|, MetricOf);
    assert rec.bestTotalScore == BestTotal(Totals(es));
    RankedEntry(es0, i);
    RankedOrder(es0, i, j);
  }

  lemma {:induction false} Player10Members(es: seq<Entry>, e: Entry)
    ensures e in Player10Entries(es) <==> e in es && e.className == Player10Class
  {
    if es != [] {
      var front := es[..|es| - 1];
      Player10Members(front, e);
      assert es == front + [es[|es| - 1]];
    }
  }

  /** When some player is a Player 10, the first of them is labelled with the
      bare class name. */
  lemma Player10Label(es: seq<Entry>) returns (j: nat)
    requires exists i :: 0 <= i < |es| && es[i].className == Player10Class
    ensures j < |es| && es[j].className == Player10Class && LabelOf(es, j) == Instance(Player10Class, 1)
  {
    var xs := Classes(es);
    var i :| 0 <= i < |es| && es[i].className == Player10Class;
    assert xs[i] == Player10Class;
    j := IndexOf(xs, Player10Class);
    forall l | 0 <= l < j ensures es[l].className != Player10Class {
      assert xs[..j][l] == xs[l];
    }
    LabelBase(es, j);
  }

  /** Player 10's averages exist exactly when some player is a Player 10; the
      legacy `Player10` score then holds the mean total, and the scores keep
      the labels and order of the metrics. */
  lemma Player10Present(es: seq<Entry>)
    ensures Player10Entries(es) != [] <==>
      exists i :: 0 <= i < |es| && LabelledUpTo(es, |es|, MetricOf)[i].1.className == Player10Class
  {
    var m := LabelledUpTo(es, |es|, MetricOf);
    var p10 := Player10Entries(es);
    if p10 != [] {
      Player10Members(es, p10[0]);
      var i :| 0 <= i < |es| && es[i] == p10[0];
      assert m[i].1.className == Player10Class;
    }
    if exists i :: 0 <= i < |es| && m[i].1.className == Player10Class {
      var i :| 0 <= i < |es| && m[i].1.className == Player10Class;
      Player10Members(es, es[i]);
    }
  }

  /** With some Player 10 present, its bare label is among the score labels. */
  lemma Player10Keyed(es: seq<Entry>)
    requires Player10Entries(es) != []
    ensures HasKey(LabelledUpTo(es, |es|, TotalOf), Instance(Player10Class, 1))
  {
    assert exists i :: 0 <= i < |es| && es[i].className == Player10Class by {
      Player10Members(es, Player10Entries(es)[0]);
    }
    var j := Player10Label(es);
    var sc := LabelledUpTo(es, |es|, TotalOf);
    assert Keys(sc)[j] == sc[j].0 == Instance(Player10Class, 1);
  }

  /** The legacy `Player10` score holds the mean total of all Player 10
      instances. */
  lemma Player10Legacy(es: seq<Entry>)
    requires Player10Entries(es) != []
    ensures HasKey(PlayerScores(LabelledUpTo(es, |es|, TotalOf), Player10Entries(es)), Instance(Player10Class, 1))
    ensures Get(PlayerScores(LabelledUpTo(es, |es|, TotalOf), Player10Entries(es)), Instance(Player10Class, 1)) ==
      Mean(Totals(Player10Entries(es)))
  {
    Player10Keyed(es);
    var v := Mean(Totals(Player10Entries(es)));
    PutThenGet(LabelledUpTo(es, |es|, TotalOf), Instance(Player10Class, 1), v, Instance(Player10Class, 1));
  }

  /** The scores keep the labels and order of the metrics. */
  lemma PlayerScoresKeys(es: seq<Entry>)
    ensures |PlayerScores(LabelledUpTo(es, |es|, TotalOf), Player10Entries(es))| == |es|
    ensures forall k :: 0 <= k < |es| ==>
      PlayerScores(LabelledUpTo(es, |es|, TotalOf), Player10Entries(es))[k].0 == LabelOf(es, k)
  {
    var sc := LabelledUpTo(es, |es|, TotalOf);
    var p10 := Player10Entries(es);
    if p10 != [] {
      Player10Keyed(es);
      PutShape(sc, Instance(Player10Class, 1), Mean(Totals(p10)));
    }
  }

  /** Player 10's averages are bounded by the run: the mean total by the best
      total, the mean rank by 1 and the number of players, the mean gap to the
      best from below by 0. */
  lemma Player10Bounds(es0: seq<Entry>)
    ensures var es := RankAll(es0);
      var p10 := Player10Entries(es);
      var best := BestTotal(Totals(es));
      p10 != [] ==>
        && Mean(Totals(p10)) <= best
        && 1.0 <= Mean(Ranks(p10)) <= |es| as real
        && Mean(Gaps(p10, best)) >= 0.0
  {
    var es := RankAll(es0);
    var best := BestTotal(Totals(es));
    var p10 := Player10Entries(es);
    if p10 != [] {
      forall k | 0 <= k < |p10|
        ensures p10[k].total <= best && 1 <= p10[k].rank <= |es|
      {
        Player10Members(es, p10[k]);
        var i :| 0 <= i < |es| && es[i] == p10[k];
        RankedEntry(es0, i);
      }
      var totals := Totals(p10);
      MeanBounds(totals, MinOf(totals), best);
      MeanBounds(Ranks(p10), 1.0, |es| as real);
      var gaps := Gaps(p10, best);
      MeanBounds(gaps, 0.0, MaxOf(gaps));
    }
  }

  /** What a record promises about Player 10: its count is positive exactly
      when some listed player is of that class; the three means are present
      exactly then; the score keys follow the metric keys; and a present
      Player 10 has a legacy score equal to its mean total, at most the best
      total, with a mean rank in 1..n and a non-negative mean gap. */
  predicate Player10Consistent(rec: RunRecord)
  {
    && (rec.p10Instances > 0 <==>
        exists i :: 0 <= i < |rec.playerMetrics| && rec.playerMetrics[i].1.className == Player10Class)
    && (rec.p10TotalMean.Some? <==> rec.p10Instances > 0)
    && (rec.p10RankMean.Some? <==> rec.p10Instances > 0)
    && (rec.p10GapToBest.Some? <==> rec.p10Instances > 0)
    && |rec.playerScores| == |rec.playerMetrics|
    && (forall k :: 0 <= k < |rec.playerMetrics| ==> rec.playerScores[k].0 == rec.playerMetrics[k].0)
    && (rec.p10Instances > 0 ==>
        && HasKey(rec.playerScores, Instance(Player10Class, 1))
        && Get(rec.playerScores, Instance(Player10Class, 1)) == rec.p10TotalMean.value
        && rec.p10TotalMean.value <= rec.bestTotalScore
        && 1.0 <= rec.p10RankMean.value <= |rec.playerMetrics| as real
        && rec.p10GapToBest.value >= 0.0)
  }

  /** A record whose Player 10 fields are built from the ranked entries
      `es` is consistent. */
  lemma Player10Record(rec: RunRecord, es0: seq<Entry>)
    requires var es := RankAll(es0);
      var p10 := Player10Entries(es);
      var best := BestTotal(Totals(es));
      && rec.playerMetrics == LabelledUpTo(es, |es|, MetricOf)
      && rec.playerScores == PlayerScores(LabelledUpTo(es, |es|, TotalOf), p10)
      && rec.p10Instances == |p10|
      && rec.p10TotalMean == MeanOrNone(Totals(p10))
      && rec.p10RankMean == MeanOrNone(Ranks(p10))
      && rec.bestTotalScore == best
      && rec.p10GapToBest == MeanOrNone(Gaps(p10, best))
    ensures Player10Consistent(rec)
  {
    var es := RankAll(es0);
    var p10 := Player10Entries(es);
    var metrics := rec.playerMetrics;
    var scores := rec.playerScores;
    var best := rec.bestTotalScore;
    assert p10 != [] <==> exists i :: 0 <= i < |es| && metrics[i].1.className == Player10Class by {
      Player10Present(es);
    }
    assert |scores| == |es| && forall k :: 0 <= k < |es| ==> scores[k].0 == LabelOf(es, k) by {
      PlayerScoresKeys(es);
    }
    forall k | 0 <= k < |es| ensures scores[k].0 == metrics[k].0 {
      assert metrics[k] == (LabelOf(es, k), MetricOf(es[k]));
    }
    if p10 != [] {
      assert HasKey(scores, Instance(Player10Class, 1)) && Get(scores, Instance(Player10Class, 1)) == Mean(Totals(p10)) by {
        Player10Legacy(es);
      }
      assert Mean(Totals(p10)) <= best && 1.0 <= Mean(Ranks(p10)) <= |es| as real && Mean(Gaps(p10, best)) >= 0.0 by {
        Player10Bounds(es0);
      }
    }
  }

  /** The Player 10 part of a run's record: present exactly when some player
      is a Player 10, bounded by the run, with the legacy `Player10` score
      holding the mean total. */
  lemma ExtractPlayer10(configuredLength: nat, out: EngineOutput, metas: seq<Meta>)
    ensures Player10Consistent(Extract(configuredLength, out, metas))
  {
    var breakdown := OrDefault(out.breakdown, []);
    var es0 := Entries(OrDefault(out.players, []), metas, GetOr(breakdown, "total", 0.0));
    Player10Record(Extract(configuredLength, out, metas), es0);
  }

  /** A run's conversation metrics: pauses and items said make up the
      conversation; it ended early exactly when it is shorter than configured;
      distinct items never outnumber the items said. */
  lemma ExtractConversation(configuredLength: nat, out: EngineOutput, metas: seq<Meta>)
    ensures var rec := Extract(configuredLength, out, metas);
      && rec.pauseCount + |ItemsOf(OrDefault(out.history, []))| == rec.conversationLength
      && (rec.earlyTermination <==> rec.conversationLength < configuredLength)
      && rec.uniqueItemsUsed <= rec.conversationLength - rec.pauseCount
  {
    UniqueItemsBound(OrDefault(out.history, []));
  }
}
