/** Player 9: scores a whole history, proposes the item that raises that score
    most, and speaks when the gain clears a threshold tiered by how much
    memory it has left per remaining turn (players/player_9/player.py). */
module Player9 {
  import opened Common
  import opened Sorting
  import Scoring

  const InitialStartingThreshold: real := 1.8
  const T1: real := 1.05
  const T2: real := 1.1
  const T3: real := 1.2
  const T4: real := 1.5
  const T5: real := 3.0

  /** `check_one_pause`: the last slot is a pause. */
  predicate OnePause(h: History)
  {
    |h| >= 1 && h[|h| - 1].Pause?
  }

  /** `check_two_pause`: the last two slots are pauses. */
  predicate TwoPauses(h: History)
  {
    |h| >= 2 && h[|h| - 1].Pause? && h[|h| - 2].Pause?
  }

  lemma TwoPausesImpliesOne(h: History)
    ensures TwoPauses(h) ==> OnePause(h)
    ensures TwoPauses(h) <==> OnePause(h) && OnePause(h[..|h| - 1])
  {
  }

  // ---------------------------------------------------------------------
  // History score
  // ---------------------------------------------------------------------

  /** Items of `h[start]`, `h[start+1]`, ... : at most `n`, stopping at a pause,
      at a slot equal to the scored item, or at the end of the history. */
  function RunForwardUntil(h: History, start: nat, n: nat, x: Item): (r: seq<Item>)
    ensures |r| <= n
    decreases n
  {
    if n == 0 || start >= |h| || h[start].Pause? || h[start] == Said(x) then []
    else
      [h[start].item] + RunForwardUntil(h, start + 1, n - 1, x)
  }

  /** `r` is read off consecutive slots of `h` from `start`, none of which
      holds `x`. */
  ghost predicate ReadFrom(h: History, start: nat, r: seq<Item>, x: Item)
    decreases |r|
  {
    r == [] || (start < |h| && h[start] == Said(r[0]) && r[0] != x && ReadFrom(h, start + 1, r[1..], x))
  }

  /** The run is read off consecutive slots from `start`, none of which is
      the scored item. */
  lemma {:induction false} RunForwardUntilSlots(h: History, start: nat, n: nat, x: Item)
    ensures ReadFrom(h, start, RunForwardUntil(h, start, n, x), x)
    decreases n
  {
    if !(n == 0 || start >= |h| || h[start].Pause? || h[start] == Said(x)) {
      var rest := RunForwardUntil(h, start + 1, n - 1, x);
      RunForwardUntilSlots(h, start + 1, n - 1, x);
      assert ([h[start].item] + rest)[1..] == rest;
    }
  }

  function Context(h: History, i: nat, x: Item): seq<Item>
    requires i <= |h|
  {
    Scoring.RunBack(h, i, 3) + RunForwardUntil(h, i + 1, 3, x)
  }

  /** The nested coherence scorer: the common rule with no guard for an empty
      context, so an item with subjects and no neighbours gets -1. */
  function Coherence(h: History, i: nat, x: Item): (c: real)
    requires i <= |h|
    ensures c == -1.0 || c == 0.0 || c == 1.0
    ensures Context(h, i, x) == [] && x.subjects != [] ==> c == -1.0
  {
    Scoring.CoherenceOf(x.subjects, Context(h, i, x))
  }

  /** What slot `i` adds to the history score. A pause adds nothing; an item
      whose id was already said adds -1 non-monotonousness; any other item adds
      importance, coherence, freshness and non-monotonousness. Every item adds
      its mean preference bonus. */
  function Contribution(h: History, i: nat, prefs: seq<Subject>): real
    requires i < |h|
  {
    if h[i].Pause? then 0.0
    else
      var x := h[i].item;
      var base :=
        if x.id in IdsOf(h[..i]) then -1.0
        else x.importance + Coherence(h, i, x) + Scoring.Freshness(i, x, h) - Scoring.Monotony(i, x, h);
      base + MeanBonus(prefs, x.subjects)
  }

  /** Sum of the contributions of the first `n` slots. */
  function ScoreUpTo(h: History, n: nat, prefs: seq<Subject>): real
    requires n <= |h|
  {
    if n == 0 then 0.0 else ScoreUpTo(h, n - 1, prefs) + Contribution(h, n - 1, prefs)
  }

  /** `calculate_history_score`. */
  function HistoryScore(h: History, prefs: seq<Subject>): real
  {
    ScoreUpTo(h, |h|, prefs)
  }

  lemma IdsOfSnoc(h: History, i: nat)
    requires i < |h|
    ensures IdsOf(h[..i + 1]) == IdsOf(h[..i]) + (if h[i].Said? then {h[i].item.id} else {})
  {
    assert forall k :: 0 <= k < i ==> h[..i + 1][k] == h[..i][k];
  }

  /** `calculate_history_score`, the loop with its separate running totals. */
  method CalculateHistoryScore(h: History, prefs: seq<Subject>) returns (total: real)
    ensures total == HistoryScore(h, prefs)
  {
    var unique: set<Id> := {};
    var coherence, freshness, importance, nonmono, individual := 0.0, 0.0, 0.0, 0.0, 0.0;
    var i := 0;
    while i < |h|
      invariant 0 <= i <= |h|
      invariant unique == IdsOf(h[..i])
      invariant coherence + freshness + importance + nonmono + individual == ScoreUpTo(h, i, prefs)
    {
      IdsOfSnoc(h, i);
      if h[i].Said? {
        var x := h[i].item;
        if x.id in unique {
          nonmono := nonmono - 1.0;
        } else {
          importance := importance + x.importance;
          coherence := coherence + Coherence(h, i, x);
          freshness := freshness + Scoring.Freshness(i, x, h);
          nonmono := nonmono - Scoring.Monotony(i, x, h);
          unique := unique + {x.id};
        }
        var bonuses := Bonuses(prefs, x.subjects);
        if bonuses != [] {
          individual := individual + Mean(bonuses);
        }
      }
      i := i + 1;
    }
    assert h[..|h|] == h;
    total := coherence + freshness + importance + nonmono + individual;
  }

  // ---- what appending one slot does to the history score ----

  lemma {:induction false} RunBackPrefix(h: History, g: History, end: nat, n: nat)
    requires end <= |h| <= |g| && g[..|h|] == h
    ensures Scoring.RunBack(g, end, n) == Scoring.RunBack(h, end, n)
    decreases n
  {
    if n > 0 && end > 0 {
      assert g[end - 1] == h[end - 1];
      RunBackPrefix(h, g, end - 1, n - 1);
    }
  }

  /** A run that starts before a trailing pause ends at that pause whatever follows it. */
  lemma {:induction false} RunForwardBeforePause(h: History, g: History, start: nat, n: nat, x: Item)
    requires |h| <= |g| && g[..|h|] == h
    requires start < |h| && h[|h| - 1].Pause?
    ensures RunForwardUntil(g, start, n, x) == RunForwardUntil(h, start, n, x)
    decreases n
  {
    assert g[start] == h[start];
    if n > 0 && !h[start].Pause? && h[start] != Said(x) {
      RunForwardBeforePause(h, g, start + 1, n - 1, x);
    }
  }

  /** A pause appended at the end stops every run where the end of the history stopped it. */
  lemma {:induction false} RunForwardSnocPause(h: History, start: nat, n: nat, x: Item)
    ensures RunForwardUntil(h + [Pause], start, n, x) == RunForwardUntil(h, start, n, x)
    decreases n
  {
    var g := h + [Pause];
    if n > 0 && start < |h| {
      assert g[start] == h[start];
      if !h[start].Pause? && h[start] != Said(x) {
        RunForwardSnocPause(h, start + 1, n - 1, x);
      }
    }
  }

  lemma FreshnessPrefix(h: History, g: History, i: nat, x: Item)
    requires i <= |h| <= |g| && g[..|h|] == h
    ensures Scoring.Freshness(i, x, g) == Scoring.Freshness(i, x, h)
  {
    if i > 0 {
      assert g[i - 1] == h[i - 1];
      var lo := Scoring.Max0(i - Scoring.FreshnessWindow - 1);
      assert g[lo..i - 1] == h[lo..i - 1];
    }
  }

  lemma MonotonyPrefix(h: History, g: History, i: nat, x: Item)
    requires i <= |h| <= |g| && g[..|h|] == h
    ensures Scoring.Monotony(i, x, g) == Scoring.Monotony(i, x, h)
  {
    if i >= Scoring.MonotonyWindow {
      assert forall j :: i - Scoring.MonotonyWindow <= j < i ==> g[j] == h[j];
      assert Scoring.ContinuesStreak(i, x, g) == Scoring.ContinuesStreak(i, x, h);
    }
  }

  /** Slot `i` contributes the same to `h` and to an extension `g` of it when
      its forward context is the same in both. */
  lemma ContributionPrefix(h: History, g: History, i: nat, prefs: seq<Subject>)
    requires i < |h| <= |g| && g[..|h|] == h
    requires h[i].Said? ==> RunForwardUntil(g, i + 1, 3, h[i].item) == RunForwardUntil(h, i + 1, 3, h[i].item)
    ensures Contribution(g, i, prefs) == Contribution(h, i, prefs)
  {
    assert g[i] == h[i];
    if h[i].Said? {
      var x := h[i].item;
      assert g[..i] == h[..i];
      RunBackPrefix(h, g, i, 3);
      assert Context(g, i, x) == Context(h, i, x);
      FreshnessPrefix(h, g, i, x);
      MonotonyPrefix(h, g, i, x);
    }
  }

  lemma {:induction false} ScoreUpToPrefix(h: History, g: History, n: nat, prefs: seq<Subject>)
    requires n <= |h| <= |g| && g[..|h|] == h
    requires forall i :: 0 <= i < n ==> Contribution(g, i, prefs) == Contribution(h, i, prefs)
    ensures ScoreUpTo(g, n, prefs) == ScoreUpTo(h, n, prefs)
  {
    if n > 0 {
      ScoreUpToPrefix(h, g, n - 1, prefs);
    }
  }

  /** A pause never changes the history score. */
  lemma PauseAddsNothing(h: History, prefs: seq<Subject>)
    ensures HistoryScore(h + [Pause], prefs) == HistoryScore(h, prefs)
  {
    var g := h + [Pause];
    assert g[..|h|] == h;
    forall i | 0 <= i < |h| ensures Contribution(g, i, prefs) == Contribution(h, i, prefs) {
      if h[i].Said? {
        RunForwardSnocPause(h, i + 1, 3, h[i].item);
      }
      ContributionPrefix(h, g, i, prefs);
    }
    ScoreUpToPrefix(h, g, |h|, prefs);
  }

  /** `calculate_item_score`: the gain in history score from saying `x` next. */
  function ItemScore(x: Item, h: History, prefs: seq<Subject>): real
  {
    HistoryScore(h + [Said(x)], prefs) - HistoryScore(h, prefs)
  }

  /** At the start of a conversation or right after a pause, the gain of an
      item is exactly its own contribution at the new last position. */
  lemma ItemScoreAfterPause(x: Item, h: History, prefs: seq<Subject>)
    requires h == [] || OnePause(h)
    ensures ItemScore(x, h, prefs) == Contribution(h + [Said(x)], |h|, prefs)
  {
    var g := h + [Said(x)];
    assert HistoryScore(g, prefs) == HistoryScore(h, prefs) + Contribution(g, |h|, prefs) by {
      assert ScoreUpTo(g, |h|, prefs) == ScoreUpTo(h, |h|, prefs) by {
        EarlierSlotsUnchanged(x, h, prefs);
        ScoreUpToPrefix(h, g, |h|, prefs);
      }
      ScoreUpToNext(g, |h|, prefs);
    }
  }

  lemma ScoreUpToNext(h: History, n: nat, prefs: seq<Subject>)
    requires n < |h|
    ensures ScoreUpTo(h, n + 1, prefs) == ScoreUpTo(h, n, prefs) + Contribution(h, n, prefs)
  {
  }

  /** After a pause, saying `x` leaves what every earlier slot contributes unchanged. */
  lemma EarlierSlotsUnchanged(x: Item, h: History, prefs: seq<Subject>)
    requires h == [] || OnePause(h)
    ensures (h + [Said(x)])[..|h|] == h
    ensures forall i :: 0 <= i < |h| ==> Contribution(h + [Said(x)], i, prefs) == Contribution(h, i, prefs)
  {
    var g := h + [Said(x)];
    assert g[..|h|] == h;
    forall i | 0 <= i < |h| ensures Contribution(g, i, prefs) == Contribution(h, i, prefs) {
      if h[i].Said? {
        RunForwardBeforePause(h, g, i + 1, 3, h[i].item);
      }
      ContributionPrefix(h, g, i, prefs);
    }
  }

  /** Right after a pause, repeating an item already said never gains anything. */
  lemma RepeatAfterPauseGainsNothing(x: Item, h: History, prefs: seq<Subject>)
    requires OnePause(h)
    requires exists k :: 0 <= k < |h| && h[k] == Said(x)
    ensures ItemScore(x, h, prefs) <= 0.0
  {
    ItemScoreAfterPause(x, h, prefs);
    var g := h + [Said(x)];
    assert g[..|h|] == h;
    var k :| 0 <= k < |h| && h[k] == Said(x);
    assert g[k] == h[k];
    assert x.id in IdsOf(g[..|h|]);
  }

  // ---------------------------------------------------------------------
  // Greedy choice, threshold and decision
  // ---------------------------------------------------------------------

  /** The (item, gain) pairs of the memory bank, in memory order. */
  function ItemScores(mb: seq<Item>, h: History, prefs: seq<Subject>): (r: seq<(Item, real)>)
    ensures |r| == |mb|
  {
    if mb == [] then []
    else ItemScores(mb[..|mb| - 1], h, prefs) + [(mb[|mb| - 1], ItemScore(mb[|mb| - 1], h, prefs))]
  }

  lemma {:induction false} ItemScoresAt(mb: seq<Item>, h: History, prefs: seq<Subject>)
    ensures forall k :: 0 <= k < |mb| ==> ItemScores(mb, h, prefs)[k] == (mb[k], ItemScore(mb[k], h, prefs))
  {
    if mb != [] {
      var front := mb[..|mb| - 1];
      ItemScoresAt(front, h, prefs);
      forall k | 0 <= k < |mb| - 1
        ensures ItemScores(mb, h, prefs)[k] == (mb[k], ItemScore(mb[k], h, prefs))
      {
        assert ItemScores(mb, h, prefs)[k] == ItemScores(front, h, prefs)[k];
        assert front[k] == mb[k];
      }
    }
  }

  function Gain(p: (Item, real)): real { p.1 }

  /** `calculate_greedy`: the head of the item scores sorted by gain, descending
      (a stable sort), or None for an empty memory bank. */
  function Greedy(mb: seq<Item>, h: History, prefs: seq<Subject>): (r: Option<(Item, real)>)
    ensures r.None? <==> mb == []
    ensures r.Some? ==>
      var k := FirstMaxIndex(ItemScores(mb, h, prefs), Gain);
      && r.value == (mb[k], ItemScore(mb[k], h, prefs))
      && (forall j :: 0 <= j < |mb| ==> ItemScore(mb[j], h, prefs) <= r.value.1)
      && (forall j :: 0 <= j < k ==> ItemScore(mb[j], h, prefs) < r.value.1)
  {
    if mb == [] then None
    else
      var scores := ItemScores(mb, h, prefs);
      ItemScoresAt(mb, h, prefs);
      SortDescHead(scores, Gain);
      Some(SortDesc(scores, Gain)[0])
  }

  /** `remaining_memory`: bank size minus the history slots holding a bank item. */
  function RemainingMemory(mb: seq<Item>, h: History): (n: int)
    ensures n <= |mb|
    ensures n >= |mb| - |h|
  {
    if h == [] then |mb|
    else RemainingMemory(mb, h[..|h| - 1]) - (if h[|h| - 1].Said? && h[|h| - 1].item in mb then 1 else 0)
  }

  /** Memory left per remaining turn, scaled by the number of players. */
  function Ratio(mb: seq<Item>, players: nat, length: nat, h: History): real
    requires |h| < length
  {
    (RemainingMemory(mb, h) * players) as real / (length - |h|) as real
  }

  /** The tiers of `calculate_threshold`: the more memory per remaining turn,
      the higher the bar. */
  function Tier(start: real, ratio: real): (th: real)
    ensures start >= 0.0 ==> start / T5 <= th <= start
  {
    if ratio > 2.0 then start
    else if ratio > 1.5 then start / T1
    else if ratio > 1.0 then start / T2
    else if ratio > 0.75 then start / T3
    else if ratio > 0.5 then start / T4
    else start / T5
  }

  lemma TierMonotone(start: real, r1: real, r2: real)
    requires start >= 0.0 && r1 <= r2
    ensures Tier(start, r1) <= Tier(start, r2)
  {
  }

  /** `calculate_threshold`. */
  function Threshold(start: real, mb: seq<Item>, players: nat, length: nat, h: History): (th: real)
    requires |h| < length
    ensures OnePause(h) ==> th == 2.0
    ensures h == [] ==> th == -1000.0
    ensures !OnePause(h) && h != [] ==> th == Tier(start, Ratio(mb, players, length, h))
  {
    if OnePause(h) then 2.0
    else if h == [] then -1000.0
    else Tier(start, Ratio(mb, players, length, h))
  }

  /** The starting threshold after `propose_item`'s adjustment: right after a
      pause with ratio above 1 it drops by one remaining-turn share, not below 1. */
  function AdjustedStart(start: real, mb: seq<Item>, players: nat, length: nat, h: History): (s: real)
    requires |h| < length
    ensures s != start ==> OnePause(h) && Ratio(mb, players, length, h) > 1.0
    ensures s >= 1.0 || s == start
    ensures start >= 1.0 ==> 1.0 <= s <= start
  {
    if OnePause(h) && Ratio(mb, players, length, h) > 1.0 then
      var lowered := start - start / (length - |h|) as real;
      if lowered >= 1.0 then lowered else 1.0
    else start
  }

  /** The decision of `propose_item` once the gains are known. */
  function Decide(best: Option<(Item, real)>, threshold: real, length: nat, h: History): (r: Option<Item>)
    ensures best.None? ==> r.None?
    ensures r.Some? ==> best.Some? && r.value == best.value.0
    ensures best.Some? ==>
      (r.Some? <==>
        || best.value.1 > threshold
        || (TwoPauses(h) && best.value.1 > 0.1)
        || (length == |h| + 1 && best.value.1 > (if length as real / 100.0 > 0.0 then length as real / 100.0 else 0.0)))
  {
    match best
    case None => None
    case Some((x, score)) =>
      if score > threshold then Some(x)
      else if TwoPauses(h) && score > 0.1 then Some(x)
      else if length == |h| + 1 && score > (if length as real / 100.0 > 0.0 then length as real / 100.0 else 0.0) then Some(x)
      else None
  }

  /** The loop of `calculate_greedy`: each item's gain, the history score
      with the item appended minus the history score. */
  method ScoreItems(mb: seq<Item>, prefs: seq<Subject>, historyScore: real, h: History) returns (scores: seq<(Item, real)>)
    requires historyScore == HistoryScore(h, prefs)
    ensures scores == ItemScores(mb, h, prefs)
  {
    scores := [];
    var k := 0;
    while k < |mb|
      invariant 0 <= k <= |mb|
      invariant scores == ItemScores(mb[..k], h, prefs)
    {
      var gain := GainOf(prefs, historyScore, h, mb[k]);
      scores := scores + [(mb[k], gain)];
      k := k + 1;
      assert mb[..k][..k - 1] == mb[..k - 1];
    }
    assert mb[..|mb|] == mb;
  }

  method GainOf(prefs: seq<Subject>, historyScore: real, h: History, x: Item) returns (gain: real)
    requires historyScore == HistoryScore(h, prefs)
    ensures gain == ItemScore(x, h, prefs)
  {
    var withItem := CalculateHistoryScore(h + [Said(x)], prefs);
    gain := withItem - historyScore;
  }

  /** `Player9`: the only field its turns update is the starting threshold. */
  class Player {
    var startingThreshold: real
    const memoryBank: seq<Item>
    const preferences: seq<Subject>
    const numberOfPlayers: nat
    const conversationLength: nat

    constructor(mb: seq<Item>, prefs: seq<Subject>, players: nat, length: nat)
      ensures startingThreshold == InitialStartingThreshold
      ensures memoryBank == mb && preferences == prefs
      ensures numberOfPlayers == players && conversationLength == length
    {
      startingThreshold := InitialStartingThreshold;
      memoryBank := mb;
      preferences := prefs;
      numberOfPlayers := players;
      conversationLength := length;
    }

    /** `calculate_greedy`, given the score of the history. */
    method CalculateGreedy(historyScore: real, h: History) returns (best: Option<(Item, real)>)
      requires historyScore == HistoryScore(h, preferences)
      ensures best == Greedy(memoryBank, h, preferences)
    {
      if memoryBank == [] {
        return None;
      }
      var scores := ScoreItems(memoryBank, preferences, historyScore, h);
      best := Some(SortDesc(scores, Gain)[0]);
    }

    /** `propose_item`: adjusts the starting threshold, then proposes the
        greedy best item if its gain clears the bar. */
    method ProposeItem(h: History) returns (r: Option<Item>)
      requires |h| < conversationLength
      modifies this
      ensures startingThreshold == AdjustedStart(old(startingThreshold), memoryBank, numberOfPlayers, conversationLength, h)
      ensures r == Decide(Greedy(memoryBank, h, preferences),
                          Threshold(startingThreshold, memoryBank, numberOfPlayers, conversationLength, h),
                          conversationLength, h)
    {
      if OnePause(h) {
        var ratio := (RemainingMemory(memoryBank, h) * numberOfPlayers) as real / (conversationLength - |h|) as real;
        if ratio > 1.0 {
          startingThreshold := startingThreshold - startingThreshold / (conversationLength - |h|) as real;
          startingThreshold := if startingThreshold >= 1.0 then startingThreshold else 1.0;
        }
      }
      var historyScore := CalculateHistoryScore(h, preferences);
      var best := CalculateGreedy(historyScore, h);
      var threshold := Threshold(startingThreshold, memoryBank, numberOfPlayers, conversationLength, h);
      r := Decide(best, threshold, conversationLength, h);
    }
  }

  /** Whatever the turn, a starting threshold of at least 1 stays at least 1
      and never rises. */
  lemma StartingThresholdBounded(start: real, mb: seq<Item>, players: nat, length: nat, h: History)
    requires |h| < length && 1.0 <= start <= InitialStartingThreshold
    ensures 1.0 <= AdjustedStart(start, mb, players, length, h) <= InitialStartingThreshold
  {
  }

  /** Player 9 stays silent with an empty memory bank, and otherwise only ever
      proposes the first item of greatest gain. */
  lemma ProposalIsGreedyBest(mb: seq<Item>, prefs: seq<Subject>, threshold: real, length: nat, h: History)
    ensures mb == [] ==> Decide(Greedy(mb, h, prefs), threshold, length, h).None?
    ensures Decide(Greedy(mb, h, prefs), threshold, length, h).Some? ==>
      var x := Decide(Greedy(mb, h, prefs), threshold, length, h).value;
      x in mb && forall j :: 0 <= j < |mb| ==> ItemScore(mb[j], h, prefs) <= ItemScore(x, h, prefs)
  {
  }
}
