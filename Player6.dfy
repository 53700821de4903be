/** Player 6: on the opening turn it picks the item it likes best; later it
    tries every memory item at the end of the caller's history, scores it
    there and keeps the best, undoing each trial (players/player_6/player.py). */
module Player6 {
  import opened Common
  import Scoring

  const NonmonotonyWeight: real := 2.0
  /** The score a candidate must beat before anything is chosen. */
  const InitialBest: real := -0.1
  /** Scores closer than this count as a tie, broken by preference. */
  const Epsilon: real := 0.01
  /** `len([history])`: the length of a one-element list wrapping the history. */
  const WrappedLength: nat := 1

  // ---------------------------------------------------------------------
  // The scorers, on the history with the candidate at position `i`
  // ---------------------------------------------------------------------

  /** Freshness: after a pause, the number of the candidate's subjects absent
      from the items of the five slots before that pause. */
  function Freshness(h: History, i: nat, x: Item): (f: real)
    requires i <= |h|
    ensures 0.0 <= f <= |x.subjects| as real
    ensures (i == 0 || h[i - 1].Said?) ==> f == 0.0
    ensures i > 0 && h[i - 1].Pause? ==>
      f == Scoring.CountNotIn(x.subjects, SubjectsOf(ItemsOf(h[Scoring.Max0(i - 6)..i - 1]))) as real
  {
    Scoring.Freshness(i, x, h)
  }

  function Min(a: int, b: int): int { if a <= b then a else b }

  /** How many slots after `i` the forward coherence loop visits:
      `range(i + 1, min(len([history]), i + 4))`. */
  function ForwardSteps(i: nat): (n: nat)
    ensures n == 0
  {
    Scoring.Max0(Min(WrappedLength, i + 4) - (i + 1))
  }

  /** Coherence over the up to three items before `i` (stopping at a pause)
      and the forward run, with no empty-context guard. */
  function Coherence(h: History, i: nat, x: Item): (c: real)
    requires i <= |h|
    ensures c == -1.0 || c == 0.0 || c == 1.0
    ensures c == Scoring.CoherenceOf(x.subjects, Scoring.RunBack(h, i, 3))
    ensures Scoring.RunBack(h, i, 3) == [] && x.subjects != [] ==> c == -1.0
    ensures x.subjects == [] ==> c == 1.0
  {
    var forward := Scoring.RunForward(h, i + 1, ForwardSteps(i));
    assert Scoring.RunBack(h, i, 3) + forward == Scoring.RunBack(h, i, 3);
    Scoring.CoherenceOf(x.subjects, Scoring.RunBack(h, i, 3) + forward)
  }

  /** Non-monotonousness: -1 for a repeated item; otherwise, from the fourth
      slot on, -1 when each of the three slots before `i` holds an item
      sharing a subject with the candidate. */
  function Nonmonotonousness(h: History, i: nat, x: Item, repeated: bool): (m: real)
    requires i <= |h|
    ensures m == 0.0 || m == -1.0
    ensures m == -1.0 <==> repeated || (i >= 3 && Scoring.ContinuesStreak(i, x, h))
    ensures !repeated ==> m == -Scoring.Monotony(i, x, h)
  {
    if repeated then -1.0
    else if i < 3 then 0.0
    else if Scoring.ContinuesStreak(i, x, h) then -1.0
    else 0.0
  }

  /** `__calculate_preference_score`: the mean bonus of the subjects the
      ranking holds (not used by `propose_item`). */
  function PreferenceScore(prefs: seq<Subject>, x: Option<Item>): (p: real)
    ensures 0.0 <= p <= 1.0
    ensures x.None? ==> p == 0.0
    ensures x.Some? ==> p == MeanKnownBonus(prefs, x.value.subjects)
  {
    if x.None? then 0.0 else MeanKnownBonus(prefs, x.value.subjects)
  }

  /** The score of candidate `x` tried at the end of `h`: coherence plus
      freshness plus twice non-monotonousness. */
  function CandidateScore(h: History, x: Item): real
  {
    var t := h + [Said(x)];
    Coherence(t, |h|, x) + Freshness(t, |h|, x)
      + NonmonotonyWeight * Nonmonotonousness(t, |h|, x, x.id in IdsOf(h))
  }

  /** Each term of a candidate's score within its range; a repeated
      candidate always carries the -2 penalty. */
  lemma CandidateScoreBounds(h: History, x: Item)
    ensures -3.0 <= CandidateScore(h, x) <= 1.0 + |x.subjects| as real
    ensures x.id in IdsOf(h) ==> CandidateScore(h, x) <= |x.subjects| as real - 1.0
    ensures h != [] && h[|h| - 1].Said? && x.id in IdsOf(h) ==> CandidateScore(h, x) <= -1.0
  {
    var t := h + [Said(x)];
    assert h != [] ==> t[|h| - 1] == h[|h| - 1];
  }

  // ---------------------------------------------------------------------
  // The opening pick
  // ---------------------------------------------------------------------

  /** `item_pref`: -1 for an item without subjects, else the mean bonus of its
      subjects, an unranked subject (or an empty ranking) counting 0. */
  function ItemPref(prefs: seq<Subject>, x: Item): (p: real)
    ensures x.subjects == [] ==> p == -1.0
    ensures x.subjects != [] ==> 0.0 <= p <= 1.0
  {
    if x.subjects == [] then -1.0 else MeanBonus(prefs, x.subjects)
  }

  /** `(item_pref(a), a.importance) > (item_pref(b), b.importance)`, tuples
      compared lexicographically. */
  predicate Above(prefs: seq<Subject>, a: Item, b: Item)
  {
    ItemPref(prefs, a) > ItemPref(prefs, b)
    || (ItemPref(prefs, a) == ItemPref(prefs, b) && a.importance > b.importance)
  }

  /** Position of `max(memory_bank, key=...)`: the first item nothing is above. */
  function FirstBest(prefs: seq<Subject>, mb: seq<Item>): (k: nat)
    requires mb != []
    ensures k < |mb|
    ensures forall j :: 0 <= j < |mb| ==> !Above(prefs, mb[j], mb[k])
    ensures forall j :: 0 <= j < k ==> Above(prefs, mb[k], mb[j])
  {
    if |mb| == 1 then 0
    else
      var k' := FirstBest(prefs, mb[1..]);
      assert forall j :: 1 <= j < |mb| ==> mb[j] == mb[1..][j - 1];
      if Above(prefs, mb[1 + k'], mb[0]) then 1 + k' else 0
  }

  // ---------------------------------------------------------------------
  // The selection loop
  // ---------------------------------------------------------------------

  /** `best_item` and `best_score` as the loop carries them. */
  datatype Best = Best(item: Option<Item>, score: real)

  function Abs(d: real): real { if d < 0.0 then -d else d }

  /** One step of the selection: a strictly higher score wins; a score within
      `Epsilon` of the best wins when, with the candidate's preference added,
      it beats the best, provided something was already chosen. */
  function Consider(b: Best, x: Item, score: real, pref: real): (r: Best)
    ensures r == b || r == Best(Some(x), score)
    ensures score > b.score ==> r == Best(Some(x), score)
    ensures r != b ==> score > b.score - Epsilon
    ensures r == b ==> score <= b.score || b.item.None? || pref + score <= b.score || Abs(score - b.score) >= Epsilon
  {
    if score > b.score then Best(Some(x), score)
    else if Abs(score - b.score) < Epsilon && b.item.Some? && score + pref > b.score then Best(Some(x), score)
    else b
  }

  /** The selection over the first items of the bank, each scored by
      `score`. A candidate without subjects fails when its preference sum is
      divided by zero. */
  function Select(mb: seq<Item>, score: Item -> real, pref: Item -> real): Outcome<Best>
  {
    if mb == [] then Returns(Best(None, InitialBest))
    else
      var x := mb[|mb| - 1];
      var prior := mb[..|mb| - 1];
      match Select(prior, score, pref)
      case Raises => Raises
      case Returns(b) =>
        if x.subjects == [] then Raises
        else Returns(Consider(b, x, score(x), pref(x)))
  }

  /** The selection fails exactly when some candidate has no subjects. */
  lemma {:induction false} SelectRaises(mb: seq<Item>, score: Item -> real, pref: Item -> real)
    ensures Select(mb, score, pref).Raises? <==> exists k :: 0 <= k < |mb| && mb[k].subjects == []
  {
    if mb != [] {
      var prior := mb[..|mb| - 1];
      SelectRaises(prior, score, pref);
      assert forall k :: 0 <= k < |prior| ==> prior[k] == mb[k];
    }
  }

  /** Something is chosen exactly when some candidate beats the initial -0.1,
      and the choice is a bank item carrying the best score found. */
  lemma {:induction false} SelectChoosesIff(mb: seq<Item>, score: Item -> real, pref: Item -> real)
    requires Select(mb, score, pref).Returns?
    ensures Select(mb, score, pref).value.item.Some? <==> exists k :: 0 <= k < |mb| && score(mb[k]) > InitialBest
    ensures Select(mb, score, pref).value.item.None? ==> Select(mb, score, pref).value.score == InitialBest
    ensures Select(mb, score, pref).value.item.Some? ==>
      Select(mb, score, pref).value.item.value in mb &&
      Select(mb, score, pref).value.score == score(Select(mb, score, pref).value.item.value)
  {
    if mb != [] {
      var prior := mb[..|mb| - 1];
      SelectChoosesIff(prior, score, pref);
      assert forall k :: 0 <= k < |prior| ==> prior[k] == mb[k];
      assert mb == prior + [mb[|mb| - 1]];
    }
  }

  /** The tie rule can let the best score drift down by less than `Epsilon` per
      candidate, so the chosen score is within `Epsilon` times the bank size of
      every candidate's score. */
  lemma {:induction false} SelectNearBest(mb: seq<Item>, score: Item -> real, pref: Item -> real, k: nat)
    requires Select(mb, score, pref).Returns? && k < |mb|
    ensures score(mb[k]) <= Select(mb, score, pref).value.score + Epsilon * (|mb| as real)
  {
    var prior := mb[..|mb| - 1];
    var x := mb[|mb| - 1];
    var b := Select(prior, score, pref).value;
    var b' := Consider(b, x, score(x), pref(x));
    assert Select(mb, score, pref) == Returns(b');
    ConsiderNearBest(b, x, score(x), pref(x));
    if k < |prior| {
      SelectNearBest(prior, score, pref, k);
      assert prior[k] == mb[k];
    }
  }

  /** One step moves the best score down by less than `Epsilon`, and never
      below the candidate's own score. */
  lemma ConsiderNearBest(b: Best, x: Item, score: real, pref: real)
    ensures b.score <= Consider(b, x, score, pref).score + Epsilon
    ensures score <= Consider(b, x, score, pref).score
  {
  }

  /** The preference of each candidate, from the per-subject loop. */
  function PrefOf(prefs: seq<Subject>): Item -> real
  {
    (x: Item) => MeanBonus(prefs, x.subjects)
  }

  /** Candidates scored at the end of history `h`. */
  function ScoreAfter(h: History): Item -> real
  {
    (x: Item) => CandidateScore(h, x)
  }

  /** `propose_item`. */
  function Propose(mb: seq<Item>, h: History, prefs: seq<Subject>): (r: Outcome<Option<Item>>)
  {
    if h == [] then
      if mb == [] then Returns(None) else Returns(Some(mb[FirstBest(prefs, mb)]))
    else
      match Select(mb, ScoreAfter(h), PrefOf(prefs))
      case Raises => Raises
      case Returns(b) => Returns(b.item)
  }

  /** On the opening turn the result is None for an empty bank and otherwise
      the first item liked best (ties broken by importance); later a choice is
      a bank item, and is made whenever some candidate scores above -0.1. */
  lemma ProposeSpec(mb: seq<Item>, h: History, prefs: seq<Subject>)
    ensures h == [] ==> (Propose(mb, h, prefs) == Returns(None) <==> mb == [])
    ensures h == [] && mb != [] ==>
      exists k :: (0 <= k < |mb| && Propose(mb, h, prefs) == Returns(Some(mb[k])) &&
        (forall j :: 0 <= j < |mb| ==> !Above(prefs, mb[j], mb[k])) &&
        (forall j :: 0 <= j < k ==> Above(prefs, mb[k], mb[j])))
    ensures h != [] ==> (Propose(mb, h, prefs).Raises? <==> exists k :: 0 <= k < |mb| && mb[k].subjects == [])
    ensures h != [] && Propose(mb, h, prefs).Returns? ==>
      (Propose(mb, h, prefs).value.Some? <==> exists k :: 0 <= k < |mb| && CandidateScore(h, mb[k]) > InitialBest)
    ensures Propose(mb, h, prefs).Returns? && Propose(mb, h, prefs).value.Some? ==> Propose(mb, h, prefs).value.value in mb
  {
    SelectRaises(mb, ScoreAfter(h), PrefOf(prefs));
    if h != [] && Select(mb, ScoreAfter(h), PrefOf(prefs)).Returns? {
      SelectChoosesIff(mb, ScoreAfter(h), PrefOf(prefs));
    }
    if h == [] && mb != [] {
      var k := FirstBest(prefs, mb);
      assert Propose(mb, h, prefs) == Returns(Some(mb[k]));
    }
  }

  // ---------------------------------------------------------------------
  // The caller's history list and the method that borrows it
  // ---------------------------------------------------------------------

  /** The history list the engine hands to `propose_item`, which appends to
      it and pops from it in place. */
  class HistoryList {
    var slots: History

    constructor(h: History)
      ensures slots == h
    {
      slots := h;
    }

    method Append(s: Slot)
      modifies this
      ensures slots == old(slots) + [s]
    {
      slots := slots + [s];
    }

    /** `pop(-1)`. */
    method Pop() returns (s: Slot)
      requires slots != []
      modifies this
      ensures old(slots) == slots + [s]
    {
      s := slots[|slots| - 1];
      slots := slots[..|slots| - 1];
    }
  }

  /** The per-subject preference loop: the sum of the bonuses divided by the
      number of subjects, which fails for an item without subjects. */
  method PreferenceOf(prefs: seq<Subject>, x: Item) returns (r: Outcome<real>)
    ensures x.subjects == [] ==> r.Raises?
    ensures x.subjects != [] ==> r == Returns(MeanBonus(prefs, x.subjects))
  {
    var total := 0.0;
    ghost var bs := Bonuses(prefs, x.subjects);
    for k := 0 to |x.subjects|
      invariant total == Sum(bs[..k])
    {
      assert bs[..k + 1] == bs[..k] + [bs[k]];
      SumAppend(bs[..k], [bs[k]]);
      assert Sum([bs[k]]) == bs[k] + Sum([]);
      total := total + PrefBonus(prefs, x.subjects[k]);
    }
    if |x.subjects| == 0 {
      return Raises;
    }
    assert bs[..|x.subjects|] == bs;
    r := Returns(total / |x.subjects| as real);
  }

  /** `propose_item` on a later turn: each candidate is appended to the
      caller's list, scored at its end and popped again. The list is back as
      it was when the method returns; when a candidate fails, it is left
      appended. */
  method ProposeLater(mb: seq<Item>, prefs: seq<Subject>, history: HistoryList) returns (r: Outcome<Option<Item>>)
    requires history.slots != []
    modifies history
    ensures r == Propose(mb, old(history.slots), prefs)
    ensures r.Returns? ==> history.slots == old(history.slots)
    ensures r.Raises? ==>
      exists k :: 0 <= k < |mb| && mb[k].subjects == [] && history.slots == old(history.slots) + [Said(mb[k])]
  {
    ghost var h := history.slots;
    var n := |history.slots|;
    var ids: set<Id> := {};
    for k := 0 to n
      invariant ids == IdsOf(h[..k])
    {
      if history.slots[k].Said? {
        ids := ids + {history.slots[k].item.id};
      }
      assert h[..k + 1] == h[..k] + [h[k]];
    }
    assert h[..n] == h;
    var best := Best(None, InitialBest);
    for k := 0 to |mb|
      invariant history.slots == h
      invariant Select(mb[..k], ScoreAfter(h), PrefOf(prefs)) == Returns(best)
    {
      var x := mb[k];
      var repeated := x.id in ids;
      history.Append(Said(x));
      var freshness := Freshness(history.slots, n, x);
      var nonmono := NonmonotonyWeight * Nonmonotonousness(history.slots, n, x, repeated);
      var coherence := Coherence(history.slots, n, x);
      var score := coherence + freshness + nonmono;
      assert score == ScoreAfter(h)(x);
      var pref := PreferenceOf(prefs, x);
      assert mb[..k + 1][..k] == mb[..k];
      if pref.Raises? {
        assert Select(mb[..k + 1], ScoreAfter(h), PrefOf(prefs)).Raises?;
        SelectPrefixRaises(mb, k + 1, ScoreAfter(h), PrefOf(prefs));
        return Raises;
      }
      best := Consider(best, x, score, pref.value);
      ghost var before := history.slots;
      var popped := history.Pop();
      assert before[..|h|] == history.slots;
    }
    assert mb[..|mb|] == mb;
    r := Returns(best.item);
  }

  /** A failure in the first `k` candidates is a failure of the whole selection. */
  lemma SelectPrefixRaises(mb: seq<Item>, k: nat, score: Item -> real, pref: Item -> real)
    requires k <= |mb| && Select(mb[..k], score, pref).Raises?
    ensures Select(mb, score, pref).Raises?
  {
    SelectRaises(mb[..k], score, pref);
    SelectRaises(mb, score, pref);
    var j :| 0 <= j < k && mb[..k][j].subjects == [];
    assert mb[j].subjects == [];
  }

  /** `propose_item`: the opening pick on an empty history, otherwise the
      selection loop over the caller's list. */
  method ProposeItem(mb: seq<Item>, prefs: seq<Subject>, history: HistoryList) returns (r: Outcome<Option<Item>>)
    modifies history
    ensures r == Propose(mb, old(history.slots), prefs)
    ensures r.Returns? ==> history.slots == old(history.slots)
    ensures r.Raises? ==>
      exists k :: 0 <= k < |mb| && mb[k].subjects == [] && history.slots == old(history.slots) + [Said(mb[k])]
  {
    if |history.slots| == 0 {
      if |mb| == 0 {
        return Returns(None);
      }
      return Returns(Some(mb[FirstBest(prefs, mb)]));
    }
    r := ProposeLater(mb, prefs, history);
  }
}
