/** Player 0: a greedy speaker that scores every memory item against the
    history with its own bonus rules and speaks when the best score beats a
    threshold (players/player_0/player.py). */
module Player0 {
  import opened Common
  import opened Sorting
  import Scoring

  /** `hist_depth = 5 * num_players` with `num_players` fixed at 2. */
  const HistDepth: nat := 10
  const TurnOneThreshold: real := -1000.0

  // ---------------------------------------------------------------------
  // The bonuses of calculate_score
  // ---------------------------------------------------------------------

  /** The coherence context: the up to three most recent items, stopping at a pause. */
  function Recent(h: History): seq<Item>
  {
    Scoring.RunBack(h, |h|, 3)
  }

  /** Coherence bonus against a context of items. A one-subject item earns
      0.5 when its subject occurs once in the context and 1 when it occurs at
      least twice; an item with two or more subjects is judged on its first
      two, earning 0.5 when both occur exactly once and 1 when both occur at
      least twice. */
  function CoherenceIn(x: Item, ctx: seq<Item>): (c: real)
    requires x.subjects != []
    ensures c == 0.0 || c == 0.5 || c == 1.0
    ensures |x.subjects| == 1 ==>
      && (c == 0.5 <==> Occurrences(ctx, x.subjects[0]) == 1)
      && (c == 1.0 <==> Occurrences(ctx, x.subjects[0]) >= 2)
    ensures |x.subjects| >= 2 ==>
      && (c == 0.5 <==> Occurrences(ctx, x.subjects[0]) == 1 && Occurrences(ctx, x.subjects[1]) == 1)
      && (c == 1.0 <==> Occurrences(ctx, x.subjects[0]) >= 2 && Occurrences(ctx, x.subjects[1]) >= 2)
    ensures c > 0.0 ==> ctx != []
  {
    var a := Occurrences(ctx, x.subjects[0]);
    if |x.subjects| == 1 then
      (if a == 0 then 0.0 else if a == 1 then 0.5 else 1.0)
    else
      var b := Occurrences(ctx, x.subjects[1]);
      if a == 0 && b == 0 then 0.0
      else if a == 1 && b == 1 then 0.5
      else if a >= 2 && b >= 2 then 1.0
      else 0.0
  }

  /** The coherence bonus of `x` after history `h`. */
  function Coherence(x: Item, h: History): real
    requires x.subjects != []
  {
    CoherenceIn(x, Recent(h))
  }

  /** The up to five most recent slots (`reversed(history)` cut at five). */
  function LastFive(h: History): History
  {
    if |h| <= 5 then h else h[|h| - 5..]
  }

  /** Freshness bonus, with pauses in the window skipped: right after a pause,
      1 when the item's first subject (and its second, if any) is absent from
      the items among the last five slots. */
  function Freshness(x: Item, h: History): (f: real)
    requires x.subjects != []
    ensures f == 0.0 || f == 1.0
    ensures f == 1.0 <==>
      && h != [] && h[|h| - 1].Pause?
      && x.subjects[0] !in SubjectsOf(ItemsOf(LastFive(h)))
      && (|x.subjects| >= 2 ==> x.subjects[1] !in SubjectsOf(ItemsOf(LastFive(h))))
  {
    if h != [] && h[|h| - 1].Pause? then
      var seen := SubjectsOf(ItemsOf(LastFive(h)));
      if |x.subjects| == 1 then (if x.subjects[0] !in seen then 1.0 else 0.0)
      else if x.subjects[0] !in seen && x.subjects[1] !in seen then 1.0
      else 0.0
    else 0.0
  }

  /** The item's subjects that occur at least three times among the items of
      the last three slots (each distinct subject once). */
  function Overused(x: Item, h: History): (s: set<Subject>)
    requires |h| >= 3
    ensures forall t :: t in s <==> t in x.subjects && Occurrences(ItemsOf(h[|h| - 3..]), t) >= 3
  {
    set t | t in x.subjects && Occurrences(ItemsOf(h[|h| - 3..]), t) >= 3
  }

  /** Non-monotonousness bonus, with pauses in the window skipped: minus one
      per subject of the item that the last three slots mention three times. */
  function Nonmonotonousness(x: Item, h: History): (m: real)
    ensures m <= 0.0
    ensures m == 0.0 <==> |h| < 3 || forall t :: t in x.subjects ==> Occurrences(ItemsOf(h[|h| - 3..]), t) < 3
  {
    if |h| >= 3 then
      var s := Overused(x, h);
      assert s == {} <==> forall t :: t in x.subjects ==> Occurrences(ItemsOf(h[|h| - 3..]), t) < 3;
      -(|s| as real)
    else 0.0
  }

  /** The sum of the six terms of `calculate_score`: the five bonuses and their
      total, that is twice the total. A repeated item (its id already said)
      loses coherence, importance and freshness and one more point of
      non-monotonousness. Items without subjects make the coherence rule
      index past the end (IndexError). */
  function Score(x: Item, h: History, prefs: seq<Subject>): (r: Outcome<real>)
    ensures r.Raises? <==> x.subjects == []
  {
    if x.subjects == [] then Raises
    else
      var repeated := x.id in IdsOf(h);
      var coherence := if repeated then 0.0 else Coherence(x, h);
      var importance := if repeated then 0.0 else x.importance;
      var freshness := if repeated then 0.0 else Freshness(x, h);
      var nonmono := Nonmonotonousness(x, h) - (if repeated then 1.0 else 0.0);
      var individual := MeanBonus(prefs, x.subjects);
      Returns(2.0 * (coherence + importance + freshness + nonmono + individual))
  }

  /** A repeated item scores only its non-monotonousness and individual bonus. */
  lemma RepeatedScore(x: Item, h: History, prefs: seq<Subject>)
    requires x.subjects != [] && x.id in IdsOf(h)
    ensures Score(x, h, prefs).value == 2.0 * (Nonmonotonousness(x, h) - 1.0 + MeanBonus(prefs, x.subjects))
    ensures Score(x, h, prefs).value <= 0.0
  {
  }

  /** A fresh item scores at least twice its importance minus the overused
      subjects, and at most twice its importance plus four. */
  lemma FreshScoreBounds(x: Item, h: History, prefs: seq<Subject>)
    requires x.subjects != [] && x.id !in IdsOf(h)
    ensures 2.0 * (x.importance + Nonmonotonousness(x, h)) <= Score(x, h, prefs).value
    ensures Score(x, h, prefs).value <= 2.0 * (x.importance + 3.0)
  {
  }

  // ---------------------------------------------------------------------
  // calculate_score as written
  // ---------------------------------------------------------------------

  /** The repetition scan as written: `i.id` on every slot from the start
      until a match, which fails (AttributeError) on the first pause met
      before a matching item. */
  function RepeatScanAsWritten(h: History, id: Id): (r: Outcome<bool>)
    ensures r == Returns(true) ==> id in IdsOf(h)
    ensures (forall k :: 0 <= k < |h| ==> h[k].Said?) ==> r == Returns(id in IdsOf(h))
  {
    if h == [] then Returns(false)
    else if h[0].Pause? then Raises
    else if h[0].item.id == id then Returns(true)
    else
      var r := RepeatScanAsWritten(h[1..], id);
      assert forall k :: 0 <= k < |h[1..]| ==> h[1..][k] == h[k + 1];
      assert r == Returns(true) ==> exists k :: 0 <= k < |h| && h[k].Said? && h[k].item.id == id by {
        if r == Returns(true) {
          var k :| 0 <= k < |h[1..]| && h[1..][k].Said? && h[1..][k].item.id == id;
          assert h[k + 1].Said? && h[k + 1].item.id == id;
        }
      }
      assert (forall k :: 0 <= k < |h| ==> h[k].Said?) ==> (id in IdsOf(h) <==> id in IdsOf(h[1..]));
      r
  }

  /** `calculate_score` as written: the freshness window reads `subjects` of
      every slot of the last five, starting with the pause that triggered it,
      the non-monotonousness window reads `subjects` of each of the last three
      slots, and the repetition scan reads `id` of every slot up to a match;
      each fails on a pause (AttributeError). */
  function ScoreAsWritten(x: Item, h: History, prefs: seq<Subject>): (r: Outcome<real>)
  {
    if x.subjects == [] then Raises
    else if h != [] && h[|h| - 1].Pause? then Raises
    else if |h| >= 3 && (h[|h| - 3].Pause? || h[|h| - 2].Pause? || h[|h| - 1].Pause?) then Raises
    else
      match RepeatScanAsWritten(h, x.id)
      case Raises => Raises
      case Returns(repeated) =>
        var coherence := if repeated then 0.0 else Coherence(x, h);
        var importance := if repeated then 0.0 else x.importance;
        var nonmono := Nonmonotonousness(x, h) - (if repeated then 1.0 else 0.0);
        var individual := MeanBonus(prefs, x.subjects);
        Returns(2.0 * (coherence + importance + nonmono + individual))
  }

  /** On a history without pauses the written scorer and the corrected one agree. */
  lemma AsWrittenAgreesWithoutPauses(x: Item, h: History, prefs: seq<Subject>)
    requires forall k :: 0 <= k < |h| ==> h[k].Said?
    ensures ScoreAsWritten(x, h, prefs) == Score(x, h, prefs)
  {
    if x.subjects != [] {
      assert RepeatScanAsWritten(h, x.id) == Returns(x.id in IdsOf(h));
    }
  }

  /** Right after a pause the written scorer always fails, so freshness is
      never earned: a one-subject item after a single pause raises, while the
      corrected scorer gives it its freshness point. */
  lemma ScoreAfterPauseWitness()
    ensures ScoreAsWritten(Item(1, [7], 1.0, 0), [Pause], [7]) == Raises
    ensures Score(Item(1, [7], 1.0, 0), [Pause], [7]).Returns?
    ensures Freshness(Item(1, [7], 1.0, 0), [Pause]) == 1.0
  {
    var h: History := [Pause];
    assert ItemsOf(LastFive(h)) == [];
  }

  // ---------------------------------------------------------------------
  // Greedy choice, threshold and proposal
  // ---------------------------------------------------------------------

  function ScoreOf(p: (Item, real)): real { p.1 }

  /** The (item, score) list of the memory bank, failing when any score fails. */
  function Scores(mb: seq<Item>, h: History, prefs: seq<Subject>): (r: Outcome<seq<(Item, real)>>)
    ensures r.Raises? <==> exists k :: 0 <= k < |mb| && mb[k].subjects == []
    ensures r.Returns? ==> |r.value| == |mb|
    ensures r.Returns? ==> forall k :: 0 <= k < |mb| ==> r.value[k] == (mb[k], Score(mb[k], h, prefs).value)
  {
    if mb == [] then Returns([])
    else
      match Score(mb[0], h, prefs)
      case Raises => Raises
      case Returns(s) =>
        match Scores(mb[1..], h, prefs)
        case Raises =>
          assert exists k :: 0 <= k < |mb[1..]| && mb[1..][k].subjects == [];
          Raises
        case Returns(rest) =>
          assert forall k :: 1 <= k < |mb| ==> mb[k] == mb[1..][k - 1];
          Returns([(mb[0], s)] + rest)
  }

  /** `calculate_greedy`: None for an empty bank, otherwise the head of the
      scores sorted descending (a stable sort), that is the first item of
      greatest score. */
  function Greedy(mb: seq<Item>, h: History, prefs: seq<Subject>): (r: Outcome<Option<(Item, real)>>)
    ensures r.Raises? <==> exists k :: 0 <= k < |mb| && mb[k].subjects == []
    ensures r.Returns? ==> (r.value.None? <==> mb == [])
  {
    if mb == [] then Returns(None)
    else
      match Scores(mb, h, prefs)
      case Raises => Raises
      case Returns(scores) => Returns(Some(SortDesc(scores, ScoreOf)[0]))
  }

  /** The greedy choice is the first bank item of greatest score, with its score. */
  lemma GreedyIsFirstBest(mb: seq<Item>, h: History, prefs: seq<Subject>) returns (k: nat)
    requires Greedy(mb, h, prefs).Returns? && Greedy(mb, h, prefs).value.Some?
    ensures k < |mb| && Greedy(mb, h, prefs).value.value == (mb[k], Score(mb[k], h, prefs).value)
    ensures forall j :: 0 <= j < |mb| ==> Score(mb[j], h, prefs).value <= Score(mb[k], h, prefs).value
    ensures forall j :: 0 <= j < k ==> Score(mb[j], h, prefs).value < Score(mb[k], h, prefs).value
  {
    var scores := Scores(mb, h, prefs).value;
    SortDescHead(scores, ScoreOf);
    k := FirstMaxIndex(scores, ScoreOf);
    assert forall j :: 0 <= j < |mb| ==> ScoreOf(scores[j]) == Score(mb[j], h, prefs).value;
  }

  /** `calculate_threshold`: -1000 on an empty history; otherwise the scores
      of the history items before the last are summed (and fail as the
      scorer does) but the threshold returned is 0. */
  function Threshold(h: History, prefs: seq<Subject>): (r: Outcome<real>)
    ensures h == [] ==> r == Returns(TurnOneThreshold)
    ensures h != [] ==> (r.Raises? <==> exists k :: 0 <= k < |h| - 1 && h[k].Said? && h[k].item.subjects == [])
    ensures h != [] && r.Returns? ==> r.value == 0.0
  {
    if h == [] then Returns(TurnOneThreshold)
    else if exists k :: 0 <= k < |h| - 1 && h[k].Said? && h[k].item.subjects == [] then Raises
    else Returns(0.0)
  }

  /** `propose_item`: the greedy best item when its score beats the threshold. */
  function Propose(mb: seq<Item>, h: History, prefs: seq<Subject>): Outcome<Option<Item>>
  {
    match Greedy(mb, h, prefs)
    case Raises => Raises
    case Returns(best) =>
      match Threshold(h, prefs)
      case Raises => Raises
      case Returns(threshold) =>
        if best.None? then Returns(None)
        else if best.value.1 > threshold then Returns(Some(best.value.0))
        else Returns(None)
  }

  /** An empty bank never proposes; on an empty history the best item is
      proposed whenever its score beats -1000; a proposal is always a
      bank item whose score is the greatest and beats the threshold. */
  lemma ProposeSpec(mb: seq<Item>, h: History, prefs: seq<Subject>)
    requires forall k :: 0 <= k < |mb| ==> mb[k].subjects != []
    requires forall k :: 0 <= k < |h| ==> h[k].Said? ==> h[k].item.subjects != []
    ensures mb == [] ==> Propose(mb, h, prefs) == Returns(None)
    ensures Propose(mb, h, prefs).Returns?
    ensures Propose(mb, h, prefs).value.Some? ==>
      var x := Propose(mb, h, prefs).value.value;
      && x in mb
      && Score(x, h, prefs).value > (if h == [] then TurnOneThreshold else 0.0)
      && forall j :: 0 <= j < |mb| ==> Score(mb[j], h, prefs).value <= Score(x, h, prefs).value
    ensures mb != [] && h == [] && Greedy(mb, h, prefs).value.value.1 > TurnOneThreshold ==>
      Propose(mb, h, prefs).value.Some?
  {
    var g := Greedy(mb, h, prefs);
    var t := Threshold(h, prefs);
    assert g.Returns? && t.Returns?;
    assert t.value == if h == [] then TurnOneThreshold else 0.0;
    if mb != [] {
      var k := GreedyIsFirstBest(mb, h, prefs);
      var x := mb[k];
      assert g.value.value == (x, Score(x, h, prefs).value);
      assert Propose(mb, h, prefs) == if Score(x, h, prefs).value > t.value then Returns(Some(x)) else Returns(None);
    }
  }

  // ---------------------------------------------------------------------
  // The loops of calculate_score
  // ---------------------------------------------------------------------

  lemma RecentStep(h: History, recent: seq<Item>, j: nat)
    requires 0 < j <= |h| && |recent| < 3 && h[j - 1].Said?
    requires Recent(h) == recent + Scoring.RunBack(h, j, 3 - |recent|)
    ensures Recent(h) == (recent + [h[j - 1].item]) + Scoring.RunBack(h, j - 1, 3 - (|recent| + 1))
  {
    assert Scoring.RunBack(h, j, 3 - |recent|) == [h[j - 1].item] + Scoring.RunBack(h, j - 1, 3 - (|recent| + 1));
  }

  /** The coherence walk over `reversed(history)`, stopping at a pause or after three items. */
  method RecentItems(h: History) returns (recent: seq<Item>)
    ensures recent == Recent(h)
  {
    recent := [];
    var j := |h|;
    while j > 0
      invariant 0 <= j <= |h|
      invariant |recent| == |h| - j && |recent| < 3
      invariant Recent(h) == recent + Scoring.RunBack(h, j, 3 - |recent|)
      decreases j
    {
      if h[j - 1].Pause? {
        break;
      }
      RecentStep(h, recent, j);
      recent := recent + [h[j - 1].item];
      j := j - 1;
      if |recent| >= 3 {
        break;
      }
    }
  }

  /** The repetition scan, pauses skipped. */
  method IsRepeated(x: Item, h: History) returns (repeated: bool)
    ensures repeated <==> x.id in IdsOf(h)
  {
    repeated := false;
    for k := 0 to |h|
      invariant !repeated ==> forall j :: 0 <= j < k ==> h[j].Pause? || h[j].item.id != x.id
      invariant repeated ==> x.id in IdsOf(h)
    {
      if h[k].Said? && h[k].item.id == x.id {
        repeated := true;
        break;
      }
    }
  }

  /** Each element divided by `n`. */
  function DividedBy(xs: seq<real>, n: real): (r: seq<real>)
    requires n > 0.0
    ensures |r| == |xs| && forall k :: 0 <= k < |xs| ==> r[k] == xs[k] / n
  {
    if xs == [] then [] else [xs[0] / n] + DividedBy(xs[1..], n)
  }

  /** Summing the shares is sharing the sum. */
  lemma {:induction false} SumDividedBy(xs: seq<real>, n: real)
    requires n > 0.0
    ensures Sum(DividedBy(xs, n)) == Sum(xs) / n
  {
    if xs != [] {
      SumDividedBy(xs[1..], n);
      assert DividedBy(xs, n)[1..] == DividedBy(xs[1..], n);
      assert xs[0] / n + Sum(xs[1..]) / n == (xs[0] + Sum(xs[1..])) / n;
    }
  }

  /** The individual bonus loop: each subject adds its preference bonus
      divided by the number of subjects. */
  method IndividualBonus(x: Item, prefs: seq<Subject>) returns (bonus: real)
    ensures bonus == MeanBonus(prefs, x.subjects)
  {
    bonus := 0.0;
    if |x.subjects| == 0 {
      return;
    }
    var n := |x.subjects| as real;
    ghost var shares := DividedBy(Bonuses(prefs, x.subjects), n);
    for k := 0 to |x.subjects|
      invariant bonus == Sum(shares[..k])
    {
      SumPrefix(shares, k);
      var b := PrefBonus(prefs, x.subjects[k]);
      assert shares[k] == b / n;
      bonus := bonus + b / n;
    }
    assert shares[..|x.subjects|] == shares;
    SumDividedBy(Bonuses(prefs, x.subjects), n);
  }

  /** `calculate_score` (pauses skipped in its windows). */
  method CalculateScore(x: Item, h: History, prefs: seq<Subject>) returns (r: Outcome<real>)
    ensures r == Score(x, h, prefs)
  {
    if |x.subjects| == 0 {
      return Raises;
    }
    var recent := RecentItems(h);
    var coherence := CoherenceIn(x, recent);
    var importance := x.importance;
    var freshness := Freshness(x, h);
    var nonmono := Nonmonotonousness(x, h);
    var repeated := IsRepeated(x, h);
    if repeated {
      coherence := 0.0;
      importance := 0.0;
      freshness := 0.0;
      nonmono := nonmono - 1.0;
    }
    var individual := IndividualBonus(x, prefs);
    var total := coherence + importance + freshness + nonmono + individual;
    r := Returns(total + coherence + importance + freshness + nonmono + individual);
  }

  /** `calculate_greedy`: score every bank item, then take the head of the
      stable descending sort. */
  method CalculateGreedy(mb: seq<Item>, h: History, prefs: seq<Subject>) returns (r: Outcome<Option<(Item, real)>>)
    ensures r == Greedy(mb, h, prefs)
  {
    if |mb| == 0 {
      return Returns(None);
    }
    var scores := ScoreBank(mb, h, prefs);
    if scores.Raises? {
      return Raises;
    }
    var sorted := SortDesc(scores.value, ScoreOf);
    r := Returns(Some(sorted[0]));
  }

  /** The scoring loop of `calculate_greedy`, which stops at the first item
      whose score raises. */
  method ScoreBank(mb: seq<Item>, h: History, prefs: seq<Subject>) returns (r: Outcome<seq<(Item, real)>>)
    ensures r == Scores(mb, h, prefs)
  {
    var scores: seq<(Item, real)> := [];
    for k := 0 to |mb|
      invariant |scores| == k
      invariant forall j :: 0 <= j < k ==> mb[j].subjects != []
      invariant forall j :: 0 <= j < k ==> scores[j] == (mb[j], Score(mb[j], h, prefs).value)
    {
      var s := CalculateScore(mb[k], h, prefs);
      if s.Raises? {
        assert Scores(mb, h, prefs).Raises? by {
          assert mb[k].subjects == [];
        }
        return Raises;
      }
      scores := scores + [(mb[k], s.value)];
    }
    var all := Scores(mb, h, prefs);
    assert all.Returns? by {
      assert !exists k :: 0 <= k < |mb| && mb[k].subjects == [];
    }
    assert all.value == scores by {
      assert |all.value| == |scores|;
      forall j | 0 <= j < |mb| ensures all.value[j] == scores[j] {
      }
    }
    r := Returns(scores);
  }

  /** `calculate_threshold`: -1000 on an empty history; otherwise every item
      before the last is scored against the whole history (the running
      average it feeds is not used) and the threshold is 0. */
  method CalculateThreshold(h: History, prefs: seq<Subject>) returns (r: Outcome<real>)
    ensures r == Threshold(h, prefs)
  {
    var recentTurns := if |h| <= HistDepth then h else h[|h| - HistDepth..];
    if |recentTurns| == 0 {
      return Returns(TurnOneThreshold);
    }
    var total := 0.0;
    var count := 1;
    for k := 0 to |h| - 1
      invariant forall j :: 0 <= j < k ==> h[j].Pause? || h[j].item.subjects != []
    {
      if h[k].Said? {
        var s := CalculateScore(h[k].item, h, prefs);
        if s.Raises? {
          return Raises;
        }
        total := total + s.value;
        count := count + 1;
      }
    }
    r := Returns(0.0);
  }

  /** `propose_item`: greedy choice and threshold are both computed before the
      empty-bank check; the best item is said when it beats the threshold. */
  method ProposeItem(mb: seq<Item>, h: History, prefs: seq<Subject>) returns (r: Outcome<Option<Item>>)
    ensures r == Propose(mb, h, prefs)
  {
    var best := CalculateGreedy(mb, h, prefs);
    if best.Raises? {
      return Raises;
    }
    var threshold := CalculateThreshold(h, prefs);
    if threshold.Raises? {
      return Raises;
    }
    if best.value.None? {
      return Returns(None);
    }
    if best.value.value.1 > threshold.value {
      r := Returns(Some(best.value.value.0));
    } else {
      r := Returns(None);
    }
  }
}
