/** Player 7: each turn it notes the item it rates best, then answers with
    the first item matching its preferences in order (players/player_7/player.py). */
module Player7 {
  import opened Common

  /** Importance an item must exceed for `pause` to offer it. */
  const PauseImportance: real := 0.5

  // ---------------------------------------------------------------------
  // The best-scored item
  // ---------------------------------------------------------------------

  /** The last `n` slots, or all of them (`history[-n:]`). */
  function LastSlots(h: History, n: nat): (r: History)
    ensures |r| <= n && |r| <= |h|
    ensures r == h[|h| - |r|..]
    ensures |h| >= n ==> |r| == n
  {
    if |h| <= n then h else h[|h| - n..]
  }

  /** How many entries of `ss` have a positive count among `ctx`. */
  function SeenCount(ss: seq<Subject>, ctx: seq<Item>): (n: nat)
    ensures n <= |ss|
    ensures n == 0 <==> forall k :: 0 <= k < |ss| ==> Occurrences(ctx, ss[k]) == 0
    ensures n == |ss| <==> forall k :: 0 <= k < |ss| ==> Occurrences(ctx, ss[k]) > 0
  {
    if ss == [] then 0
    else
      var rest := SeenCount(ss[1..], ctx);
      assert forall k :: 1 <= k < |ss| ==> ss[k] == ss[1..][k - 1];
      (if Occurrences(ctx, ss[0]) > 0 then 1 else 0) + rest
  }

  /** An item's rating: its importance plus one per subject (with repeats)
      that the items of the last three slots mention. */
  function Rating(x: Item, h: History): (s: real)
    ensures x.importance <= s <= x.importance + |x.subjects| as real
  {
    x.importance + SeenCount(x.subjects, ItemsOf(LastSlots(h, 3))) as real
  }

  /** Not already in the contributed list (`item in contributed_items` compares values). */
  predicate Eligible(x: Item, contributed: seq<Option<Item>>)
  {
    Some(x) !in contributed
  }

  /** The rating loop over the bank: `(current, max_score)`, replaced on a
      strictly higher rating, skipping contributed items, from `(None, 0)`. */
  function BestScored(mb: seq<Item>, contributed: seq<Option<Item>>, rating: Item -> real): (r: (Option<Item>, real))
    ensures r.0.None? ==> r.1 == 0.0
    ensures r.1 >= 0.0
  {
    if mb == [] then (None, 0.0)
    else
      var b := BestScored(mb[..|mb| - 1], contributed, rating);
      var x := mb[|mb| - 1];
      if Eligible(x, contributed) && rating(x) > b.1 then (Some(x), rating(x)) else b
  }

  /** Items rated against history `h`. */
  function RatingAfter(h: History): Item -> real
  {
    (x: Item) => Rating(x, h)
  }

  /** The noted item is the first eligible item of greatest rating, provided
      that rating is positive; nothing is noted when no eligible item rates
      above zero. */
  lemma {:induction false} BestScoredSpec(mb: seq<Item>, contributed: seq<Option<Item>>, rating: Item -> real)
    ensures BestScored(mb, contributed, rating).0.None? <==>
      forall j :: 0 <= j < |mb| && Eligible(mb[j], contributed) ==> rating(mb[j]) <= 0.0
    ensures forall j :: 0 <= j < |mb| && Eligible(mb[j], contributed) ==> rating(mb[j]) <= BestScored(mb, contributed, rating).1
    ensures BestScored(mb, contributed, rating).0.Some? ==>
      exists k :: 0 <= k < |mb| && BestScored(mb, contributed, rating).0 == Some(mb[k]) && Eligible(mb[k], contributed) &&
        rating(mb[k]) == BestScored(mb, contributed, rating).1 &&
        forall j :: 0 <= j < k && Eligible(mb[j], contributed) ==> rating(mb[j]) < rating(mb[k])
  {
    if mb != [] {
      var prior := mb[..|mb| - 1];
      BestScoredSpec(prior, contributed, rating);
      assert forall j :: 0 <= j < |prior| ==> prior[j] == mb[j];
      var b := BestScored(prior, contributed, rating);
      var x := mb[|mb| - 1];
      if Eligible(x, contributed) && rating(x) > b.1 {
        assert BestScored(mb, contributed, rating) == (Some(x), rating(x));
        assert BestScored(mb, contributed, rating).0 == Some(mb[|mb| - 1]);
      } else {
        assert BestScored(mb, contributed, rating) == b;
        if b.0.Some? {
          var k :| 0 <= k < |prior| && b.0 == Some(prior[k]) && Eligible(prior[k], contributed) &&
            rating(prior[k]) == b.1 &&
            forall j :: 0 <= j < k && Eligible(prior[j], contributed) ==> rating(prior[j]) < rating(prior[k]);
          assert BestScored(mb, contributed, rating).0 == Some(mb[k]);
        }
      }
    }
  }

  // ---------------------------------------------------------------------
  // pause
  // ---------------------------------------------------------------------

  /** `p in item.subjects and item not in history and item.importance > 0.5`. */
  predicate Qualifies(p: Subject, x: Item, h: History)
  {
    p in x.subjects && Said(x) !in h && x.importance > PauseImportance
  }

  /** Position of the first bank item qualifying for preference `p`. */
  function FirstQualifying(p: Subject, mb: seq<Item>, h: History): (k: nat)
    ensures k <= |mb|
    ensures k < |mb| ==> Qualifies(p, mb[k], h)
    ensures forall j :: 0 <= j < k ==> !Qualifies(p, mb[j], h)
  {
    if mb == [] then 0
    else if Qualifies(p, mb[0], h) then 0
    else
      var k := FirstQualifying(p, mb[1..], h);
      assert forall j :: 1 <= j < |mb| ==> mb[j] == mb[1..][j - 1];
      1 + k
  }

  /** The first qualifying item, preferences scanned in order and the bank in
      order for each, preferences in `skip` passed over. */
  function Find(prefs: seq<Subject>, mb: seq<Item>, h: History, skip: set<Subject>): (r: Option<Item>)
    ensures r.Some? ==> r.value in mb
    ensures r.None? <==> forall i, k :: 0 <= i < |prefs| && 0 <= k < |mb| && prefs[i] !in skip ==> !Qualifies(prefs[i], mb[k], h)
  {
    if prefs == [] then None
    else if prefs[0] !in skip && FirstQualifying(prefs[0], mb, h) < |mb| then Some(mb[FirstQualifying(prefs[0], mb, h)])
    else
      var r := Find(prefs[1..], mb, h, skip);
      assert forall i :: 1 <= i < |prefs| ==> prefs[i] == prefs[1..][i - 1];
      assert prefs[0] !in skip ==> forall k :: 0 <= k < |mb| ==> !Qualifies(prefs[0], mb[k], h);
      r
  }

  /** `pause`: the first qualifying item; otherwise the first item rejected,
      which is the first bank item as soon as one preference is scanned. */
  function PauseChoice(prefs: seq<Subject>, mb: seq<Item>, h: History, skip: set<Subject>): (r: Option<Item>)
  {
    match Find(prefs, mb, h, skip)
    case Some(x) => Some(x)
    case None => if mb != [] && exists i :: 0 <= i < |prefs| && prefs[i] !in skip then Some(mb[0]) else None
  }

  /** The answer is a bank item; there is none exactly when the bank is empty
      or every preference is passed over. */
  lemma PauseChoiceSpec(prefs: seq<Subject>, mb: seq<Item>, h: History, skip: set<Subject>)
    ensures PauseChoice(prefs, mb, h, skip).Some? ==> PauseChoice(prefs, mb, h, skip).value in mb
    ensures PauseChoice(prefs, mb, h, skip).None? <==> mb == [] || forall i :: 0 <= i < |prefs| ==> prefs[i] in skip
  {
    if mb != [] && Find(prefs, mb, h, skip).Some? {
      var x := Find(prefs, mb, h, skip).value;
      var i, k :| 0 <= i < |prefs| && 0 <= k < |mb| && prefs[i] !in skip && Qualifies(prefs[i], mb[k], h);
    }
  }

  /** The recency guard as written, `p not in history[:-5]`, compares a
      subject with history entries (items or `None`), which never match. */
  predicate SlotEqualsSubject(s: Slot, p: Subject)
  {
    false
  }

  /** The preferences the written guard passes over: none. */
  function SkippedAsWritten(prefs: seq<Subject>, h: History): (skip: set<Subject>)
    ensures skip == {}
  {
    set i, k | 0 <= i < |prefs| && 0 <= k < |h| - 5 && SlotEqualsSubject(h[k], prefs[i]) :: prefs[i]
  }

  /** The subjects mentioned by the items of the last five slots, which the
      comment says the guard should pass over. */
  function RecentlyMentioned(h: History): set<Subject>
  {
    SubjectsOf(ItemsOf(LastSlots(h, 5)))
  }

  /** As written the answer is None only for an empty bank or an empty
      ranking, and the first bank item when nothing qualifies. */
  lemma PauseChoiceAsWritten(prefs: seq<Subject>, mb: seq<Item>, h: History)
    ensures PauseChoice(prefs, mb, h, SkippedAsWritten(prefs, h)).None? <==> mb == [] || prefs == []
    ensures mb != [] && prefs != [] && Find(prefs, mb, h, {}).None? ==>
      PauseChoice(prefs, mb, h, SkippedAsWritten(prefs, h)) == Some(mb[0])
  {
    PauseChoiceSpec(prefs, mb, h, {});
    if prefs != [] {
      assert prefs[0] !in {};
    }
  }

  function WitnessPrefs(): seq<Subject> { [1, 2] }
  function WitnessBank(): seq<Item> { [Item(1, [1], 0.9, 7), Item(2, [2], 0.9, 7)] }
  function WitnessHistory(): History { [Said(Item(3, [1], 0.5, 0))] }

  /** With the guard as written a preference just talked about is still
      served; with the guard the comment describes it is passed over. */
  lemma RecencyGuardWitness()
    ensures PauseChoice(WitnessPrefs(), WitnessBank(), WitnessHistory(), SkippedAsWritten(WitnessPrefs(), WitnessHistory()))
      == Some(WitnessBank()[0])
    ensures PauseChoice(WitnessPrefs(), WitnessBank(), WitnessHistory(), RecentlyMentioned(WitnessHistory()))
      == Some(WitnessBank()[1])
  {
    WitnessServed();
    WitnessSkipped();
  }

  lemma WitnessServed()
    ensures Find(WitnessPrefs(), WitnessBank(), WitnessHistory(), {}) == Some(WitnessBank()[0])
  {
    var mb := WitnessBank();
    var h := WitnessHistory();
    assert Said(mb[0]) != h[0];
    assert Qualifies(1, mb[0], h);
  }

  lemma WitnessRecent()
    ensures RecentlyMentioned(WitnessHistory()) == {1}
  {
    var h := WitnessHistory();
    var items := [Item(3, [1], 0.5, 0)];
    assert LastSlots(h, 5) == h;
    assert ItemsOf(h) == items by {
      assert h[1..] == [];
    }
    assert 1 in SubjectsOf(items) by {
      assert 1 in items[0].subjects;
    }
    forall s | s in SubjectsOf(items)
      ensures s == 1
    {
      var k :| 0 <= k < |items| && s in items[k].subjects;
    }
  }

  lemma WitnessSkipped()
    ensures Find(WitnessPrefs(), WitnessBank(), WitnessHistory(), RecentlyMentioned(WitnessHistory())) == Some(WitnessBank()[1])
  {
    var mb := WitnessBank();
    var h := WitnessHistory();
    var prefs := WitnessPrefs();
    assert Find(prefs, mb, h, {1}) == Some(mb[1]) by {
      WitnessSecondServed();
      assert prefs[1..] == [2];
      FindPassesOver(prefs, mb, h, {1});
    }
    assert RecentlyMentioned(h) == {1} by {
      WitnessRecent();
    }
  }

  lemma WitnessSecondServed()
    ensures Find([2], WitnessBank(), WitnessHistory(), {1}) == Some(WitnessBank()[1])
  {
    var mb := WitnessBank();
    var h := WitnessHistory();
    assert Said(mb[1]) != h[0];
    assert !Qualifies(2, mb[0], h) && Qualifies(2, mb[1], h);
    assert FirstQualifying(2, mb[1..], h) == 0;
    assert FirstQualifying(2, mb, h) == 1;
  }

  /** A preference passed over leaves the search to the rest. */
  lemma FindPassesOver(prefs: seq<Subject>, mb: seq<Item>, h: History, skip: set<Subject>)
    requires prefs != [] && prefs[0] in skip
    ensures Find(prefs, mb, h, skip) == Find(prefs[1..], mb, h, skip)
  {
  }

  /** A preference some item qualifies for is served by the first such item. */
  lemma FindServes(prefs: seq<Subject>, mb: seq<Item>, h: History, skip: set<Subject>)
    requires prefs != [] && prefs[0] !in skip && FirstQualifying(prefs[0], mb, h) < |mb|
    ensures Find(prefs, mb, h, skip) == Some(mb[FirstQualifying(prefs[0], mb, h)])
  {
  }

  // ---------------------------------------------------------------------
  // The player
  // ---------------------------------------------------------------------

  class Player {
    const memoryBank: seq<Item>
    const preferences: seq<Subject>
    /** One entry per turn: the item rated best, or None. */
    var contributedItems: seq<Option<Item>>

    constructor(mb: seq<Item>, prefs: seq<Subject>)
      ensures memoryBank == mb && preferences == prefs && contributedItems == []
    {
      memoryBank := mb;
      preferences := prefs;
      contributedItems := [];
    }

    /** The rating loop. */
    method RateItems(h: History) returns (current: Option<Item>)
      ensures current == BestScored(memoryBank, contributedItems, RatingAfter(h)).0
    {
      current := None;
      var maxScore := 0.0;
      var ctx := ItemsOf(LastSlots(h, 3));
      for k := 0 to |memoryBank|
        invariant (current, maxScore) == BestScored(memoryBank[..k], contributedItems, RatingAfter(h))
      {
        var x := memoryBank[k];
        assert memoryBank[..k + 1][..k] == memoryBank[..k];
        if Some(x) in contributedItems {
          continue;
        }
        var score := x.importance + SeenCount(x.subjects, ctx) as real;
        assert score == RatingAfter(h)(x);
        if score > maxScore {
          maxScore := score;
          current := Some(x);
        }
      }
      assert memoryBank[..|memoryBank|] == memoryBank;
    }

    /** The inner loop of `pause` for preference `p`: the first qualifying
      item, the items before it appended to `rejected`. */
    method ScanBank(p: Subject, h: History, rejected: seq<Item>) returns (found: Option<Item>, rejected': seq<Item>)
      ensures var k := FirstQualifying(p, memoryBank, h);
        && (found.Some? <==> k < |memoryBank|)
        && (found.Some? ==> found.value == memoryBank[k])
        && rejected' == rejected + memoryBank[..k]
    {
      rejected' := rejected;
      found := None;
      for k := 0 to |memoryBank|
        invariant forall j :: 0 <= j < k ==> !Qualifies(p, memoryBank[j], h)
        invariant rejected' == rejected + memoryBank[..k]
      {
        var x := memoryBank[k];
        if p in x.subjects && Said(x) !in h && x.importance > PauseImportance {
          assert FirstQualifying(p, memoryBank, h) == k;
          return Some(x), rejected';
        }
        rejected' := rejected' + [x];
        assert memoryBank[..k + 1] == memoryBank[..k] + [x];
      }
      assert memoryBank[..|memoryBank|] == memoryBank;
    }

    /** `pause`, scanning preferences and the bank in order and collecting
      the rejected items; `skip` holds the preferences the guard passes over. */
    method PauseScan(h: History, skip: set<Subject>) returns (r: Option<Item>)
      ensures r == PauseChoice(preferences, memoryBank, h, skip)
    {
      var rejected: seq<Item> := [];
      for i := 0 to |preferences|
        invariant Find(preferences, memoryBank, h, skip) == Find(preferences[i..], memoryBank, h, skip)
        invariant rejected == [] <==> memoryBank == [] || forall j :: 0 <= j < i ==> preferences[j] in skip
        invariant rejected != [] ==> rejected[0] == memoryBank[0]
      {
        var p := preferences[i];
        assert preferences[i..][0] == p && preferences[i..][1..] == preferences[i + 1..];
        if p !in skip {
          var found;
          found, rejected := ScanBank(p, h, rejected);
          if found.Some? {
            return found;
          }
        }
      }
      if |rejected| > 0 {
        r := Some(rejected[0]);
      } else {
        r := None;
      }
    }

    /** `propose_item`: note the best-rated item, then answer with `pause`
      (the recency guard as the comment describes it). */
    method ProposeItem(h: History) returns (r: Option<Item>)
      modifies this
      ensures contributedItems == old(contributedItems) + [BestScored(memoryBank, old(contributedItems), RatingAfter(h)).0]
      ensures r == PauseChoice(preferences, memoryBank, h, RecentlyMentioned(h))
    {
      var current := RateItems(h);
      contributedItems := contributedItems + [current];
      r := PauseScan(h, RecentlyMentioned(h));
    }
  }
}
