/** Player 5: keeps its memory bank ordered by importance and picks, each
    turn, the item with the best reciprocal-rank fusion of three rankings —
    the engine's shared score, its own preference score and importance —
    then drops it from the bank (players/player_5/player.py). */
module Player5 {
  import opened Common
  import opened Sorting

  /** The reciprocal-rank-fusion constant `k`. */
  const FusionK: nat := 60

  function Importance(x: Item): real { x.importance }

  function Second(p: (Item, real)): real { p.1 }

  /** `individual_score`: the mean bonus of the subjects the ranking holds. */
  function IndividualScore(prefs: seq<Subject>, x: Item): (s: real)
    ensures 0.0 <= s <= 1.0
    ensures (forall k :: 0 <= k < |x.subjects| ==> x.subjects[k] !in prefs) ==> s == 0.0
  {
    MeanKnownBonus(prefs, x.subjects)
  }

  /** The preference score as a scoring function. */
  function PrefScore(prefs: seq<Subject>): Item -> real
  {
    (y: Item) => IndividualScore(prefs, y)
  }

  // ---------------------------------------------------------------------
  // Rankings
  // ---------------------------------------------------------------------

  /** `[(item, f(item)) for item in mb]`. */
  function Pairs(mb: seq<Item>, f: Item -> real): (r: seq<(Item, real)>)
    ensures |r| == |mb|
    ensures forall i :: 0 <= i < |mb| ==> r[i] == (mb[i], f(mb[i]))
  {
    if mb == [] then [] else Pairs(mb[..|mb| - 1], f) + [(mb[|mb| - 1], f(mb[|mb| - 1]))]
  }

  function Firsts(ps: seq<(Item, real)>): (r: seq<Item>)
    ensures |r| == |ps|
    ensures forall i :: 0 <= i < |ps| ==> r[i] == ps[i].0
  {
    if ps == [] then [] else [ps[0].0] + Firsts(ps[1..])
  }

  /** The items ordered by `f`, best first, ties in bank order. */
  function Ranking(mb: seq<Item>, f: Item -> real): seq<Item>
  {
    Firsts(SortDesc(Pairs(mb, f), Second))
  }

  lemma RankingHolds(mb: seq<Item>, f: Item -> real, x: Item)
    requires x in mb
    ensures x in Ranking(mb, f)
    ensures |Ranking(mb, f)| == |mb|
  {
    var i :| 0 <= i < |mb| && mb[i] == x;
    var ps := Pairs(mb, f);
    assert ps[i] in multiset(SortDesc(ps, Second));
    var j :| 0 <= j < |ps| && SortDesc(ps, Second)[j] == ps[i];
    assert Ranking(mb, f)[j] == x;
  }

  /** The ranking puts its items in descending order of `f`. */
  lemma RankingOrdered(mb: seq<Item>, f: Item -> real)
    ensures forall i, j :: 0 <= i < j < |Ranking(mb, f)| ==> f(Ranking(mb, f)[i]) >= f(Ranking(mb, f)[j])
  {
    var ps := Pairs(mb, f);
    var s := SortDesc(ps, Second);
    SortDescSorted(ps, Second);
    forall k | 0 <= k < |s|
      ensures s[k].1 == f(s[k].0)
    {
      assert s[k] in multiset(ps);
      var i :| 0 <= i < |ps| && ps[i] == s[k];
    }
  }

  /** `{item: rank for rank, (item, _) in enumerate(ranking, start=1)}[x]`:
      the 1-based position of the last occurrence of `x`, since a later
      pair overwrites an earlier one. */
  function RankIn(r: seq<Item>, x: Item): (k: nat)
    requires x in r
    ensures 1 <= k <= |r| && r[k - 1] == x
    ensures forall j :: k <= j < |r| ==> r[j] != x
  {
    if r[|r| - 1] == x then |r|
    else
      assert x in r[..|r| - 1] by {
        var i :| 0 <= i < |r| && r[i] == x;
        assert r[..|r| - 1][i] == x;
      }
      RankIn(r[..|r| - 1], x)
  }

  /** The reciprocal-rank term `1 / (k + rank)`. */
  function Reciprocal(rank: nat): (v: real)
    ensures 0.0 < v
  {
    1.0 / ((FusionK + rank) as real)
  }

  lemma ReciprocalDecreasing(a: nat, b: nat)
    requires a < b
    ensures Reciprocal(b) < Reciprocal(a)
  {
    var x := (FusionK + a) as real;
    var y := (FusionK + b) as real;
    assert 1.0 / x - 1.0 / y == (y - x) / (x * y);
  }

  /** The three ranks of a bank item. */
  datatype Ranks = Ranks(shared: nat, pref: nat, imp: nat)

  function RanksOf(mb: seq<Item>, shared: Item -> real, prefs: seq<Subject>, x: Item): (r: Ranks)
    requires x in mb
    ensures 1 <= r.shared <= |mb| && 1 <= r.pref <= |mb| && 1 <= r.imp <= |mb|
  {
    RankingHolds(mb, shared, x);
    RankingHolds(mb, PrefScore(prefs), x);
    RankingHolds(mb, Importance, x);
    Ranks(RankIn(Ranking(mb, shared), x),
          RankIn(Ranking(mb, PrefScore(prefs)), x),
          RankIn(Ranking(mb, Importance), x))
  }

  /** The fused score: one reciprocal rank for the shared score, two for the
      preference score, one for importance. */
  function Fuse(r: Ranks): real
  {
    Reciprocal(r.shared) + 2.0 * Reciprocal(r.pref) + Reciprocal(r.imp)
  }

  /** An item ranked strictly ahead in all three rankings fuses higher, and
      every fused score lies between those of the last and the first ranks. */
  lemma FuseOrder(a: Ranks, b: Ranks)
    requires a.shared < b.shared && a.pref < b.pref && a.imp < b.imp
    ensures Fuse(b) < Fuse(a)
  {
    ReciprocalDecreasing(a.shared, b.shared);
    ReciprocalDecreasing(a.pref, b.pref);
    ReciprocalDecreasing(a.imp, b.imp);
  }

  lemma FuseBounds(r: Ranks, n: nat)
    requires 1 <= r.shared <= n && 1 <= r.pref <= n && 1 <= r.imp <= n
    ensures 4.0 * Reciprocal(n) <= Fuse(r) <= 4.0 * Reciprocal(1)
  {
    if r.shared < n { ReciprocalDecreasing(r.shared, n); }
    if r.pref < n { ReciprocalDecreasing(r.pref, n); }
    if r.imp < n { ReciprocalDecreasing(r.imp, n); }
    if 1 < r.shared { ReciprocalDecreasing(1, r.shared); }
    if 1 < r.pref { ReciprocalDecreasing(1, r.pref); }
    if 1 < r.imp { ReciprocalDecreasing(1, r.imp); }
  }

  /** The fused score of every item, 0 off the bank. */
  function Fused(mb: seq<Item>, shared: Item -> real, prefs: seq<Subject>): Item -> real
  {
    (x: Item) => if x in mb then Fuse(RanksOf(mb, shared, prefs, x)) else 0.0
  }

  lemma FusedAt(mb: seq<Item>, shared: Item -> real, prefs: seq<Subject>, x: Item)
    requires x in mb
    ensures Fused(mb, shared, prefs)(x) == Fuse(RanksOf(mb, shared, prefs, x))
  {
  }

  // ---------------------------------------------------------------------
  // The score dictionary and the pick
  // ---------------------------------------------------------------------

  /** `for item in mb: scores[item] = f(item)`. */
  function ScoreDict(mb: seq<Item>, f: Item -> real): ODict<Item, real>
  {
    if mb == [] then [] else Put(ScoreDict(mb[..|mb| - 1], f), mb[|mb| - 1], f(mb[|mb| - 1]))
  }

  lemma ScoreDictSnoc(mb: seq<Item>, k: nat, f: Item -> real)
    requires k < |mb|
    ensures ScoreDict(mb[..k + 1], f) == Put(ScoreDict(mb[..k], f), mb[k], f(mb[k]))
  {
    assert mb[..k + 1][..k] == mb[..k];
  }

  /** The dictionary holds each bank item once, under its own score. */
  lemma {:induction false} ScoreDictSpec(mb: seq<Item>, f: Item -> real)
    ensures DistinctKeys(ScoreDict(mb, f))
    ensures forall x :: HasKey(ScoreDict(mb, f), x) <==> x in mb
    ensures forall i :: 0 <= i < |ScoreDict(mb, f)| ==> ScoreDict(mb, f)[i].1 == f(ScoreDict(mb, f)[i].0)
  {
    if mb != [] {
      var prior := mb[..|mb| - 1];
      var x := mb[|mb| - 1];
      var d := ScoreDict(prior, f);
      ScoreDictSpec(prior, f);
      PutKeepsDistinct(d, x, f(x));
      PutShape(d, x, f(x));
      forall y ensures HasKey(Put(d, x, f(x)), y) <==> y in mb {
        PutThenGet(d, x, f(x), y);
        assert y in mb <==> y in prior || y == x by {
          assert mb == prior + [x];
        }
      }
      forall i | 0 <= i < |Put(d, x, f(x))|
        ensures Put(d, x, f(x))[i].1 == f(Put(d, x, f(x))[i].0)
      {
        if i < |d| && d[i].0 != x {
          assert Put(d, x, f(x))[i] == d[i];
        } else {
          var y := Put(d, x, f(x))[i].0;
          assert y == x;
          PutThenGet(d, x, f(x), x);
          assert Keys(Put(d, x, f(x)))[i] == x;
          GetUnique(Put(d, x, f(x)), i);
        }
      }
    }
  }

  /** `max(scores.items(), key=...)[0]`: the first key of greatest value. */
  function BestKey(d: ODict<Item, real>): Item
    requires d != []
  {
    d[FirstMaxIndex(d, Second)].0
  }

  /** The first key of greatest value in `{item: f(item) for item in mb}`,
      or None for an empty bank. */
  function PickBest(mb: seq<Item>, f: Item -> real): Option<Item>
  {
    if mb == [] then None
    else
      ScoreDictSpec(mb, f);
      assert HasKey(ScoreDict(mb, f), mb[0]);
      Some(BestKey(ScoreDict(mb, f)))
  }

  /** The pick is a bank item that no bank item beats, and nothing is picked
      only from an empty bank. */
  lemma PickBestSpec(mb: seq<Item>, f: Item -> real)
    ensures PickBest(mb, f).None? <==> mb == []
    ensures PickBest(mb, f).Some? ==> PickBest(mb, f).value in mb
    ensures PickBest(mb, f).Some? ==> forall y :: y in mb ==> f(y) <= f(PickBest(mb, f).value)
  {
    if mb != [] {
      var d := ScoreDict(mb, f);
      ScoreDictSpec(mb, f);
      assert HasKey(d, mb[0]);
      var k := FirstMaxIndex(d, Second);
      assert Keys(d)[k] == d[k].0;
      forall y | y in mb
        ensures f(y) <= f(d[k].0)
      {
        assert HasKey(d, y);
        var i := HasKeyIndex(d, y);
      }
    }
  }

  /** `propose_item`'s choice: the pick by fused score. */
  function Choice(mb: seq<Item>, shared: Item -> real, prefs: seq<Subject>): Option<Item>
  {
    PickBest(mb, Fused(mb, shared, prefs))
  }

  /** The choice is a bank item whose fused score no bank item beats. */
  lemma ChoiceSpec(mb: seq<Item>, shared: Item -> real, prefs: seq<Subject>, y: Item)
    ensures Choice(mb, shared, prefs).None? <==> mb == []
    ensures Choice(mb, shared, prefs).Some? ==> Choice(mb, shared, prefs).value in mb
    ensures Choice(mb, shared, prefs).Some? && y in mb ==>
      Fuse(RanksOf(mb, shared, prefs, y)) <= Fuse(RanksOf(mb, shared, prefs, Choice(mb, shared, prefs).value))
  {
    var f := Fused(mb, shared, prefs);
    PickBestSpec(mb, f);
    if mb != [] && y in mb {
      var x := PickBest(mb, f).value;
      assert f(y) <= f(x);
    }
  }

  /** The engine's shared score of each candidate appended to the history. */
  function SharedAfter(h: History, engine: History -> real): Item -> real
  {
    (x: Item) => engine(h + [Said(x)])
  }

  // ---------------------------------------------------------------------
  // The player
  // ---------------------------------------------------------------------

  class Player {
    const preferences: seq<Subject>
    var memoryBank: seq<Item>
    var best: Option<Item>

    /** The bank sorted in place by importance, highest first; `best` its head. */
    constructor(mb: seq<Item>, prefs: seq<Subject>)
      ensures preferences == prefs
      ensures memoryBank == SortDesc(mb, Importance)
      ensures best == if mb == [] then None else Some(memoryBank[0])
    {
      preferences := prefs;
      memoryBank := SortDesc(mb, Importance);
      best := if |mb| == 0 then None else Some(SortDesc(mb, Importance)[0]);
    }

    /** `propose_item`: rank every item three ways, fuse the ranks, take the
        best and remove it from the bank. The shared score comes from the
        host engine scoring the history with the candidate appended. */
    method ProposeItem(h: History, engine: History -> real) returns (r: Option<Item>)
      modifies this`memoryBank
      ensures r == Choice(old(memoryBank), SharedAfter(h, engine), preferences)
      ensures r.None? ==> memoryBank == old(memoryBank)
      ensures r.Some? ==> r.value in old(memoryBank) && memoryBank == RemoveFirst(old(memoryBank), r.value)
    {
      r := ChooseItem(memoryBank, h, engine, preferences);
      if r.Some? {
        memoryBank := RemoveFirst(memoryBank, r.value);
      }
    }
  }

  /** The choosing half of `propose_item`: None for an empty bank, else the
      first item of greatest fused score. */
  method ChooseItem(mb: seq<Item>, h: History, engine: History -> real, prefs: seq<Subject>) returns (r: Option<Item>)
    ensures r == Choice(mb, SharedAfter(h, engine), prefs)
    ensures r.None? <==> mb == []
    ensures r.Some? ==> r.value in mb
  {
    if |mb| == 0 {
      return None;
    }
    var shared := SharedAfter(h, engine);
    var sharedRanking, prefRanking, impRanking := BuildRankings(mb, h, engine, prefs);
    forall x | x in mb
      ensures x in sharedRanking && x in prefRanking && x in impRanking
      ensures Fused(mb, shared, prefs)(x) == Lookup(sharedRanking, prefRanking, impRanking, x)
    {
      FusedIsLookup(mb, shared, prefs, sharedRanking, prefRanking, impRanking, x);
    }
    var scores := ScoreTable(mb, Fused(mb, shared, prefs), sharedRanking, prefRanking, impRanking);
    ChoiceFromTable(mb, shared, prefs, scores);
    r := Some(scores[FirstMaxIndex(scores, Second)].0);
  }

  /** Reading the choice off the filled dictionary. */
  lemma ChoiceFromTable(mb: seq<Item>, shared: Item -> real, prefs: seq<Subject>, scores: ODict<Item, real>)
    requires mb != []
    requires scores == ScoreDict(mb, Fused(mb, shared, prefs))
    ensures scores != []
    ensures Choice(mb, shared, prefs) == Some(scores[FirstMaxIndex(scores, Second)].0)
    ensures scores[FirstMaxIndex(scores, Second)].0 in mb
  {
    var fused := Fused(mb, shared, prefs);
    ScoreDictSpec(mb, fused);
    assert HasKey(scores, mb[0]);
    PickBestSpec(mb, fused);
  }

  /** The loop over the bank that collects the three scored lists, each then
      sorted best first. */
  method BuildRankings(mb: seq<Item>, h: History, engine: History -> real, prefs: seq<Subject>)
    returns (sharedRanking: seq<Item>, prefRanking: seq<Item>, impRanking: seq<Item>)
    ensures sharedRanking == Ranking(mb, SharedAfter(h, engine))
    ensures prefRanking == Ranking(mb, PrefScore(prefs))
    ensures impRanking == Ranking(mb, Importance)
  {
    var sharedPairs: seq<(Item, real)> := [];
    var prefPairs: seq<(Item, real)> := [];
    var impPairs: seq<(Item, real)> := [];
    for k := 0 to |mb|
      invariant sharedPairs == Pairs(mb[..k], SharedAfter(h, engine))
      invariant prefPairs == Pairs(mb[..k], PrefScore(prefs))
      invariant impPairs == Pairs(mb[..k], Importance)
    {
      var x := mb[k];
      assert mb[..k + 1][..k] == mb[..k];
      sharedPairs := sharedPairs + [(x, engine(h + [Said(x)]))];
      prefPairs := prefPairs + [(x, IndividualScore(prefs, x))];
      impPairs := impPairs + [(x, x.importance)];
    }
    assert mb[..|mb|] == mb;
    sharedRanking := Firsts(SortDesc(sharedPairs, Second));
    prefRanking := Firsts(SortDesc(prefPairs, Second));
    impRanking := Firsts(SortDesc(impPairs, Second));
  }

  /** The fused score read off the three rank maps. */
  function Lookup(sharedRanking: seq<Item>, prefRanking: seq<Item>, impRanking: seq<Item>, x: Item): real
    requires x in sharedRanking && x in prefRanking && x in impRanking
  {
    Fuse(Ranks(RankIn(sharedRanking, x), RankIn(prefRanking, x), RankIn(impRanking, x)))
  }

  /** The fused score of each bank item is the one read off the rank maps. */
  lemma FusedIsLookup(mb: seq<Item>, shared: Item -> real, prefs: seq<Subject>,
                      sharedRanking: seq<Item>, prefRanking: seq<Item>, impRanking: seq<Item>, x: Item)
    requires sharedRanking == Ranking(mb, shared)
    requires prefRanking == Ranking(mb, PrefScore(prefs))
    requires impRanking == Ranking(mb, Importance)
    requires x in mb
    ensures x in sharedRanking && x in prefRanking && x in impRanking
    ensures Fused(mb, shared, prefs)(x) == Lookup(sharedRanking, prefRanking, impRanking, x)
  {
    RankingHolds(mb, shared, x);
    RankingHolds(mb, PrefScore(prefs), x);
    RankingHolds(mb, Importance, x);
    FusedAt(mb, shared, prefs, x);
  }

  /** The loop that fills the `scores` dictionary with each item's fused
      reciprocal ranks, looked up in the three rank maps. */
  method ScoreTable(mb: seq<Item>, f: Item -> real,
                    sharedRanking: seq<Item>, prefRanking: seq<Item>, impRanking: seq<Item>)
    returns (scores: ODict<Item, real>)
    requires forall x :: x in mb ==> x in sharedRanking && x in prefRanking && x in impRanking
    requires forall x :: x in mb ==> f(x) == Lookup(sharedRanking, prefRanking, impRanking, x)
    ensures scores == ScoreDict(mb, f)
  {
    scores := [];
    for k := 0 to |mb|
      invariant scores == ScoreDict(mb[..k], f)
    {
      ScoreDictSnoc(mb, k, f);
      scores := Put(scores, mb[k], Lookup(sharedRanking, prefRanking, impRanking, mb[k]));
    }
    assert mb[..|mb|] == mb;
  }

  /** After construction the bank is a permutation of the given items in
      descending importance, and `best` is the first item of greatest
      importance. */
  lemma InitSpec(mb: seq<Item>)
    ensures multiset(SortDesc(mb, Importance)) == multiset(mb)
    ensures forall i, j :: 0 <= i < j < |mb| ==> SortDesc(mb, Importance)[i].importance >= SortDesc(mb, Importance)[j].importance
    ensures mb != [] ==> SortDesc(mb, Importance)[0] == mb[FirstMaxIndex(mb, Importance)]
  {
    SortDescSorted(mb, Importance);
    if mb != [] {
      SortDescHead(mb, Importance);
    }
  }
}
