/** Player 2: a ledger of group scores per speaker, rebuilt from the history
    each turn, and the memory bank grouped into buckets by subject set
    (players/player_2/player.py). */
module Player2 {
  import opened Common
  import opened Sorting
  import Scoring

  // ---------------------------------------------------------------------
  // Group score of one history slot
  // ---------------------------------------------------------------------

  /** The nested coherence scorer: the common rule over up to three items
      before `idx`, stopping at a pause; no guard for an empty context. */
  function Coherence(h: History, idx: nat, x: Item): (c: real)
    requires idx <= |h|
    ensures c == -1.0 || c == 0.0 || c == 1.0
    ensures Scoring.RunBack(h, idx, 3) == [] && x.subjects != [] ==> c == -1.0
  {
    Scoring.CoherenceOf(x.subjects, Scoring.RunBack(h, idx, 3))
  }

  /** The nested freshness scorer: after a pause, the number of the item's
      subjects absent from the up to five items before that pause, the walk
      stopping at an earlier pause. */
  function Freshness(h: History, idx: nat, x: Item): (f: real)
    requires idx <= |h|
    ensures 0.0 <= f <= |x.subjects| as real
    ensures (idx == 0 || h[idx - 1].Said?) ==> f == 0.0
    ensures idx > 0 && h[idx - 1].Pause? && Scoring.RunBack(h, idx - 1, 5) == [] ==> f == |x.subjects| as real
  {
    if idx == 0 || h[idx - 1].Said? then 0.0
    else Scoring.CountNotIn(x.subjects, SubjectsOf(Scoring.RunBack(h, idx - 1, 5))) as real
  }

  /** The last three items said before `idx` (pauses skipped) each share a subject with `x`. */
  predicate ThreeSharing(h: History, idx: nat, x: Item)
    requires idx <= |h|
  {
    var said := ItemsOf(h[..idx]);
    |said| >= 3 && forall k :: |said| - 3 <= k < |said| ==> Scoring.SharesSubject(x, said[k])
  }

  /** The nested non-monotonousness scorer: -1 for an id said before `idx`,
      otherwise -1 when the last three items said before it (pauses skipped)
      each share a subject with it, and 0 when there are fewer than three. */
  function NonMonotonousness(h: History, idx: nat, x: Item): (m: real)
    requires idx <= |h|
    ensures m == -1.0 || m == 0.0
    ensures m == -1.0 <==> x.id in IdsOf(h[..idx]) || ThreeSharing(h, idx, x)
    ensures |ItemsOf(h[..idx])| < 3 && x.id !in IdsOf(h[..idx]) ==> m == 0.0
  {
    if x.id in IdsOf(h[..idx]) then -1.0
    else if ThreeSharing(h, idx, x) then -1.0
    else 0.0
  }

  /** importance + coherence + freshness + non-monotonousness of the item at `idx`. */
  function GroupScore(h: History, idx: nat, x: Item): (g: real)
    requires idx <= |h|
    ensures x.importance - 2.0 <= g <= x.importance + 1.0 + |x.subjects| as real
  {
    x.importance + Coherence(h, idx, x) + Freshness(h, idx, x) + NonMonotonousness(h, idx, x)
  }

  /** The (owner, group score) pairs of the items among the first `n` slots, in order. */
  function Entries(h: History, n: nat): (r: seq<(Id, real)>)
    requires n <= |h|
  {
    if n == 0 then []
    else
      Entries(h, n - 1)
      + (if h[n - 1].Said? then [(h[n - 1].item.owner, GroupScore(h, n - 1, h[n - 1].item))] else [])
  }

  /** `scores_per_player` after one call of `get_group_scores_per_turn` on `h`. */
  function Ledger(d: ODict<Id, seq<real>>, h: History): ODict<Id, seq<real>>
  {
    AppendAll(d, Entries(h, |h|))
  }

  /** The items of `items` owned by player `p`, in order. */
  function OwnedBy(items: seq<Item>, p: Id): (r: seq<Item>)
    ensures |r| <= |items|
  {
    if items == [] then [] else OwnedBy(items[..|items| - 1], p) + (if items[|items| - 1].owner == p then [items[|items| - 1]] else [])
  }

  lemma {:induction false} OwnedByAppend(a: seq<Item>, b: seq<Item>, p: Id)
    ensures OwnedBy(a + b, p) == OwnedBy(a, p) + OwnedBy(b, p)
    decreases |b|
  {
    if b == [] {
      assert a + b == a;
    } else {
      var b' := b[..|b| - 1];
      assert (a + b)[..|a + b| - 1] == a + b';
      OwnedByAppend(a, b', p);
    }
  }

  /** Player `p` gets one group score per item of its own among the first `n` slots. */
  lemma {:induction false} EntriesCount(h: History, n: nat, p: Id)
    requires n <= |h|
    ensures |ValuesFor(Entries(h, n), p)| == |OwnedBy(ItemsOf(h[..n]), p)|
  {
    if n > 0 {
      EntriesCount(h, n - 1, p);
      EntriesValuesSnoc(h, n, p);
      OwnedBySnoc(h, n, p);
    }
  }

  lemma EntriesValuesSnoc(h: History, n: nat, p: Id)
    requires 0 < n <= |h|
    ensures ValuesFor(Entries(h, n), p) == ValuesFor(Entries(h, n - 1), p) +
      (if h[n - 1].Said? && h[n - 1].item.owner == p then [GroupScore(h, n - 1, h[n - 1].item)] else [])
  {
    var e := Entries(h, n);
    var e' := Entries(h, n - 1);
    if h[n - 1].Said? {
      var x := h[n - 1].item;
      var pair := (x.owner, GroupScore(h, n - 1, x));
      assert e == e' + [pair];
      assert e[..|e| - 1] == e' && e[|e| - 1] == pair;
    } else {
      assert e == e';
    }
  }

  lemma OwnedBySnoc(h: History, n: nat, p: Id)
    requires 0 < n <= |h|
    ensures OwnedBy(ItemsOf(h[..n]), p) == OwnedBy(ItemsOf(h[..n - 1]), p) +
      (if h[n - 1].Said? && h[n - 1].item.owner == p then [h[n - 1].item] else [])
  {
    var before := ItemsOf(h[..n - 1]);
    assert h[..n] == h[..n - 1] + [h[n - 1]];
    ItemsOfAppend(h[..n - 1], [h[n - 1]]);
    if h[n - 1].Said? {
      var x := h[n - 1].item;
      assert ItemsOf(h[..n]) == before + [x];
      OwnedByAppend(before, [x], p);
      assert OwnedBy([x], p) == OwnedBy([], p) + (if x.owner == p then [x] else []);
    } else {
      assert ItemsOf(h[..n]) == before + [];
      assert before + [] == before;
    }
  }

  /** One item's step of the ledger loop: its group score goes to its owner. */
  lemma LedgerSaid(d: ODict<Id, seq<real>>, h: History, idx: nat)
    requires idx < |h| && h[idx].Said?
    ensures AppendAll(d, Entries(h, idx + 1)) ==
      AppendTo(AppendAll(d, Entries(h, idx)), h[idx].item.owner, GroupScore(h, idx, h[idx].item))
  {
    var e := Entries(h, idx + 1);
    var e0 := Entries(h, idx);
    var pair := (h[idx].item.owner, GroupScore(h, idx, h[idx].item));
    assert e == e0 + [pair];
    assert e[..|e| - 1] == e0;
    assert e[|e| - 1] == pair;
  }

  /** A pause leaves the ledger alone. */
  lemma LedgerPause(d: ODict<Id, seq<real>>, h: History, idx: nat)
    requires idx < |h| && h[idx].Pause?
    ensures AppendAll(d, Entries(h, idx + 1)) == AppendAll(d, Entries(h, idx))
  {
    assert Entries(h, idx + 1) == Entries(h, idx) + [];
    assert Entries(h, idx) + [] == Entries(h, idx);
  }

  /** Each call appends to every player's list exactly the group scores of
      that player's items, in history order, as many as it has items there;
      no other list changes, and a player appears once it has an item. */
  lemma LedgerContents(d: ODict<Id, seq<real>>, h: History, p: Id)
    ensures ListOf(Ledger(d, h), p) == ListOf(d, p) + ValuesFor(Entries(h, |h|), p)
    ensures |ListOf(Ledger(d, h), p)| == |ListOf(d, p)| + |OwnedBy(ItemsOf(h), p)|
    ensures HasKey(Ledger(d, h), p) <==> HasKey(d, p) || OwnedBy(ItemsOf(h), p) != []
  {
    AppendAllListOf(d, Entries(h, |h|), p);
    EntriesCount(h, |h|, p);
    assert h[..|h|] == h;
  }

  /** `get_negative_score_players`: the players with a non-empty list whose
      mean is negative, in dictionary order. */
  function NegativePlayers(d: ODict<Id, seq<real>>): (r: seq<Id>)
    ensures forall p :: p in r <==> exists i :: 0 <= i < |d| && d[i].0 == p && d[i].1 != [] && Mean(d[i].1) < 0.0
  {
    if d == [] then []
    else
      var last := d[|d| - 1];
      var front := NegativePlayers(d[..|d| - 1]);
      assert forall i :: 0 <= i < |d| - 1 ==> d[..|d| - 1][i] == d[i];
      front + (if last.1 != [] && Mean(last.1) < 0.0 then [last.0] else [])
  }

  // ---------------------------------------------------------------------
  // Subject buckets
  // ---------------------------------------------------------------------

  function Le(a: Subject, b: Subject): bool { a <= b }

  /** `tuple(sorted(item.subjects))`. */
  function SubjectKey(subjects: seq<Subject>): (k: seq<Subject>)
    ensures multiset(k) == multiset(subjects)
  {
    SortBy(subjects, Le)
  }

  lemma SubjectKeySorted(subjects: seq<Subject>)
    ensures forall i, j :: 0 <= i < j < |SubjectKey(subjects)| ==> SubjectKey(subjects)[i] <= SubjectKey(subjects)[j]
  {
    assert TotalPreorder(Le);
    SortBySorted(subjects, Le);
  }

  /** The items of `mb` whose subject key is `k`, in memory order. */
  function WithKey(mb: seq<Item>, k: seq<Subject>): (r: seq<Item>)
    ensures forall x :: x in r <==> x in mb && SubjectKey(x.subjects) == k
  {
    if mb == [] then []
    else
      var x := mb[|mb| - 1];
      WithKey(mb[..|mb| - 1], k) + (if SubjectKey(x.subjects) == k then [x] else [])
  }

  /** The (subject key, item) pairs of the memory bank, in order. */
  function KeyPairs(mb: seq<Item>): (r: seq<(seq<Subject>, Item)>)
    ensures |r| == |mb|
    ensures forall i :: 0 <= i < |mb| ==> r[i] == (SubjectKey(mb[i].subjects), mb[i])
  {
    if mb == [] then [] else KeyPairs(mb[..|mb| - 1]) + [(SubjectKey(mb[|mb| - 1].subjects), mb[|mb| - 1])]
  }

  lemma {:induction false} KeyPairsValues(mb: seq<Item>, k: seq<Subject>)
    ensures ValuesFor(KeyPairs(mb), k) == WithKey(mb, k)
  {
    if mb != [] {
      KeyPairsValues(mb[..|mb| - 1], k);
      assert KeyPairs(mb)[..|mb| - 1] == KeyPairs(mb[..|mb| - 1]);
    }
  }

  /** The bucket dictionary as the loop of `_init_sub_to_item` builds it, before sorting. */
  function Buckets(mb: seq<Item>): ODict<seq<Subject>, seq<Item>>
  {
    AppendAll([], KeyPairs(mb))
  }

  function BucketSize(b: (seq<Subject>, seq<Item>)): real { |b.1| as real }

  function BucketKey(b: (seq<Subject>, seq<Item>)): seq<Subject> { b.0 }

  /** `_init_sub_to_item`: the buckets, stably sorted by size, largest first. */
  function SubToItem(mb: seq<Item>): ODict<seq<Subject>, seq<Item>>
  {
    SortDesc(Buckets(mb), BucketSize)
  }

  /** Distinct keys, no empty bucket. */
  ghost predicate ValidBuckets(d: ODict<seq<Subject>, seq<Item>>)
  {
    DistinctKeys(d) && forall i :: 0 <= i < |d| ==> d[i].1 != []
  }

  lemma BucketsSpec(mb: seq<Item>, k: seq<Subject>)
    ensures ValidBuckets(Buckets(mb))
    ensures ListOf(Buckets(mb), k) == WithKey(mb, k)
  {
    var d := Buckets(mb);
    AppendAllKeepsDistinct([], KeyPairs(mb));
    AppendAllListOf([], KeyPairs(mb), k);
    KeyPairsValues(mb, k);
    forall i | 0 <= i < |d| ensures d[i].1 != [] {
      GetUnique(d, i);
      AppendAllListOf([], KeyPairs(mb), d[i].0);
    }
  }

  /** The sorted bucket dictionary puts every memory item in the bucket of its
      own subject key and nowhere else, keeps memory order within a bucket,
      keeps keys distinct and buckets non-empty, and lists larger buckets first. */
  lemma SubToItemSpec(mb: seq<Item>, k: seq<Subject>)
    ensures ValidBuckets(SubToItem(mb))
    ensures ListOf(SubToItem(mb), k) == WithKey(mb, k)
    ensures forall i, j :: 0 <= i < j < |SubToItem(mb)| ==> |SubToItem(mb)[i].1| >= |SubToItem(mb)[j].1|
  {
    var d := Buckets(mb);
    var e := SubToItem(mb);
    BucketsSpec(mb, k);
    assert Injective(d, BucketKey);
    SortDescInjective(d, BucketSize, BucketKey);
    assert Injective(e, BucketKey);
    SameGetUnderPermutation(d, e, k);
    forall i | 0 <= i < |e| ensures e[i].1 != [] {
      assert e[i] in multiset(d);
    }
    SortDescSorted(d, BucketSize);
  }

  // ---------------------------------------------------------------------
  // The player
  // ---------------------------------------------------------------------

  /** The items of `h[from]`, `h[from-1]`, ... : the shared while loop of the
      nested coherence and freshness scorers. */
  method WalkBack(h: History, from: int, limit: nat) returns (items: seq<Item>)
    requires -1 <= from < |h|
    ensures items == Scoring.RunBack(h, from + 1, limit)
  {
    items := [];
    var j := from;
    while j >= 0 && |items| < limit
      invariant -1 <= j <= from
      invariant |items| == from - j && |items| <= limit
      invariant Scoring.RunBack(h, from + 1, limit) == items + Scoring.RunBack(h, j + 1, limit - |items|)
    {
      if h[j].Pause? {
        break;
      }
      items := items + [h[j].item];
      j := j - 1;
    }
  }

  method CoherenceScore(h: History, idx: nat, x: Item) returns (c: real)
    requires idx <= |h|
    ensures c == Coherence(h, idx, x)
  {
    var context := WalkBack(h, idx - 1, 3);
    c := 0.0;
    if !Scoring.AllMentioned(x.subjects, context) {
      c := c - 1.0;
    }
    if Scoring.AllTwice(x.subjects, context) {
      c := c + 1.0;
    }
  }

  method FreshnessScore(h: History, idx: nat, x: Item) returns (f: real)
    requires idx <= |h|
    ensures f == Freshness(h, idx, x)
  {
    if idx == 0 || h[idx - 1].Said? {
      return 0.0;
    }
    var concreteBack := WalkBack(h, idx - 2, 5);
    f := Scoring.CountNotIn(x.subjects, SubjectsOf(concreteBack)) as real;
  }

  /** importance + coherence + freshness + non-monotonousness, as the ledger loop sums them. */
  method GroupScoreOf(h: History, idx: nat, x: Item) returns (g: real)
    requires idx <= |h|
    ensures g == GroupScore(h, idx, x)
  {
    var coherence := CoherenceScore(h, idx, x);
    var freshness := FreshnessScore(h, idx, x);
    var nonmono := NonMonotonousness(h, idx, x);
    g := x.importance + coherence + freshness + nonmono;
  }

  class Player {
    var scoresPerPlayer: ODict<Id, seq<real>>
    var subToItem: ODict<seq<Subject>, seq<Item>>
    var lastProposed: Option<Item>
    const memoryBank: seq<Item>

    constructor(mb: seq<Item>)
      ensures memoryBank == mb
      ensures subToItem == SubToItem(mb) && lastProposed == None && scoresPerPlayer == []
    {
      memoryBank := mb;
      scoresPerPlayer := [];
      lastProposed := None;
      new;
      subToItem := InitSubToItem();
    }

    /** `_init_sub_to_item`. */
    method InitSubToItem() returns (d: ODict<seq<Subject>, seq<Item>>)
      ensures d == SubToItem(memoryBank)
    {
      var buckets: ODict<seq<Subject>, seq<Item>> := [];
      for i := 0 to |memoryBank|
        invariant buckets == Buckets(memoryBank[..i])
      {
        var x := memoryBank[i];
        var key := SubjectKey(x.subjects);
        var bucket := if HasKey(buckets, key) then Get(buckets, key) else [];
        buckets := Put(buckets, key, bucket + [x]);
        assert memoryBank[..i + 1][..i] == memoryBank[..i];
        assert KeyPairs(memoryBank[..i + 1])[..i] == KeyPairs(memoryBank[..i]);
      }
      assert memoryBank[..|memoryBank|] == memoryBank;
      d := SortDesc(buckets, BucketSize);
    }

    /** `scores_per_player.setdefault(owner, []).append(score)`, spelled out as
        the ledger loop does it. */
    method Record(owner: Id, score: real)
      modifies this`scoresPerPlayer
      ensures scoresPerPlayer == AppendTo(old(scoresPerPlayer), owner, score)
      ensures subToItem == old(subToItem) && lastProposed == old(lastProposed)
    {
      var scores := if HasKey(scoresPerPlayer, owner) then Get(scoresPerPlayer, owner) else [];
      scoresPerPlayer := Put(scoresPerPlayer, owner, scores + [score]);
    }

    /** `get_group_scores_per_turn`: appends one group score per history item
        to the list of the item's owner. */
    method GetGroupScoresPerTurn(h: History)
      modifies this`scoresPerPlayer
      ensures scoresPerPlayer == Ledger(old(scoresPerPlayer), h)
      ensures subToItem == old(subToItem) && lastProposed == old(lastProposed)
    {
      var idx := 0;
      while idx < |h|
        invariant 0 <= idx <= |h|
        invariant scoresPerPlayer == AppendAll(old(scoresPerPlayer), Entries(h, idx))
      {
        if h[idx].Said? {
          var x := h[idx].item;
          var groupScore := GroupScoreOf(h, idx, x);
          Record(x.owner, groupScore);
          LedgerSaid(old(scoresPerPlayer), h, idx);
        } else {
          LedgerPause(old(scoresPerPlayer), h, idx);
        }
        idx := idx + 1;
      }
    }

    /** `get_negative_score_players`. */
    method GetNegativeScorePlayers() returns (negative: seq<Id>)
      ensures negative == NegativePlayers(scoresPerPlayer)
    {
      negative := [];
      var d := scoresPerPlayer;
      for i := 0 to |d|
        invariant negative == NegativePlayers(d[..i])
      {
        assert d[..i + 1][..i] == d[..i];
        if d[i].1 != [] && Sum(d[i].1) / (|d[i].1| as real) < 0.0 {
          negative := negative + [d[i].0];
        }
      }
      assert d[..|d|] == d;
    }
  }
}
