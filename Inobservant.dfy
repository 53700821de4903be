/** Player 2's inobservant strategy (players/player_2/InobservantStrategy.py):
    proposals drawn from the player's subject-bucket dictionary, which the
    strategy shrinks as its proposals are accepted. */
module Inobservant {
  import opened Common
  import opened Sorting
  import Player2

  type Buckets = ODict<seq<Subject>, seq<Item>>

  /** `max(items, key=score)`: an item of greatest score, the first one on ties. */
  function MostValuable(items: seq<Item>, score: Item -> real): (x: Item)
    requires items != []
    ensures x in items
    ensures forall y :: y in items ==> score(y) <= score(x)
  {
    var k := FirstMaxIndex(items, score);
    assert forall y :: y in items ==> exists j :: 0 <= j < |items| && items[j] == y;
    items[k]
  }

  // ---------------------------------------------------------------------
  // Removal of an accepted proposal
  // ---------------------------------------------------------------------

  /** `_remove_item_from_dict`: `list.remove` on the bucket of `key`, and the
      bucket deleted once empty. A missing key (KeyError) or an item absent
      from its bucket (ValueError) raises. */
  function RemoveItem(d: Buckets, key: seq<Subject>, x: Item): Outcome<Buckets>
  {
    if !HasKey(d, key) || x !in Get(d, key) then Raises
    else
      var rest := RemoveFirst(Get(d, key), x);
      Returns(if rest == [] then Delete(d, key) else Put(d, key, rest))
  }

  /** Removal succeeds exactly when the bucket holds the item; it then drops
      the item's first occurrence from that bucket, deletes the bucket when
      it empties, leaves every other bucket alone, and keeps the dictionary a
      valid bucket dictionary. */
  lemma RemoveItemSpec(d: Buckets, key: seq<Subject>, x: Item, q: seq<Subject>)
    requires Player2.ValidBuckets(d)
    ensures RemoveItem(d, key, x).Returns? <==> HasKey(d, key) && x in Get(d, key)
    ensures RemoveItem(d, key, x).Returns? ==>
      var r := RemoveItem(d, key, x).value;
      && Player2.ValidBuckets(r)
      && ListOf(r, key) == RemoveFirst(Get(d, key), x)
      && (q != key ==> ListOf(r, q) == ListOf(d, q) && (HasKey(r, q) <==> HasKey(d, q)))
  {
    if HasKey(d, key) && x in Get(d, key) {
      var rest := RemoveFirst(Get(d, key), x);
      if rest == [] {
        DeleteBucket(d, key, q);
      } else {
        ReplaceBucket(d, key, rest, q);
      }
    }
  }

  lemma DeleteBucket(d: Buckets, key: seq<Subject>, q: seq<Subject>)
    requires Player2.ValidBuckets(d)
    ensures Player2.ValidBuckets(Delete(d, key))
    ensures ListOf(Delete(d, key), key) == []
    ensures q != key ==> ListOf(Delete(d, key), q) == ListOf(d, q) && (HasKey(Delete(d, key), q) <==> HasKey(d, q))
  {
    DeleteKeys(d, key, q);
    DeleteKeepsDistinct(d, key);
    var r := Delete(d, key);
    forall i | 0 <= i < |r| ensures r[i].1 != [] {
      assert r[i] in d;
    }
  }

  lemma ReplaceBucket(d: Buckets, key: seq<Subject>, rest: seq<Item>, q: seq<Subject>)
    requires Player2.ValidBuckets(d) && HasKey(d, key) && rest != []
    ensures Player2.ValidBuckets(Put(d, key, rest))
    ensures ListOf(Put(d, key, rest), key) == rest
    ensures q != key ==> ListOf(Put(d, key, rest), q) == ListOf(d, q) && (HasKey(Put(d, key, rest), q) <==> HasKey(d, q))
  {
    PutThenGet(d, key, rest, q);
    PutThenGet(d, key, rest, key);
    PutKeepsDistinct(d, key, rest);
    PutShape(d, key, rest);
    var r := Put(d, key, rest);
    forall i | 0 <= i < |r| ensures r[i].1 != [] {
      if d[i].0 == key {
        GetUnique(r, i);
      }
    }
  }

  // ---------------------------------------------------------------------
  // Proposing after a pause
  // ---------------------------------------------------------------------

  /** The items among the last five slots (`history[-5:]`, pauses dropped). */
  function RecentItems(h: History): seq<Item>
  {
    ItemsOf(if |h| <= 5 then h else h[|h| - 5..])
  }

  /** The subjects of those items. */
  function RecentSubjects(h: History): set<Subject>
  {
    SubjectsOf(RecentItems(h))
  }

  /** The buckets whose key satisfies `keep`, in order. */
  function KeepWhere(d: Buckets, keep: seq<Subject> -> bool): (r: Buckets)
    ensures |r| <= |d|
    ensures forall i :: 0 <= i < |r| ==> r[i] in d && keep(r[i].0)
    ensures forall p :: p in d && keep(p.0) ==> p in r
  {
    if d == [] then []
    else (if keep(d[0].0) then [d[0]] else []) + KeepWhere(d[1..], keep)
  }

  /** A filter that keeps every key returns the dictionary unchanged. */
  lemma {:induction false} KeepWhereAll(d: Buckets, keep: seq<Subject> -> bool)
    requires forall k :: keep(k)
    ensures KeepWhere(d, keep) == d
  {
    if d != [] {
      KeepWhereAll(d[1..], keep);
      assert d == [d[0]] + d[1..];
    }
  }

  /** Python's `==` between an item and a subject number: never equal. */
  function ItemEqualsSubject(x: Item, s: Subject): bool
  {
    false
  }

  /** The filter of `_propose_freshly` as written: a bucket is dropped when a
      recent history item (not one of its subjects) is among the key's
      subjects. */
  function FreshFilterAsWritten(d: Buckets, h: History): (r: Buckets)
  {
    var recent := RecentItems(h);
    KeepWhere(d, (key: seq<Subject>) =>
      forall p, k :: p in recent && 0 <= k < |key| ==> !ItemEqualsSubject(p, key[k]))
  }

  /** Since an item never equals a subject, the as-written filter drops nothing. */
  lemma FreshFilterAsWrittenKeepsAll(d: Buckets, h: History)
    ensures FreshFilterAsWritten(d, h) == d
  {
    var recent := RecentItems(h);
    KeepWhereAll(d, (key: seq<Subject>) =>
      forall p, k :: p in recent && 0 <= k < |key| ==> !ItemEqualsSubject(p, key[k]));
  }

  /** The filter as its comment describes it: the buckets whose key mentions
      no subject of the last five slots. */
  function FreshFilter(d: Buckets, h: History): (r: Buckets)
    ensures forall i :: 0 <= i < |r| ==> r[i] in d
    ensures forall i, k :: 0 <= i < |r| && 0 <= k < |r[i].0| ==> r[i].0[k] !in RecentSubjects(h)
  {
    var recent := RecentSubjects(h);
    KeepWhere(d, (key: seq<Subject>) => forall k :: 0 <= k < |key| ==> key[k] !in recent)
  }

  /** The position the scan of `_propose_freshly` settles on: the first
      bucket of greatest size, provided that size is positive. */
  function LargestBucket(d: Buckets): (r: Option<nat>)
    ensures r.None? <==> forall j :: 0 <= j < |d| ==> d[j].1 == []
    ensures r.Some? ==>
      && r.value < |d| && d[r.value].1 != []
      && (forall j :: 0 <= j < |d| ==> |d[j].1| <= |d[r.value].1|)
      && (forall j :: 0 <= j < r.value ==> |d[j].1| < |d[r.value].1|)
  {
    if d == [] then None
    else
      var i := FirstMaxIndex(d, Player2.BucketSize);
      if d[i].1 == [] then None else Some(i)
  }

  /** Size of the bucket the scan holds (0 before it has taken one). */
  function HeldSize(d: Buckets, held: Option<nat>): nat
  {
    if held.Some? && held.value < |d| then |d[held.value].1| else 0
  }

  /** One more bucket for the scan: it takes over only when strictly larger. */
  lemma LargestBucketSnoc(d: Buckets, b: (seq<Subject>, seq<Item>))
    ensures LargestBucket(d + [b]) ==
      if |b.1| > HeldSize(d, LargestBucket(d)) then Some(|d|) else LargestBucket(d)
  {
    var e := d + [b];
    if d == [] {
      assert FirstMaxIndex(e, Player2.BucketSize) == 0;
    } else {
      FirstMaxIndexSnoc(d, b, Player2.BucketSize);
      assert e[FirstMaxIndex(d, Player2.BucketSize)] == d[FirstMaxIndex(d, Player2.BucketSize)];
    }
  }

  /** `_propose_possible_coherence`: the most valuable item of the first
      bucket; an empty dictionary (StopIteration) or an empty first bucket
      (`max` of nothing) raises. */
  function PossibleCoherence(d: Buckets, score: Item -> real): (r: Outcome<Item>)
    ensures r.Returns? <==> d != [] && d[0].1 != []
    ensures r.Returns? ==> r.value in d[0].1
  {
    if d == [] || d[0].1 == [] then Raises else Returns(MostValuable(d[0].1, score))
  }

  /** `_propose_freshly`, with the filter corrected: the first item of the
      first largest surviving bucket, or the possible-coherence choice when
      every bucket was filtered out. */
  function Freshly(d: Buckets, h: History, score: Item -> real): Outcome<Item>
  {
    var f := FreshFilter(d, h);
    if f != [] then
      match LargestBucket(f)
      case None => Raises
      case Some(i) => Returns(f[i].1[0])
    else PossibleCoherence(d, score)
  }

  /** `_propose_freshly` as written. */
  function FreshlyAsWritten(d: Buckets, h: History, score: Item -> real): Outcome<Item>
  {
    var f := FreshFilterAsWritten(d, h);
    if f != [] then
      match LargestBucket(f)
      case None => Raises
      case Some(i) => Returns(f[i].1[0])
    else PossibleCoherence(d, score)
  }

  /** On a valid, non-empty dictionary the fresh proposal never raises and
      is an item of the dictionary whose bucket key avoids the recent
      subjects, unless every bucket touches them. */
  lemma FreshlySpec(d: Buckets, h: History, score: Item -> real)
    requires Player2.ValidBuckets(d) && d != []
    ensures Freshly(d, h, score).Returns?
    ensures exists i :: 0 <= i < |d| && Freshly(d, h, score).value in d[i].1
    ensures FreshFilter(d, h) != [] ==>
      exists i :: 0 <= i < |d| && Freshly(d, h, score).value == d[i].1[0] &&
        forall k :: 0 <= k < |d[i].0| ==> d[i].0[k] !in RecentSubjects(h)
  {
    var f := FreshFilter(d, h);
    if f != [] {
      var i := LargestBucket(f).value;
      assert f[i] in d;
      var j :| 0 <= j < |d| && d[j] == f[i];
      assert Freshly(d, h, score).value == d[j].1[0];
      assert d[j].1[0] in d[j].1;
    } else {
      assert d[0].1 != [];
    }
  }

  /** The as-written scan proposes from a bucket whose key was just said:
      memory holds one item on subject 1 and two on subject 2, the history
      is an item on subject 2 followed by a pause, and the as-written filter
      lets the subject-2 bucket through, while the corrected one moves on to
      the subject-1 bucket. */
  lemma FreshFilterWitness()
    ensures FreshlyAsWritten(WitnessBuckets(), WitnessHistory(), Importance) == Returns(WitnessBuckets()[0].1[0])
    ensures Freshly(WitnessBuckets(), WitnessHistory(), Importance) == Returns(WitnessBuckets()[1].1[0])
    ensures WitnessBuckets()[0].1[0].subjects == [2] && 2 in RecentSubjects(WitnessHistory())
  {
    WitnessAsWritten();
    WitnessCorrected();
  }

  function Importance(x: Item): real { x.importance }

  function WitnessBuckets(): Buckets
  {
    [([2], [Item(2, [2], 0.5, 0), Item(3, [2], 0.5, 0)]), ([1], [Item(1, [1], 0.5, 0)])]
  }

  function WitnessHistory(): History
  {
    [Said(Item(4, [2], 0.5, 1)), Pause]
  }

  lemma WitnessAsWritten()
    ensures FreshlyAsWritten(WitnessBuckets(), WitnessHistory(), Importance) == Returns(WitnessBuckets()[0].1[0])
  {
    var d := WitnessBuckets();
    FreshFilterAsWrittenKeepsAll(d, WitnessHistory());
    assert LargestBucket(d) == Some(0) by {
      assert FirstMaxIndex(d[1..], Player2.BucketSize) == 0;
    }
  }

  lemma WitnessRecent()
    ensures 2 in RecentSubjects(WitnessHistory()) && 1 !in RecentSubjects(WitnessHistory())
  {
    var h := WitnessHistory();
    assert ItemsOf(h) == [Item(4, [2], 0.5, 1)] by {
      assert ItemsOf(h[1..]) == [];
    }
    assert 2 in ItemsOf(h)[0].subjects;
  }

  lemma WitnessCorrected()
    ensures Freshly(WitnessBuckets(), WitnessHistory(), Importance) == Returns(WitnessBuckets()[1].1[0])
    ensures 2 in RecentSubjects(WitnessHistory())
  {
    var d := WitnessBuckets();
    WitnessRecent();
    var f := FreshFilter(d, WitnessHistory());
    assert d[0] !in f;
    assert d[1] in f;
    assert f == [d[1]] by {
      assert forall i :: 0 <= i < |f| ==> f[i] in d;
    }
    assert LargestBucket(f) == Some(0);
  }

  // ---------------------------------------------------------------------
  // One proposal
  // ---------------------------------------------------------------------

  /** The strategy's answer and the player's bucket dictionary and last
      proposal afterwards. */
  datatype Turn = Turn(proposal: Outcome<Option<Item>>, buckets: Buckets, last: Option<Item>)

  /** `propose_item` from the observation check on. */
  function Continue(d: Buckets, last: Option<Item>, h: History, obsNum: int, numPlayers: int,
                    score: Item -> real): Turn
  {
    var turn := |h| + 1;
    if turn <= obsNum && h != [] && h[|h| - 1].Pause? && PauseCount(h) == 2 then
      Turn(Returns(None), d, last)
    else if turn <= obsNum && numPlayers > 2 && (turn == 1 || h[|h| - 1].Said?) then
      Turn(Returns(None), d, last)
    else if turn > 1 && h[|h| - 1].Pause? then
      match Freshly(d, h, score)
      case Raises => Turn(Raises, d, last)
      case Returns(x) => Turn(Returns(Some(x)), d, Some(x))
    else
      Turn(Returns(None), d, last)
  }

  /** `propose_item`. */
  function Propose(d: Buckets, last: Option<Item>, h: History, obsNum: int, numPlayers: int,
                   score: Item -> real): Turn
  {
    if d == [] then Turn(Returns(None), d, last)
    else if h != [] && h[|h| - 1].Said? && last == Some(h[|h| - 1].item) then
      var key := Player2.SubjectKey(h[|h| - 1].item.subjects);
      match RemoveItem(d, key, h[|h| - 1].item)
      case Raises => Turn(Raises, d, last)
      case Returns(d1) =>
        if HasKey(d1, key) && Get(d1, key) != [] then
          var x := MostValuable(Get(d1, key), score);
          Turn(Returns(Some(x)), d1, Some(x))
        else Continue(d1, last, h, obsNum, numPlayers, score)
    else Continue(d, last, h, obsNum, numPlayers, score)
  }

  /** An empty dictionary: no proposal, nothing changes. */
  lemma ProposeEmpty(last: Option<Item>, h: History, obsNum: int, numPlayers: int, score: Item -> real)
    ensures Propose([], last, h, obsNum, numPlayers, score) == Turn(Returns(None), [], last)
  {
  }

  /** The bucket left after removing an accepted proposal `x` of key `key`. */
  lemma AfterRemoval(d: Buckets, x: Item, key: seq<Subject>)
    requires Player2.ValidBuckets(d) && RemoveItem(d, key, x).Returns?
    ensures var d1 := RemoveItem(d, key, x).value;
      && Player2.ValidBuckets(d1)
      && (HasKey(d1, key) && Get(d1, key) != [] ==> exists i :: 0 <= i < |d1| && d1[i].1 == Get(d1, key))
  {
    RemoveItemSpec(d, key, x, key);
    var d1 := RemoveItem(d, key, x).value;
    if HasKey(d1, key) && Get(d1, key) != [] {
      var i := HasKeyIndex(d1, key);
      GetUnique(d1, i);
    }
  }

  /** The strategy keeps the player's dictionary a valid bucket dictionary. */
  lemma ProposeKeepsValid(d: Buckets, last: Option<Item>, h: History, obsNum: int, numPlayers: int,
                          score: Item -> real)
    requires Player2.ValidBuckets(d)
    ensures Player2.ValidBuckets(Propose(d, last, h, obsNum, numPlayers, score).buckets)
  {
    if d != [] && h != [] && h[|h| - 1].Said? && last == Some(h[|h| - 1].item) {
      var x := h[|h| - 1].item;
      var key := Player2.SubjectKey(x.subjects);
      if RemoveItem(d, key, x).Returns? {
        AfterRemoval(d, x, key);
      }
    }
  }

  /** Whatever the strategy proposes is an item of the player's dictionary and
      becomes the player's last proposal. */
  lemma ProposalIsRecorded(d: Buckets, last: Option<Item>, h: History, obsNum: int, numPlayers: int,
                           score: Item -> real)
    requires Player2.ValidBuckets(d)
    ensures var t := Propose(d, last, h, obsNum, numPlayers, score);
      t.proposal.Returns? && t.proposal.value.Some? ==>
        t.last == t.proposal.value &&
        exists i :: 0 <= i < |t.buckets| && t.proposal.value.value in t.buckets[i].1
  {
    if d != [] && h != [] {
      if h[|h| - 1].Said? && last == Some(h[|h| - 1].item) {
        RecordedAfterAcceptance(d, last, h, obsNum, numPlayers, score);
      } else if h[|h| - 1].Pause? {
        FreshlySpec(d, h, score);
      }
    }
  }

  lemma RecordedAfterAcceptance(d: Buckets, last: Option<Item>, h: History, obsNum: int, numPlayers: int,
                                score: Item -> real)
    requires Player2.ValidBuckets(d) && d != [] && h != [] && h[|h| - 1].Said? && last == Some(h[|h| - 1].item)
    ensures var t := Propose(d, last, h, obsNum, numPlayers, score);
      t.proposal.Returns? && t.proposal.value.Some? ==>
        t.last == t.proposal.value &&
        exists i :: 0 <= i < |t.buckets| && t.proposal.value.value in t.buckets[i].1
  {
    var t := Propose(d, last, h, obsNum, numPlayers, score);
    var x := h[|h| - 1].item;
    var key := Player2.SubjectKey(x.subjects);
    if RemoveItem(d, key, x).Returns? {
      var d1 := RemoveItem(d, key, x).value;
      AfterRemoval(d, x, key);
      if HasKey(d1, key) && Get(d1, key) != [] {
        assert t.proposal.value.value in Get(d1, key);
      } else {
        assert t == Continue(d1, last, h, obsNum, numPlayers, score);
      }
    }
  }

  /** On a valid dictionary the strategy raises exactly when an accepted
      proposal is missing from the bucket of its own subjects. */
  lemma ProposeRaises(d: Buckets, last: Option<Item>, h: History, obsNum: int, numPlayers: int,
                      score: Item -> real)
    requires Player2.ValidBuckets(d)
    ensures Propose(d, last, h, obsNum, numPlayers, score).proposal.Raises? <==>
      && d != [] && h != [] && h[|h| - 1].Said? && last == Some(h[|h| - 1].item)
      && var key := Player2.SubjectKey(h[|h| - 1].item.subjects);
         !(HasKey(d, key) && h[|h| - 1].item in Get(d, key))
  {
    if d != [] && h != [] && h[|h| - 1].Said? && last == Some(h[|h| - 1].item) {
      var x := h[|h| - 1].item;
      var key := Player2.SubjectKey(x.subjects);
      if RemoveItem(d, key, x).Returns? {
        var d1 := RemoveItem(d, key, x).value;
        assert Continue(d1, last, h, obsNum, numPlayers, score).proposal.Returns? by {
          ContinueRaises(d1, last, h, obsNum, numPlayers, score);
        }
      }
    } else if d != [] {
      ContinueRaises(d, last, h, obsNum, numPlayers, score);
      if h != [] && h[|h| - 1].Pause? {
        FreshlySpec(d, h, score);
      }
    }
  }

  /** The observation stage raises only when the fresh proposal after a pause does. */
  lemma ContinueRaises(d: Buckets, last: Option<Item>, h: History, obsNum: int, numPlayers: int,
                       score: Item -> real)
    ensures Continue(d, last, h, obsNum, numPlayers, score).proposal.Raises? ==>
      h != [] && h[|h| - 1].Pause? && Freshly(d, h, score).Raises?
  {
  }

  // ---------------------------------------------------------------------
  // The strategy acting on the player
  // ---------------------------------------------------------------------

  /** `_remove_item_from_dict` on the player's dictionary, for its last proposal. */
  method RemoveItemFromDict(player: Player2.Player, key: seq<Subject>) returns (removed: bool)
    requires player.lastProposed.Some?
    modifies player
    ensures var o := RemoveItem(old(player.subToItem), key, old(player.lastProposed).value);
      && removed == o.Returns?
      && player.subToItem == (if o.Returns? then o.value else old(player.subToItem))
    ensures player.lastProposed == old(player.lastProposed)
    ensures player.scoresPerPlayer == old(player.scoresPerPlayer)
  {
    var x := player.lastProposed.value;
    if !HasKey(player.subToItem, key) || x !in Get(player.subToItem, key) {
      return false;
    }
    var bucket := RemoveFirst(Get(player.subToItem, key), x);
    player.subToItem := Put(player.subToItem, key, bucket);
    if |bucket| == 0 {
      DeleteAfterPut(old(player.subToItem), key, bucket);
      player.subToItem := Delete(player.subToItem, key);
    }
    removed := true;
  }

  /** The scan of `_propose_freshly` for the largest bucket. */
  method ScanLargest(f: Buckets) returns (held: Option<nat>)
    ensures held == LargestBucket(f)
  {
    var subLength := 0;
    held := None;
    for i := 0 to |f|
      invariant held == LargestBucket(f[..i])
      invariant subLength == HeldSize(f[..i], held)
    {
      LargestBucketSnoc(f[..i], f[i]);
      assert f[..i + 1] == f[..i] + [f[i]];
      if |f[i].1| > subLength {
        subLength := |f[i].1|;
        held := Some(i);
      }
    }
    assert f[..|f|] == f;
  }

  /** `_propose_freshly` (filter corrected), recording the proposal. */
  method ProposeFreshly(player: Player2.Player, h: History, score: Item -> real) returns (r: Outcome<Item>)
    modifies player
    ensures r == Freshly(old(player.subToItem), h, score)
    ensures player.lastProposed == (if r.Returns? then Some(r.value) else old(player.lastProposed))
    ensures player.subToItem == old(player.subToItem) && player.scoresPerPlayer == old(player.scoresPerPlayer)
  {
    var filtered := FreshFilter(player.subToItem, h);
    if |filtered| != 0 {
      var held := ScanLargest(filtered);
      if held.None? {
        return Raises;
      }
      r := Returns(filtered[held.value].1[0]);
      player.lastProposed := Some(r.value);
    } else {
      r := ProposePossibleCoherence(player, score);
    }
  }

  /** `_propose_possible_coherence`, recording the proposal. */
  method ProposePossibleCoherence(player: Player2.Player, score: Item -> real) returns (r: Outcome<Item>)
    modifies player
    ensures r == PossibleCoherence(old(player.subToItem), score)
    ensures player.lastProposed == (if r.Returns? then Some(r.value) else old(player.lastProposed))
    ensures player.subToItem == old(player.subToItem) && player.scoresPerPlayer == old(player.scoresPerPlayer)
  {
    if |player.subToItem| == 0 || |player.subToItem[0].1| == 0 {
      return Raises;
    }
    var x := MostValuable(player.subToItem[0].1, score);
    player.lastProposed := Some(x);
    r := Returns(x);
  }

  /** `propose_item`: the strategy's turn on the player's state. The strategy's
      observation length, the number of players and the value score of an
      item are its parameters. */
  method ProposeItem(player: Player2.Player, h: History, obsNum: int, numPlayers: int,
                     score: Item -> real) returns (r: Outcome<Option<Item>>)
    modifies player
    ensures Turn(r, player.subToItem, player.lastProposed) ==
      Propose(old(player.subToItem), old(player.lastProposed), h, obsNum, numPlayers, score)
    ensures player.scoresPerPlayer == old(player.scoresPerPlayer)
  {
    var turn := |h| + 1;
    if |player.subToItem| == 0 {
      return Returns(None);
    }
    if turn > 1 && h[|h| - 1].Said? && player.lastProposed == Some(h[|h| - 1].item) {
      var key := Player2.SubjectKey(player.lastProposed.value.subjects);
      var removed := RemoveItemFromDict(player, key);
      if !removed {
        return Raises;
      }
      if HasKey(player.subToItem, key) && |Get(player.subToItem, key)| != 0 {
        var x := MostValuable(Get(player.subToItem, key), score);
        player.lastProposed := Some(x);
        return Returns(Some(x));
      }
    }
    ghost var d1 := player.subToItem;
    if turn <= obsNum {
      if |h| > 0 && h[|h| - 1].Pause? && PauseCount(h) == 2 {
        return Returns(None);
      }
      if numPlayers > 2 && (turn == 1 || (turn > 1 && h[|h| - 1].Said?)) {
        return Returns(None);
      }
    }
    if turn > 1 && h[|h| - 1].Pause? {
      var x := ProposeFreshly(player, h, score);
      r := if x.Returns? then Returns(Some(x.value)) else Raises;
    } else {
      r := Returns(None);
    }
  }
}
