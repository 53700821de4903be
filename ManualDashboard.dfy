/** The manual dashboard script (players/player_10/tools/manual_dashboard.py):
    the labels players are shown under, the ranks of their totals, and the
    result record one engine run is turned into. */
module ManualDashboard {
  import opened Common
  import opened Sorting

  // ---------------------------------------------------------------------
  // Labels
  // ---------------------------------------------------------------------

  /** A player of the engine: its id and the name of its class. */
  datatype Seat = Seat(id: Id, className: string)

  const Player10Class := "Player10Agent"

  /** A label: 'Player10', or `Name#k` for the k-th player of class `Name`. */
  datatype Alias = Player10 | Numbered(className: string, k: nat)

  /** The class names the counter is bumped for, in seat order: every
      class but Player10's. */
  function Counted(ps: seq<Seat>): (r: seq<string>)
    ensures |r| <= |ps|
  {
    if ps == [] then []
    else
      var last := ps[|ps| - 1];
      Counted(ps[..|ps| - 1]) + (if last.className == Player10Class then [] else [last.className])
  }

  /** The label of seat `i`: Player10's agent is 'Player10'; any other
      player is numbered by how many of its class have been counted up to
      and including it. */
  function AliasAt(ps: seq<Seat>, i: nat): Alias
    requires i < |ps|
  {
    var c := ps[i].className;
    if c == Player10Class then Player10 else Numbered(c, Multiplicity(Counted(ps[..i + 1]), c))
  }

  /** `_build_label_map`: each seat's id mapped to its label, a later seat
      with the same id overwriting an earlier one. */
  function LabelMap(ps: seq<Seat>): ODict<Id, Alias>
  {
    if ps == [] then []
    else Put(LabelMap(ps[..|ps| - 1]), ps[|ps| - 1].id, AliasAt(ps, |ps| - 1))
  }

  lemma CountedSnoc(ps: seq<Seat>, i: nat)
    requires i < |ps|
    ensures Counted(ps[..i + 1]) == Counted(ps[..i]) + (if ps[i].className == Player10Class then [] else [ps[i].className])
  {
    assert ps[..i + 1][..i] == ps[..i];
  }

  lemma {:induction false} CountedHas(ps: seq<Seat>, c: string)
    requires c != Player10Class
    ensures c in Counted(ps) <==> exists j :: 0 <= j < |ps| && ps[j].className == c
  {
    if ps != [] {
      var n := |ps| - 1;
      var front := ps[..n];
      CountedHas(front, c);
      if c in Counted(ps) {
        if c in Counted(front) {
          var j :| 0 <= j < |front| && front[j].className == c;
          assert ps[j] == front[j];
        } else {
          assert ps[n].className == c;
        }
      }
      if exists j :: 0 <= j < |ps| && ps[j].className == c {
        var j :| 0 <= j < |ps| && ps[j].className == c;
        if j < n {
          assert front[j] == ps[j];
        }
      }
    }
  }

  lemma {:induction false} CountedGrows(ps: seq<Seat>, m: nat, n: nat, c: string)
    requires m <= n <= |ps|
    ensures Multiplicity(Counted(ps[..m]), c) <= Multiplicity(Counted(ps[..n]), c)
    decreases n - m
  {
    if m < n {
      CountedGrows(ps, m, n - 1, c);
      CountedSnoc(ps, n - 1);
      var tail := if ps[n - 1].className == Player10Class then [] else [ps[n - 1].className];
      MultiplicityAppend(Counted(ps[..n - 1]), tail, c);
    }
  }

  /** Only Player10's agent is labelled 'Player10'; any other player keeps
      its class name with a number from 1, and number 1 goes to exactly the
      first player of its class. */
  lemma AliasBase(ps: seq<Seat>, i: nat)
    requires i < |ps|
    ensures AliasAt(ps, i) == Player10 <==> ps[i].className == Player10Class
    ensures AliasAt(ps, i).Numbered? ==> AliasAt(ps, i).className == ps[i].className && AliasAt(ps, i).k >= 1
    ensures AliasAt(ps, i).Numbered? ==>
      (AliasAt(ps, i).k == 1 <==> forall j :: 0 <= j < i ==> ps[j].className != ps[i].className)
  {
    var c := ps[i].className;
    if c != Player10Class {
      CountedSnoc(ps, i);
      MultiplicityAppend(Counted(ps[..i]), [c], c);
      assert [c][1..] == [];
      MultiplicityZero(Counted(ps[..i]), c);
      CountedHas(ps[..i], c);
      assert forall j :: 0 <= j < i ==> ps[..i][j] == ps[j];
    }
  }

  /** No two players outside Player10's class share a label. */
  lemma AliasesDistinct(ps: seq<Seat>, i: nat, j: nat)
    requires i < j < |ps|
    requires ps[j].className != Player10Class
    ensures AliasAt(ps, i) != AliasAt(ps, j)
  {
    var c := ps[j].className;
    if ps[i].className == c {
      CountedGrows(ps, i + 1, j, c);
      CountedSnoc(ps, j);
      MultiplicityAppend(Counted(ps[..j]), [c], c);
      assert [c][1..] == [];
    }
  }

  lemma AliasAtPrefix(ps: seq<Seat>, n: nat, i: nat)
    requires i < n <= |ps|
    ensures AliasAt(ps[..n], i) == AliasAt(ps, i)
  {
    assert ps[..n][..i + 1] == ps[..i + 1];
  }

  /** The map has an entry for exactly the ids of the seats. */
  lemma {:induction false} LabelMapHas(ps: seq<Seat>, id: Id)
    ensures HasKey(LabelMap(ps), id) <==> exists i :: 0 <= i < |ps| && ps[i].id == id
  {
    if ps != [] {
      var n := |ps| - 1;
      var front := ps[..n];
      LabelMapHas(front, id);
      PutThenGet(LabelMap(front), ps[n].id, AliasAt(ps, n), id);
      if exists i :: 0 <= i < |ps| && ps[i].id == id {
        var i :| 0 <= i < |ps| && ps[i].id == id;
        if i < n {
          assert front[i] == ps[i];
        }
      }
      if exists i :: 0 <= i < |front| && front[i].id == id {
        var i :| 0 <= i < |front| && front[i].id == id;
        assert ps[i] == front[i];
      }
    }
  }

  /** An id maps to the label of the last seat holding it (the only one
      when ids are unique). */
  lemma {:induction false} LabelMapGet(ps: seq<Seat>, i: nat)
    requires i < |ps|
    requires forall j :: i < j < |ps| ==> ps[j].id != ps[i].id
    ensures HasKey(LabelMap(ps), ps[i].id) && Get(LabelMap(ps), ps[i].id) == AliasAt(ps, i)
  {
    var n := |ps| - 1;
    var front := ps[..n];
    PutThenGet(LabelMap(front), ps[n].id, AliasAt(ps, n), ps[i].id);
    if i < n {
      assert front[i] == ps[i];
      assert forall j :: i < j < |front| ==> front[j] == ps[j];
      LabelMapGet(front, i);
      AliasAtPrefix(ps, n, i);
    }
  }

  lemma LabelMapSnoc(ps: seq<Seat>, i: nat)
    requires i < |ps|
    ensures LabelMap(ps[..i + 1]) == Put(LabelMap(ps[..i]), ps[i].id, AliasAt(ps, i))
  {
    assert ps[..i + 1][..i] == ps[..i];
    AliasAtPrefix(ps, i + 1, i);
  }

  /** The counter holds, for every class, how many of its players were counted. */
  ghost predicate CountsOf(counts: ODict<string, nat>, ps: seq<Seat>)
  {
    forall q :: GetOr(counts, q, 0) == Multiplicity(Counted(ps), q)
  }

  /** `counts[class_name] += 1` keeps every class's count equal to the
      number of its players seen so far. */
  lemma CounterStep(counts: ODict<string, nat>, ps: seq<Seat>, i: nat, n: nat)
    requires i < |ps| && ps[i].className != Player10Class
    requires CountsOf(counts, ps[..i])
    requires n == GetOr(counts, ps[i].className, 0) + 1
    ensures CountsOf(Put(counts, ps[i].className, n), ps[..i + 1])
    ensures HasKey(Put(counts, ps[i].className, n), ps[i].className)
    ensures Get(Put(counts, ps[i].className, n), ps[i].className) == Multiplicity(Counted(ps[..i + 1]), ps[i].className)
  {
    PutThenGet(counts, ps[i].className, n, ps[i].className);
    var c := ps[i].className;
    CountedSnoc(ps, i);
    forall q
      ensures GetOr(Put(counts, c, n), q, 0) == Multiplicity(Counted(ps[..i + 1]), q)
    {
      PutThenGet(counts, c, n, q);
      MultiplicityAppend(Counted(ps[..i]), [c], q);
      assert [c][1..] == [];
    }
  }

  /** `_build_label_map`: the counter and the label map are filled seat by seat. */
  method BuildLabelMap(ps: seq<Seat>) returns (labels: ODict<Id, Alias>)
    ensures labels == LabelMap(ps)
  {
    var counts: ODict<string, nat> := [];
    labels := [];
    for i := 0 to |ps|
      invariant CountsOf(counts, ps[..i])
      invariant labels == LabelMap(ps[..i])
    {
      var c := ps[i].className;
      var alias: Alias;
      if c == Player10Class {
        alias := Player10;
        assert CountsOf(counts, ps[..i + 1]) by {
          assert Counted(ps[..i + 1]) == Counted(ps[..i]) by { CountedSnoc(ps, i); }
        }
      } else {
        var n: nat := GetOr(counts, c, 0) + 1;
        CounterStep(counts, ps, i, n);
        counts := Put(counts, c, n);
        alias := Numbered(c, Get(counts, c));
      }
      assert alias == AliasAt(ps, i);
      assert LabelMap(ps[..i + 1]) == Put(labels, ps[i].id, alias) by { LabelMapSnoc(ps, i); }
      labels := Put(labels, ps[i].id, alias);
    }
    assert ps[..|ps|] == ps;
  }

  /** The class names of the seats, in order. */
  function ClassesOf(ps: seq<Seat>): (r: seq<string>)
    ensures |r| == |ps| && forall i :: 0 <= i < |ps| ==> r[i] == ps[i].className
  {
    seq(|ps|, i requires 0 <= i < |ps| => ps[i].className)
  }

  // ---------------------------------------------------------------------
  // Ranks
  // ---------------------------------------------------------------------

  function AliasOf(p: (Alias, real)): Alias { p.0 }

  function TotalOf(p: (Alias, real)): real { p.1 }

  /** One plus the number of players with a strictly higher total: tied
      totals share the best position of their group, and the next total
      down skips the positions they fill (1, 2, 2, 4). */
  function CompetitionRank(totals: ODict<Alias, real>, t: real): nat
  {
    1 + Above(totals, TotalOf, t)
  }

  /** `_rank_players`: the labels in descending order of total, ties in
      their original order, each with its competition rank. */
  function RankTable(totals: ODict<Alias, real>): (r: ODict<Alias, real>)
    ensures |r| == |totals|
  {
    RanksAlong(SortDesc(totals, TotalOf), totals)
  }

  /** Each label of `s`, in order, with the competition rank of its total among `totals`. */
  function RanksAlong(s: ODict<Alias, real>, totals: ODict<Alias, real>): (r: ODict<Alias, real>)
    ensures |r| == |s|
    ensures forall k :: 0 <= k < |s| ==> r[k] == (s[k].0, CompetitionRank(totals, s[k].1) as real)
  {
    seq(|s|, k requires 0 <= k < |s| => (s[k].0, CompetitionRank(totals, s[k].1) as real))
  }

  lemma {:induction false} AboveCut<T>(s: seq<T>, key: T -> real, t: real, i: nat)
    requires i <= |s|
    requires forall j :: 0 <= j < i ==> key(s[j]) > t
    requires forall j :: i <= j < |s| ==> key(s[j]) <= t
    ensures Above(s, key, t) == i
  {
    if s != [] {
      var rest := s[1..];
      assert forall j :: 0 <= j < |rest| ==> rest[j] == s[j + 1];
      AboveCut(rest, key, t, if i == 0 then 0 else i - 1);
    }
  }

  lemma {:induction false} AboveZero<T>(s: seq<T>, key: T -> real, t: real)
    ensures Above(s, key, t) == 0 <==> forall j :: 0 <= j < |s| ==> key(s[j]) <= t
  {
    if s != [] {
      var rest := s[1..];
      AboveZero(rest, key, t);
      assert forall j :: 1 <= j < |s| ==> s[j] == rest[j - 1];
    }
  }

  /** A key that is present is not above itself, so not every element is above it. */
  lemma {:induction false} AboveBelow<T>(s: seq<T>, key: T -> real, j: nat)
    requires j < |s|
    ensures Above(s, key, key(s[j])) < |s|
  {
    if j > 0 {
      AboveBelow(s[1..], key, j - 1);
    }
  }

  /** Raising the threshold never counts more elements; raising it to a key
      that is present counts at least that one fewer. */
  lemma {:induction false} AboveMonotone<T>(s: seq<T>, key: T -> real, a: real, b: real)
    requires a <= b
    ensures Above(s, key, b) <= Above(s, key, a)
  {
    if s != [] {
      AboveMonotone(s[1..], key, a, b);
    }
  }

  lemma {:induction false} AboveStrict<T>(s: seq<T>, key: T -> real, a: real, j: nat)
    requires j < |s| && a < key(s[j])
    ensures Above(s, key, key(s[j])) < Above(s, key, a)
  {
    if j > 0 {
      AboveStrict(s[1..], key, a, j - 1);
    } else {
      AboveMonotone(s[1..], key, a, key(s[j]));
    }
  }

  /** `_rank_players`: walks the sorted totals keeping the current rank and
      the previous total, and starts a new rank at the 1-based position of
      each total below the previous one. */
  method RankPlayers(totals: ODict<Alias, real>) returns (ranks: ODict<Alias, real>)
    requires DistinctKeys(totals)
    ensures ranks == RankTable(totals)
  {
    var sorted := SortDesc(totals, TotalOf);
    ghost var table := RanksAlong(sorted, totals);
    ranks := [];
    var currentRank := 1;
    var previous: Option<real> := None;
    for i := 0 to |sorted|
      invariant ranks == table[..i]
      invariant i == 0 ==> previous == None
      invariant i > 0 ==> previous == Some(sorted[i - 1].1) && currentRank as real == table[i - 1].1
    {
      var (alias, value) := sorted[i];
      var index := i + 1;
      RankStep(totals, i);
      if previous.None? || value < previous.value {
        currentRank := index;
      }
      previous := Some(value);
      assert Put(ranks, alias, currentRank as real) == ranks + [(alias, currentRank as real)] by {
        assert !HasKey(ranks, alias) by {
          assert DistinctKeys(table) && table[i].0 == alias by { RankTableKeys(totals); }
          forall k | 0 <= k < i
            ensures Keys(ranks)[k] != alias
          {
            assert ranks[k] == table[k];
          }
        }
        PutShape(ranks, alias, currentRank as real);
      }
      ranks := Put(ranks, alias, currentRank as real);
      assert table[..i + 1] == table[..i] + [table[i]];
    }
    assert table[..|sorted|] == table;
  }

  /** What the loop of `_rank_players` relies on at position `i` of the
      sorted totals: the total is no higher than the previous one; a total
      below the previous one (or the first) is ranked at its 1-based
      position; a total equal to the previous one shares its rank. */
  lemma RankStep(totals: ODict<Alias, real>, i: nat)
    requires i < |totals|
    ensures var s := SortDesc(totals, TotalOf); var table := RanksAlong(s, totals);
      && (i > 0 ==> s[i].1 <= s[i - 1].1)
      && (i == 0 || s[i].1 < s[i - 1].1 ==> table[i].1 == (i + 1) as real)
      && (i > 0 && s[i].1 == s[i - 1].1 ==> table[i].1 == table[i - 1].1)
  {
    var s := SortDesc(totals, TotalOf);
    SortDescSorted(totals, TotalOf);
    if i == 0 || s[i].1 < s[i - 1].1 {
      assert forall j :: 0 <= j < i ==> TotalOf(s[j]) >= TotalOf(s[i - 1]);
      assert forall j :: i <= j < |s| ==> TotalOf(s[j]) <= TotalOf(s[i]);
      AboveCut(s, TotalOf, s[i].1, i);
      SortDescAbove(totals, TotalOf, s[i].1);
    }
  }

  lemma RankTableKeys(totals: ODict<Alias, real>)
    requires DistinctKeys(totals)
    ensures DistinctKeys(RankTable(totals))
    ensures forall k :: 0 <= k < |totals| ==> RankTable(totals)[k].0 == SortDesc(totals, TotalOf)[k].0
  {
    assert Injective(totals, AliasOf);
    SortDescInjective(totals, TotalOf, AliasOf);
    var s := SortDesc(totals, TotalOf);
    var r := RankTable(totals);
    forall i, j | 0 <= i < j < |r|
      ensures r[i].0 != r[j].0
    {
      assert AliasOf(s[i]) != AliasOf(s[j]);
    }
  }

  /** The table ranks exactly the labels that have a total. */
  lemma RankTableHas(totals: ODict<Alias, real>, l: Alias)
    requires DistinctKeys(totals)
    ensures HasKey(RankTable(totals), l) <==> HasKey(totals, l)
  {
    if HasKey(totals, l) {
      RankOf(totals, l);
    }
    if HasKey(RankTable(totals), l) {
      RankedHasTotal(totals, l);
    }
  }

  lemma RankedHasTotal(totals: ODict<Alias, real>, l: Alias)
    requires HasKey(RankTable(totals), l)
    ensures HasKey(totals, l)
  {
    var s := SortDesc(totals, TotalOf);
    var j := HasKeyIndex(RankTable(totals), l);
    assert s[j] in multiset(totals);
    var i :| 0 <= i < |totals| && totals[i] == s[j];
    assert Keys(totals)[i] == l;
  }

  /** Each label's rank is the competition rank of its own total. */
  lemma RankOf(totals: ODict<Alias, real>, l: Alias)
    requires DistinctKeys(totals) && HasKey(totals, l)
    ensures HasKey(RankTable(totals), l)
    ensures Get(RankTable(totals), l) == CompetitionRank(totals, Get(totals, l)) as real
  {
    var s := SortDesc(totals, TotalOf);
    var r := RankTable(totals);
    RankTableKeys(totals);
    var i := HasKeyIndex(totals, l);
    GetUnique(totals, i);
    assert totals[i] in multiset(s);
    var j :| 0 <= j < |s| && s[j] == totals[i];
    GetUnique(r, j);
  }

  /** Every rank lies between 1 and the number of players. */
  lemma RankBounds(totals: ODict<Alias, real>, l: Alias)
    requires DistinctKeys(totals) && HasKey(totals, l)
    ensures 1 <= CompetitionRank(totals, Get(totals, l)) <= |totals|
  {
    var i := HasKeyIndex(totals, l);
    GetUnique(totals, i);
    AboveBelow(totals, TotalOf, i);
  }

  /** Rank 1 goes to exactly the players holding the greatest total. */
  lemma RankOneIffBest(totals: ODict<Alias, real>, l: Alias)
    requires HasKey(totals, l)
    ensures CompetitionRank(totals, Get(totals, l)) == 1 <==>
            forall j :: 0 <= j < |totals| ==> totals[j].1 <= Get(totals, l)
  {
    AboveZero(totals, TotalOf, Get(totals, l));
  }

  /** A strictly higher total gets a strictly better (smaller) rank; equal
      totals share a rank. */
  lemma RankOrder(totals: ODict<Alias, real>, l: Alias, m: Alias)
    requires DistinctKeys(totals) && HasKey(totals, l) && HasKey(totals, m)
    ensures Get(totals, l) > Get(totals, m) ==>
      CompetitionRank(totals, Get(totals, l)) < CompetitionRank(totals, Get(totals, m))
    ensures Get(totals, l) == Get(totals, m) ==>
      CompetitionRank(totals, Get(totals, l)) == CompetitionRank(totals, Get(totals, m))
  {
    var i := HasKeyIndex(totals, l);
    GetUnique(totals, i);
    if Get(totals, l) > Get(totals, m) {
      AboveStrict(totals, TotalOf, Get(totals, m), i);
    }
  }

  /** The ranks are competition ranks, not dense ones: of totals 3, 2, 2, 1
      the last is ranked 4, not 3. */
  lemma CompetitionNotDense(a: Alias, b: Alias, c: Alias, d: Alias)
    ensures var totals := [(a, 3.0), (b, 2.0), (c, 2.0), (d, 1.0)];
      CompetitionRank(totals, 3.0) == 1 && CompetitionRank(totals, 2.0) == 2 && CompetitionRank(totals, 1.0) == 4
  {
    var totals := [(a, 3.0), (b, 2.0), (c, 2.0), (d, 1.0)];
    AboveCut(totals, TotalOf, 3.0, 0);
    AboveCut(totals, TotalOf, 2.0, 1);
    AboveCut(totals, TotalOf, 1.0, 3);
  }

  // ---------------------------------------------------------------------
  // The result of one run
  // ---------------------------------------------------------------------

  /** The three scores the engine reports for a player. */
  datatype Scores = Scores(total: real, individual: real, shared: real)

  /** A label's entry of `player_metrics`; its rank is filled in after ranking. */
  datatype PlayerMetrics = PlayerMetrics(className: string, alias: Alias, total: real, individual: real,
                                         shared: real, rank: Option<real>)

  /** `label.split('#')[0]`: the class part of a label. */
  function ClassPart(a: Alias): string
  {
    match a
    case Player10 => "Player10"
    case Numbered(c, _) => c
  }

  /** Every id of `kvs` has a label. */
  predicate Labelled<V>(labels: ODict<Id, Alias>, kvs: seq<(Id, V)>)
  {
    forall k :: 0 <= k < |kvs| ==> HasKey(labels, kvs[k].0)
  }

  /** A list of (player id, value) pairs rewritten under the players' labels,
      `d[label_map[str(id)]] = f(label, value)` pair by pair, so a later pair
      with the same label overwrites an earlier one; `None` when some id has
      no label (the `KeyError`). */
  function Relabel<V, W>(labels: ODict<Id, Alias>, kvs: seq<(Id, V)>, f: (Alias, V) -> W): Option<ODict<Alias, W>>
  {
    if kvs == [] then Some([])
    else
      var (id, v) := kvs[|kvs| - 1];
      match Relabel(labels, kvs[..|kvs| - 1], f)
      case None => None
      case Some(d) => if HasKey(labels, id) then Some(Put(d, Get(labels, id), f(Get(labels, id), v))) else None
  }

  lemma {:induction false} RelabelDefined<V, W>(labels: ODict<Id, Alias>, kvs: seq<(Id, V)>, f: (Alias, V) -> W)
    ensures Relabel(labels, kvs, f).Some? <==> Labelled(labels, kvs)
  {
    if kvs != [] {
      var front := kvs[..|kvs| - 1];
      RelabelDefined(labels, front, f);
      assert forall k :: 0 <= k < |front| ==> front[k] == kvs[k];
    }
  }

  /** Writing to a key that is present keeps the keys as they are. */
  lemma PutSameKeys<K, V>(d: ODict<K, V>, k: K, v: V)
    requires HasKey(d, k)
    ensures Keys(Put(d, k, v)) == Keys(d)
  {
    PutShape(d, k, v);
    assert forall i :: 0 <= i < |d| ==> Keys(Put(d, k, v))[i] == Keys(d)[i];
  }

  /** Two dictionaries with the same keys still have the same keys after
      the same key is written to both. */
  lemma PutKeys<K, V, W>(d: ODict<K, V>, e: ODict<K, W>, k: K, v: V, w: W)
    requires Keys(d) == Keys(e)
    ensures Keys(Put(d, k, v)) == Keys(Put(e, k, w))
  {
    PutShape(d, k, v);
    PutShape(e, k, w);
    assert |d| == |Keys(d)| == |e|;
    forall i | 0 <= i < |d|
      ensures Put(d, k, v)[i].0 == Put(e, k, w)[i].0
    {
      assert Keys(d)[i] == Keys(e)[i];
    }
    assert forall i :: 0 <= i < |Put(d, k, v)| ==> Keys(Put(d, k, v))[i] == Keys(Put(e, k, w))[i];
  }

  /** Whatever is made of the values, the relabelled dictionaries have the
      same keys, and no key twice. */
  lemma {:induction false} RelabelKeys<V, W, X>(labels: ODict<Id, Alias>, kvs: seq<(Id, V)>,
                                               f: (Alias, V) -> W, g: (Alias, V) -> X)
    requires Labelled(labels, kvs)
    ensures Relabel(labels, kvs, f).Some? && Relabel(labels, kvs, g).Some?
    ensures Keys(Relabel(labels, kvs, f).value) == Keys(Relabel(labels, kvs, g).value)
    ensures DistinctKeys(Relabel(labels, kvs, f).value)
  {
    RelabelDefined(labels, kvs, f);
    RelabelDefined(labels, kvs, g);
    if kvs != [] {
      var front := kvs[..|kvs| - 1];
      assert forall k :: 0 <= k < |front| ==> front[k] == kvs[k];
      RelabelKeys(labels, front, f, g);
      var (id, v) := kvs[|kvs| - 1];
      var a := Get(labels, id);
      PutKeys(Relabel(labels, front, f).value, Relabel(labels, front, g).value, a, f(a, v), g(a, v));
      PutKeepsDistinct(Relabel(labels, front, f).value, a, f(a, v));
    }
  }

  /** One pair more writes its value under its label. */
  lemma RelabelSnoc<V, W>(labels: ODict<Id, Alias>, kvs: seq<(Id, V)>, f: (Alias, V) -> W)
    requires kvs != [] && Labelled(labels, kvs)
    ensures Relabel(labels, kvs[..|kvs| - 1], f).Some?
    ensures var a := Get(labels, kvs[|kvs| - 1].0);
      Relabel(labels, kvs, f) == Some(Put(Relabel(labels, kvs[..|kvs| - 1], f).value, a, f(a, kvs[|kvs| - 1].1)))
  {
    var front := kvs[..|kvs| - 1];
    assert forall k :: 0 <= k < |front| ==> front[k] == kvs[k];
    RelabelDefined(labels, front, f);
  }

  /** The labels the pairs carry. */
  function LabelsOf<V>(labels: ODict<Id, Alias>, kvs: seq<(Id, V)>): (r: seq<Alias>)
    requires Labelled(labels, kvs)
    ensures |r| == |kvs| && forall k :: 0 <= k < |kvs| ==> r[k] == Get(labels, kvs[k].0)
  {
    seq(|kvs|, k requires 0 <= k < |kvs| && Labelled(labels, kvs) => Get(labels, kvs[k].0))
  }

  /** A label is present exactly when some pair's id carries it. */
  lemma {:induction false} RelabelHas<V, W>(labels: ODict<Id, Alias>, kvs: seq<(Id, V)>, f: (Alias, V) -> W, a: Alias)
    requires Labelled(labels, kvs)
    ensures Relabel(labels, kvs, f).Some?
    ensures HasKey(Relabel(labels, kvs, f).value, a) <==> a in LabelsOf(labels, kvs)
  {
    RelabelDefined(labels, kvs, f);
    if kvs != [] {
      var n := |kvs| - 1;
      var front := kvs[..n];
      RelabelSnoc(labels, kvs, f);
      RelabelHas(labels, front, f, a);
      var b := Get(labels, kvs[n].0);
      PutThenGet(Relabel(labels, front, f).value, b, f(b, kvs[n].1), a);
      assert LabelsOf(labels, kvs) == LabelsOf(labels, front) + [b];
    }
  }

  /** No pair after the `k`-th carries its label. */
  predicate LastLabelled<V>(labels: ODict<Id, Alias>, kvs: seq<(Id, V)>, k: nat)
    requires Labelled(labels, kvs) && k < |kvs|
  {
    forall j :: k < j < |kvs| ==> Get(labels, kvs[j].0) != Get(labels, kvs[k].0)
  }

  /** A label holds what `f` made of the value of the last pair carrying it. */
  lemma {:induction false} RelabelGet<V, W>(labels: ODict<Id, Alias>, kvs: seq<(Id, V)>, f: (Alias, V) -> W, k: nat)
    requires Labelled(labels, kvs) && k < |kvs| && LastLabelled(labels, kvs, k)
    ensures Relabel(labels, kvs, f).Some?
    ensures HasKey(Relabel(labels, kvs, f).value, Get(labels, kvs[k].0))
    ensures Get(Relabel(labels, kvs, f).value, Get(labels, kvs[k].0)) == f(Get(labels, kvs[k].0), kvs[k].1)
  {
    RelabelDefined(labels, kvs, f);
    var n := |kvs| - 1;
    var front := kvs[..n];
    var a := Get(labels, kvs[k].0);
    var b := Get(labels, kvs[n].0);
    var prev := Relabel(labels, front, f).value;
    assert Relabel(labels, kvs, f) == Some(Put(prev, b, f(b, kvs[n].1))) by {
      RelabelSnoc(labels, kvs, f);
    }
    PutThenGet(prev, b, f(b, kvs[n].1), a);
    if k < n {
      assert HasKey(prev, a) && Get(prev, a) == f(a, kvs[k].1) by {
        assert front[k] == kvs[k];
        assert forall j :: 0 <= j < |front| ==> front[j] == kvs[j];
        assert Labelled(labels, front) && LastLabelled(labels, front, k);
        RelabelGet(labels, front, f, k);
      }
    }
  }

  function TotalField(a: Alias, s: Scores): real { s.total }

  /** The metrics entry written for a label before ranking. */
  function Unranked(a: Alias, s: Scores): PlayerMetrics
  {
    PlayerMetrics(ClassPart(a), a, s.total, s.individual, s.shared, None)
  }

  function ItemCount(a: Alias, items: seq<Item>): nat { |items| }

  /** The metrics entry of a label carries that label, its class part and
      the same total as the score table. */
  lemma {:induction false} RelabelMetrics(labels: ODict<Id, Alias>, es: seq<(Id, Scores)>, a: Alias)
    requires Labelled(labels, es)
    requires Relabel(labels, es, TotalField).Some? && HasKey(Relabel(labels, es, TotalField).value, a)
    ensures Relabel(labels, es, Unranked).Some? && HasKey(Relabel(labels, es, Unranked).value, a)
    ensures var m := Get(Relabel(labels, es, Unranked).value, a);
      m == PlayerMetrics(ClassPart(a), a, Get(Relabel(labels, es, TotalField).value, a), m.individual, m.shared, None)
  {
    RelabelKeys(labels, es, TotalField, Unranked);
    var n := |es| - 1;
    var front := es[..n];
    assert forall j :: 0 <= j < |front| ==> front[j] == es[j];
    RelabelKeys(labels, front, TotalField, Unranked);
    var (id, s) := es[n];
    var b := Get(labels, id);
    var scores := Relabel(labels, front, TotalField).value;
    var metrics := Relabel(labels, front, Unranked).value;
    PutThenGet(scores, b, s.total, a);
    PutThenGet(metrics, b, Unranked(b, s), a);
    if a != b {
      RelabelMetrics(labels, front, a);
    }
  }

  /** The loop over `player_scores`: fills the score table and the metrics
      entry by entry. */
  method TabulateScores(labels: ODict<Id, Alias>, entries: seq<(Id, Scores)>)
    returns (r: Option<(ODict<Alias, real>, ODict<Alias, PlayerMetrics>)>)
    ensures r.None? <==> !Labelled(labels, entries)
    ensures r.Some? ==> Some(r.value.0) == Relabel(labels, entries, TotalField)
    ensures r.Some? ==> Some(r.value.1) == Relabel(labels, entries, Unranked)
  {
    var scores: ODict<Alias, real> := [];
    var metrics: ODict<Alias, PlayerMetrics> := [];
    RelabelDefined(labels, entries, TotalField);
    for i := 0 to |entries|
      invariant Relabel(labels, entries[..i], TotalField) == Some(scores)
      invariant Relabel(labels, entries[..i], Unranked) == Some(metrics)
      invariant Labelled(labels, entries[..i])
    {
      var (id, s) := entries[i];
      if !HasKey(labels, id) {
        return None;
      }
      var alias := Get(labels, id);
      assert Labelled(labels, entries[..i + 1]) && entries[..i + 1][..i] == entries[..i];
      assert Relabel(labels, entries[..i + 1], TotalField) == Some(Put(scores, alias, s.total)) by {
        RelabelSnoc(labels, entries[..i + 1], TotalField);
      }
      assert Relabel(labels, entries[..i + 1], Unranked) == Some(Put(metrics, alias, Unranked(alias, s))) by {
        RelabelSnoc(labels, entries[..i + 1], Unranked);
      }
      scores := Put(scores, alias, s.total);
      metrics := Put(metrics, alias, Unranked(alias, s));
    }
    assert entries[..|entries|] == entries;
    r := Some((scores, metrics));
  }

  /** Every label of `ranks` has a metrics entry. */
  ghost predicate Covers(metrics: ODict<Alias, PlayerMetrics>, ranks: ODict<Alias, real>)
  {
    forall k :: 0 <= k < |ranks| ==> HasKey(metrics, ranks[k].0)
  }

  lemma CoversPrefix(metrics: ODict<Alias, PlayerMetrics>, ranks: ODict<Alias, real>, n: nat)
    requires Covers(metrics, ranks) && n <= |ranks|
    ensures Covers(metrics, ranks[..n])
  {
    assert forall k :: 0 <= k < n ==> ranks[..n][k] == ranks[k];
  }

  /** The loop filling in ranks: `player_metrics[label]['rank'] = rank` for
      each ranked label, in the order of the ranking. */
  function WithRanks(metrics: ODict<Alias, PlayerMetrics>, ranks: ODict<Alias, real>): (r: ODict<Alias, PlayerMetrics>)
    requires Covers(metrics, ranks)
    ensures Keys(r) == Keys(metrics)
  {
    if ranks == [] then metrics
    else
      CoversPrefix(metrics, ranks, |ranks| - 1);
      var front := WithRanks(metrics, ranks[..|ranks| - 1]);
      var (a, rank) := ranks[|ranks| - 1];
      assert HasKey(metrics, ranks[|ranks| - 1].0);
      PutSameKeys(front, a, Get(front, a).(rank := Some(rank)));
      Put(front, a, Get(front, a).(rank := Some(rank)))
  }

  lemma WithRanksSnoc(metrics: ODict<Alias, PlayerMetrics>, ranks: ODict<Alias, real>)
    requires Covers(metrics, ranks)
    requires ranks != []
    ensures Covers(metrics, ranks[..|ranks| - 1])
    ensures var front := WithRanks(metrics, ranks[..|ranks| - 1]); var (a, rank) := ranks[|ranks| - 1];
      HasKey(front, a) && WithRanks(metrics, ranks) == Put(front, a, Get(front, a).(rank := Some(rank)))
  {
    CoversPrefix(metrics, ranks, |ranks| - 1);
    assert HasKey(metrics, ranks[|ranks| - 1].0);
  }

  /** Filling in ranks changes nothing but the rank. */
  lemma {:induction false} WithRanksKeepsFields(metrics: ODict<Alias, PlayerMetrics>, ranks: ODict<Alias, real>, a: Alias)
    requires Covers(metrics, ranks)
    requires HasKey(metrics, a)
    ensures HasKey(WithRanks(metrics, ranks), a)
    ensures Get(WithRanks(metrics, ranks), a).(rank := None) == Get(metrics, a).(rank := None)
  {
    if ranks != [] {
      var front := WithRanks(metrics, ranks[..|ranks| - 1]);
      var (b, rank) := ranks[|ranks| - 1];
      WithRanksSnoc(metrics, ranks);
      WithRanksKeepsFields(metrics, ranks[..|ranks| - 1], a);
      PutThenGet(front, b, Get(front, b).(rank := Some(rank)), a);
    }
  }

  /** The last label ranked receives its rank; any other keeps its entry. */
  lemma WithRanksLast(metrics: ODict<Alias, PlayerMetrics>, ranks: ODict<Alias, real>, a: Alias)
    requires Covers(metrics, ranks)
    requires ranks != [] && HasKey(metrics, a)
    ensures HasKey(WithRanks(metrics, ranks), a)
    ensures a == ranks[|ranks| - 1].0 ==> Get(WithRanks(metrics, ranks), a).rank == Some(ranks[|ranks| - 1].1)
    ensures a != ranks[|ranks| - 1].0 ==> Get(WithRanks(metrics, ranks), a) == Get(WithRanks(metrics, ranks[..|ranks| - 1]), a)
  {
    var front := WithRanks(metrics, ranks[..|ranks| - 1]);
    var (b, rank) := ranks[|ranks| - 1];
    WithRanksSnoc(metrics, ranks);
    PutThenGet(front, b, Get(front, b).(rank := Some(rank)), a);
  }

  /** With each label ranked once, a label's rank is the one the ranking gives it. */
  lemma {:induction false} WithRanksRank(metrics: ODict<Alias, PlayerMetrics>, ranks: ODict<Alias, real>, i: nat)
    requires Covers(metrics, ranks)
    requires DistinctKeys(ranks) && i < |ranks|
    ensures HasKey(WithRanks(metrics, ranks), ranks[i].0)
    ensures Get(WithRanks(metrics, ranks), ranks[i].0).rank == Some(ranks[i].1)
  {
    var a := ranks[i].0;
    WithRanksLast(metrics, ranks, a);
    if i < |ranks| - 1 {
      var prefix := ranks[..|ranks| - 1];
      assert prefix[i] == ranks[i] && a != ranks[|ranks| - 1].0;
      assert DistinctKeys(prefix) by {
        assert forall k :: 0 <= k < |prefix| ==> prefix[k] == ranks[k];
      }
      CoversPrefix(metrics, ranks, |ranks| - 1);
      WithRanksRank(metrics, prefix, i);
    }
  }

  /** The loop filling in ranks. */
  method FillRanks(metrics: ODict<Alias, PlayerMetrics>, ranks: ODict<Alias, real>) returns (r: ODict<Alias, PlayerMetrics>)
    requires Covers(metrics, ranks)
    ensures r == WithRanks(metrics, ranks)
  {
    r := metrics;
    for i := 0 to |ranks|
      invariant r == WithRanks(metrics, ranks[..i])
    {
      var (a, rank) := ranks[i];
      assert ranks[..i + 1][..i] == ranks[..i];
      WithRanksSnoc(metrics, ranks[..i + 1]);
      r := Put(r, a, Get(r, a).(rank := Some(rank)));
    }
    assert ranks[..|ranks|] == ranks;
  }

  /** Every ranked label has a metrics entry to receive its rank. */
  lemma RanksCoverMetrics(scores: ODict<Alias, real>, metrics: ODict<Alias, PlayerMetrics>)
    requires DistinctKeys(scores) && Keys(scores) == Keys(metrics)
    ensures Covers(metrics, RankTable(scores))
  {
    var r := RankTable(scores);
    forall k | 0 <= k < |r|
      ensures HasKey(metrics, r[k].0)
    {
      assert Keys(r)[k] == r[k].0;
      RankTableHas(scores, r[k].0);
    }
  }

  /** `next(...)` over the entries: the individual score of the first entry
      labelled 'Player10', or `None` (the `StopIteration`) when there is none. */
  function FirstPlayer10Individual(labels: ODict<Id, Alias>, es: seq<(Id, Scores)>): Option<real>
    requires Labelled(labels, es)
  {
    if es == [] then None
    else if Get(labels, es[0].0) == Player10 then Some(es[0].1.individual)
    else
      assert forall k :: 0 <= k < |es| - 1 ==> es[1..][k] == es[k + 1];
      FirstPlayer10Individual(labels, es[1..])
  }

  lemma {:induction false} FirstPlayer10Spec(labels: ODict<Id, Alias>, es: seq<(Id, Scores)>)
    requires Labelled(labels, es)
    ensures FirstPlayer10Individual(labels, es).Some? <==> Player10 in LabelsOf(labels, es)
    ensures FirstPlayer10Individual(labels, es).Some? ==>
      var k := IndexOf(LabelsOf(labels, es), Player10);
      FirstPlayer10Individual(labels, es).value == es[k].1.individual
  {
    if es != [] {
      var rest := es[1..];
      assert forall k :: 0 <= k < |rest| ==> rest[k] == es[k + 1];
      FirstPlayer10Spec(labels, rest);
      assert LabelsOf(labels, es) == [Get(labels, es[0].0)] + LabelsOf(labels, rest);
    }
  }

  /** What the engine hands back after a run: the players in seat order,
      the conversation, each player's scores, the score breakdown and each
      player's contributed items. */
  datatype EngineOutput = EngineOutput(seats: seq<Seat>, history: History, entries: seq<(Id, Scores)>,
                                       breakdown: ODict<string, real>, contributions: ODict<Id, seq<Item>>)

  /** `ManualConfig`: the run's knobs as the dashboard shows them. */
  datatype ManualConfig = ManualConfig(altruism: real, seed: int, players: ODict<string, nat>,
                                       subjects: nat, memorySize: nat, conversationLength: nat)

  /** `ManualResult`. */
  datatype ManualResult = ManualResult(
    config: ManualConfig,
    totalScore: real,
    bestTotal: real,
    playerScores: ODict<Alias, real>,
    contributions: ODict<Alias, nat>,
    conversationLength: nat,
    earlyTermination: bool,
    pauseCount: nat,
    uniqueItems: nat,
    breakdown: ODict<string, real>,
    metrics: ODict<Alias, PlayerMetrics>,
    p10Total: real,
    p10Individual: real,
    p10Rank: real,
    gap: real,
    p10Instances: nat)

  /** The totals of a score table, in order. */
  function TotalsIn(d: ODict<Alias, real>): (r: seq<real>)
    ensures |r| == |d| && forall k :: 0 <= k < |d| ==> r[k] == d[k].1
  {
    seq(|d|, k requires 0 <= k < |d| => d[k].1)
  }

  /** `_build_manual_result` on the engine's output: `Raises` on a score
      entry or contributor without a label, no 'Player10' score, no 'total'
      in the breakdown. */
  function ManualResultOf(out: EngineOutput, seed: int, altruism: real, subjects: nat, memorySize: nat,
                          conversationLength: nat): Outcome<ManualResult>
  {
    var labels := LabelMap(out.seats);
    match Relabel(labels, out.entries, TotalField)
    case None => Raises
    case Some(scores) =>
      RelabelDefined(labels, out.entries, TotalField);
      RelabelKeys(labels, out.entries, TotalField, Unranked);
      var unranked := Relabel(labels, out.entries, Unranked).value;
      RanksCoverMetrics(scores, unranked);
      RankTableHas(scores, Player10);
      ResultAfterRanking(out, seed, altruism, subjects, memorySize, conversationLength,
                         labels, scores, RankTable(scores), WithRanks(unranked, RankTable(scores)))
  }

  /** The rest of `_build_manual_result` once the scores are ranked: the
      lookups of 'Player10', of the contributors' labels and of 'total'. */
  function ResultAfterRanking(out: EngineOutput, seed: int, altruism: real, subjects: nat, memorySize: nat,
                              conversationLength: nat, labels: ODict<Id, Alias>, scores: ODict<Alias, real>,
                              ranks: ODict<Alias, real>, metrics: ODict<Alias, PlayerMetrics>): Outcome<ManualResult>
    requires Labelled(labels, out.entries)
    requires HasKey(scores, Player10) ==> HasKey(ranks, Player10)
  {
    if !HasKey(scores, Player10) then Raises
    else
      match Relabel(labels, out.contributions, ItemCount)
      case None => Raises
      case Some(contributions) =>
        if !HasKey(out.breakdown, "total") then Raises
        else
          match FirstPlayer10Individual(labels, out.entries)
          case None => Raises
          case Some(individual) =>
            Returns(Assemble(out, seed, altruism, subjects, memorySize, conversationLength,
                             scores, contributions, metrics, ranks, individual))
  }

  /** The `ManualResult` built from a run's tables once every lookup has
      succeeded. */
  function Assemble(out: EngineOutput, seed: int, altruism: real, subjects: nat, memorySize: nat,
                    conversationLength: nat, scores: ODict<Alias, real>, contributions: ODict<Alias, nat>,
                    metrics: ODict<Alias, PlayerMetrics>, ranks: ODict<Alias, real>, individual: real): ManualResult
    requires HasKey(scores, Player10) && HasKey(ranks, Player10) && HasKey(out.breakdown, "total")
  {
    var p10 := Get(scores, Player10);
    var best := MaxOf(TotalsIn(scores));
    var h := out.history;
    ManualResult(
      ManualConfig(altruism, seed, Tally(ClassesOf(out.seats)), subjects, memorySize, conversationLength),
      Get(out.breakdown, "total"), best, scores, contributions,
      |h|, |h| < conversationLength, PauseCount(h), |IdsOf(h)|,
      out.breakdown, metrics, p10, individual, Get(ranks, Player10), best - p10, 1)
  }

  /** `_build_manual_result`: the loops over the seats, the score entries
      and the ranking, then the lookups that may raise. */
  method BuildManualResult(out: EngineOutput, seed: int, altruism: real, subjects: nat, memorySize: nat,
                           conversationLength: nat) returns (r: Outcome<ManualResult>)
    ensures r == ManualResultOf(out, seed, altruism, subjects, memorySize, conversationLength)
  {
    var labels := BuildLabelMap(out.seats);
    var tables := TabulateScores(labels, out.entries);
    RelabelDefined(labels, out.entries, TotalField);
    if tables.None? {
      return Raises;
    }
    var (scores, unranked) := tables.value;
    RelabelKeys(labels, out.entries, TotalField, Unranked);
    var ranks := RankPlayers(scores);
    RanksCoverMetrics(scores, unranked);
    var metrics := FillRanks(unranked, ranks);
    RankTableHas(scores, Player10);
    r := FinishResult(out, seed, altruism, subjects, memorySize, conversationLength, labels, scores, ranks, metrics);
  }

  /** The lookups after the ranking. */
  method FinishResult(out: EngineOutput, seed: int, altruism: real, subjects: nat, memorySize: nat,
                      conversationLength: nat, labels: ODict<Id, Alias>, scores: ODict<Alias, real>,
                      ranks: ODict<Alias, real>, metrics: ODict<Alias, PlayerMetrics>) returns (r: Outcome<ManualResult>)
    requires Labelled(labels, out.entries)
    requires HasKey(scores, Player10) ==> HasKey(ranks, Player10)
    ensures r == ResultAfterRanking(out, seed, altruism, subjects, memorySize, conversationLength,
                                    labels, scores, ranks, metrics)
  {
    if !HasKey(scores, Player10) {
      return Raises;
    }
    var contributions := Relabel(labels, out.contributions, ItemCount);
    if contributions.None? || !HasKey(out.breakdown, "total") {
      return Raises;
    }
    var individual := FirstPlayer10Individual(labels, out.entries);
    if individual.None? {
      return Raises;
    }
    r := Returns(Assemble(out, seed, altruism, subjects, memorySize, conversationLength,
                          scores, contributions.value, metrics, ranks, individual.value));
  }

  /** A run yields a result exactly when every score entry and every
      contributor has a label, some entry is labelled 'Player10' and the
      breakdown has a 'total'; otherwise a `KeyError` or `StopIteration`
      escapes. */
  lemma ManualResultReturns(out: EngineOutput, seed: int, altruism: real, subjects: nat, memorySize: nat,
                            conversationLength: nat)
    ensures var labels := LabelMap(out.seats);
      ManualResultOf(out, seed, altruism, subjects, memorySize, conversationLength).Returns? <==>
        Labelled(labels, out.entries) && Labelled(labels, out.contributions) &&
        Player10 in LabelsOf(labels, out.entries) && HasKey(out.breakdown, "total")
  {
    var labels := LabelMap(out.seats);
    RelabelDefined(labels, out.entries, TotalField);
    RelabelDefined(labels, out.contributions, ItemCount);
    if Labelled(labels, out.entries) {
      RelabelHas(labels, out.entries, TotalField, Player10);
      FirstPlayer10Spec(labels, out.entries);
    }
  }

  /** The headline numbers of a result: the best total bounds every total
      and is one of them, the gap to it is never negative, Player10's rank is
      its competition rank, between 1 and the number of labels, and it is 1
      exactly when the gap is 0. */
  lemma ManualResultFields(out: EngineOutput, seed: int, altruism: real, subjects: nat, memorySize: nat,
                           conversationLength: nat)
    requires ManualResultOf(out, seed, altruism, subjects, memorySize, conversationLength).Returns?
    ensures var res := ManualResultOf(out, seed, altruism, subjects, memorySize, conversationLength).value;
      var scores := res.playerScores;
      Relabel(LabelMap(out.seats), out.entries, TotalField) == Some(scores) &&
      HasKey(scores, Player10) && res.p10Total == Get(scores, Player10) &&
      (forall k :: 0 <= k < |scores| ==> scores[k].1 <= res.bestTotal) &&
      (exists k :: 0 <= k < |scores| && scores[k].1 == res.bestTotal) &&
      res.gap == res.bestTotal - res.p10Total && res.gap >= 0.0 &&
      res.p10Rank == CompetitionRank(scores, res.p10Total) as real &&
      1.0 <= res.p10Rank <= |scores| as real &&
      (res.p10Rank == 1.0 <==> res.gap == 0.0)
  {
    ManualResultShape(out, seed, altruism, subjects, memorySize, conversationLength);
    var scores := Relabel(LabelMap(out.seats), out.entries, TotalField).value;
    var res := ManualResultOf(out, seed, altruism, subjects, memorySize, conversationLength).value;
    assert res.bestTotal in TotalsIn(scores);
    var i := HasKeyIndex(scores, Player10);
    GetUnique(scores, i);
    RankOf(scores, Player10);
    RankBounds(scores, Player10);
    RankOneIffBest(scores, Player10);
  }

  /** A result is assembled from the labelled score table and its ranking. */
  lemma ManualResultShape(out: EngineOutput, seed: int, altruism: real, subjects: nat, memorySize: nat,
                          conversationLength: nat)
    requires ManualResultOf(out, seed, altruism, subjects, memorySize, conversationLength).Returns?
    ensures Relabel(LabelMap(out.seats), out.entries, TotalField).Some?
    ensures var scores := Relabel(LabelMap(out.seats), out.entries, TotalField).value;
      var res := ManualResultOf(out, seed, altruism, subjects, memorySize, conversationLength).value;
      DistinctKeys(scores) && HasKey(scores, Player10) && HasKey(RankTable(scores), Player10) &&
      HasKey(out.breakdown, "total") &&
      res == Assemble(out, seed, altruism, subjects, memorySize, conversationLength,
                      scores, res.contributions, res.metrics, RankTable(scores), res.p10Individual)
  {
    var labels := LabelMap(out.seats);
    RelabelDefined(labels, out.entries, TotalField);
    RelabelKeys(labels, out.entries, TotalField, Unranked);
    RankTableHas(Relabel(labels, out.entries, TotalField).value, Player10);
  }

  /** What a result says about the conversation itself. */
  lemma ManualResultHistory(out: EngineOutput, seed: int, altruism: real, subjects: nat, memorySize: nat,
                            conversationLength: nat)
    requires ManualResultOf(out, seed, altruism, subjects, memorySize, conversationLength).Returns?
    ensures var res := ManualResultOf(out, seed, altruism, subjects, memorySize, conversationLength).value;
      var h := out.history;
      res.conversationLength == |h| &&
      (res.earlyTermination <==> |h| < conversationLength) &&
      res.pauseCount + |ItemsOf(h)| == |h| &&
      res.uniqueItems <= |h| - res.pauseCount &&
      res.totalScore == Get(out.breakdown, "total") &&
      res.p10Instances == 1 &&
      res.config.altruism == altruism && res.config.seed == seed
  {
    var res := ManualResultOf(out, seed, altruism, subjects, memorySize, conversationLength).value;
    UniqueItemsBound(out.history);
  }

  /** The ids said in a conversation: those said after its first turn,
      and the first turn's id when it is not a pause. */
  lemma IdsOfCons(h: History)
    requires h != []
    ensures IdsOf(h) == IdsOf(h[1..]) + (if h[0].Said? then {h[0].item.id} else {})
  {
    var rest := h[1..];
    forall id | id in IdsOf(h)
      ensures id in IdsOf(rest) + (if h[0].Said? then {h[0].item.id} else {})
    {
      var k :| 0 <= k < |h| && h[k].Said? && h[k].item.id == id;
      if k > 0 {
        assert rest[k - 1] == h[k];
      }
    }
    forall id | id in IdsOf(rest)
      ensures id in IdsOf(h)
    {
      var k :| 0 <= k < |rest| && rest[k].Said? && rest[k].item.id == id;
      assert h[k + 1] == rest[k];
    }
  }

  /** Distinct item ids never outnumber the items said. */
  lemma {:induction false} UniqueItemsBound(h: History)
    ensures |IdsOf(h)| <= |ItemsOf(h)|
  {
    if h != [] {
      UniqueItemsBound(h[1..]);
      IdsOfCons(h);
    }
  }

  /** The metrics entry of every scored label: its class part, its label,
      its total, and the competition rank of that total. */
  lemma ManualResultMetrics(out: EngineOutput, seed: int, altruism: real, subjects: nat, memorySize: nat,
                            conversationLength: nat, a: Alias)
    requires ManualResultOf(out, seed, altruism, subjects, memorySize, conversationLength).Returns?
    ensures var res := ManualResultOf(out, seed, altruism, subjects, memorySize, conversationLength).value;
      Keys(res.metrics) == Keys(res.playerScores) &&
      (HasKey(res.playerScores, a) ==>
        var m := Get(res.metrics, a);
        var total := Get(res.playerScores, a);
        m == PlayerMetrics(ClassPart(a), a, total, m.individual, m.shared, Some(CompetitionRank(res.playerScores, total) as real)))
  {
    var labels := LabelMap(out.seats);
    RelabelDefined(labels, out.entries, TotalField);
    RelabelKeys(labels, out.entries, TotalField, Unranked);
    var scores := Relabel(labels, out.entries, TotalField).value;
    var unranked := Relabel(labels, out.entries, Unranked).value;
    var ranks := RankTable(scores);
    RanksCoverMetrics(scores, unranked);
    var res := ManualResultOf(out, seed, altruism, subjects, memorySize, conversationLength).value;
    assert res.playerScores == scores && res.metrics == WithRanks(unranked, ranks);
    if HasKey(scores, a) {
      RelabelMetrics(labels, out.entries, a);
      RankOf(scores, a);
      RankTableKeys(scores);
      var i := HasKeyIndex(ranks, a);
      GetUnique(ranks, i);
      WithRanksRank(unranked, ranks, i);
      WithRanksKeepsFields(unranked, ranks, a);
    }
  }
}
