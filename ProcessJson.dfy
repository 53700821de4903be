/** The Player2 result summariser (players/player_2/process_json.py): from one
    simulation's output it maps speaker ids to names, finds Player2's id, takes
    Player2's scores and every player's total, and writes Player2's scores and
    the ranking of all players as one CSV line. */
module ProcessJson {
  import opened Common
  import opened Sorting
  import FlexibleRunner

  /** One entry of `turn_impact`; either key may be absent (or null). */
  datatype Turn = Turn(speakerId: Option<string>, speakerName: Option<string>)

  datatype Scores = Scores(total: real, shared: real, individual: real)

  /** One entry of `player_scores`; the id may be null. */
  datatype ScoreEntry = ScoreEntry(id: Option<string>, scores: Scores)

  /** The length of `range(min(n, len))`: nothing when `n` is negative. */
  function Bound(n: int, len: nat): (k: nat)
    ensures k <= len
  {
    if n <= 0 then 0 else if n < len then n else len
  }

  // ---------------------------------------------------------------------
  // The speaker-name map

  /** Turn `k` names speaker `id`: its id is `id` and its name is non-empty. */
  predicate Names(turns: seq<Turn>, k: int, id: string)
  {
    && 0 <= k < |turns|
    && turns[k].speakerId == Some(id)
    && turns[k].speakerName.Some?
    && turns[k].speakerName.value != ""
  }

  /** The map the first loop builds: `id_to_name[pid] = pname` for every turn
      with an id and a non-empty name, a later turn overwriting. */
  function NameMap(turns: seq<Turn>): ODict<string, string>
  {
    if turns == [] then []
    else
      var d := NameMap(turns[..|turns| - 1]);
      var t := turns[|turns| - 1];
      if t.speakerId.Some? && t.speakerName.Some? && t.speakerName.value != "" then
        Put(d, t.speakerId.value, t.speakerName.value)
      else d
  }

  method BuildNameMap(turns: seq<Turn>, length: int) returns (idToName: ODict<string, string>)
    ensures idToName == NameMap(turns[..Bound(length, |turns|)])
  {
    idToName := [];
    var n := Bound(length, |turns|);
    var i := 0;
    while i < n
      invariant 0 <= i <= n
      invariant idToName == NameMap(turns[..i])
    {
      var pid := turns[i].speakerId;
      var pname := turns[i].speakerName;
      if pid.Some? && pname.Some? && pname.value != "" {
        idToName := Put(idToName, pid.value, pname.value);
      }
      assert turns[..i + 1][..i] == turns[..i];
      i := i + 1;
    }
  }

  /** An id is in the map exactly when some turn names it, and it maps to the
      name given by the last such turn. */
  lemma {:induction false} NameMapSpec(turns: seq<Turn>, id: string)
    ensures HasKey(NameMap(turns), id) <==> exists k :: Names(turns, k, id)
    ensures forall k :: Names(turns, k, id) && (forall m :: k < m < |turns| ==> !Names(turns, m, id)) ==>
      HasKey(NameMap(turns), id) && Get(NameMap(turns), id) == turns[k].speakerName.value
  {
    if turns != [] {
      var front := turns[..|turns| - 1];
      var t := turns[|turns| - 1];
      var d := NameMap(front);
      NameMapSpec(front, id);
      assert forall k :: 0 <= k < |front| ==> (Names(front, k, id) <==> Names(turns, k, id));
      if t.speakerId.Some? && t.speakerName.Some? && t.speakerName.value != "" {
        PutThenGet(d, t.speakerId.value, t.speakerName.value, id);
        if t.speakerId.value != id {
          assert !Names(turns, |turns| - 1, id);
        } else {
          assert Names(turns, |turns| - 1, id);
        }
      } else {
        assert !Names(turns, |turns| - 1, id);
      }
    }
  }

  lemma {:induction false} NameMapDistinct(turns: seq<Turn>)
    ensures DistinctKeys(NameMap(turns))
  {
    if turns != [] {
      var front := turns[..|turns| - 1];
      var t := turns[|turns| - 1];
      NameMapDistinct(front);
      if t.speakerId.Some? && t.speakerName.Some? && t.speakerName.value != "" {
        PutKeepsDistinct(NameMap(front), t.speakerId.value, t.speakerName.value);
      }
    }
  }

  // ---------------------------------------------------------------------
  // Player2's id

  predicate SpokenByPlayer2(t: Turn)
  {
    t.speakerName == Some("Player2")
  }

  /** The id the second loop ends with: that of the last turn spoken by
      "Player2" (which may itself be missing), or None. */
  function Player2Id(turns: seq<Turn>): Option<string>
  {
    if turns == [] then None
    else if SpokenByPlayer2(turns[|turns| - 1]) then turns[|turns| - 1].speakerId
    else Player2Id(turns[..|turns| - 1])
  }

  method FindPlayer2(turns: seq<Turn>, length: int) returns (playerId: Option<string>)
    ensures playerId == Player2Id(turns[..Bound(length, |turns|)])
  {
    playerId := None;
    var n := Bound(length, |turns|);
    var i := 0;
    while i < n
      invariant 0 <= i <= n
      invariant playerId == Player2Id(turns[..i])
    {
      if turns[i].speakerName == Some("Player2") {
        playerId := turns[i].speakerId;
      }
      assert turns[..i + 1][..i] == turns[..i];
      i := i + 1;
    }
  }

  /** The last Player2 turn decides the id. */
  lemma {:induction false} Player2IdAt(turns: seq<Turn>, k: nat)
    requires k < |turns| && SpokenByPlayer2(turns[k])
    requires forall m :: k < m < |turns| ==> !SpokenByPlayer2(turns[m])
    ensures Player2Id(turns) == turns[k].speakerId
  {
    if k < |turns| - 1 {
      Player2IdAt(turns[..|turns| - 1], k);
    }
  }

  /** Without a Player2 turn there is no id; an id found comes from a Player2 turn. */
  lemma {:induction false} Player2IdSource(turns: seq<Turn>)
    ensures (forall k :: 0 <= k < |turns| ==> !SpokenByPlayer2(turns[k])) ==> Player2Id(turns) == None
    ensures Player2Id(turns).Some? ==>
      exists k :: 0 <= k < |turns| && SpokenByPlayer2(turns[k]) && turns[k].speakerId == Player2Id(turns)
  {
    if turns != [] && !SpokenByPlayer2(turns[|turns| - 1]) {
      var front := turns[..|turns| - 1];
      Player2IdSource(front);
      if Player2Id(turns).Some? {
        var k :| 0 <= k < |front| && SpokenByPlayer2(front[k]) && front[k].speakerId == Player2Id(front);
        assert turns[k] == front[k];
      }
    }
  }

  // ---------------------------------------------------------------------
  // Totals and Player2's scores

  /** The scores the third loop ends with: those of the last entry carrying
      Player2's id, when that id is known. */
  function OurScores(entries: seq<ScoreEntry>, playerId: Option<string>): Option<Scores>
  {
    if entries == [] then None
    else if playerId.Some? && entries[|entries| - 1].id == playerId then Some(entries[|entries| - 1].scores)
    else OurScores(entries[..|entries| - 1], playerId)
  }

  method CollectTotals(entries: seq<ScoreEntry>, players: int, playerId: Option<string>)
    returns (totals: seq<real>, ours: Option<Scores>)
    ensures |totals| == Bound(players, |entries|)
    ensures forall k :: 0 <= k < |totals| ==> totals[k] == entries[k].scores.total
    ensures ours == OurScores(entries[..Bound(players, |entries|)], playerId)
  {
    totals := [];
    ours := None;
    var n := Bound(players, |entries|);
    var p := 0;
    while p < n
      invariant 0 <= p <= n
      invariant |totals| == p
      invariant forall k :: 0 <= k < p ==> totals[k] == entries[k].scores.total
      invariant ours == OurScores(entries[..p], playerId)
    {
      var entry := entries[p];
      totals := totals + [entry.scores.total];
      if playerId.Some? && entry.id == playerId {
        ours := Some(entry.scores);
      }
      assert entries[..p + 1][..p] == entries[..p];
      p := p + 1;
    }
  }

  /** No scores exactly when the id is unknown or no entry carries it. */
  lemma {:induction false} OurScoresNone(entries: seq<ScoreEntry>, playerId: Option<string>)
    ensures OurScores(entries, playerId) == None <==>
      playerId == None || forall k :: 0 <= k < |entries| ==> entries[k].id != playerId
  {
    if entries != [] {
      var front := entries[..|entries| - 1];
      OurScoresNone(front, playerId);
      assert forall k :: 0 <= k < |front| ==> front[k] == entries[k];
    }
  }

  /** The last entry carrying the id gives the scores. */
  lemma {:induction false} OurScoresAt(entries: seq<ScoreEntry>, playerId: Option<string>, k: nat)
    requires playerId.Some? && k < |entries| && entries[k].id == playerId
    requires forall m :: k < m < |entries| ==> entries[m].id != playerId
    ensures OurScores(entries, playerId) == Some(entries[k].scores)
  {
    if k < |entries| - 1 {
      OurScoresAt(entries[..|entries| - 1], playerId, k);
    }
  }

  // ---------------------------------------------------------------------
  // Labels

  /** `str(pid)[-6:]`. */
  function LastSix(s: string): (r: string)
    ensures |r| == if |s| < 6 then |s| else 6
    ensures s[|s| - |r|..] == r
  {
    if |s| <= 6 then s else s[|s| - 6..]
  }

  /** The label of the player at 1-based index `idx`: its speaker name when
      known, otherwise `Unknown-` and the id's last six characters, or the
      index when the id is null or empty. */
  function Label(names: ODict<string, string>, pid: Option<string>, idx: nat): string
  {
    var short := if pid.Some? && pid.value != "" then LastSix(pid.value) else FlexibleRunner.ShowNat(idx);
    if pid.Some? && HasKey(names, pid.value) then Get(names, pid.value) else "Unknown-" + short
  }

  /** `labels[idx]` for idx in 1..n, stored at position idx - 1. */
  method BuildLabels(entries: seq<ScoreEntry>, n: nat, names: ODict<string, string>) returns (labels: seq<string>)
    requires n <= |entries|
    ensures |labels| == n
    ensures forall k :: 0 <= k < n ==> labels[k] == Label(names, entries[k].id, k + 1)
  {
    labels := [];
    var idx := 1;
    while idx <= n
      invariant 1 <= idx <= n + 1
      invariant |labels| == idx - 1
      invariant forall k :: 0 <= k < idx - 1 ==> labels[k] == Label(names, entries[k].id, k + 1)
    {
      var pid := entries[idx - 1].id;
      labels := labels + [Label(names, pid, idx)];
      idx := idx + 1;
    }
  }

  predicate IsUnknown(name: string)
  {
    |name| >= 8 && name[..8] == "Unknown-"
  }

  /** A player whose id some turn named is labelled with the name of the last
      such turn; any other player gets an `Unknown-` label. */
  lemma LabelSpec(turns: seq<Turn>, pid: Option<string>, idx: nat)
    ensures pid.None? || (forall k :: !Names(turns, k, pid.value)) ==>
      IsUnknown(Label(NameMap(turns), pid, idx))
    ensures forall k :: pid.Some? && Names(turns, k, pid.value) && (forall m :: k < m < |turns| ==> !Names(turns, m, pid.value)) ==>
      Label(NameMap(turns), pid, idx) == turns[k].speakerName.value
  {
    if pid.Some? {
      NameMapSpec(turns, pid.value);
    }
  }

  // ---------------------------------------------------------------------
  // The ranking

  /** The sort key `(-total, idx)` as an order: the higher total first, and on
      equal totals the lower index. */
  predicate RankLe(a: (nat, real), b: (nat, real))
  {
    a.1 > b.1 || (a.1 == b.1 && a.0 <= b.0)
  }

  /** `enumerate(all_totals, start=1)`. */
  function Indexed(totals: seq<real>): (r: seq<(nat, real)>)
    ensures |r| == |totals|
  {
    seq(|totals|, k requires 0 <= k < |totals| => (k + 1, totals[k]))
  }

  function Index(p: (nat, real)): nat
  {
    p.0
  }

  /** `sorted_indices`. */
  function RankOrder(totals: seq<real>): (order: seq<nat>)
    ensures |order| == |totals|
  {
    var sorted := SortBy(Indexed(totals), RankLe);
    seq(|sorted|, k requires 0 <= k < |sorted| => sorted[k].0)
  }

  lemma RankLeTotal()
    ensures TotalPreorder(RankLe)
  {
  }

  /** `p` is an index in 1..n paired with its own total. */
  predicate PairOf(totals: seq<real>, p: (nat, real))
  {
    1 <= p.0 <= |totals| && p.1 == totals[p.0 - 1]
  }

  lemma SortedPairs(totals: seq<real>)
    ensures forall k :: 0 <= k < |totals| ==> PairOf(totals, SortBy(Indexed(totals), RankLe)[k])
  {
    var ix := Indexed(totals);
    var sorted := SortBy(ix, RankLe);
    forall k | 0 <= k < |sorted| ensures PairOf(totals, sorted[k]) {
      assert sorted[k] in multiset(sorted);
      assert sorted[k] in ix;
      var j :| 0 <= j < |ix| && ix[j] == sorted[k];
    }
  }

  /** Every index 1..n is ranked. */
  lemma RankOrderCovers(totals: seq<real>, i: nat)
    requires 1 <= i <= |totals|
    ensures i in RankOrder(totals)
  {
    var ix := Indexed(totals);
    var sorted := SortBy(ix, RankLe);
    assert ix[i - 1] in multiset(sorted);
    var k :| 0 <= k < |sorted| && sorted[k] == ix[i - 1];
    assert RankOrder(totals)[k] == i;
  }

  /** The ranking lists every index 1..n once, by total descending, ties in
      increasing index. */
  lemma RankOrderSpec(totals: seq<real>)
    ensures forall k :: 0 <= k < |totals| ==> 1 <= RankOrder(totals)[k] <= |totals|
    ensures forall i :: 1 <= i <= |totals| ==> i in RankOrder(totals)
    ensures forall i, j :: 0 <= i < j < |totals| ==> RankOrder(totals)[i] != RankOrder(totals)[j]
    ensures forall i, j :: 0 <= i < j < |totals| ==>
      var a, b := RankOrder(totals)[i], RankOrder(totals)[j];
      totals[a - 1] > totals[b - 1] || (totals[a - 1] == totals[b - 1] && a < b)
  {
    var ix := Indexed(totals);
    var sorted := SortBy(ix, RankLe);
    var order := RankOrder(totals);
    assert forall k :: 0 <= k < |sorted| ==> order[k] == sorted[k].0;
    SortedPairs(totals);
    forall k | 0 <= k < |totals| ensures 1 <= order[k] <= |totals| {
      assert PairOf(totals, sorted[k]);
    }
    forall i | 1 <= i <= |totals| ensures i in order {
      RankOrderCovers(totals, i);
    }
    assert Injective(sorted, Index) by {
      assert Injective(ix, Index);
      SortByInjective(ix, RankLe, Index);
    }
    assert SortedBy(sorted, RankLe) by {
      RankLeTotal();
      SortBySorted(ix, RankLe);
    }
    forall i, j | 0 <= i < j < |totals|
      ensures totals[order[i] - 1] > totals[order[j] - 1] || (totals[order[i] - 1] == totals[order[j] - 1] && order[i] < order[j])
    {
      assert PairOf(totals, sorted[i]) && PairOf(totals, sorted[j]);
      assert RankLe(sorted[i], sorted[j]);
      assert Index(sorted[i]) != Index(sorted[j]);
    }
  }

  // ---------------------------------------------------------------------
  // Joining and splitting on '>'

  /** `sep.join(parts)`. */
  function Join(parts: seq<string>, sep: char): string
  {
    if parts == [] then ""
    else if |parts| == 1 then parts[0]
    else Join(parts[..|parts| - 1], sep) + [sep] + parts[|parts| - 1]
  }

  /** `s.split(sep)`: the pieces between separators, always at least one. */
  function Split(s: string, sep: char): (r: seq<string>)
    ensures r != []
  {
    if s == [] then [""]
    else
      var r := Split(s[..|s| - 1], sep);
      if s[|s| - 1] == sep then r + [""]
      else r[..|r| - 1] + [r[|r| - 1] + [s[|s| - 1]]]
  }

  /** One more character: a separator opens a new piece, anything else
      extends the last one. */
  lemma SplitSnoc(s: string, c: char, sep: char)
    ensures var r := Split(s, sep);
      Split(s + [c], sep) == if c == sep then r + [""] else r[..|r| - 1] + [r[|r| - 1] + [c]]
  {
    assert (s + [c])[..|s + [c]| - 1] == s;
  }

  /** Text without the separator only extends the last piece. */
  lemma {:induction false} SplitExtend(s: string, t: string, sep: char)
    requires sep !in t
    ensures var r := Split(s, sep); Split(s + t, sep) == r[..|r| - 1] + [r[|r| - 1] + t]
  {
    var r := Split(s, sep);
    if t == [] {
      assert s + t == s;
      assert r[|r| - 1] + t == r[|r| - 1];
      assert r == r[..|r| - 1] + [r[|r| - 1]];
    } else {
      var t' := t[..|t| - 1];
      var c := t[|t| - 1];
      var p, l := r[..|r| - 1], r[|r| - 1];
      var r' := Split(s + t', sep);
      assert r' == p + [l + t'] by {
        assert sep !in t';
        SplitExtend(s, t', sep);
      }
      assert Split(s + t, sep) == r'[..|r'| - 1] + [r'[|r'| - 1] + [c]] by {
        assert c != sep;
        assert s + t == (s + t') + [c];
        SplitSnoc(s + t', c, sep);
      }
      assert r'[..|r'| - 1] == p && r'[|r'| - 1] == l + t';
      assert (l + t') + [c] == l + t;
    }
  }

  /** Parts free of the separator come back from their join: the ranking
      string can be read back into its labels. */
  lemma {:induction false} SplitJoin(parts: seq<string>, sep: char)
    requires parts != []
    requires forall k :: 0 <= k < |parts| ==> sep !in parts[k]
    ensures Split(Join(parts, sep), sep) == parts
  {
    if |parts| == 1 {
      SplitExtend([], parts[0], sep);
      assert [] + parts[0] == parts[0];
    } else {
      var front := parts[..|parts| - 1];
      var last := parts[|parts| - 1];
      var j := Join(front, sep);
      var withSep := j + [sep];
      assert Join(parts, sep) == withSep + last;
      var r := Split(withSep, sep);
      assert r == front + [""] by {
        assert forall k :: 0 <= k < |front| ==> front[k] == parts[k];
        SplitJoin(front, sep);
        SplitSnoc(j, sep, sep);
      }
      assert Split(withSep + last, sep) == r[..|r| - 1] + [r[|r| - 1] + last] by {
        assert sep !in last;
        SplitExtend(withSep, last, sep);
      }
      assert r[..|r| - 1] == front && r[|r| - 1] + last == last;
      assert front + [last] == parts;
    }
  }

  /** `'>'.join(labels[idx] for idx in sorted_indices)`. */
  function RankingString(labels: seq<string>, totals: seq<real>): string
    requires |labels| == |totals|
  {
    var order := RankOrder(totals);
    RankOrderSpec(totals);
    Join(seq(|order|, k requires 0 <= k < |order| => labels[order[k] - 1]), '>')
  }

  // ---------------------------------------------------------------------
  // The output line

  /** A score column of the output: empty, or a value. */
  datatype Field = Empty | Value(x: real)

  /** The CSV line's fields after the five echoed arguments. */
  datatype Report = Report(total: Field, shared: Field, individual: Field, ranking: string)

  function ReportOf(turns: seq<Turn>, entries: seq<ScoreEntry>, length: int, players: int): Report
  {
    var spoken := turns[..Bound(length, |turns|)];
    var counted := entries[..Bound(players, |entries|)];
    var names := NameMap(spoken);
    var ours := OurScores(counted, Player2Id(spoken));
    var labels := seq(|counted|, k requires 0 <= k < |counted| => Label(names, counted[k].id, k + 1));
    var totals := seq(|counted|, k requires 0 <= k < |counted| => counted[k].scores.total);
    var ranking := RankingString(labels, totals);
    match ours
    case None => Report(Empty, Empty, Empty, ranking)
    case Some(s) => Report(Value(s.total), Value(s.shared), Value(s.individual), ranking)
  }

  /** The script's body, loop by loop. */
  method Summarise(turns: seq<Turn>, entries: seq<ScoreEntry>, length: int, players: int) returns (report: Report)
    ensures report == ReportOf(turns, entries, length, players)
  {
    var idToName := BuildNameMap(turns, length);
    var playerId := FindPlayer2(turns, length);
    var totals, ours := CollectTotals(entries, players, playerId);
    var labels := BuildLabels(entries, |totals|, idToName);
    var counted := entries[..|totals|];
    assert totals == seq(|counted|, k requires 0 <= k < |counted| => counted[k].scores.total);
    assert labels == seq(|counted|, k requires 0 <= k < |counted| => Label(idToName, counted[k].id, k + 1));
    var rankings := RankingString(labels, totals);
    if ours.None? {
      report := Report(Empty, Empty, Empty, rankings);
    } else {
      report := Report(Value(ours.value.total), Value(ours.value.shared), Value(ours.value.individual), rankings);
    }
  }

  /** The three score fields are empty exactly when no counted entry carries
      the id of the last Player2 turn (or that turn has no id), and then hold
      that entry's scores; they are always empty when Player2 never spoke. */
  lemma ReportFields(turns: seq<Turn>, entries: seq<ScoreEntry>, length: int, players: int)
    ensures var r := ReportOf(turns, entries, length, players);
      var pid := Player2Id(turns[..Bound(length, |turns|)]);
      (r.total == Empty <==> pid == None || forall k :: 0 <= k < Bound(players, |entries|) ==> entries[k].id != pid)
    ensures var r := ReportOf(turns, entries, length, players);
      (r.total == Empty <==> r.shared == Empty) && (r.total == Empty <==> r.individual == Empty)
    ensures (forall k :: 0 <= k < Bound(length, |turns|) ==> !SpokenByPlayer2(turns[k])) ==>
      ReportOf(turns, entries, length, players).total == Empty
  {
    var spoken := turns[..Bound(length, |turns|)];
    var counted := entries[..Bound(players, |entries|)];
    var pid := Player2Id(spoken);
    var r := ReportOf(turns, entries, length, players);
    assert (r.total == Empty <==> OurScores(counted, pid) == None) &&
      (r.total == Empty <==> r.shared == Empty) && (r.total == Empty <==> r.individual == Empty) by {
      ReportScores(turns, entries, length, players);
    }
    assert forall k :: 0 <= k < Bound(players, |entries|) ==> counted[k] == entries[k];
    OurScoresNone(counted, pid);
    Player2IdSource(spoken);
  }

  /** The three score fields come from the counted entry of the last Player2
      turn's id, and are empty together. */
  lemma ReportScores(turns: seq<Turn>, entries: seq<ScoreEntry>, length: int, players: int)
    ensures var r := ReportOf(turns, entries, length, players);
      var ours := OurScores(entries[..Bound(players, |entries|)], Player2Id(turns[..Bound(length, |turns|)]));
      (r.total == Empty <==> ours == None) && (r.shared == Empty <==> ours == None) && (r.individual == Empty <==> ours == None)
  {
  }
}
