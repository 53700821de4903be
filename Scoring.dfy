/** Player 10's canonical delta scorer and its EWMA performance tracker
    (players/player_10/scoring.py with the constants of players/player_10/config.py). */
module Scoring {
  import opened Common

  const EwmaAlpha: real := 0.10
  const MinSamplesPid: nat := 3
  const ImportanceWeight: real := 1.0
  const CoherenceWeight: real := 1.0
  const FreshnessWeight: real := 1.0
  const MonotonyWeight: real := 1.0
  const FreshnessWindow: nat := 5
  const CoherenceWindow: nat := 3
  const MonotonyWindow: nat := 3

  // ---------------------------------------------------------------------
  // EWMA tracker
  // ---------------------------------------------------------------------

  /** One exponential smoothing step towards `delta`. */
  function Smooth(mu: real, delta: real): (r: real)
    ensures mu <= delta ==> mu <= r <= delta
    ensures delta <= mu ==> delta <= r <= mu
  {
    mu + EwmaAlpha * (delta - mu)
  }

  /** The tracker's fields: the global mean and count, and per-player means and counts. */
  datatype TrackerState = TrackerState(
    muGlobal: real,
    countGlobal: nat,
    muByPid: map<Id, real>,
    countByPid: map<Id, nat>)

  const Initial := TrackerState(0.0, 0, map[], map[])

  /** Both per-player dictionaries hold the same players, each seen at least once. */
  ghost predicate Valid(s: TrackerState)
  {
    && s.muByPid.Keys == s.countByPid.Keys
    && (forall p :: p in s.countByPid ==> s.countByPid[p] >= 1)
  }

  /** `update(player_id, delta)`. */
  function Step(s: TrackerState, pid: Id, delta: real): (r: TrackerState)
    requires Valid(s)
    ensures Valid(r)
    ensures r.countGlobal == s.countGlobal + 1
    ensures r.muByPid.Keys == s.muByPid.Keys + {pid}
  {
    var g := if s.countGlobal == 0 then delta else Smooth(s.muGlobal, delta);
    if pid !in s.muByPid then
      TrackerState(g, s.countGlobal + 1, s.muByPid[pid := delta], s.countByPid[pid := 1])
    else
      TrackerState(g, s.countGlobal + 1,
        s.muByPid[pid := Smooth(s.muByPid[pid], delta)],
        s.countByPid[pid := s.countByPid[pid] + 1])
  }

  /** `get_trusted_mean(player_id)`: the player's own mean once it has
      MinSamplesPid samples, the global mean otherwise. */
  function TrustedMean(s: TrackerState, pid: Id): (m: real)
    ensures pid in s.countByPid && s.countByPid[pid] >= MinSamplesPid && pid in s.muByPid
            ==> m == s.muByPid[pid]
    ensures !(pid in s.countByPid && s.countByPid[pid] >= MinSamplesPid) ==> m == s.muGlobal
  {
    if (if pid in s.countByPid then s.countByPid[pid] else 0) >= MinSamplesPid then
      (if pid in s.muByPid then s.muByPid[pid] else s.muGlobal)
    else s.muGlobal
  }

  lemma StepGlobalMean(s: TrackerState, pid: Id, delta: real)
    requires Valid(s)
    ensures s.countGlobal == 0 ==> Step(s, pid, delta).muGlobal == delta
    ensures s.countGlobal > 0 ==> Step(s, pid, delta).muGlobal == s.muGlobal + EwmaAlpha * (delta - s.muGlobal)
  {
  }

  /** A first sample of a player sets its mean to the sample and its count to 1;
      a later one smooths that player's mean and bumps its count; every other
      player's entries are left alone. */
  lemma StepPerPlayer(s: TrackerState, pid: Id, delta: real, q: Id)
    requires Valid(s)
    ensures pid !in s.muByPid ==>
      Step(s, pid, delta).muByPid[pid] == delta && Step(s, pid, delta).countByPid[pid] == 1
    ensures pid in s.muByPid ==>
      && Step(s, pid, delta).muByPid[pid] == Smooth(s.muByPid[pid], delta)
      && Step(s, pid, delta).countByPid[pid] == s.countByPid[pid] + 1
    ensures q != pid ==>
      && (q in Step(s, pid, delta).muByPid <==> q in s.muByPid)
      && (q in s.muByPid ==> Step(s, pid, delta).muByPid[q] == s.muByPid[q])
      && (q in s.countByPid ==> Step(s, pid, delta).countByPid[q] == s.countByPid[q])
  {
  }

  /** The tracker after a sequence of (player, delta) updates from a fresh start. */
  function Replay(us: seq<(Id, real)>): (r: TrackerState)
    ensures Valid(r)
  {
    if us == [] then Initial
    else Step(Replay(us[..|us| - 1]), us[|us| - 1].0, us[|us| - 1].1)
  }

  function PidsOf(us: seq<(Id, real)>): (r: seq<Id>)
    ensures |r| == |us|
    ensures forall k :: 0 <= k < |us| ==> r[k] == us[k].0
  {
    if us == [] then [] else PidsOf(us[..|us| - 1]) + [us[|us| - 1].0]
  }

  /** Replayed counts are exact: the global count is the number of updates and
      each player's count is the number of its updates. */
  lemma {:induction false} ReplayCounts(us: seq<(Id, real)>, p: Id)
    ensures Replay(us).countGlobal == |us|
    ensures p in Replay(us).countByPid <==> p in PidsOf(us)
    ensures p in Replay(us).countByPid ==> Replay(us).countByPid[p] == Multiplicity(PidsOf(us), p)
  {
    if us != [] {
      var front := us[..|us| - 1];
      ReplayCounts(front, p);
      MultiplicityZero(PidsOf(front), p);
      assert PidsOf(us) == PidsOf(front) + [us[|us| - 1].0];
      MultiplicityAppend(PidsOf(front), [us[|us| - 1].0], p);
      assert Multiplicity([us[|us| - 1].0], p) == if us[|us| - 1].0 == p then 1 else 0 by {
        assert [us[|us| - 1].0][1..] == [];
      }
    }
  }

  /** Every mean the tracker holds is a convex combination of the samples it saw,
      so it stays within their bounds. */
  lemma {:induction false} ReplayMeansBounded(us: seq<(Id, real)>, lo: real, hi: real)
    requires forall k :: 0 <= k < |us| ==> lo <= us[k].1 <= hi
    ensures us != [] ==> lo <= Replay(us).muGlobal <= hi
    ensures forall p :: p in Replay(us).muByPid ==> lo <= Replay(us).muByPid[p] <= hi
  {
    if us != [] {
      var front := us[..|us| - 1];
      ReplayMeansBounded(front, lo, hi);
      ReplayCounts(front, 0);
      var s := Replay(front);
      var (pid, delta) := us[|us| - 1];
      forall p | p in Step(s, pid, delta).muByPid
        ensures lo <= Step(s, pid, delta).muByPid[p] <= hi
      {
        StepPerPlayer(s, pid, delta, p);
      }
    }
  }

  /** After any sequence of updates the trusted mean of `p` is its own mean
      exactly when it has at least MinSamplesPid updates, and an unseen player
      gets the global mean. */
  lemma TrustedMeanAfterReplay(us: seq<(Id, real)>, p: Id)
    ensures Multiplicity(PidsOf(us), p) >= MinSamplesPid ==>
      p in Replay(us).muByPid && TrustedMean(Replay(us), p) == Replay(us).muByPid[p]
    ensures Multiplicity(PidsOf(us), p) < MinSamplesPid ==>
      TrustedMean(Replay(us), p) == Replay(us).muGlobal
  {
    ReplayCounts(us, p);
    MultiplicityZero(PidsOf(us), p);
  }

  /** `PlayerPerformanceTracker`, updated in place. */
  class Tracker {
    var muGlobal: real
    var countGlobal: nat
    var muByPid: map<Id, real>
    var countByPid: map<Id, nat>

    function State(): TrackerState
      reads this
    {
      TrackerState(muGlobal, countGlobal, muByPid, countByPid)
    }

    ghost predicate Inv()
      reads this
    {
      Valid(State())
    }

    constructor()
      ensures State() == Initial && Inv()
    {
      muGlobal := 0.0;
      countGlobal := 0;
      muByPid := map[];
      countByPid := map[];
    }

    method Update(pid: Id, delta: real)
      requires Inv()
      modifies this
      ensures Inv()
      ensures State() == Step(old(State()), pid, delta)
    {
      ghost var after := Step(State(), pid, delta);
      var g := if countGlobal == 0 then delta else Smooth(muGlobal, delta);
      var mu, count;
      if pid !in muByPid {
        mu, count := muByPid[pid := delta], countByPid[pid := 1];
      } else {
        mu, count := muByPid[pid := Smooth(muByPid[pid], delta)], countByPid[pid := countByPid[pid] + 1];
      }
      assert after == TrackerState(g, countGlobal + 1, mu, count);
      muGlobal, countGlobal, muByPid, countByPid := g, countGlobal + 1, mu, count;
    }

    method GetTrustedMean(pid: Id) returns (m: real)
      ensures m == TrustedMean(State(), pid)
    {
      var c := if pid in countByPid then countByPid[pid] else 0;
      if c >= MinSamplesPid {
        m := if pid in muByPid then muByPid[pid] else muGlobal;
      } else {
        m := muGlobal;
      }
    }
  }

  // ---------------------------------------------------------------------
  // Components of the canonical delta
  // ---------------------------------------------------------------------

  function Max0(n: int): (r: nat)
    ensures r >= n
  {
    if n < 0 then 0 else n
  }

  /** Number of entries of `xs` (with repeats) that are not in `seen`. */
  function CountNotIn(xs: seq<Subject>, seen: set<Subject>): (n: nat)
    ensures n <= |xs|
    ensures n == 0 <==> forall k :: 0 <= k < |xs| ==> xs[k] in seen
    ensures n == |xs| <==> forall k :: 0 <= k < |xs| ==> xs[k] !in seen
  {
    if xs == [] then 0
    else (if xs[0] in seen then 0 else 1) + CountNotIn(xs[1..], seen)
  }

  /** `calculate_freshness_score`: after a pause, the number of the item's
      subjects not mentioned in the five slots before that pause. */
  function Freshness(t: nat, x: Item, h: History): (f: real)
    requires t <= |h|
    ensures 0.0 <= f <= |x.subjects| as real
    ensures (t == 0 || h[t - 1].Said?) ==> f == 0.0
    ensures t > 0 && h[t - 1].Pause? ==>
      (f == |x.subjects| as real <==>
        forall k :: 0 <= k < |x.subjects| ==> x.subjects[k] !in SubjectsOf(ItemsOf(h[Max0(t - FreshnessWindow - 1)..t - 1])))
  {
    if t == 0 then 0.0
    else if h[t - 1].Said? then 0.0
    else
      var prior := SubjectsOf(ItemsOf(h[Max0(t - FreshnessWindow - 1)..t - 1]));
      CountNotIn(x.subjects, prior) as real
  }

  /** Items of the slots `h[end-1]`, `h[end-2]`, ... : at most `n`, stopping at a pause. */
  function RunBack(h: History, end: nat, n: nat): (r: seq<Item>)
    requires end <= |h|
    ensures |r| <= n && |r| <= end
    ensures forall k :: 0 <= k < |r| ==> h[end - 1 - k] == Said(r[k])
    ensures |r| < n && |r| < end ==> h[end - 1 - |r|].Pause?
    decreases n
  {
    if n == 0 || end == 0 || h[end - 1].Pause? then []
    else
      var rest := RunBack(h, end - 1, n - 1);
      var r := [h[end - 1].item] + rest;
      assert forall k :: 1 <= k < |r| ==> r[k] == rest[k - 1];
      r
  }

  /** Items of the slots `h[start]`, `h[start+1]`, ... : at most `n`, stopping
      at a pause or at the end of the history. */
  function RunForward(h: History, start: nat, n: nat): (r: seq<Item>)
    ensures |r| <= n
    ensures forall k :: 0 <= k < |r| ==> start + k < |h| && h[start + k] == Said(r[k])
    ensures |r| < n && start + |r| < |h| ==> h[start + |r|].Pause?
    decreases n
  {
    if n == 0 || start >= |h| || h[start].Pause? then []
    else
      var rest := RunForward(h, start + 1, n - 1);
      var r := [h[start].item] + rest;
      assert forall k :: 1 <= k < |r| ==> r[k] == rest[k - 1] && start + k == (start + 1) + (k - 1);
      r
  }

  function CoherenceContext(t: nat, h: History): seq<Item>
    requires t <= |h|
  {
    RunBack(h, t, CoherenceWindow) + RunForward(h, t + 1, CoherenceWindow)
  }

  predicate AllMentioned(subjects: seq<Subject>, ctx: seq<Item>)
  {
    forall k :: 0 <= k < |subjects| ==> Occurrences(ctx, subjects[k]) > 0
  }

  predicate AllTwice(subjects: seq<Subject>, ctx: seq<Item>)
  {
    forall k :: 0 <= k < |subjects| ==> Occurrences(ctx, subjects[k]) >= 2
  }

  /** The coherence rule every scorer of the game applies to a context: -1
      when a subject of the item is missing from it, +1 when every subject
      occurs in it at least twice, 0 otherwise. */
  function CoherenceOf(subjects: seq<Subject>, ctx: seq<Item>): (c: real)
    ensures c == -1.0 || c == 0.0 || c == 1.0
    ensures c == -1.0 <==> !AllMentioned(subjects, ctx)
    ensures c == 1.0 <==> AllTwice(subjects, ctx)
    ensures ctx == [] && subjects != [] ==> c == -1.0
  {
    assert ctx == [] && subjects != [] ==> Occurrences(ctx, subjects[0]) == 0;
    (if AllMentioned(subjects, ctx) then 0.0 else -1.0)
    + (if AllTwice(subjects, ctx) then 1.0 else 0.0)
  }

  /** `calculate_coherence_score`: the rule above over the surrounding runs of
      items, and 0 when there is no context at all. */
  function Coherence(t: nat, x: Item, h: History): (c: real)
    requires t <= |h|
    ensures c == -1.0 || c == 0.0 || c == 1.0
    ensures CoherenceContext(t, h) == [] ==> c == 0.0
    ensures c == -1.0 <==> CoherenceContext(t, h) != [] && !AllMentioned(x.subjects, CoherenceContext(t, h))
    ensures c == 1.0 <==> CoherenceContext(t, h) != [] && AllTwice(x.subjects, CoherenceContext(t, h))
  {
    var ctx := CoherenceContext(t, h);
    if ctx == [] then 0.0 else CoherenceOf(x.subjects, ctx)
  }

  /** The last MonotonyWindow slots before `t` are all items with some subject. */
  predicate LastThreeNonEmpty(t: nat, h: History)
    requires MonotonyWindow <= t <= |h|
  {
    forall j :: t - MonotonyWindow <= j < t ==> h[j].Said? && |h[j].item.subjects| > 0
  }

  /** `calculate_monotony_score` as written: the comprehension's own `item`
      shadows the candidate, so the test is whether each of the last three
      slots has any subject at all; the candidate plays no part. */
  function MonotonyAsWritten(t: nat, x: Item, h: History): (m: real)
    requires t <= |h|
    ensures m == 0.0 || m == 1.0
    ensures m == 1.0 <==> t >= MonotonyWindow && LastThreeNonEmpty(t, h)
  {
    if t < MonotonyWindow then 0.0
    else if LastThreeNonEmpty(t, h) then 1.0
    else 0.0
  }

  predicate SharesSubject(a: Item, b: Item)
  {
    exists k :: 0 <= k < |a.subjects| && a.subjects[k] in b.subjects
  }

  /** The last MonotonyWindow slots before `t` are items sharing a subject with `x`. */
  predicate ContinuesStreak(t: nat, x: Item, h: History)
    requires MonotonyWindow <= t <= |h|
  {
    forall j :: t - MonotonyWindow <= j < t ==> h[j].Said? && SharesSubject(x, h[j].item)
  }

  /** Monotony as the comment above it describes it: 1 when the candidate would
      continue a subject streak through each of the last three slots. */
  function Monotony(t: nat, x: Item, h: History): (m: real)
    requires t <= |h|
    ensures m == 0.0 || m == 1.0
    ensures m == 1.0 <==> t >= MonotonyWindow && ContinuesStreak(t, x, h)
    ensures m <= MonotonyAsWritten(t, x, h)
  {
    if t < MonotonyWindow then 0.0
    else if ContinuesStreak(t, x, h) then 1.0
    else 0.0
  }

  /** The as-written monotony penalises a candidate that shares nothing with
      the three items before it. */
  lemma MonotonyShadowingWitness()
    ensures
      var h := [Said(Item(0, [1], 1.0, 0)), Said(Item(1, [2], 1.0, 0)), Said(Item(2, [3], 1.0, 0))];
      var x := Item(3, [9], 1.0, 0);
      MonotonyAsWritten(3, x, h) == 1.0 && Monotony(3, x, h) == 0.0
  {
    var h := [Said(Item(0, [1], 1.0, 0)), Said(Item(1, [2], 1.0, 0)), Said(Item(2, [3], 1.0, 0))];
    var x := Item(3, [9], 1.0, 0);
    assert !SharesSubject(x, h[0].item);
  }

  /** `is_pause`: `None`, or an item without subjects. */
  predicate IsPause(s: Slot)
  {
    s.Pause? || |s.item.subjects| == 0
  }

  /** `is_repeated`: some non-pause slot of the history carries the item's id. */
  function IsRepeated(x: Item, h: History): (r: bool)
    ensures r <==> exists k :: 0 <= k < |h| && !IsPause(h[k]) && h[k].item.id == x.id
  {
    if h == [] then false
    else if !IsPause(h[0]) && h[0].item.id == x.id then true
    else
      var r := IsRepeated(x, h[1..]);
      assert forall k :: 1 <= k < |h| ==> h[k] == h[1..][k - 1];
      r
  }

  /** `calculate_canonical_delta` as written: a repeated item's monotony is
      set to -MonotonyWeight and then subtracted, so repetition adds to the delta. */
  function CanonicalDeltaAsWritten(x: Option<Item>, t: nat, h: History, repeated: bool): (d: real)
    requires t <= |h|
    ensures x.None? ==> d == 0.0
    ensures x.Some? && repeated ==> d == x.value.importance * ImportanceWeight + MonotonyWeight
  {
    match x
    case None => 0.0
    case Some(it) =>
      var importance := it.importance * ImportanceWeight;
      var coherence := if repeated then 0.0 else Coherence(t, it, h) * CoherenceWeight;
      var freshness := if repeated then 0.0 else Freshness(t, it, h) * FreshnessWeight;
      var monotony := if repeated then -1.0 * MonotonyWeight else MonotonyAsWritten(t, it, h) * MonotonyWeight;
      importance + coherence + freshness - monotony
  }

  /** The canonical delta with the repetition penalty and the monotony test as
      intended: importance + coherence + freshness - monotony, where a repeated
      item keeps only its importance and pays the full monotony penalty. */
  function CanonicalDelta(x: Option<Item>, t: nat, h: History, repeated: bool): (d: real)
    requires t <= |h|
    ensures x.None? ==> d == 0.0
    ensures x.Some? && repeated ==> d == x.value.importance * ImportanceWeight - MonotonyWeight
    ensures x.Some? && !repeated ==>
      x.value.importance * ImportanceWeight - 2.0 <= d <= x.value.importance * ImportanceWeight + 1.0 + |x.value.subjects| as real
  {
    match x
    case None => 0.0
    case Some(it) =>
      var importance := it.importance * ImportanceWeight;
      if repeated then importance - MonotonyWeight
      else
        importance + Coherence(t, it, h) * CoherenceWeight + Freshness(t, it, h) * FreshnessWeight
        - Monotony(t, it, h) * MonotonyWeight
  }

  /** With the intended sign a repeated item scores below its importance; as
      written it scores above it, by twice the monotony weight over the intended value. */
  lemma RepeatedDeltaSign(it: Item, t: nat, h: History)
    requires t <= |h|
    ensures CanonicalDelta(Some(it), t, h, true) < it.importance
    ensures CanonicalDeltaAsWritten(Some(it), t, h, true) > it.importance
    ensures CanonicalDeltaAsWritten(Some(it), t, h, true) == CanonicalDelta(Some(it), t, h, true) + 2.0 * MonotonyWeight
  {
  }

  /** For a candidate that is not repeated, the two deltas differ only where
      the shadowed monotony test fires without a real streak. */
  lemma DeltaAgreesWithoutStreak(it: Item, t: nat, h: History)
    requires t <= |h|
    requires MonotonyAsWritten(t, it, h) == Monotony(t, it, h)
    ensures CanonicalDeltaAsWritten(Some(it), t, h, false) == CanonicalDelta(Some(it), t, h, false)
  {
  }
}
