/** Relationship ("coop") engine (js/coop.js): a point total per relationship,
    its rank on a fixed ten-level table, and a newest-first interaction log of at
    most 100 entries. */
module Coop {
  import opened Wrappers
  import opened Ranks
  import Seqs
  import Text

  /** An interaction kind and the points it is worth. */
  datatype CoopAction = CoopAction(id: string, name: string, points: int)

  const COOP_ACTIONS: seq<CoopAction> := [
    CoopAction("contact", "連絡", 1),
    CoopAction("meet", "会う", 2),
    CoopAction("help", "手伝う", 3),
    CoopAction("gift", "プレゼント", 2),
    CoopAction("event", "イベント", 4)
  ]

  const COOP_RANK_THRESHOLDS: seq<int> := [0, 5, 12, 22, 35, 52, 73, 98, 128, 165]
  const COOP_RANK_NAMES: seq<string> := ["Rank 1", "Rank 2", "Rank 3", "Rank 4", "Rank 5",
                                         "Rank 6", "Rank 7", "Rank 8", "Rank 9", "Rank MAX"]
  const MAX_COOP_LOGS: nat := 100
  const MAX_COOP_RANK: nat := 9

  datatype CoopLog = CoopLog(actionId: string, actionName: string, points: int, timestamp: string)

  datatype Coop = Coop(id: string, name: string, category: string, points: int, note: string,
                       logs: seq<CoopLog>, createdAt: string)

  /** The table has ten levels, starts at 0 and strictly increases; there is a
      name for every level. */
  lemma CoopTableWellFormed()
    ensures |COOP_RANK_THRESHOLDS| == |COOP_RANK_NAMES| == MAX_COOP_RANK + 1
    ensures COOP_RANK_THRESHOLDS[0] == 0
    ensures StrictlyIncreasing(COOP_RANK_THRESHOLDS)
  {
  }

  /** The rank `getCoopRank` computes: the largest level whose threshold the
      points reach, 0 below every threshold. */
  function CoopRank(points: int): (r: nat)
    ensures r <= MAX_COOP_RANK
    ensures points >= 0 ==> COOP_RANK_THRESHOLDS[r] <= points
    ensures r < MAX_COOP_RANK ==> points < COOP_RANK_THRESHOLDS[r + 1]
  {
    RankLevel(COOP_RANK_THRESHOLDS, points)
  }

  /** `getCoopRank`: the downward scan over the table. */
  method GetCoopRank(points: int) returns (rank: nat)
    ensures rank == CoopRank(points)
  {
    var i := |COOP_RANK_THRESHOLDS|;
    while i > 0
      invariant 0 <= i <= |COOP_RANK_THRESHOLDS|
      invariant forall j :: i <= j < |COOP_RANK_THRESHOLDS| ==> points < COOP_RANK_THRESHOLDS[j]
    {
      if points >= COOP_RANK_THRESHOLDS[i - 1] {
        RankLevelUnique(COOP_RANK_THRESHOLDS, points, i - 1);
        return i - 1;
      }
      i := i - 1;
    }
    return 0;
  }

  /** More points never give a lower coop rank. */
  lemma CoopRankMonotone(p1: int, p2: int)
    requires p1 <= p2
    ensures CoopRank(p1) <= CoopRank(p2)
  {
    RankLevelMonotone(COOP_RANK_THRESHOLDS, p1, p2);
  }

  /** `getCoopRankName`: the label of the rank; rank r below the top is
      "Rank r+1", and only the top rank is "Rank MAX". */
  function CoopRankName(points: int): (name: string)
    ensures name in COOP_RANK_NAMES
    ensures name == "Rank MAX" <==> CoopRank(points) == MAX_COOP_RANK
    ensures CoopRank(points) < MAX_COOP_RANK ==>
      name == "Rank " + Text.DecimalString(CoopRank(points) + 1)
  {
    COOP_RANK_NAMES[CoopRank(points)]
  }

  /** What `getCoopProgress` returns. */
  datatype CoopProgressInfo = CoopProgressInfo(percent: real, remaining: int, nextRank: Option<string>)

  /** `getCoopProgress`: at the top rank {100, 0, null}; below it the clamped
      share of the way to the next threshold, the points still missing (at least
      one) and the next rank's name. */
  function CoopProgress(points: int): (p: CoopProgressInfo)
    ensures CoopRank(points) == MAX_COOP_RANK ==> p == CoopProgressInfo(100.0, 0, None)
    ensures 0.0 <= p.percent <= 100.0
    ensures var r := CoopRank(points);
      r < MAX_COOP_RANK ==>
        p.remaining == COOP_RANK_THRESHOLDS[r + 1] - points && p.remaining > 0 &&
        p.nextRank == Some(COOP_RANK_NAMES[r + 1])
    ensures var r := CoopRank(points);
      r < MAX_COOP_RANK && points >= 0 ==>
        p.percent == ((points - COOP_RANK_THRESHOLDS[r]) as real) /
                     ((COOP_RANK_THRESHOLDS[r + 1] - COOP_RANK_THRESHOLDS[r]) as real) * 100.0
  {
    var r := CoopRank(points);
    if r >= MAX_COOP_RANK then CoopProgressInfo(100.0, 0, None)
    else
      var current, next := COOP_RANK_THRESHOLDS[r], COOP_RANK_THRESHOLDS[r + 1];
      CoopProgressInfo(ClampedPercent(points - current, next - current), next - points,
                       Some(COOP_RANK_NAMES[r + 1]))
  }

  /** The record `addCoop` appends: no points, no logs. */
  function NewCoop(id: string, name: string, category: string, note: string, createdAt: string): (c: Coop)
    ensures c.points == 0 && c.logs == []
    ensures c.id == id && c.name == name && c.category == category && c.note == note && c.createdAt == createdAt
  {
    Coop(id, name, category, 0, note, [], createdAt)
  }

  /** Index of the coop `coops.find(c => c.id === coopId)` finds. */
  function FindCoop(coops: seq<Coop>, coopId: string): (r: Option<nat>)
    ensures r.Some? ==> r.value < |coops| && coops[r.value].id == coopId
    ensures r.Some? ==> forall j :: 0 <= j < r.value ==> coops[j].id != coopId
    ensures r.None? <==> forall j :: 0 <= j < |coops| ==> coops[j].id != coopId
  {
    Seqs.FindFirst((c: Coop) => c.id == coopId, coops)
  }

  /** The interaction kind `COOP_ACTIONS.find(a => a.id === actionId)` finds. */
  function FindCoopAction(actionId: string): (r: Option<CoopAction>)
    ensures r.Some? ==> r.value in COOP_ACTIONS && r.value.id == actionId
    ensures r.None? <==> forall j :: 0 <= j < |COOP_ACTIONS| ==> COOP_ACTIONS[j].id != actionId
  {
    match Seqs.FindFirst((a: CoopAction) => a.id == actionId, COOP_ACTIONS)
    case None => None
    case Some(i) => Some(COOP_ACTIONS[i])
  }

  /** Every interaction kind is worth between 1 and 4 points. */
  lemma CoopActionPoints(actionId: string)
    requires FindCoopAction(actionId).Some?
    ensures 1 <= FindCoopAction(actionId).value.points <= 4
  {
  }

  /** The coop after one interaction: the points grow by exactly the action's
      points and the log entry goes first, the oldest log dropped past 100. */
  function Interacted(c: Coop, a: CoopAction, timestamp: string): (r: Coop)
    ensures r == c.(points := r.points, logs := r.logs)
    ensures r.points == c.points + a.points
    ensures |r.logs| > 0 && r.logs[0] == CoopLog(a.id, a.name, a.points, timestamp)
    ensures |c.logs| < MAX_COOP_LOGS ==> r.logs[1..] == c.logs
    ensures |c.logs| >= MAX_COOP_LOGS ==> r.logs[1..] == c.logs[..|c.logs| - 1]
    ensures |c.logs| <= MAX_COOP_LOGS ==> |r.logs| <= MAX_COOP_LOGS
  {
    c.(points := c.points + a.points,
       logs := Seqs.PushFrontCapped(CoopLog(a.id, a.name, a.points, timestamp), c.logs, MAX_COOP_LOGS))
  }

  /** What `executeCoopAction` returns on success. */
  datatype CoopResult = CoopResult(coop: Coop, action: CoopAction, oldRank: nat, newRank: nat, rankUp: bool)

  /** The catalogue lookup of a gift finds the entry worth 2 points. */
  lemma GiftExample()
    ensures FindCoopAction("gift") == Some(CoopAction("gift", "プレゼント", 2))
  {
    assert COOP_ACTIONS[3].id == "gift";
    assert forall j :: 0 <= j < 3 ==> COOP_ACTIONS[j].id != "gift";
  }

  /** A gift (2 points) at 3 points reaches 5, the second threshold: a rank-up.
      A meeting (2 points) at 4 points reaches 6: also a rank-up. */
  lemma RankUpExamples()
    ensures CoopRank(3) == 0 && CoopRank(3 + 2) == 1
    ensures CoopRank(4) == 0 && CoopRank(4 + 2) == 1
  {
    var t := COOP_RANK_THRESHOLDS;
    assert forall j :: 1 <= j < |t| ==> 5 <= t[j];
    assert forall j :: 2 <= j < |t| ==> 12 <= t[j];
    RankLevelUnique(t, 3, 0);
    RankLevelUnique(t, 4, 0);
    RankLevelUnique(t, 5, 1);
    RankLevelUnique(t, 6, 1);
  }

  /** `deleteCoop`: every record with that id removed, the rest kept in order. */
  function WithoutCoop(coops: seq<Coop>, coopId: string): (r: seq<Coop>)
    ensures Seqs.Subsequence(r, coops)
    ensures forall j :: 0 <= j < |r| ==> r[j].id != coopId
    ensures forall j :: 0 <= j < |coops| && coops[j].id != coopId ==> coops[j] in r
    ensures forall x :: multiset(r)[x] == if x.id != coopId then multiset(coops)[x] else 0
  {
    var keep := (c: Coop) => c.id != coopId;
    Seqs.FilterCounts(keep, coops);
    Seqs.Filter(keep, coops)
  }

  /** `updateCoopNote`: only the note of the coop found by id changes. */
  function WithNote(coops: seq<Coop>, coopId: string, note: string): (r: seq<Coop>)
    ensures |r| == |coops|
    ensures match FindCoop(coops, coopId)
      case None => r == coops
      case Some(i) => r[i] == coops[i].(note := note) &&
                      forall j :: 0 <= j < |coops| && j != i ==> r[j] == coops[j]
  {
    Seqs.UpdateFirst((c: Coop) => c.id == coopId, (c: Coop) => c.(note := note), coops)
  }
}
