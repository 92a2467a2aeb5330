/** Stat engine (js/stats.js): rank level, rank name and progress of one stat,
    the total level of all stats, and the clamped delta of `addToStat`. */
module Stats {
  import opened Wrappers
  import opened Ranks
  import Seqs

  /** A stat record as stored. `ranks` and `thresholds` may be missing from an
      old record (None); the other fields are always present. */
  datatype Stat = Stat(id: string, name: string, value: int, icon: string,
                       ranks: Option<seq<string>>, thresholds: Option<seq<int>>)

  /** Fallbacks `calculateRankLevel`, `getRankName` and `calculateProgress` use
      when a stat carries no thresholds or rank names. */
  const FALLBACK_THRESHOLDS: seq<int> := [0, 34, 82, 126, 192]
  const FALLBACK_RANK_NAMES: seq<string> := ["Lv1", "Lv2", "Lv3", "Lv4", "Lv5"]

  function ThresholdsOf(stat: Stat): seq<int> { stat.thresholds.GetOr(FALLBACK_THRESHOLDS) }
  function RankNamesOf(stat: Stat): seq<string> { stat.ranks.GetOr(FALLBACK_RANK_NAMES) }

  /** The rank level `calculateRankLevel` computes. */
  function Level(stat: Stat): nat { RankLevel(ThresholdsOf(stat), stat.value) }

  /** `calculateRankLevel`: scan the thresholds from the top down and return the
      first index the value reaches, or 0. */
  method CalculateRankLevel(stat: Stat) returns (level: nat)
    ensures level == Level(stat)
    ensures var t := ThresholdsOf(stat);
      (exists i :: 0 <= i < |t| && t[i] <= stat.value) ==>
        level < |t| && t[level] <= stat.value && forall j :: level < j < |t| ==> stat.value < t[j]
    ensures var t := ThresholdsOf(stat);
      (forall i :: 0 <= i < |t| ==> stat.value < t[i]) ==> level == 0
  {
    var t := ThresholdsOf(stat);
    var i := |t|;
    while i > 0
      invariant 0 <= i <= |t|
      invariant forall j :: i <= j < |t| ==> stat.value < t[j]
    {
      if stat.value >= t[i - 1] {
        RankLevelUnique(t, stat.value, i - 1);
        return i - 1;
      }
      i := i - 1;
    }
    return 0;
  }

  /** `getRankName`: `ranks[level] || ranks[0]`. A missing or empty name at
      the level falls back to the first name; with no names at all the result is
      `undefined` (None). */
  function RankName(stat: Stat): (r: Option<string>)
    ensures var names := RankNamesOf(stat);
      r.Some? <==> |names| > 0
    ensures var names, l := RankNamesOf(stat), Level(stat);
      l < |names| && names[l] != "" ==> r == Some(names[l])
    ensures var names, l := RankNamesOf(stat), Level(stat);
      !(l < |names| && names[l] != "") && |names| > 0 ==> r == Some(names[0])
  {
    var names, l := RankNamesOf(stat), Level(stat);
    if l < |names| && names[l] != "" then Some(names[l])
    else if |names| > 0 then Some(names[0])
    else None
  }

  /** What `calculateProgress` returns; `currentLevel` is one-based. */
  datatype Progress = Progress(percent: real, nextRank: Option<string>, remaining: int, currentLevel: nat)

  /** `calculateProgress`: at the top level, 100 percent and nothing remaining;
      below it, the clamped linear interpolation between the current and the next
      threshold, the name of the next rank and the points still missing. */
  function CalculateProgress(stat: Stat): (p: Progress)
    ensures p.currentLevel == Level(stat) + 1
    ensures 0.0 <= p.percent <= 100.0
    ensures Level(stat) + 1 >= |ThresholdsOf(stat)| ==>
      p.percent == 100.0 && p.nextRank == None && p.remaining == 0
    ensures var t, l, v, names := ThresholdsOf(stat), Level(stat), stat.value, RankNamesOf(stat);
      l + 1 < |t| ==>
        p.remaining == t[l + 1] - v && p.remaining >= 1 &&
        p.nextRank == (if l + 1 < |names| then Some(names[l + 1]) else None)
    ensures var t, l, v := ThresholdsOf(stat), Level(stat), stat.value;
      l + 1 < |t| && t[l] <= v && t[l] < t[l + 1] ==>
        p.percent == ((v - t[l]) as real) / ((t[l + 1] - t[l]) as real) * 100.0
    ensures var t, l, v := ThresholdsOf(stat), Level(stat), stat.value;
      l + 1 < |t| && v < t[l] ==> p.percent == (if t[l + 1] < t[l] then 100.0 else 0.0)
  {
    var t, l, v, names := ThresholdsOf(stat), Level(stat), stat.value, RankNamesOf(stat);
    if l + 1 >= |t| then Progress(100.0, None, 0, l + 1)
    else
      RankLevelBelowNext(t, v);
      assert v < t[l] && t[l + 1] < t[l] ==>
        ((v - t[l]) as real) / ((t[l + 1] - t[l]) as real) > 1.0 by {
        if v < t[l] && t[l + 1] < t[l] {
          QuotientRange(t[l] - v, t[l] - t[l + 1]);
          assert ((v - t[l]) as real) / ((t[l + 1] - t[l]) as real)
              == ((t[l] - v) as real) / ((t[l] - t[l + 1]) as real);
        }
      }
      assert v < t[l] && t[l] < t[l + 1] ==>
        ((v - t[l]) as real) / ((t[l + 1] - t[l]) as real) < 0.0 by {
        if v < t[l] && t[l] < t[l + 1] {
          QuotientRange(v - t[l], t[l + 1] - t[l]);
        }
      }
      Progress(ClampedPercent(v - t[l], t[l + 1] - t[l]),
               if l + 1 < |names| then Some(names[l + 1]) else None,
               t[l + 1] - v,
               l + 1)
  }

  /** The total level: the sum of the one-based levels. */
  function TotalLevel(stats: seq<Stat>): (total: int)
    ensures total >= |stats|
  {
    if |stats| == 0 then 0
    else TotalLevel(stats[..|stats| - 1]) + Level(stats[|stats| - 1]) + 1
  }

  /** `calculateTotalLevel`: accumulate `level + 1` over the stats. */
  method CalculateTotalLevel(stats: seq<Stat>) returns (total: int)
    ensures total == TotalLevel(stats)
  {
    total := 0;
    var i := 0;
    while i < |stats|
      invariant 0 <= i <= |stats|
      invariant total == TotalLevel(stats[..i])
    {
      var level := CalculateRankLevel(stats[i]);
      assert stats[..i + 1][..i] == stats[..i];
      total := total + level + 1;
      i := i + 1;
    }
    assert stats[..|stats|] == stats;
  }

  /** With at most five thresholds per stat, n stats have a total level in [n, 5n]. */
  lemma {:induction false} TotalLevelBounds(stats: seq<Stat>)
    requires forall i :: 0 <= i < |stats| ==> |ThresholdsOf(stats[i])| <= 5
    ensures |stats| <= TotalLevel(stats) <= 5 * |stats|
  {
    if |stats| > 0 {
      TotalLevelBounds(stats[..|stats| - 1]);
    }
  }

  /** Index of the stat `stats.find(s => s.id === statId)` finds. */
  function FindStat(stats: seq<Stat>, statId: string): (r: Option<nat>)
    ensures r.Some? ==> r.value < |stats| && stats[r.value].id == statId
    ensures r.Some? ==> forall j :: 0 <= j < r.value ==> stats[j].id != statId
    ensures r.None? <==> forall j :: 0 <= j < |stats| ==> stats[j].id != statId
  {
    Seqs.FindFirst((s: Stat) => s.id == statId, stats)
  }

  /** `Math.max(0, value + amount)`. */
  function ClampedAdd(value: int, amount: int): (r: int)
    ensures r >= 0
    ensures r >= value + amount
    ensures value + amount >= 0 ==> r == value + amount
    ensures value + amount < 0 ==> r == 0
  {
    if value + amount < 0 then 0 else value + amount
  }

  /** The stats after `stat.value = Math.max(0, stat.value + amount)` on the stat
      at index `i`; no other stat and no other field changes. */
  function Credited(stats: seq<Stat>, i: nat, amount: int): (r: seq<Stat>)
    requires i < |stats|
    ensures |r| == |stats|
    ensures r[i] == stats[i].(value := ClampedAdd(stats[i].value, amount))
    ensures forall j :: 0 <= j < |stats| && j != i ==> r[j] == stats[j]
  {
    stats[i := stats[i].(value := ClampedAdd(stats[i].value, amount))]
  }
}
