/** History log (js/storage.js `addHistoryEntry`): a newest-first list of
    action and money entries, capped at 500. */
module History {
  import opened Actions
  import Seqs

  const MAX_HISTORY: nat := 500

  /** An entry recorded by `executeAction` or by the money screen. Both carry
      the clock-derived `id` and the ISO `timestamp`. */
  datatype HistoryEntry =
    | ActionEntry(id: int, timestamp: string, actionId: string, actionName: string,
                  actionIcon: string, effects: seq<AppliedEffect>)
    | MoneyEntry(id: int, timestamp: string, amount: int)

  /** `{...entry, id: Date.now(), timestamp: new Date().toISOString()}`: the
      minted id and timestamp override whatever the caller put in the entry. */
  function Stamped(entry: HistoryEntry, id: int, timestamp: string): (r: HistoryEntry)
    ensures r.id == id && r.timestamp == timestamp
    ensures r.ActionEntry? <==> entry.ActionEntry?
    ensures r.ActionEntry? ==> r.actionId == entry.actionId && r.actionName == entry.actionName &&
                               r.actionIcon == entry.actionIcon && r.effects == entry.effects
    ensures r.MoneyEntry? ==> r.amount == entry.amount
  {
    entry.(id := id, timestamp := timestamp)
  }

  /** The history after `addHistoryEntry`: the stamped entry first, the older
      entries after it in their order, and the oldest one dropped when the log
      would exceed 500 entries. */
  function Recorded(history: seq<HistoryEntry>, entry: HistoryEntry, id: int, timestamp: string): (r: seq<HistoryEntry>)
    ensures |r| > 0 && r[0] == Stamped(entry, id, timestamp)
    ensures |history| < MAX_HISTORY ==> r[1..] == history
    ensures |history| >= MAX_HISTORY ==> r[1..] == history[..|history| - 1]
    ensures |history| <= MAX_HISTORY ==> |r| <= MAX_HISTORY
    ensures |history| >= MAX_HISTORY ==> |r| == |history|
  {
    Seqs.PushFrontCapped(Stamped(entry, id, timestamp), history, MAX_HISTORY)
  }
}
