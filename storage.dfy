/** Store adapter (js/storage.js) and the key-value store every engine reads
    and writes. The store is one object with a field per storage key; an engine
    operation reads a field, changes the value and writes it back. */
module Storage {
  import opened Wrappers
  import opened Ranks
  import opened Stats
  import opened Actions
  import opened History
  import Coop
  import Mementos
  import Todo
  import Seqs
  import Text

  datatype Settings = Settings(darkMode: bool)

  const DEFAULT_STATS: seq<Stat> := [
    Stat("knowledge", "知識", 0, "",
         Some(["平均的", "物知り", "インテリ", "博識", "知恵の泉"]), Some([0, 34, 82, 126, 192])),
    Stat("guts", "度胸", 0, "",
         Some(["なくもない", "男らしい", "筋金入り", "大胆不敵", "ライオンハート"]), Some([0, 11, 29, 57, 113])),
    Stat("proficiency", "器用さ", 0, "",
         Some(["ぎこちない", "そこそこ", "職人級", "凄腕", "超魔術"]), Some([0, 12, 34, 60, 87])),
    Stat("kindness", "優しさ", 0, "",
         Some(["控え目", "聞き上手", "人情家", "駆け込み寺", "慈母神"]), Some([0, 14, 44, 91, 136])),
    Stat("charm", "魅力", 0, "",
         Some(["人並み", "気になる存在", "注目株", "カリスマ", "魔性の男"]), Some([0, 6, 52, 92, 132]))
  ]

  const DEFAULT_ACTIONS: seq<Action> := [
    Action("a1", "読書", "", [Effect("knowledge", 3)]),
    Action("a2", "授業を聞く", "", [Effect("knowledge", 2)]),
    Action("a3", "テスト勉強", "", [Effect("knowledge", 5)]),
    Action("a4", "ビッグバンバーガー", "", [Effect("guts", 3)]),
    Action("a5", "ホラー映画", "", [Effect("guts", 3)]),
    Action("a6", "バッティングセンター", "", [Effect("proficiency", 2)]),
    Action("a7", "コーヒーを淹れる", "", [Effect("proficiency", 2), Effect("charm", 1)]),
    Action("a8", "花屋でバイト", "", [Effect("kindness", 2), Effect("charm", 1)]),
    Action("a9", "銭湯", "", [Effect("charm", 3)]),
    Action("a10", "DVDを見る", "", [Effect("kindness", 3)]),
    Action("a11", "瞑想", "", [Effect("guts", 2)]),
    Action("a12", "ゲームセンター", "", [Effect("proficiency", 3)])
  ]

  const DEFAULT_SETTINGS: Settings := Settings(true)

  /** Every default stat starts at 0, has five rank names and five thresholds
      that start at 0 and strictly increase; the ids are distinct. */
  lemma DefaultStatsWellFormed()
    ensures |DEFAULT_STATS| == 5
    ensures forall i :: 0 <= i < |DEFAULT_STATS| ==>
      var d := DEFAULT_STATS[i];
      d.value == 0 && d.ranks.Some? && |d.ranks.value| == 5 &&
      d.thresholds.Some? && |d.thresholds.value| == 5 && d.thresholds.value[0] == 0 &&
      StrictlyIncreasing(d.thresholds.value)
    ensures forall i, j :: 0 <= i < j < |DEFAULT_STATS| ==> DEFAULT_STATS[i].id != DEFAULT_STATS[j].id
  {
  }

  /** Every effect of a default action names a default stat. */
  lemma DefaultActionsResolve()
    ensures forall i, k :: 0 <= i < |DEFAULT_ACTIONS| && 0 <= k < |DEFAULT_ACTIONS[i].effects| ==>
      FindStat(DEFAULT_STATS, DEFAULT_ACTIONS[i].effects[k].statId).Some?
  {
    forall i, k | 0 <= i < |DEFAULT_ACTIONS| && 0 <= k < |DEFAULT_ACTIONS[i].effects|
      ensures FindStat(DEFAULT_STATS, DEFAULT_ACTIONS[i].effects[k].statId).Some?
    {
      var id := DEFAULT_ACTIONS[i].effects[k].statId;
      assert id in ["knowledge", "guts", "proficiency", "kindness", "charm"];
      if id == "knowledge" { assert DEFAULT_STATS[0].id == id; }
      else if id == "guts" { assert DEFAULT_STATS[1].id == id; }
      else if id == "proficiency" { assert DEFAULT_STATS[2].id == id; }
      else if id == "kindness" { assert DEFAULT_STATS[3].id == id; }
      else { assert DEFAULT_STATS[4].id == id; }
    }
  }

  /** The rank names `getStats` fills in for a record without them: the default
      stat with the same id's, else none. */
  function DefaultRanksFor(id: string): seq<string> {
    match FindStat(DEFAULT_STATS, id)
    case Some(i) => DEFAULT_STATS[i].ranks.GetOr([])
    case None => []
  }

  /** The thresholds `getStats` fills in for a record without them. */
  function DefaultThresholdsFor(id: string): seq<int> {
    match FindStat(DEFAULT_STATS, id)
    case Some(i) => DEFAULT_STATS[i].thresholds.GetOr([])
    case None => []
  }

  /** `{...stat, ranks: stat.ranks || ..., thresholds: stat.thresholds || ...}`:
      present fields are kept, missing ones come from the default with that id. */
  function FilledStat(s: Stat): (r: Stat)
    ensures r == s.(ranks := r.ranks, thresholds := r.thresholds)
    ensures r.ranks == Some(s.ranks.GetOr(DefaultRanksFor(s.id)))
    ensures r.thresholds == Some(s.thresholds.GetOr(DefaultThresholdsFor(s.id)))
  {
    s.(ranks := Some(s.ranks.GetOr(DefaultRanksFor(s.id))),
       thresholds := Some(s.thresholds.GetOr(DefaultThresholdsFor(s.id))))
  }

  /** `getStats` on the stored value: the default stats when nothing is stored,
      otherwise the stored stats with missing fields filled, same length and order. */
  function StatsView(saved: Option<seq<Stat>>): (r: seq<Stat>)
    ensures saved.None? ==> r == DEFAULT_STATS
    ensures saved.Some? ==>
      |r| == |saved.value| && forall i :: 0 <= i < |r| ==> r[i] == FilledStat(saved.value[i])
  {
    match saved
    case None => DEFAULT_STATS
    case Some(s) => seq(|s|, i requires 0 <= i < |s| => FilledStat(s[i]))
  }

  /** Filling is idempotent: reading back what `getStats` returned gives the same stats. */
  lemma StatsViewIdempotent(saved: Option<seq<Stat>>)
    ensures StatsView(Some(StatsView(saved))) == StatsView(saved)
  {
    var once := StatsView(saved);
    var twice := StatsView(Some(once));
    if saved.None? {
      DefaultStatsWellFormed();
      assert forall i :: 0 <= i < |once| ==> FilledStat(once[i]) == once[i];
    }
    assert forall i :: 0 <= i < |once| ==> twice[i] == once[i];
  }

  /** `getActions`: the stored templates, or the defaults when nothing is stored. */
  function ActionsView(saved: Option<seq<Action>>): (r: seq<Action>)
    ensures saved.None? ==> r == DEFAULT_ACTIONS
    ensures saved.Some? ==> r == saved.value
  {
    saved.GetOr(DEFAULT_ACTIONS)
  }

  /** `getHistory`: the stored log, or the empty log. */
  function HistoryView(saved: Option<seq<HistoryEntry>>): (r: seq<HistoryEntry>)
    ensures saved.None? ==> r == []
    ensures saved.Some? ==> r == saved.value
  {
    saved.GetOr([])
  }

  /** The export/import document; an imported document may lack any field. */
  datatype Payload = Payload(stats: Option<seq<Stat>>, actions: Option<seq<Action>>,
                             history: Option<seq<HistoryEntry>>, exportedAt: Option<string>)

  /** `exportData` on the stored values: every field is present, and each holds
      what the matching getter returns, so every exported stat is filled. */
  function Exported(stats: Option<seq<Stat>>, actions: Option<seq<Action>>,
                    history: Option<seq<HistoryEntry>>, exportedAt: string): (r: Payload)
    ensures r.stats.Some? && r.actions.Some? && r.history.Some? && r.exportedAt == Some(exportedAt)
    ensures r.stats.value == StatsView(stats)
    ensures r.actions.value == ActionsView(actions) && r.history.value == HistoryView(history)
    ensures forall i :: 0 <= i < |r.stats.value| ==>
      r.stats.value[i].ranks.Some? && r.stats.value[i].thresholds.Some?
  {
    DefaultStatsWellFormed();
    Payload(Some(StatsView(stats)), Some(ActionsView(actions)), Some(HistoryView(history)), Some(exportedAt))
  }

  /** `if (data.field) saveField(data.field)`: a present field replaces the stored
      value, an absent one leaves it. */
  function Imported<T>(field: Option<T>, current: Option<T>): (r: Option<T>)
    ensures field.Some? ==> r == field
    ensures field.None? ==> r == current
  {
    if field.Some? then field else current
  }

  /** Importing what was exported leaves what `getStats`, `getActions` and
      `getHistory` return unchanged. */
  lemma ExportImportRoundTrip(stats: Option<seq<Stat>>, actions: Option<seq<Action>>,
                              history: Option<seq<HistoryEntry>>, exportedAt: string)
    ensures var p := Exported(stats, actions, history, exportedAt);
      StatsView(Imported(p.stats, stats)) == StatsView(stats) &&
      ActionsView(Imported(p.actions, actions)) == ActionsView(actions) &&
      HistoryView(Imported(p.history, history)) == HistoryView(history)
  {
    StatsViewIdempotent(stats);
  }

  /** On a fresh store, reading (a1, knowledge +3) raises knowledge from 0 to 3
      and reports exactly that one effect. */
  lemma ReadingOnDefaults()
    ensures DEFAULT_ACTIONS[0].effects == [Effect("knowledge", 3)]
    ensures ApplyEffects(DEFAULT_STATS, DEFAULT_ACTIONS[0].effects) ==
      (DEFAULT_STATS[0 := DEFAULT_STATS[0].(value := 3)], [AppliedEffect("knowledge", "知識", 3)])
  {
    var effects := DEFAULT_ACTIONS[0].effects;
    assert effects[..0] == [];
    assert FindStat(DEFAULT_STATS, "knowledge") == Some(0);
    assert ApplyEffects(DEFAULT_STATS, effects[..0]) == (DEFAULT_STATS, []);
    assert ApplyEffect(DEFAULT_STATS, effects[0]).0 == Credited(DEFAULT_STATS, 0, 3);
    assert ApplyEffect(DEFAULT_STATS, effects[0]).1 == [AppliedEffect("knowledge", "知識", 3)];
    assert ApplyEffects(DEFAULT_STATS, effects).0 == Credited(DEFAULT_STATS, 0, 3);
    assert ApplyEffects(DEFAULT_STATS, effects).1 == [AppliedEffect("knowledge", "知識", 3)];
  }

  /** The browser's local storage: one field per key. A key that may be absent
      and whose absence the code tells apart from an empty value is an Option. The
      memento and todo keys read as a fresh `[]` when absent, so they are plain
      sequences. The coop key reads as the page's one `DEFAULT_COOPS` array when
      absent; `defaultCoops` holds that array, which the coop operations mutate in
      place whenever they work on it. */
  class Store {
    var stats: Option<seq<Stat>>
    var actions: Option<seq<Action>>
    var history: Option<seq<HistoryEntry>>
    var settings: Option<Settings>
    var coops: Option<seq<Coop.Coop>>
    var defaultCoops: seq<Coop.Coop>
    var mementos: seq<Mementos.Memento>
    var todos: seq<Todo.Todo>

    /** An empty store: nothing saved under any key. */
    constructor ()
      ensures stats == None && actions == None && history == None && settings == None
      ensures coops == None && defaultCoops == []
      ensures mementos == [] && todos == []
    {
      stats, actions, history, settings := None, None, None, None;
      coops, defaultCoops := None, [];
      mementos, todos := [], [];
    }

    function GetStats(): seq<Stat> reads this { StatsView(stats) }
    function GetActions(): seq<Action> reads this { ActionsView(actions) }
    function GetHistory(): seq<HistoryEntry> reads this { HistoryView(history) }
    /** `getCoops`: the saved list, or the `DEFAULT_COOPS` array itself when the key is absent. */
    function GetCoops(): (r: seq<Coop.Coop>)
      reads this
      ensures coops.Some? ==> r == coops.value
      ensures coops.None? ==> r == defaultCoops
    {
      coops.GetOr(defaultCoops)
    }

    /** `initializeStorage`: a default is written for each missing key only. */
    method InitializeStorage()
      modifies this`stats, this`actions, this`history, this`settings
      ensures stats == Some(old(stats).GetOr(DEFAULT_STATS))
      ensures actions == Some(old(actions).GetOr(DEFAULT_ACTIONS))
      ensures history == Some(old(history).GetOr([]))
      ensures settings == Some(old(settings).GetOr(DEFAULT_SETTINGS))
      ensures old(stats).Some? ==> stats == old(stats)
      ensures old(actions).Some? ==> actions == old(actions)
      ensures old(history).Some? ==> history == old(history)
      ensures old(settings).Some? ==> settings == old(settings)
    {
      if stats.None? { stats := Some(DEFAULT_STATS); }
      if actions.None? { actions := Some(DEFAULT_ACTIONS); }
      if history.None? { history := Some([]); }
      if settings.None? { settings := Some(DEFAULT_SETTINGS); }
    }

    /** `resetAllData`: default stats and actions, empty history; the settings and
      the other keys are not touched. */
    method ResetAllData()
      modifies this`stats, this`actions, this`history
      ensures stats == Some(DEFAULT_STATS) && actions == Some(DEFAULT_ACTIONS) && history == Some([])
      ensures GetStats() == DEFAULT_STATS && GetActions() == DEFAULT_ACTIONS && GetHistory() == []
    {
      StatsViewIdempotent(None);
      stats := Some(DEFAULT_STATS);
      actions := Some(DEFAULT_ACTIONS);
      history := Some([]);
    }

    /** `exportData`: the document holds what the three getters return. */
    function ExportData(exportedAt: string): (r: Payload)
      reads this
      ensures r.stats == Some(GetStats()) && r.actions == Some(GetActions()) && r.history == Some(GetHistory())
      ensures r.exportedAt == Some(exportedAt)
    {
      Exported(stats, actions, history, exportedAt)
    }

    /** `importData`: each present field is written, absent ones are left alone.
        A null document makes `data.stats` throw; the call then reports false and
        writes nothing. */
    method ImportData(data: Option<Payload>) returns (ok: bool)
      modifies this`stats, this`actions, this`history
      ensures ok <==> data.Some?
      ensures data.None? ==> stats == old(stats) && actions == old(actions) && history == old(history)
      ensures data.Some? ==>
        stats == Imported(data.value.stats, old(stats)) &&
        actions == Imported(data.value.actions, old(actions)) &&
        history == Imported(data.value.history, old(history))
    {
      if data.None? { return false; }
      var d := data.value;
      if d.stats.Some? { stats := d.stats; }
      if d.actions.Some? { actions := d.actions; }
      if d.history.Some? { history := d.history; }
      return true;
    }

    /** `addHistoryEntry`: the entry, stamped with the clock value `now` and the
        ISO time `timestamp`, goes first; the oldest entry goes once the log
        exceeds 500. */
    method AddHistoryEntry(entry: HistoryEntry, now: nat, timestamp: string)
      modifies this`history
      ensures history == Some(Recorded(old(GetHistory()), entry, now, timestamp))
      ensures |old(GetHistory())| <= MAX_HISTORY ==> |GetHistory()| <= MAX_HISTORY
    {
      var log := GetHistory();
      log := [Stamped(entry, now, timestamp)] + log;
      if |log| > MAX_HISTORY {
        log := log[..|log| - 1];
      }
      history := Some(log);
    }

    /** `addToStat`: the stat found by id gets `max(0, value + amount)` and the
        filled stats are saved; an unknown id returns null and saves nothing. */
    method AddToStat(statId: string, amount: int) returns (r: Option<Stat>)
      modifies this`stats
      ensures var s := old(GetStats());
        match FindStat(s, statId)
        case None => r == None && stats == old(stats)
        case Some(i) => stats == Some(Credited(s, i, amount)) && r == Some(Credited(s, i, amount)[i])
      ensures r.Some? ==> r.value.value >= 0 && r.value.id == statId
    {
      var list := GetStats();
      var found := FindStat(list, statId);
      if found.None? {
        return None;
      }
      var i := found.value;
      list := list[i := list[i].(value := ClampedAdd(list[i].value, amount))];
      stats := Some(list);
      return Some(list[i]);
    }

    /** `executeAction`: an unknown action id returns null and changes nothing.
        Otherwise each effect is applied in order to the stat it names (effects on
        unknown stats are skipped), the stats are saved and one history entry
        records the applied effects. */
    method ExecuteAction(actionId: string, now: nat, timestamp: string) returns (r: Option<ActionResult>)
      modifies this`stats, this`history
      ensures var acts := old(GetActions());
        match FindAction(acts, actionId)
        case None => r == None && stats == old(stats) && history == old(history)
        case Some(k) =>
          var outcome := ApplyEffects(old(GetStats()), acts[k].effects);
          r == Some(ActionResult(acts[k], outcome.1)) &&
          stats == Some(outcome.0) &&
          history == Some(Recorded(old(GetHistory()),
                                   ActionEntry(now, timestamp, acts[k].id, acts[k].name, acts[k].icon, outcome.1),
                                   now, timestamp))
    {
      var acts := GetActions();
      var found := FindAction(acts, actionId);
      if found.None? {
        return None;
      }
      var action := acts[found.value];
      var current, applied := ApplyActionEffects(GetStats(), action.effects);
      stats := Some(current);
      AddHistoryEntry(ActionEntry(now, timestamp, action.id, action.name, action.icon, applied), now, timestamp);
      return Some(ActionResult(action, applied));
    }

    /** `addAction`: a template with id `'a' + now` appended. */
    method AddAction(name: string, icon: string, effects: seq<Effect>, now: nat) returns (a: Action)
      modifies this`actions
      ensures a == Action("a" + Text.DecimalString(now), name, icon, effects)
      ensures actions == Some(old(GetActions()) + [a])
    {
      a := Action("a" + Text.DecimalString(now), name, icon, effects);
      actions := Some(GetActions() + [a]);
    }

    /** `updateAction`: name, icon and effects of the template found by id are
        replaced in place; a missing id returns null and saves nothing. */
    method UpdateAction(actionId: string, name: string, icon: string, effects: seq<Effect>) returns (r: Option<Action>)
      modifies this`actions
      ensures var acts := old(GetActions());
        match FindAction(acts, actionId)
        case None => r == None && actions == old(actions)
        case Some(i) => actions == Some(Updated(acts, i, name, icon, effects)) &&
                        r == Some(Action(actionId, name, icon, effects))
    {
      var acts := GetActions();
      var found := FindAction(acts, actionId);
      if found.None? {
        return None;
      }
      var i := found.value;
      acts := acts[i := acts[i].(name := name, icon := icon, effects := effects)];
      actions := Some(acts);
      return Some(acts[i]);
    }

    /** `deleteAction`: the remaining templates are saved and returned. */
    method DeleteAction(actionId: string) returns (remaining: seq<Action>)
      modifies this`actions
      ensures remaining == WithoutAction(old(GetActions()), actionId)
      ensures actions == Some(remaining)
    {
      remaining := WithoutAction(GetActions(), actionId);
      actions := Some(remaining);
    }

    /** `addCoop`: a record with id `'coop_' + now`, no points and no logs, pushed
        onto the list `getCoops` returned and saved. With the key absent that list is
        `DEFAULT_COOPS`, which keeps the new record too. */
    method AddCoop(name: string, category: string, note: string, now: nat, createdAt: string) returns (c: Coop.Coop)
      modifies this`coops, this`defaultCoops
      ensures c == Coop.NewCoop("coop_" + Text.DecimalString(now), name, category, note, createdAt)
      ensures coops == Some(old(GetCoops()) + [c])
      ensures defaultCoops == if old(coops).None? then old(defaultCoops) + [c] else old(defaultCoops)
    {
      c := Coop.NewCoop("coop_" + Text.DecimalString(now), name, category, note, createdAt);
      var list := GetCoops() + [c];
      if coops.None? {
        defaultCoops := list;
      }
      coops := Some(list);
    }

    /** `deleteCoop`: `filter` builds a new array, so `DEFAULT_COOPS` is left alone. */
    method DeleteCoop(coopId: string)
      modifies this`coops
      ensures coops == Some(Coop.WithoutCoop(old(GetCoops()), coopId))
    {
      coops := Some(Coop.WithoutCoop(GetCoops(), coopId));
    }

    /** `executeCoopAction`: null and nothing saved when the coop or the action
        kind is unknown; otherwise the found coop gains the action's points and a
        log entry, the others stay as they were, and the result says whether the
        rank went up. The record is changed in place, so with the key absent the
        change shows in `DEFAULT_COOPS` as well. */
    method ExecuteCoopAction(coopId: string, actionId: string, timestamp: string) returns (r: Option<Coop.CoopResult>)
      modifies this`coops, this`defaultCoops
      ensures var list, k, a := old(GetCoops()), Coop.FindCoop(old(GetCoops()), coopId), Coop.FindCoopAction(actionId);
        if k.None? || a.None? then r == None && coops == old(coops) && defaultCoops == old(defaultCoops)
        else
          var before := list[k.value];
          var after := Coop.Interacted(before, a.value, timestamp);
          coops == Some(list[k.value := after]) &&
          defaultCoops == (if old(coops).None? then list[k.value := after] else old(defaultCoops)) &&
          r == Some(Coop.CoopResult(after, a.value, Coop.CoopRank(before.points), Coop.CoopRank(after.points),
                                    Coop.CoopRank(after.points) > Coop.CoopRank(before.points)))
      ensures r.Some? ==> (r.value.rankUp <==> r.value.newRank > r.value.oldRank)
    {
      var list := GetCoops();
      var k := Coop.FindCoop(list, coopId);
      var a := Coop.FindCoopAction(actionId);
      if k.None? || a.None? {
        return None;
      }
      var i, action := k.value, a.value;
      var coop := list[i];
      var oldRank := Coop.GetCoopRank(coop.points);
      coop := coop.(points := coop.points + action.points);
      var newRank := Coop.GetCoopRank(coop.points);
      var logs := [Coop.CoopLog(actionId, action.name, action.points, timestamp)] + coop.logs;
      if |logs| > Coop.MAX_COOP_LOGS {
        logs := logs[..|logs| - 1];
      }
      assert action.id == actionId;
      assert logs == Seqs.PushFrontCapped(Coop.CoopLog(action.id, action.name, action.points, timestamp), list[i].logs, Coop.MAX_COOP_LOGS);
      coop := coop.(logs := logs);
      assert coop == Coop.Interacted(list[i], action, timestamp);
      list := list[i := coop];
      if coops.None? {
        defaultCoops := list;
      }
      coops := Some(list);
      return Some(Coop.CoopResult(coop, action, oldRank, newRank, newRank > oldRank));
    }

    /** `updateCoopNote`: the note is set in place and the list saved, only when the
        coop is found. */
    method UpdateCoopNote(coopId: string, note: string)
      modifies this`coops, this`defaultCoops
      ensures var list := old(GetCoops());
        if Coop.FindCoop(list, coopId).None? then coops == old(coops) && defaultCoops == old(defaultCoops)
        else
          coops == Some(Coop.WithNote(list, coopId, note)) &&
          defaultCoops == if old(coops).None? then Coop.WithNote(list, coopId, note) else old(defaultCoops)
    {
      var list := GetCoops();
      var k := Coop.FindCoop(list, coopId);
      if k.Some? {
        list := list[k.value := list[k.value].(note := note)];
        if coops.None? {
          defaultCoops := list;
        }
        coops := Some(list);
      }
    }

    /** `deleteAllCoops`: the key is removed. `getCoops` then returns `DEFAULT_COOPS`,
        which still holds every coop added while the key was absent. */
    method DeleteAllCoops()
      modifies this`coops
      ensures coops == None
      ensures GetCoops() == defaultCoops
    {
      coops := None;
    }

    /** `deleteAllCoops` as evidently intended: no coop remains, and a later
        `addCoop` starts from an empty list. */
    method ClearAllCoops()
      modifies this`coops
      ensures coops == Some([])
      ensures GetCoops() == []
    {
      coops := Some([]);
    }

    /** `addMemento`: a new item with id `'mem_' + now`, depth 1 and active, first. */
    method AddMemento(content: string, tags: seq<string>, now: nat, timestamp: string) returns (m: Mementos.Memento)
      modifies this`mementos
      ensures m == Mementos.NewMemento("mem_" + Text.DecimalString(now), content, tags, timestamp)
      ensures mementos == [m] + old(mementos)
    {
      m := Mementos.NewMemento("mem_" + Text.DecimalString(now), content, tags, timestamp);
      mementos := [m] + mementos;
    }

    /** `updateMemento`: returns the item found by id (after the edit), or undefined. */
    method UpdateMemento(id: string, content: string, tags: seq<string>, timestamp: string) returns (r: Option<Mementos.Memento>)
      modifies this`mementos
      ensures mementos == Mementos.Edited(old(mementos), id, content, tags, timestamp)
      ensures match Mementos.FindMemento(old(mementos), id)
        case None => r == None
        case Some(i) => r == Some(mementos[i])
    {
      var k := Mementos.FindMemento(mementos, id);
      if k.None? {
        return None;
      }
      var i := k.value;
      mementos := mementos[i := mementos[i].(content := content, tags := tags, updatedAt := timestamp)];
      return Some(mementos[i]);
    }

    /** `changeMementoDepth`: true, and the depth moved, exactly when the item
        exists and the new depth stays in 1..3; otherwise false and no change. */
    method ChangeMementoDepth(id: string, delta: int, timestamp: string) returns (ok: bool)
      modifies this`mementos
      ensures var r := Mementos.DepthChanged(old(mementos), id, delta, timestamp);
        ok == r.Some? && mementos == r.GetOr(old(mementos))
      ensures Mementos.DepthsInRange(old(mementos)) ==> Mementos.DepthsInRange(mementos)
    {
      ghost var before := mementos;
      if Mementos.DepthsInRange(before) {
        Mementos.DepthChangedKeepsRange(before, id, delta, timestamp);
      }
      var k := Mementos.FindMemento(mementos, id);
      if k.Some? {
        var i := k.value;
        var newDepth := mementos[i].depth + delta;
        if 1 <= newDepth <= Mementos.MEMENTOS_MAX_DEPTH {
          mementos := mementos[i := mementos[i].(depth := newDepth, updatedAt := timestamp)];
          return true;
        }
      }
      return false;
    }

    /** `deleteMemento`: the list is rewritten only when the id exists. */
    method DeleteMemento(id: string)
      modifies this`mementos
      ensures mementos == Mementos.WithoutMemento(old(mementos), id)
    {
      var k := Mementos.FindMemento(mementos, id);
      if k.Some? {
        mementos := Mementos.WithoutMemento(mementos, id);
      } else {
        Seqs.FilterKeepsAll((m: Mementos.Memento) => m.id != id, mementos);
      }
    }

    /** `convertMementoToTask`: for an existing id, one todo `[tags] content` is
        added for `dateStr` and the item is marked converted; an unknown id
        returns false and changes nothing. An item already converted is converted
        again. */
    method ConvertMementoToTask(id: string, dateStr: string, now: nat, timestamp: string) returns (ok: bool)
      modifies this`mementos, this`todos
      ensures var k := Mementos.FindMemento(old(mementos), id);
        ok == k.Some? &&
        (k.None? ==> mementos == old(mementos) && todos == old(todos)) &&
        (k.Some? ==>
          mementos == Mementos.MarkedConverted(old(mementos), k.value, timestamp) &&
          todos == old(todos) + [Todo.NewTodo("todo_" + Text.DecimalString(now),
                                              Mementos.TaskText(old(mementos)[k.value]), dateStr, timestamp)])
    {
      var k := Mementos.FindMemento(mementos, id);
      if k.None? {
        return false;
      }
      var i := k.value;
      var item := mementos[i];
      var created := AddTodo(Mementos.TaskText(item), dateStr, now, timestamp);
      mementos := mementos[i := item.(status := Mementos.Converted, updatedAt := timestamp)];
      return true;
    }

    /** `getTodosByDate`. */
    function GetTodosByDate(dateStr: string): seq<Todo.Todo> reads this {
      Todo.TodosByDate(todos, dateStr)
    }

    /** `addTodo`: a todo with id `'todo_' + now`, not completed, appended. */
    method AddTodo(text: string, dateStr: string, now: nat, timestamp: string) returns (t: Todo.Todo)
      modifies this`todos
      ensures t == Todo.NewTodo("todo_" + Text.DecimalString(now), text, dateStr, timestamp)
      ensures todos == old(todos) + [t]
    {
      t := Todo.NewTodo("todo_" + Text.DecimalString(now), text, dateStr, timestamp);
      todos := todos + [t];
    }

    /** `toggleTodo`: returns the todo found by id (after the flip), or undefined. */
    method ToggleTodo(todoId: string) returns (r: Option<Todo.Todo>)
      modifies this`todos
      ensures todos == Todo.Toggled(old(todos), todoId)
      ensures match Todo.FindTodo(old(todos), todoId)
        case None => r == None
        case Some(i) => r == Some(todos[i])
    {
      var k := Todo.FindTodo(todos, todoId);
      if k.None? {
        return None;
      }
      var i := k.value;
      todos := todos[i := todos[i].(completed := !todos[i].completed)];
      return Some(todos[i]);
    }

    /** `deleteTodo`. */
    method DeleteTodo(todoId: string)
      modifies this`todos
      ensures todos == Todo.WithoutTodo(old(todos), todoId)
    {
      todos := Todo.WithoutTodo(todos, todoId);
    }
  }

  /** A coop added while the coop key is absent lives on in `DEFAULT_COOPS`:
      after `deleteAllCoops` it is listed again, and the next `addCoop` saves it
      together with the new one. */
  method DeleteAllCoopsKeepsEarlierCoop(now1: nat, now2: nat, createdAt: string)
    returns (listed: seq<Coop.Coop>, saved: seq<Coop.Coop>)
    ensures listed == [Coop.NewCoop("coop_" + Text.DecimalString(now1), "A", "friend", "", createdAt)]
    ensures saved == [listed[0], Coop.NewCoop("coop_" + Text.DecimalString(now2), "B", "friend", "", createdAt)]
  {
    var store := new Store();
    var a := store.AddCoop("A", "friend", "", now1, createdAt);
    store.DeleteAllCoops();
    listed := store.GetCoops();
    var b := store.AddCoop("B", "friend", "", now2, createdAt);
    saved := store.GetCoops();
  }

  /** The same steps with the corrected `ClearAllCoops`: nothing is listed after
      the clear, and the next `addCoop` saves only the new coop. */
  method ClearAllCoopsForgetsEarlierCoop(now1: nat, now2: nat, createdAt: string)
    returns (listed: seq<Coop.Coop>, saved: seq<Coop.Coop>)
    ensures listed == []
    ensures saved == [Coop.NewCoop("coop_" + Text.DecimalString(now2), "B", "friend", "", createdAt)]
  {
    var store := new Store();
    var a := store.AddCoop("A", "friend", "", now1, createdAt);
    store.ClearAllCoops();
    listed := store.GetCoops();
    var b := store.AddCoop("B", "friend", "", now2, createdAt);
    saved := store.GetCoops();
  }
}
