/** Idea ("memento") engine (js/mementos.js): notes with a depth in 1..3 that
    moves one step at a time, and their conversion into a todo. */
module Mementos {
  import opened Wrappers
  import Seqs
  import Text

  const MEMENTOS_MAX_DEPTH: int := 3

  /** `archived` is declared by the source but no operation sets it. */
  datatype Status = Active | Archived | Converted

  datatype Memento = Memento(id: string, content: string, tags: seq<string>, depth: int,
                             status: Status, createdAt: string, updatedAt: string)

  /** Every memento's depth lies in 1..3. */
  ghost predicate DepthsInRange(list: seq<Memento>) {
    forall i :: 0 <= i < |list| ==> 1 <= list[i].depth <= MEMENTOS_MAX_DEPTH
  }

  /** The item `addMemento` puts first: depth 1, active. */
  function NewMemento(id: string, content: string, tags: seq<string>, timestamp: string): (m: Memento)
    ensures m.depth == 1 && m.status == Active
    ensures m.id == id && m.content == content && m.tags == tags
    ensures m.createdAt == timestamp && m.updatedAt == timestamp
  {
    Memento(id, content, tags, 1, Active, timestamp, timestamp)
  }

  /** Index of the item `list.find(m => m.id === id)` finds. */
  function FindMemento(list: seq<Memento>, id: string): (r: Option<nat>)
    ensures r.Some? ==> r.value < |list| && list[r.value].id == id
    ensures r.Some? ==> forall j :: 0 <= j < r.value ==> list[j].id != id
    ensures r.None? <==> forall j :: 0 <= j < |list| ==> list[j].id != id
  {
    Seqs.FindFirst((m: Memento) => m.id == id, list)
  }

  /** `updateMemento`: the item found by id gets the new content, tags and
      update time; nothing else changes, and a missing id changes nothing. */
  function Edited(list: seq<Memento>, id: string, content: string, tags: seq<string>, timestamp: string): (r: seq<Memento>)
    ensures |r| == |list|
    ensures match FindMemento(list, id)
      case None => r == list
      case Some(i) => r[i] == list[i].(content := content, tags := tags, updatedAt := timestamp) &&
                      forall j :: 0 <= j < |list| && j != i ==> r[j] == list[j]
  {
    Seqs.UpdateFirst((m: Memento) => m.id == id,
                     (m: Memento) => m.(content := content, tags := tags, updatedAt := timestamp), list)
  }

  /** `changeMementoDepth`: the list with the found item moved by `delta`, or
      None (the call returns false and nothing is saved) when the id is missing or
      the new depth would leave 1..3. */
  function DepthChanged(list: seq<Memento>, id: string, delta: int, timestamp: string): (r: Option<seq<Memento>>)
    ensures r.Some? <==> var k := FindMemento(list, id);
      k.Some? && 1 <= list[k.value].depth + delta <= MEMENTOS_MAX_DEPTH
    ensures r.Some? ==> var i := FindMemento(list, id).value;
      |r.value| == |list| &&
      r.value[i] == list[i].(depth := list[i].depth + delta, updatedAt := timestamp) &&
      forall j :: 0 <= j < |list| && j != i ==> r.value[j] == list[j]
  {
    match FindMemento(list, id)
    case None => None
    case Some(i) =>
      var newDepth := list[i].depth + delta;
      if 1 <= newDepth <= MEMENTOS_MAX_DEPTH
      then Some(list[i := list[i].(depth := newDepth, updatedAt := timestamp)])
      else None
  }

  /** A depth change never takes a well-formed list out of 1..3. */
  lemma DepthChangedKeepsRange(list: seq<Memento>, id: string, delta: int, timestamp: string)
    requires DepthsInRange(list)
    ensures DepthsInRange(DepthChanged(list, id, delta, timestamp).GetOr(list))
  {
  }

  /** Surfacing from depth 1 is refused; surfacing from depth 2 reaches depth 1. */
  lemma SurfaceExamples(m: Memento, timestamp: string)
    ensures DepthChanged([m.(depth := 1)], m.id, -1, timestamp) == None
    ensures DepthChanged([m.(depth := 2)], m.id, -1, timestamp) ==
            Some([m.(depth := 1, updatedAt := timestamp)])
  {
    assert FindMemento([m.(depth := 1)], m.id) == Some(0);
    assert FindMemento([m.(depth := 2)], m.id) == Some(0);
    assert [m.(depth := 2)][0 := m.(depth := 1, updatedAt := timestamp)] == [m.(depth := 1, updatedAt := timestamp)];
  }

  /** `deleteMemento`: the items with that id removed, the rest kept in order. */
  function WithoutMemento(list: seq<Memento>, id: string): (r: seq<Memento>)
    ensures Seqs.Subsequence(r, list)
    ensures forall j :: 0 <= j < |r| ==> r[j].id != id
    ensures forall j :: 0 <= j < |list| && list[j].id != id ==> list[j] in r
    ensures forall x :: multiset(r)[x] == if x.id != id then multiset(list)[x] else 0
  {
    var keep := (m: Memento) => m.id != id;
    Seqs.FilterCounts(keep, list);
    Seqs.Filter(keep, list)
  }

  /** The todo text `convertMementoToTask` composes: `[tag1/tag2] content`. */
  function TaskText(m: Memento): (text: string)
  {
    "[" + Text.Join(m.tags, "/") + "] " + m.content
  }

  lemma TaskTextExamples(m: Memento)
    ensures TaskText(m.(tags := ["work", "idea"], content := "plan")) == "[work/idea] plan"
    ensures TaskText(m.(tags := [], content := "plan")) == "[] plan"
  {
    assert ["work", "idea"][1..] == ["idea"];
  }

  /** The item at `i` marked converted; nothing else changes. */
  function MarkedConverted(list: seq<Memento>, i: nat, timestamp: string): (r: seq<Memento>)
    requires i < |list|
    ensures |r| == |list|
    ensures r[i] == list[i].(status := Converted, updatedAt := timestamp)
    ensures forall j :: 0 <= j < |list| && j != i ==> r[j] == list[j]
  {
    list[i := list[i].(status := Converted, updatedAt := timestamp)]
  }

  /** Conversion is not guarded: the converted item is still found by its id, so
      converting it again succeeds again (and adds another todo). */
  lemma ConvertedStillFound(list: seq<Memento>, i: nat, timestamp: string, id: string)
    requires i < |list|
    ensures FindMemento(MarkedConverted(list, i, timestamp), id) == FindMemento(list, id)
  {
    var after := MarkedConverted(list, i, timestamp);
    assert forall j :: 0 <= j < |list| ==> after[j].id == list[j].id;
  }

  /** The list `renderMementosList(depth)` shows: the active items at that depth,
      in stored order. */
  function DepthListing(list: seq<Memento>, depth: int): (r: seq<Memento>)
    ensures Seqs.Subsequence(r, list)
    ensures forall j :: 0 <= j < |r| ==> r[j].depth == depth && r[j].status == Active
    ensures forall j :: 0 <= j < |list| && list[j].depth == depth && list[j].status == Active ==> list[j] in r
    ensures forall x :: multiset(r)[x] == if x.depth == depth && x.status == Active then multiset(list)[x] else 0
  {
    var keep := (m: Memento) => m.depth == depth && m.status == Active;
    Seqs.FilterCounts(keep, list);
    Seqs.Filter(keep, list)
  }
}
