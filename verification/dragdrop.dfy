/** The drag-and-drop board: items in three lists, a dragged item, and the
    drop that moves it. */
module DragDrop {
  import Seqs
  import opened Wrappers

  datatype Item = Item(id: string, text: string, list: string)

  datatype Board = Board(items: seq<Item>, dragged: Option<string>)

  const Todo: string := "todo"
  const InProgress: string := "in-progress"
  const Done: string := "done"

  /** The drop zones, in display order. */
  const Lists: seq<string> := [Todo, InProgress, Done]

  const InitialBoard: Board := Board([
    Item("1", "Tâche 1", Todo),
    Item("2", "Tâche 2", Todo),
    Item("3", "Tâche 3", InProgress),
    Item("4", "Tâche 4", Done)], None)

  /** `handleDragStart`. */
  function DragStart(b: Board, id: string): (r: Board)
    ensures r.items == b.items && r.dragged == Some(id)
  {
    b.(dragged := Some(id))
  }

  /** `handleDrop`: without a (non-empty) dragged id nothing happens;
      otherwise every item with that id moves to `target` and the drag ends. */
  function Drop(b: Board, target: string): (r: Board)
    ensures b.dragged.None? || b.dragged == Some("") ==> r == b
    ensures b.dragged.Some? && b.dragged.value != "" ==>
              && r.dragged.None?
              && |r.items| == |b.items|
              && forall i :: 0 <= i < |r.items| ==>
                   && r.items[i].id == b.items[i].id
                   && r.items[i].text == b.items[i].text
                   && r.items[i].list == (if b.items[i].id == b.dragged.value then target else b.items[i].list)
  {
    match b.dragged
    case None => b
    case Some(id) =>
      if id == "" then b
      else
        var moved := seq(|b.items|, i requires 0 <= i < |b.items| =>
                       if b.items[i].id == id then b.items[i].(list := target) else b.items[i]);
        Board(moved, None)
  }

  /** The items shown in one drop zone, in board order. */
  function Column(items: seq<Item>, listId: string): (r: seq<Item>)
    ensures forall x :: x in r <==> x in items && x.list == listId
  {
    Seqs.Filter(items, InList(listId))
  }

  function InList(listId: string): Item -> bool {
    (x: Item) => x.list == listId
  }

  /** A column of a non-empty board: the head, if it belongs, then the
      column of the rest. */
  lemma ColumnCons(items: seq<Item>, listId: string)
    requires |items| > 0
    ensures |Column(items, listId)| == (if items[0].list == listId then 1 else 0) + |Column(items[1..], listId)|
  {
  }

  /** Dragging an item and dropping it on a zone shows it in that zone. */
  lemma DropLandsInTarget(b: Board, id: string, target: string, k: nat)
    requires id != "" && k < |b.items| && b.items[k].id == id
    ensures b.items[k].(list := target) in Column(Drop(DragStart(b, id), target).items, target)
  {
    var r := Drop(DragStart(b, id), target);
    assert r.items[k] == b.items[k].(list := target);
  }

  /** Picking an item up and putting it back on the list it came from leaves
      the items as they were; only the drag ends. */
  lemma DropOnOwnList(b: Board, id: string, listId: string)
    requires id != ""
    requires forall i :: 0 <= i < |b.items| && b.items[i].id == id ==> b.items[i].list == listId
    ensures Drop(DragStart(b, id), listId) == b.(dragged := None)
  {
    var r := Drop(DragStart(b, id), listId);
    assert r.items == b.items by {
      forall i | 0 <= i < |b.items| ensures r.items[i] == b.items[i] {
        if b.items[i].id == id {
          assert b.items[i].(list := listId) == b.items[i];
        }
      }
    }
  }

  /** Every item sits in one of the three lists. */
  predicate OnBoard(items: seq<Item>) {
    forall i :: 0 <= i < |items| ==> IsList(items[i].list)
  }

  predicate IsList(l: string) {
    l == Todo || l == InProgress || l == Done
  }

  /** The three list ids are distinct. */
  lemma ListsDistinct()
    ensures Todo != InProgress && Todo != Done && InProgress != Done
  {
    assert |Todo| != |InProgress| && |Done| != |InProgress|;
    assert Todo[0] != Done[0];
  }

  /** Drops onto the zones keep every item on the board. */
  lemma DropKeepsOnBoard(b: Board, target: string)
    requires OnBoard(b.items) && IsList(target)
    ensures OnBoard(Drop(b, target).items)
  {
  }

  /** When every item sits in one of the lists, the three columns together
      show each item exactly once. */
  lemma {:induction false} ColumnsPartition(items: seq<Item>)
    requires OnBoard(items)
    ensures |Column(items, Todo)| + |Column(items, InProgress)| + |Column(items, Done)| == |items|
  {
    if |items| > 0 {
      ColumnsPartition(items[1..]);
      ColumnCons(items, Todo);
      ColumnCons(items, InProgress);
      ColumnCons(items, Done);
      ListsDistinct();
      assert items[0].list == Todo || items[0].list == InProgress || items[0].list == Done;
    }
  }

  /** The initial board has every item on a list, two of them to do. */
  lemma InitialColumns()
    ensures OnBoard(InitialBoard.items)
    ensures |Column(InitialBoard.items, Todo)| == 2
  {
    var s := InitialBoard.items;
    ListsDistinct();
    assert s[0].list == Todo && s[1].list == Todo;
    assert s[2].list == InProgress && s[3].list == Done;
    TwoThenOthers(s, Todo);
  }

  /** Four items of which exactly the first two are in `listId` make a
      column of two. */
  lemma TwoThenOthers(s: seq<Item>, listId: string)
    requires |s| == 4
    requires s[0].list == listId && s[1].list == listId
    requires s[2].list != listId && s[3].list != listId
    ensures |Column(s, listId)| == 2
  {
    ColumnCons(s[3..], listId);
    assert s[3..][1..] == [];
    ColumnCons(s[2..], listId);
    assert s[2..][1..] == s[3..];
    ColumnCons(s[1..], listId);
    assert s[1..][1..] == s[2..];
    ColumnCons(s, listId);
  }
}
