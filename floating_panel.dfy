/**
 * The side panel (components/FloatingPanel.tsx): the list of the current
 * location's children, the back button with its label, and what clicking
 * them does.
 */
module Panel {
  import opened Types
  import opened LocationTree
  import opened Callbacks

  /** What the panel shows: its items, and the back button's label when the button is there. */
  datatype PanelView = PanelView(items: seq<Location>, backLabel: Option<string>)

  /** `items`: the current location's children resolved in order, unknown ids dropped; none for an unknown id. */
  function Items(t: Table, currentId: Id): (items: seq<Location>)
    ensures currentId !in Index(t) ==> items == []
  {
    var children := match Get(t, currentId)
      case None => []
      case Some(current) => ChildIds(current);
    ResolveIds(t, children)
  }

  /** The back button's label: shown exactly when there is history, never empty. */
  function BackLabel(t: Table, history: seq<Id>): (text: Option<string>)
    ensures text.Some? <==> |history| > 0
    ensures text.Some? ==> text.value != ""
    ensures |history| > 0 && (history[|history| - 1] !in Index(t) || Index(t)[history[|history| - 1]].name == "")
            ==> text == Some("Previous")
  {
    if |history| == 0 then None
    else
      match Get(t, history[|history| - 1])
      case Some(previous) => Some(if previous.name != "" then previous.name else "Previous")
      case None => Some("Previous")
  }

  /** The panel for `currentId`, or nothing at all when `currentId` is not a key. */
  function Render(t: Table, currentId: Id, history: seq<Id>): (r: Option<PanelView>)
    ensures r.None? <==> currentId !in Index(t)
    ensures r.Some? ==> r.value.items == Items(t, currentId) && r.value.backLabel == BackLabel(t, history)
  {
    if currentId in Index(t) then Some(PanelView(Items(t, currentId), BackLabel(t, history)))
    else None
  }

  /** Clicking an item selects exactly that item. */
  function ItemClick(item: Location): (r: seq<Callback>)
    ensures |r| == 1 && r[0].OnSelect? && r[0].id == item.id
  {
    [OnSelect(item.id)]
  }

  /** Clicking the back button goes back. */
  function BackClick(): (r: seq<Callback>)
    ensures |r| == 1 && r[0].OnBack?
  {
    [OnBack]
  }

  /** In a well-formed table the items are all the current location's children, in declared order, one level down. */
  lemma ItemsAreChildren(t: Table, currentId: Id)
    requires WellFormed(t) && currentId in Index(t)
    ensures var items := Items(t, currentId);
      var cs := ChildIds(Index(t)[currentId]);
      && |items| == |cs|
      && (forall k :: 0 <= k < |items| ==> items[k].id == cs[k])
      && (forall p :: p in items ==> Rank(p.level) == Rank(Index(t)[currentId].level) + 1)
  {
    var i :| 0 <= i < |t| && t[i].key == currentId;
    IndexAt(t, i);
    ChildrenResolved(t, i);
  }

  /** The label names the location on top of the history whenever it is a key with a non-empty name. */
  lemma BackLabelNamesPrevious(t: Table, history: seq<Id>)
    requires |history| > 0 && history[|history| - 1] in Index(t)
    requires Index(t)[history[|history| - 1]].name != ""
    ensures BackLabel(t, history) == Some(Index(t)[history[|history| - 1]].name)
  {
  }
}
