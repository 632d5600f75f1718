/**
 * The components wired together as the application renders them (App.tsx):
 * the map and the panel receive `activeId`; their `onSelect`, `onBack` and
 * `onPhotoZoom` callbacks are `handleSelect`, `handleBack` and `openZoom`;
 * every change of `activeId` reaches the map's transition controller.
 */
module Session {
  import opened Types
  import opened LocationTree
  import opened Callbacks
  import opened MapView
  import opened Transition
  import opened Panel
  import opened AppState
  import Constants

  /** Everything the user can see change: the navigation, the focus modal and the map's transition state. */
  datatype Screen = Screen(nav: Nav, modal: Modal, frame: Frame)

  /** Each part consistent, and the map's controller has seen the active id. */
  ghost predicate ScreenOk(t: Table, s: Screen)
  {
    && NavOk(t, s.nav) && ModalOk(s.modal) && FrameOk(t, s.frame)
    && s.frame.prevId == s.nav.activeId
  }

  /** A callback the handlers can run: selected ids are keys, zoomed locations have a first screen. */
  predicate Accepts(t: Table, cb: Callback)
  {
    && (cb.OnSelect? ==> cb.id in Index(t))
    && (cb.OnPhotoZoom? ==> AdsShowable(cb.location))
  }

  /** One callback delivered to its handler, then the map re-rendered with the resulting `activeId`. */
  function Dispatch(t: Table, s: Screen, cb: Callback): (r: Screen)
    requires ScreenOk(t, s) && Accepts(t, cb)
    ensures ScreenOk(t, r)
  {
    match cb
    case OnSelect(id) =>
      SelectOk(t, s.nav, id);
      var n := SelectNav(t, s.nav, id);
      NavigateOk(t, s.frame, n.activeId);
      Screen(n, s.modal, NavigateFrame(t, s.frame, n.activeId))
    case OnBack =>
      BackOk(t, s.nav);
      var n := BackNav(t, s.nav);
      NavigateOk(t, s.frame, n.activeId);
      Screen(n, s.modal, NavigateFrame(t, s.frame, n.activeId))
    case OnPhotoZoom(loc) =>
      OpenOk(s.modal, loc);
      Screen(s.nav, OpenModal(s.modal, loc), s.frame)
  }

  /** The callbacks of one click, delivered in order. */
  function DispatchAll(t: Table, s: Screen, cbs: seq<Callback>): (r: Screen)
    requires ScreenOk(t, s) && forall k :: 0 <= k < |cbs| ==> Accepts(t, cbs[k])
    ensures ScreenOk(t, r)
    decreases |cbs|
  {
    if cbs == [] then s
    else DispatchAll(t, Dispatch(t, s, cbs[0]), cbs[1..])
  }

  /** The `k`-th panel item is the `k`-th child: a key one level below the current location, so never the current one. */
  lemma PanelItemIsChild(t: Table, current: Id, k: int)
    requires WellFormed(t) && current in Index(t) && 0 <= k < |Items(t, current)|
    ensures Items(t, current)[k].id == ChildIds(Index(t)[current])[k]
    ensures Items(t, current)[k].id in Index(t)
    ensures Rank(Index(t)[Items(t, current)[k].id].level) == Rank(Index(t)[current].level) + 1
    ensures Items(t, current)[k].id != current
  {
    ItemsAreChildren(t, current);
    var cs := ChildIds(Index(t)[current]);
    var i :| 0 <= i < |t| && t[i].key == current;
    IndexAt(t, i);
    assert cs[k] in ChildIds(t[i].loc);
  }

  /**
   * Clicking a panel item whose id is another key makes it active and pushes
   * the current id; the back button then restores the navigation.
   */
  lemma PanelItemThenBack(t: Table, s: Screen, item: Location)
    requires KeysNonEmpty(t) && ScreenOk(t, s) && item.id in Index(t) && item.id != s.nav.activeId
    ensures ItemClick(item) == [OnSelect(item.id)]
    ensures var r := DispatchAll(t, s, ItemClick(item));
      && r.nav.activeId == item.id && r.nav.history == s.nav.history + [s.nav.activeId]
      && DispatchAll(t, r, BackClick()).nav == s.nav
  {
    var r := Dispatch(t, s, OnSelect(item.id));
    assert DispatchAll(t, s, [OnSelect(item.id)]) == r;
    SelectThenBack(t, s.nav, item.id);
    assert DispatchAll(t, r, [OnBack]) == Dispatch(t, r, OnBack);
  }

  /** A pin drawn for a region is a stored region with a photo and at least one ad screen. */
  lemma RegionPinFacts(t: Table, activeId: Id, isZooming: bool, p: Location)
    requires WellFormed(t) && RegionAssets(t) && activeId in Index(t)
    requires p in VisiblePins(t, activeId, isZooming) && p.level == Region
    ensures p.id in Index(t) && Truthy(p.thumbnailUrl) && p.ads.Some? && |p.ads.value| > 0
  {
    var c :| c in Index(t) && p == Index(t)[c];
    var i :| 0 <= i < |t| && t[i].key == c;
    IndexAt(t, i);
  }

  /**
   * Clicking the pin of a stored region with a photo opens the focus modal on
   * that region from its first screen and makes the region active.
   */
  lemma RegionPinClick(t: Table, s: Screen, p: Location)
    requires ScreenOk(t, s) && p.id in Index(t) && p.level == Region
    requires Truthy(p.thumbnailUrl) && AdsShowable(p)
    ensures PinClick(p) == [OnPhotoZoom(p), OnSelect(p.id)]
    ensures var r := DispatchAll(t, s, PinClick(p));
      r.modal == Modal(Some(p), 0) && r.nav.activeId == p.id
  {
    var cbs := PinClick(p);
    var s1 := Dispatch(t, s, OnPhotoZoom(p));
    var s2 := Dispatch(t, s1, OnSelect(p.id));
    assert cbs[1..] == [OnSelect(p.id)];
    assert DispatchAll(t, s1, cbs[1..]) == s2;
  }
}
