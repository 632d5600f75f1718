/**
 * The values the map component derives from the active location
 * (components/MapFrame.tsx): the embedded map to show, the pins to draw and
 * what clicking a pin does.
 */
module MapView {
  import opened Types
  import opened LocationTree
  import opened Callbacks

  /**
   * `nearestEmbedUrl`: the active location's own embed when it has one,
   * otherwise the embed found by walking up the parents.
   */
  function NearestEmbedUrl(t: Table, activeId: Id): (r: Option<string>)
    requires WellFormed(t) && activeId in Index(t)
    ensures r.None? || Truthy(r)
  {
    var current := Index(t)[activeId];
    if Truthy(current.embedUrl) then current.embedUrl
    else FindParentEmbed(t, activeId)
  }

  /**
   * `findParentEmbed`: the first location listing `id` as a child; its embed
   * when it has one, otherwise the search continues from it; `undefined` at
   * the top. The walk ends because every step goes one level up.
   */
  function FindParentEmbed(t: Table, id: Id): (r: Option<string>)
    requires WellFormed(t)
    ensures r.None? || Truthy(r)
    decreases Height(t, id)
  {
    match FindParent(t, id)
    case None => None
    case Some(parent) =>
      if Truthy(parent.embedUrl) then parent.embedUrl
      else
        ParentIsHigher(t, id);
        FindParentEmbed(t, parent.id)
  }

  /** The level of the location stored under `id`. */
  function LevelOf(t: Table, id: Id): Level
    requires id in Index(t)
  {
    Index(t)[id].level
  }

  /** A location without an embed of its own shows the embed of the location listing it, when that one has an embed. */
  lemma EmbedFromParent(t: Table, i: int, id: Id)
    requires WellFormed(t) && 0 <= i < |t| && id in ChildIds(t[i].loc)
    requires id in Index(t) && !Truthy(Index(t)[id].embedUrl) && Truthy(t[i].loc.embedUrl)
    ensures NearestEmbedUrl(t, id) == t[i].loc.embedUrl
  {
    FindParentIsTheParent(t, i, id);
  }

  /** The country has no parent, so it shows an embed exactly when it has one of its own. */
  lemma CountryEmbed(t: Table, id: Id)
    requires WellFormed(t) && id in Index(t) && LevelOf(t, id) == Country
    ensures NearestEmbedUrl(t, id).None? <==> !Truthy(Index(t)[id].embedUrl)
  {
    RootHasNoParent(t, id);
  }

  /** With embeds only on provinces, the country shows no embed and a province shows its own. */
  lemma NearestEmbedByLevel(t: Table, id: Id)
    requires WellFormed(t) && EmbedsOnProvinces(t) && id in Index(t)
    ensures LevelOf(t, id) == Country ==> NearestEmbedUrl(t, id).None?
    ensures LevelOf(t, id) == Province ==> NearestEmbedUrl(t, id) == Index(t)[id].embedUrl
  {
    var k :| 0 <= k < |t| && t[k].key == id;
    IndexAt(t, k);
    if LevelOf(t, id) == Country {
      RootHasNoParent(t, id);
    }
  }

  /** With embeds only on provinces, a region shows the embed of the province that lists it. */
  lemma RegionEmbed(t: Table, id: Id) returns (i: int)
    requires WellFormed(t) && EmbedsOnProvinces(t) && id in Index(t) && LevelOf(t, id) == Region
    ensures 0 <= i < |t| && id in ChildIds(t[i].loc) && t[i].loc.level == Province
    ensures NearestEmbedUrl(t, id) == t[i].loc.embedUrl
  {
    var k :| 0 <= k < |t| && t[k].key == id;
    IndexAt(t, k);
    i := ParentOf(t, id);
    EmbedFromParent(t, i, id);
  }

  /**
   * The location whose children are drawn below the country level: the
   * province itself, or for a region the first location listing it.
   */
  function PinTarget(t: Table, activeId: Id): (r: Option<Id>)
    requires WellFormed(t) && activeId in Index(t) && LevelOf(t, activeId) != Country
    ensures r.Some? ==> r.value in Index(t)
    ensures LevelOf(t, activeId) == Region && r.Some? ==>
      exists i :: 0 <= i < |t| && activeId in ChildIds(t[i].loc) && r.value == t[i].key
  {
    if LevelOf(t, activeId) == Province then Some(activeId)
    else
      match FindParent(t, activeId)
      case None => None
      case Some(parent) =>
        ParentIsHigher(t, activeId);
        var i :| 0 <= i < |t| && parent == t[i].loc && activeId in ChildIds(t[i].loc);
        Some(parent.id)
  }

  /**
   * `visiblePins`: nothing while zooming; the children of the country or of
   * the active province; for a region, the children of the location listing
   * it. Ids that do not resolve are dropped.
   */
  function VisiblePins(t: Table, activeId: Id, isZooming: bool): (pins: seq<Location>)
    requires WellFormed(t) && activeId in Index(t)
    ensures isZooming ==> pins == []
    ensures forall p :: p in pins ==> exists c :: c in Index(t) && p == Index(t)[c]
  {
    if isZooming then []
    else if LevelOf(t, activeId) == Country then ResolveIds(t, ChildIds(Index(t)[activeId]))
    else
      var targetId := PinTarget(t, activeId);
      if Truthy(targetId) then ResolveIds(t, ChildIds(Index(t)[targetId.value])) else []
  }

  /**
   * At country and province level, out of a zoom, the pins are the active
   * location's children, all of them, in declared order, one level down.
   */
  lemma PinsAreChildren(t: Table, activeId: Id)
    requires WellFormed(t) && activeId in Index(t) && LevelOf(t, activeId) != Region
    ensures var pins := VisiblePins(t, activeId, false);
      var cs := ChildIds(Index(t)[activeId]);
      && |pins| == |cs|
      && (forall k :: 0 <= k < |pins| ==> pins[k].id == cs[k])
      && (forall p :: p in pins ==> Rank(p.level) == Rank(LevelOf(t, activeId)) + 1)
  {
    var i :| 0 <= i < |t| && t[i].key == activeId;
    IndexAt(t, i);
    ChildrenResolved(t, i);
    assert Truthy(Some(activeId));
  }

  /**
   * At region level, out of a zoom, the pins are all the children of the
   * province listing the region, in declared order: the region and its
   * siblings, all regions.
   */
  lemma RegionPinsAreSiblings(t: Table, activeId: Id) returns (i: int)
    requires WellFormed(t) && activeId in Index(t) && LevelOf(t, activeId) == Region
    ensures 0 <= i < |t| && activeId in ChildIds(t[i].loc) && t[i].loc.level == Province
    ensures var pins := VisiblePins(t, activeId, false);
      && |pins| == |ChildIds(t[i].loc)|
      && (forall k :: 0 <= k < |pins| ==> pins[k].id == ChildIds(t[i].loc)[k])
      && Index(t)[activeId] in pins
      && (forall p :: p in pins ==> p.level == Region)
  {
    i := RegionTarget(t, activeId);
    var cs := ChildIds(t[i].loc);
    assert Index(t)[activeId] in ResolveIds(t, cs) by {
      ResolveIdsComplete(t, cs, activeId);
    }
    ChildrenResolved(t, i);
  }

  /** At region level, out of a zoom, the pins are drawn from the children of the province listing the region. */
  lemma RegionTarget(t: Table, activeId: Id) returns (i: int)
    requires WellFormed(t) && activeId in Index(t) && LevelOf(t, activeId) == Region
    ensures 0 <= i < |t| && activeId in ChildIds(t[i].loc) && t[i].loc.level == Province
    ensures VisiblePins(t, activeId, false) == ResolveIds(t, ChildIds(t[i].loc))
  {
    i := ParentOf(t, activeId);
    assert PinTarget(t, activeId) == Some(t[i].key);
  }

  /**
   * The callbacks one click on a pin fires, in order: a region drawn as a
   * photo opens the focus modal and then selects; every other pin only selects.
   */
  function PinClick(pin: Location): (r: seq<Callback>)
    ensures |r| > 0 && r[|r| - 1] == OnSelect(pin.id)
    ensures OnPhotoZoom(pin) in r <==> pin.level == Region && Truthy(pin.thumbnailUrl)
    ensures forall c :: c in r ==> c == OnSelect(pin.id) || c == OnPhotoZoom(pin)
    ensures |r| == if pin.level == Region && Truthy(pin.thumbnailUrl) then 2 else 1
  {
    var showAsImage := pin.level == Region && Truthy(pin.thumbnailUrl);
    if showAsImage then
      (if pin.level == Region then [OnPhotoZoom(pin)] else []) + [OnSelect(pin.id)]
    else
      [OnSelect(pin.id)]
  }

  /** When every region carries its photo, clicking a stored region opens the modal on it first. */
  lemma StoredRegionZooms(t: Table, c: Id)
    requires DistinctKeys(t) && RegionAssets(t)
    requires c in Index(t) && Index(t)[c].level == Region
    ensures PinClick(Index(t)[c]) == [OnPhotoZoom(Index(t)[c]), OnSelect(Index(t)[c].id)]
  {
    var i :| 0 <= i < |t| && t[i].key == c;
    IndexAt(t, i);
  }

  /** When every region carries its photo, clicking any region pin opens the modal on it first. */
  lemma RegionPinsZoom(t: Table, activeId: Id, isZooming: bool)
    requires WellFormed(t) && RegionAssets(t) && activeId in Index(t)
    ensures forall p :: p in VisiblePins(t, activeId, isZooming) && p.level == Region ==>
      PinClick(p) == [OnPhotoZoom(p), OnSelect(p.id)]
  {
    var pins := VisiblePins(t, activeId, isZooming);
    forall p | p in pins && p.level == Region
      ensures PinClick(p) == [OnPhotoZoom(p), OnSelect(p.id)]
    {
      var c :| c in Index(t) && p == Index(t)[c];
      StoredRegionZooms(t, c);
    }
  }
}
