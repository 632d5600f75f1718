/** The fixed location dataset `LOCATIONS` (constants.ts), in declaration order. */
module Constants {
  import opened Types
  import opened LocationTree

  const Iraq := Location(
    "iraq", "Republic of Iraq",
    None, None, Some(["baghdad", "najaf", "erbil", "basra"]), None, Country)

  const Baghdad := Location(
    "baghdad", "Baghdad",
    Some("https://i.pinimg.com/1200x/95/b4/23/95b4239fbe379384fe8c726728238b3d.jpg"),
    Some("https://www.google.com/maps/embed?pb=!1m14!1m12!1m3!1d53326.6917631!2d44.3661!3d33.3152!2m3!1f0!2f0!3f0!3m2!1i1024!2i768!4f13.1!5e0!3m2!1sen!2siq!4v1705500000000"),
    Some(["karadah", "mansour"]), None, Province)

  const Najaf := Location(
    "najaf", "Al-Najaf",
    Some("https://i.pinimg.com/1200x/ba/d1/6b/bad16b6ba3686c81c1a486dd44374a33.jpg"),
    Some("https://www.google.com/maps/embed?pb=!1m14!1m12!1m3!1d27122.56!2d44.3944!3d31.9955!2m3!1f0!2f0!3f0!3m2!1i1024!2i768!4f13.1!5e0!3m2!1sen!2siq!4v1705500000001"),
    Some(["najaf_airport_reg"]), None, Province)

  const Erbil := Location(
    "erbil", "Erbil",
    Some("https://i.pinimg.com/1200x/f1/c5/d8/f1c5d8e399c8c38d57a6e1f592ca216b.jpg"),
    Some("https://www.google.com/maps/embed?pb=!1m14!1m12!1m3!1d25746.89!2d44.0107!3d36.1877!2m3!1f0!2f0!3f0!3m2!1i1024!2i768!4f13.1!5e0!3m2!1sen!2siq!4v1705500000002"),
    Some(["eskan_reg"]), None, Province)

  const Basra := Location(
    "basra", "Basra",
    Some("https://i.pinimg.com/736x/78/fc/fb/78fcfbea07595324ff390f3e6330d3ce.jpg"),
    Some("https://www.google.com/maps/embed?pb=!1m14!1m12!1m3!1d110531.0665!2d47.6760!3d30.5508!2m3!1f0!2f0!3f0!3m2!1i1024!2i768!4f13.1!5e0!3m2!1sen!2siq!4v1705500000003"),
    Some(["basra_airport_reg"]), None, Province)

  const Karadah := Location(
    "karadah", "Karadah Terminal",
    Some("https://i.pinimg.com/1200x/95/b4/23/95b4239fbe379384fe8c726728238b3d.jpg"),
    None, None,
    Some([AdScreen("k1", "street name here")]),
    Region)

  const Mansour := Location(
    "mansour", "Al-Mansour Terminal",
    Some("https://i.pinimg.com/1200x/ba/d1/6b/bad16b6ba3686c81c1a486dd44374a33.jpg"),
    None, None,
    Some([
      AdScreen("m1", "street name here"),
      AdScreen("m2", "street name here")]),
    Region)

  const NajafAirport := Location(
    "najaf_airport_reg", "Najaf Airport Terminal",
    Some("https://i.pinimg.com/736x/78/fc/fb/78fcfbea07595324ff390f3e6330d3ce.jpg"),
    None, None,
    Some([AdScreen("n1", "street name here")]),
    Region)

  const Eskan := Location(
    "eskan_reg", "Eskan Terminal",
    Some("https://i.pinimg.com/1200x/f1/c5/d8/f1c5d8e399c8c38d57a6e1f592ca216b.jpg"),
    None, None,
    Some([AdScreen("e1", "street name here")]),
    Region)

  const BasraAirport := Location(
    "basra_airport_reg", "Basra Airport Terminal",
    Some("https://i.pinimg.com/736x/78/fc/fb/78fcfbea07595324ff390f3e6330d3ce.jpg"),
    None, None,
    Some([AdScreen("b1", "street name here")]),
    Region)

  /** `LOCATIONS`, key by key, in the order the literal declares them. */
  const Locations: Table := [
    Entry("iraq", Iraq),
    Entry("baghdad", Baghdad),
    Entry("najaf", Najaf),
    Entry("erbil", Erbil),
    Entry("basra", Basra),
    Entry("karadah", Karadah),
    Entry("mansour", Mansour),
    Entry("najaf_airport_reg", NajafAirport),
    Entry("eskan_reg", Eskan),
    Entry("basra_airport_reg", BasraAirport)
  ]


  /** Position of each declared key in `Locations`; -1 for any other string. */
  function KeyPos(k: Id): int
  {
    if k == "iraq" then 0
    else if k == "baghdad" then 1
    else if k == "najaf" then 2
    else if k == "erbil" then 3
    else if k == "basra" then 4
    else if k == "karadah" then 5
    else if k == "mansour" then 6
    else if k == "najaf_airport_reg" then 7
    else if k == "eskan_reg" then 8
    else if k == "basra_airport_reg" then 9
    else -1
  }

  /** Position, in `Locations`, of the entry whose children list holds `c`; -1 when none does. */
  function ParentPos(c: Id): int
  {
    if c in ["baghdad", "najaf", "erbil", "basra"] then 0
    else if c in ["karadah", "mansour"] then 1
    else if c == "najaf_airport_reg" then 2
    else if c == "eskan_reg" then 3
    else if c == "basra_airport_reg" then 4
    else -1
  }

  /** Each entry's key is its record's id and sits at the position `KeyPos` gives. */
  lemma EntryKey(i: int)
    requires 0 <= i < |Locations|
    ensures Locations[i].key == Locations[i].loc.id
    ensures Locations[i].key != ""
    ensures KeyPos(Locations[i].key) == i
  {
    if i == 0 {} else if i == 1 {} else if i == 2 {} else if i == 3 {} else if i == 4 {}
    else if i == 5 {} else if i == 6 {} else if i == 7 {} else if i == 8 {} else {}
  }

  /** Each entry's level: one country first, regions without children, every other entry listed by a parent. */
  lemma EntryLevel(i: int)
    requires 0 <= i < |Locations|
    ensures Locations[i].loc.level == Region ==> Locations[i].loc.children.None?
    ensures Locations[i].loc.level == Country <==> i == 0
    ensures i != 0 ==> 0 <= ParentPos(Locations[i].key) < |Locations|
                       && Locations[i].key in ChildIds(Locations[ParentPos(Locations[i].key)].loc)
  {
    if i == 0 {} else if i == 1 {} else if i == 2 {} else if i == 3 {} else if i == 4 {}
    else if i == 5 {} else if i == 6 {} else if i == 7 {} else if i == 8 {} else {}
  }

  /** Each child id of an entry is declared as a key, has this entry as its parent and sits one level lower. */
  lemma EntryChildren(i: int)
    requires 0 <= i < |Locations|
    ensures forall c :: c in ChildIds(Locations[i].loc) ==>
      && ParentPos(c) == i
      && 0 <= KeyPos(c) < |Locations|
      && Locations[KeyPos(c)].key == c
      && Rank(Locations[KeyPos(c)].loc.level) == Rank(Locations[i].loc.level) + 1
  {
    if i == 0 { RootChildren(); }
    else if i <= 4 { ProvinceChildren(i); }
    else { assert ChildIds(Locations[i].loc) == []; }
  }

  /** The four provinces listed by the country. */
  lemma RootChildren()
    ensures |ChildIds(Locations[0].loc)| == 4
    ensures forall c :: c in ChildIds(Locations[0].loc) ==>
      && ParentPos(c) == 0
      && 0 <= KeyPos(c) < |Locations|
      && Locations[KeyPos(c)].key == c
      && Rank(Locations[KeyPos(c)].loc.level) == 1
  {
  }

  /** The regions listed by each province. */
  lemma ProvinceChildren(i: int)
    requires 1 <= i <= 4
    ensures forall c :: c in ChildIds(Locations[i].loc) ==>
      && ParentPos(c) == i
      && 0 <= KeyPos(c) < |Locations|
      && Locations[KeyPos(c)].key == c
      && Rank(Locations[KeyPos(c)].loc.level) == 2
  {
    if i == 1 {} else if i == 2 {} else if i == 3 {} else {}
  }

  /** The display fields of one entry: keys are non-empty, embeds sit exactly on provinces, regions carry assets. */
  lemma EntryAssets(i: int)
    requires 0 <= i < |Locations|
    ensures Truthy(Locations[i].loc.embedUrl) <==> Locations[i].loc.level == Province
    ensures Locations[i].loc.level == Region ==>
      Truthy(Locations[i].loc.thumbnailUrl) && Locations[i].loc.ads.Some? && |Locations[i].loc.ads.value| > 0
  {
    if i == 0 {} else if i == 1 {} else if i == 2 {} else if i == 3 {} else if i == 4 {}
    else if i == 5 {} else if i == 6 {} else if i == 7 {} else if i == 8 {} else {}
  }

  /** Keys are the records' non-empty ids and no key is declared twice. */
  lemma LocationsKeys()
    ensures KeysAreIds(Locations) && KeysNonEmpty(Locations) && DistinctKeys(Locations)
  {
    var t := Locations;
    forall i | 0 <= i < |t| ensures t[i].key == t[i].loc.id && t[i].key != "" { EntryKey(i); }
    forall i, j | 0 <= i < |t| && 0 <= j < |t| && t[i].key == t[j].key ensures i == j {
      EntryKey(i); EntryKey(j);
    }
  }

  /** Every child id is declared, one level below the entry that lists it. */
  lemma LocationsChildren()
    ensures ChildrenResolve(Locations) && LevelsDescend(Locations)
  {
    var t := Locations;
    LocationsKeys();
    forall i, c | 0 <= i < |t| && c in ChildIds(t[i].loc)
      ensures c in Index(t) && Rank(Index(t)[c].level) == Rank(t[i].loc.level) + 1
    {
      EntryChildren(i);
      IndexAt(t, KeyPos(c));
    }
  }

  /** No child id is listed by two entries. */
  lemma LocationsSingleParent()
    ensures SingleParent(Locations)
  {
    var t := Locations;
    forall i, j, c | 0 <= i < |t| && 0 <= j < |t| && c in ChildIds(t[i].loc) && c in ChildIds(t[j].loc)
      ensures i == j
    {
      EntryChildren(i); EntryChildren(j);
    }
  }

  /** One country at the head, regions as leaves, and every other entry listed by a parent. */
  lemma LocationsShape()
    ensures RegionsAreLeaves(Locations) && SingleRoot(Locations) && EveryNodeHasParent(Locations)
  {
    var t := Locations;
    forall i | 0 <= i < |t| { EntryLevel(i); }
    assert t[0].loc.level == Country;
    forall i | 0 <= i < |t| && t[i].loc.level != Country
      ensures exists j :: 0 <= j < |t| && t[i].key in ChildIds(t[j].loc)
    {
      var j := ParentPos(t[i].key);
      assert t[i].key in ChildIds(t[j].loc);
    }
  }

  /** The dataset passes every well-formedness check. */
  lemma LocationsWellFormed()
    ensures WellFormed(Locations)
  {
    LocationsKeys();
    LocationsChildren();
    LocationsSingleParent();
    LocationsShape();
  }

  /** The initial active location. */
  const RootId: Id := "iraq"

  /** `'iraq'` is stored under its key and is the one country of the dataset. */
  lemma RootIsTheOnlyCountry()
    ensures RootId in Index(Locations) && Index(Locations)[RootId] == Iraq
    ensures forall k :: k in Index(Locations) ==> (Index(Locations)[k].level == Country <==> k == RootId)
  {
    LocationsKeys();
    IndexAt(Locations, 0);
    forall k | k in Index(Locations)
      ensures Index(Locations)[k].level == Country <==> k == RootId
    {
      var i :| 0 <= i < |Locations| && Locations[i].key == k;
      IndexAt(Locations, i);
      EntryLevel(i);
      EntryKey(i);
    }
  }

  /** Embeds sit only on provinces; every region has a thumbnail and a non-empty ad list. */
  lemma AssetPlacement()
    ensures EmbedsOnProvinces(Locations) && RegionAssets(Locations)
  {
    forall i | 0 <= i < |Locations| { EntryAssets(i); }
  }

  /** `mansour` is stored under its key and has exactly two ad screens. */
  lemma MansourHasTwoAds()
    ensures Get(Locations, "mansour") == Some(Mansour)
    ensures Mansour.ads.Some? && |Mansour.ads.value| == 2
  {
    LocationsKeys();
    IndexAt(Locations, 6);
  }

  /** The initial active id is a key, and the location stored under it is the country `Iraq`. */
  lemma RootStored()
    ensures RootId in Index(Locations) && Index(Locations)[RootId] == Iraq
    ensures KeysNonEmpty(Locations)
  {
    LocationsKeys();
    IndexAt(Locations, 0);
  }

  /** The literal's entries, position by position. */
  lemma Declared()
    ensures |Locations| == 10
    ensures Locations[0] == Entry("iraq", Iraq) && Locations[1] == Entry("baghdad", Baghdad)
    ensures Locations[2] == Entry("najaf", Najaf) && Locations[3] == Entry("erbil", Erbil)
    ensures Locations[4] == Entry("basra", Basra) && Locations[5] == Entry("karadah", Karadah)
    ensures Locations[6] == Entry("mansour", Mansour) && Locations[7] == Entry("najaf_airport_reg", NajafAirport)
    ensures Locations[8] == Entry("eskan_reg", Eskan) && Locations[9] == Entry("basra_airport_reg", BasraAirport)
  {
  }

  /** The four provinces, each stored under its own id. */
  lemma ProvincesStored()
    ensures "baghdad" in Index(Locations) && Index(Locations)["baghdad"] == Baghdad
    ensures "najaf" in Index(Locations) && Index(Locations)["najaf"] == Najaf
    ensures "erbil" in Index(Locations) && Index(Locations)["erbil"] == Erbil
    ensures "basra" in Index(Locations) && Index(Locations)["basra"] == Basra
  {
    LocationsKeys();
    Declared();
    IndexAt(Locations, 1);
    IndexAt(Locations, 2);
    IndexAt(Locations, 3);
    IndexAt(Locations, 4);
  }

  /** The five regions, each stored under its own id. */
  lemma RegionsStored()
    ensures "karadah" in Index(Locations) && Index(Locations)["karadah"] == Karadah
    ensures "mansour" in Index(Locations) && Index(Locations)["mansour"] == Mansour
    ensures "najaf_airport_reg" in Index(Locations) && Index(Locations)["najaf_airport_reg"] == NajafAirport
    ensures "eskan_reg" in Index(Locations) && Index(Locations)["eskan_reg"] == Eskan
    ensures "basra_airport_reg" in Index(Locations) && Index(Locations)["basra_airport_reg"] == BasraAirport
  {
    LocationsKeys();
    IndexAt(Locations, 5);
    IndexAt(Locations, 6);
    IndexAt(Locations, 7);
    IndexAt(Locations, 8);
    IndexAt(Locations, 9);
  }
}
