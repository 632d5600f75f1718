/**
 * The location hierarchy as a table of `key -> Location` entries in declaration
 * order, with the lookups the components perform on it: the dictionary lookup
 * `LOCATIONS[id]`, the first-match parent search
 * `Object.values(LOCATIONS).find(l => l.children?.includes(id))`, and the
 * resolution of a list of child ids into locations (`map` then `filter`).
 */
module LocationTree {
  import opened Types

  datatype Entry = Entry(key: Id, loc: Location)

  /** The entries of the record literal, in declaration order. */
  type Table = seq<Entry>

  /** The record as a dictionary; a later entry with the same key overrides an earlier one. */
  function Index(t: Table): (m: map<Id, Location>)
    ensures forall i :: 0 <= i < |t| ==> t[i].key in m
    ensures forall k :: k in m ==> exists i :: 0 <= i < |t| && t[i].key == k
  {
    if t == [] then map[]
    else
      var prefix, last := t[..|t| - 1], t[|t| - 1];
      assert forall i :: 0 <= i < |prefix| ==> prefix[i] == t[i];
      Index(prefix)[last.key := last.loc]
  }

  /** `LOCATIONS[id]`: the location stored under `id`, or `undefined`. */
  function Get(t: Table, id: Id): (r: Option<Location>)
    ensures r.Some? <==> exists i :: 0 <= i < |t| && t[i].key == id
  {
    if id in Index(t) then Some(Index(t)[id]) else None
  }

  ghost predicate KeysAreIds(t: Table)
  {
    forall i :: 0 <= i < |t| ==> t[i].key == t[i].loc.id
  }

  /** Ids are non-empty strings, so every id is truthy. */
  ghost predicate KeysNonEmpty(t: Table)
  {
    forall i :: 0 <= i < |t| ==> t[i].key != ""
  }

  ghost predicate DistinctKeys(t: Table)
  {
    forall i, j :: 0 <= i < |t| && 0 <= j < |t| && t[i].key == t[j].key ==> i == j
  }

  ghost predicate ChildrenResolve(t: Table)
  {
    forall i, c :: 0 <= i < |t| && c in ChildIds(t[i].loc) ==> c in Index(t)
  }

  ghost predicate SingleParent(t: Table)
  {
    forall i, j, c :: 0 <= i < |t| && 0 <= j < |t| && c in ChildIds(t[i].loc) && c in ChildIds(t[j].loc) ==> i == j
  }

  ghost predicate LevelsDescend(t: Table)
  {
    forall i, c :: 0 <= i < |t| && c in ChildIds(t[i].loc) && c in Index(t) ==>
      Rank(Index(t)[c].level) == Rank(t[i].loc.level) + 1
  }

  ghost predicate RegionsAreLeaves(t: Table)
  {
    forall i :: 0 <= i < |t| && t[i].loc.level == Region ==> t[i].loc.children.None?
  }

  ghost predicate SingleRoot(t: Table)
  {
    && (exists i :: 0 <= i < |t| && t[i].loc.level == Country)
    && forall i, j :: 0 <= i < |t| && 0 <= j < |t| && t[i].loc.level == Country && t[j].loc.level == Country ==> i == j
  }

  ghost predicate EveryNodeHasParent(t: Table)
  {
    forall i :: 0 <= i < |t| && t[i].loc.level != Country ==> exists j :: 0 <= j < |t| && t[i].key in ChildIds(t[j].loc)
  }

  /**
   * A well-formed hierarchy: keys match ids, are non-empty and are unique, child ids resolve,
   * every child has one parent, levels descend one step along every edge (so
   * the parent relation is acyclic and at most two steps deep), regions have
   * no `children` field, there is exactly one country, and every other node
   * hangs under some parent.
   */
  ghost predicate WellFormed(t: Table)
    ensures WellFormed(t) ==> |t| > 0
  {
    && KeysAreIds(t)
    && KeysNonEmpty(t)
    && DistinctKeys(t)
    && ChildrenResolve(t)
    && SingleParent(t)
    && LevelsDescend(t)
    && RegionsAreLeaves(t)
    && SingleRoot(t)
    && EveryNodeHasParent(t)
  }

  /** Embedded maps are owned by provinces and by nothing else. */
  ghost predicate EmbedsOnProvinces(t: Table)
  {
    forall i :: 0 <= i < |t| ==> (Truthy(t[i].loc.embedUrl) <==> t[i].loc.level == Province)
  }

  /** Every region can be shown as a photo pin and opened in the focus modal with at least one ad screen. */
  ghost predicate RegionAssets(t: Table)
  {
    forall i :: 0 <= i < |t| && t[i].loc.level == Region ==>
      Truthy(t[i].loc.thumbnailUrl) && t[i].loc.ads.Some? && |t[i].loc.ads.value| > 0
  }

  /** With unique keys, the dictionary holds every entry exactly as declared. */
  lemma {:induction false} IndexAt(t: Table, i: int)
    requires DistinctKeys(t)
    requires 0 <= i < |t|
    ensures t[i].key in Index(t) && Index(t)[t[i].key] == t[i].loc
  {
    if i < |t| - 1 {
      var prefix := t[..|t| - 1];
      assert t[i].key != t[|t| - 1].key;
      assert forall a :: 0 <= a < |prefix| ==> prefix[a] == t[a];
      IndexAt(prefix, i);
    }
  }

  /**
   * `Object.values(LOCATIONS).find(l => l.children?.includes(id))`: the first
   * location, in declaration order, whose children list contains `id`.
   */
  function FindParent(t: Table, id: Id): (r: Option<Location>)
    ensures r.None? <==> forall i :: 0 <= i < |t| ==> id !in ChildIds(t[i].loc)
    ensures r.Some? ==> exists i :: 0 <= i < |t| && r.value == t[i].loc && id in ChildIds(t[i].loc)
                                    && forall j :: 0 <= j < i ==> id !in ChildIds(t[j].loc)
  {
    if t == [] then None
    else if id in ChildIds(t[0].loc) then Some(t[0].loc)
    else
      var r := FindParent(t[1..], id);
      assert forall i :: 1 <= i < |t| ==> t[i] == t[1..][i - 1];
      r
  }

  /** In a well-formed table the first-match search finds the one parent there is, whatever the order. */
  lemma FindParentIsTheParent(t: Table, i: int, id: Id)
    requires WellFormed(t)
    requires 0 <= i < |t| && id in ChildIds(t[i].loc)
    ensures FindParent(t, id) == Some(t[i].loc)
  {
    var k :| 0 <= k < |t| && FindParent(t, id).value == t[k].loc && id in ChildIds(t[k].loc);
    assert k == i;
  }

  /** Distance of a node from the root; ids outside the table sit below everything. */
  ghost function Height(t: Table, id: Id): nat
  {
    if id in Index(t) then Rank(Index(t)[id].level) else 3
  }

  /**
   * Stepping to the parent strictly lowers the height, and the parent is
   * stored under its own id: the measure that makes every upward walk end.
   */
  lemma ParentIsHigher(t: Table, id: Id)
    requires WellFormed(t)
    requires FindParent(t, id).Some?
    ensures var p := FindParent(t, id).value;
      p.id in Index(t) && Index(t)[p.id] == p && Height(t, p.id) < Height(t, id)
  {
    var p := FindParent(t, id).value;
    var i :| 0 <= i < |t| && p == t[i].loc && id in ChildIds(t[i].loc);
    IndexAt(t, i);
    assert t[i].key == p.id;
  }

  /** Every location below the country has its parent in the table, one level up, found by the first-match search. */
  lemma ParentOf(t: Table, id: Id) returns (i: int)
    requires WellFormed(t)
    requires id in Index(t) && Index(t)[id].level != Country
    ensures 0 <= i < |t| && id in ChildIds(t[i].loc)
    ensures FindParent(t, id) == Some(t[i].loc)
    ensures t[i].key == t[i].loc.id && t[i].key in Index(t) && Index(t)[t[i].key] == t[i].loc
    ensures Rank(Index(t)[id].level) == Rank(t[i].loc.level) + 1
  {
    var k :| 0 <= k < |t| && t[k].key == id;
    IndexAt(t, k);
    i :| 0 <= i < |t| && t[k].key in ChildIds(t[i].loc);
    FindParentIsTheParent(t, i, id);
    IndexAt(t, i);
  }

  /** The country root has no parent: the upward walk stops there. */
  lemma RootHasNoParent(t: Table, id: Id)
    requires WellFormed(t)
    requires id in Index(t) && Index(t)[id].level == Country
    ensures FindParent(t, id).None?
  {
  }

  /**
   * `ids.map(id => LOCATIONS[id]).filter(Boolean)`: the locations the ids name,
   * in the order given, with ids that are not keys silently dropped.
   */
  function ResolveIds(t: Table, ids: seq<Id>): (r: seq<Location>)
    ensures |r| <= |ids|
    ensures forall l :: l in r ==> exists c :: c in ids && c in Index(t) && l == Index(t)[c]
  {
    if ids == [] then []
    else
      var rest := ResolveIds(t, ids[1..]);
      assert forall c :: c in ids[1..] ==> c in ids;
      match Get(t, ids[0])
      case Some(l) => assert ids[0] in ids; [l] + rest
      case None => rest
  }

  /** No known id is lost: each one's location is among the resolved ones. */
  lemma {:induction false} ResolveIdsComplete(t: Table, ids: seq<Id>, c: Id)
    requires c in ids && c in Index(t)
    ensures Index(t)[c] in ResolveIds(t, ids)
  {
    if ids[0] != c {
      ResolveIdsComplete(t, ids[1..], c);
    }
  }

  /** Resolving a concatenation resolves each part, the kept locations in their given order. */
  lemma {:induction false} ResolveIdsAppend(t: Table, a: seq<Id>, b: seq<Id>)
    ensures ResolveIds(t, a + b) == ResolveIds(t, a) + ResolveIds(t, b)
    decreases |a|
  {
    if a == [] {
      assert a + b == b;
    } else {
      assert (a + b)[0] == a[0];
      assert (a + b)[1..] == a[1..] + b;
      ResolveIdsAppend(t, a[1..], b);
    }
  }

  /** A single id resolves to its location when it is a key and is dropped otherwise. */
  lemma ResolveIdsOne(t: Table, c: Id)
    ensures ResolveIds(t, [c]) == if c in Index(t) then [Index(t)[c]] else []
  {
  }

  /** When every id is a key, nothing is dropped and the order is kept position by position. */
  lemma {:induction false} ResolveIdsAllKnown(t: Table, ids: seq<Id>)
    requires forall c :: c in ids ==> c in Index(t)
    ensures |ResolveIds(t, ids)| == |ids|
    ensures forall k :: 0 <= k < |ids| ==> ResolveIds(t, ids)[k] == Index(t)[ids[k]]
  {
    if ids != [] {
      var m := Index(t);
      assert ids[0] in ids;
      assert forall c :: c in ids[1..] ==> c in ids;
      ResolveIdsAllKnown(t, ids[1..]);
      var rest := ResolveIds(t, ids[1..]);
      assert ResolveIds(t, ids) == [m[ids[0]]] + rest;
      forall k | 1 <= k < |ids|
        ensures ResolveIds(t, ids)[k] == m[ids[k]]
      {
        assert ids[k] == ids[1..][k - 1];
      }
    }
  }

  /** With keys equal to ids, resolving a fully known id list gives back locations carrying exactly those ids. */
  lemma ResolvedIdsMatch(t: Table, ids: seq<Id>)
    requires KeysAreIds(t) && DistinctKeys(t)
    requires forall c :: c in ids ==> c in Index(t)
    ensures |ResolveIds(t, ids)| == |ids|
    ensures forall k :: 0 <= k < |ids| ==> ResolveIds(t, ids)[k].id == ids[k]
  {
    ResolveIdsAllKnown(t, ids);
    forall k | 0 <= k < |ids|
      ensures ResolveIds(t, ids)[k].id == ids[k]
    {
      assert ids[k] in ids;
      var i :| 0 <= i < |t| && t[i].key == ids[k];
      IndexAt(t, i);
    }
  }

  /** The children of the entry at `i`, each stored under its own id, one level further down. */
  lemma ChildrenResolved(t: Table, i: int)
    requires WellFormed(t) && 0 <= i < |t|
    ensures var pins := ResolveIds(t, ChildIds(t[i].loc));
      && |pins| == |ChildIds(t[i].loc)|
      && (forall k :: 0 <= k < |pins| ==> pins[k].id == ChildIds(t[i].loc)[k])
      && (forall p :: p in pins ==> Rank(p.level) == Rank(t[i].loc.level) + 1)
  {
    var cs := ChildIds(t[i].loc);
    ResolvedIdsMatch(t, cs);
    ResolveIdsAllKnown(t, cs);
    var pins := ResolveIds(t, cs);
    forall p | p in pins ensures Rank(p.level) == Rank(t[i].loc.level) + 1 {
      var k :| 0 <= k < |pins| && pins[k] == p;
      assert cs[k] in cs;
    }
  }
}
