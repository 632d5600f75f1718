/** Shapes of the records the location dataset is made of (types.ts). */
module Types {

  /** An optional field or a lookup that may miss (`undefined` in the source). */
  datatype Option<+T> = None | Some(value: T)

  type Id = string

  datatype Level = Country | Province | Region

  /** One advertisement screen attached to a region; its image and description are display-only and not carried. */
  datatype AdScreen = AdScreen(id: Id, title: string)

  /**
   * A node of the location hierarchy. The display-only fields (`subtitle`,
   * `description`, `originalUrl`, `lat`/`lng`, `coords`) are not carried.
   */
  datatype Location = Location(
    id: Id,
    name: string,
    thumbnailUrl: Option<string>,
    embedUrl: Option<string>,
    children: Option<seq<Id>>,
    ads: Option<seq<AdScreen>>,
    level: Level)

  /** The three values of the application's view-mode state. */
  datatype ViewMode = NationalView | ProvinceView | ProjectsView

  /** JavaScript truthiness of an optional string: `undefined` and `''` are falsy. */
  predicate Truthy(s: Option<string>)
    ensures Truthy(s) <==> s != None && s != Some("")
  {
    s.Some? && s.value != ""
  }

  /** `loc.children || []` */
  function ChildIds(loc: Location): (r: seq<Id>)
    ensures loc.children.None? ==> r == []
    ensures loc.children.Some? ==> r == loc.children.value
  {
    match loc.children
    case None => []
    case Some(cs) => cs
  }

  /** Depth of a level below the country root. */
  function Rank(l: Level): (r: nat)
    ensures r <= 2
    ensures r == 0 <==> l == Country
  {
    match l
    case Country => 0
    case Province => 1
    case Region => 2
  }
}
