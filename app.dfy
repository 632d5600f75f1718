/**
 * The application shell's state (App.tsx): the navigation stack behind
 * `handleSelect` / `handleBack`, and the focus modal behind `openZoom`,
 * `closeZoom`, `nextAd` and `prevAd`.
 */
module AppState {
  import opened Types
  import opened LocationTree
  import Constants

  /** The navigation part of the state: `activeId`, `history` and `viewMode`. */
  datatype Nav = Nav(activeId: Id, history: seq<Id>, viewMode: ViewMode)

  /** The focus-modal part of the state: `zoomedLocation` and `currentAdIndex`. */
  datatype Modal = Modal(zoomed: Option<Location>, adIndex: nat)

  /** The view mode both handlers set for the level they navigate to. */
  function ModeFor(level: Level): (m: ViewMode)
    ensures m != ProjectsView
    ensures m == NationalView <==> level == Country
  {
    if level == Country then NationalView else ProvinceView
  }

  /** The state of the first render. */
  const InitialNav := Nav("iraq", [], NationalView)
  const InitialModal := Modal(None, 0)

  /** `handleSelect(id)`: the current id is pushed and `id` becomes active; selecting the active id does nothing. */
  function SelectNav(t: Table, n: Nav, id: Id): (r: Nav)
    requires id in Index(t)
    ensures r.activeId == id
    ensures |r.history| == |n.history| + (if id == n.activeId then 0 else 1)
    ensures r.history[..|n.history|] == n.history
    ensures id != n.activeId ==> r.history[|n.history|] == n.activeId && r.viewMode == ModeFor(Index(t)[id].level)
    ensures id == n.activeId ==> r == n
  {
    if id == n.activeId then n
    else Nav(id, n.history + [n.activeId], ModeFor(Index(t)[id].level))
  }

  /** The last history entry, `undefined` when the history is empty. */
  function LastEntry(history: seq<Id>): (r: Option<Id>)
    ensures r.Some? <==> |history| > 0
    ensures r.Some? ==> history == history[..|history| - 1] + [r.value]
  {
    if |history| > 0 then Some(history[|history| - 1]) else None
  }

  /** `handleBack()`: when the last entry is truthy it becomes active and is popped. */
  function BackNav(t: Table, n: Nav): (r: Nav)
    requires LastEntry(n.history).Some? ==> LastEntry(n.history).value in Index(t)
    ensures |r.history| <= |n.history| && r.history == n.history[..|r.history|]
    ensures r != n ==> |r.history| == |n.history| - 1 && r.activeId == n.history[|n.history| - 1]
                       && r.viewMode == ModeFor(Index(t)[r.activeId].level)
  {
    var prev := LastEntry(n.history);
    if Truthy(prev) then
      Nav(prev.value, n.history[..|n.history| - 1], ModeFor(Index(t)[prev.value].level))
    else n
  }

  /**
   * What holds between events: the active id and every history entry are
   * keys, the view mode agrees with the active level, and no entry is
   * followed by itself, neither in the history nor by the active id.
   */
  ghost predicate NavOk(t: Table, n: Nav)
  {
    && n.activeId in Index(t)
    && (forall h :: h in n.history ==> h in Index(t))
    && n.viewMode == ModeFor(Index(t)[n.activeId].level)
    && (forall i :: 0 <= i < |n.history| - 1 ==> n.history[i] != n.history[i + 1])
    && (|n.history| > 0 ==> n.history[|n.history| - 1] != n.activeId)
  }

  /** Every key of a table with non-empty keys is truthy. */
  lemma KeyIsTruthy(t: Table, id: Id)
    requires KeysNonEmpty(t) && id in Index(t)
    ensures Truthy(Some(id))
  {
    var i :| 0 <= i < |t| && t[i].key == id;
  }

  /** The first render's state is consistent, given a table where `'iraq'` is the country. */
  lemma InitialNavOk(t: Table)
    requires "iraq" in Index(t) && Index(t)["iraq"].level == Country
    ensures NavOk(t, InitialNav)
    ensures InitialNav.viewMode == NationalView && InitialNav.history == []
  {
  }

  /** Selecting keeps the state consistent: the pushed id differs from the new active one. */
  lemma SelectOk(t: Table, n: Nav, id: Id)
    requires NavOk(t, n) && id in Index(t)
    ensures NavOk(t, SelectNav(t, n, id))
  {
    if id != n.activeId {
      var h := SelectNav(t, n, id).history;
      assert h == n.history + [n.activeId];
      forall i | 0 <= i < |h| - 1 ensures h[i] != h[i + 1] {
        if i + 1 < |n.history| {
          assert h[i] == n.history[i] && h[i + 1] == n.history[i + 1];
        }
      }
    }
  }

  /** Going back keeps the state consistent: the entry it reaches differs from the one below it. */
  lemma BackOk(t: Table, n: Nav)
    requires NavOk(t, n)
    ensures NavOk(t, BackNav(t, n))
  {
    var h := n.history;
    if Truthy(LastEntry(h)) {
      var r := BackNav(t, n);
      assert h[|h| - 1] in h;
      assert r.history == h[..|h| - 1];
      forall x | x in r.history ensures x in Index(t) {
        var i :| 0 <= i < |r.history| && r.history[i] == x;
        assert h[i] in h;
      }
      if |r.history| > 0 {
        assert r.history[|r.history| - 1] == h[|h| - 2];
      }
    }
  }

  /** After a select, the view mode is `'national'` exactly at the country; `'projects'` is never reached. */
  lemma SelectSetsMode(t: Table, n: Nav, id: Id)
    requires NavOk(t, n) && id in Index(t)
    ensures SelectNav(t, n, id).viewMode != ProjectsView
    ensures SelectNav(t, n, id).viewMode == NationalView <==> Index(t)[id].level == Country
  {
  }

  /** A select to a different location followed by a back restores the whole navigation state. */
  lemma SelectThenBack(t: Table, n: Nav, id: Id)
    requires KeysNonEmpty(t) && NavOk(t, n) && id in Index(t) && id != n.activeId
    ensures BackNav(t, SelectNav(t, n, id)) == n
  {
    var s := SelectNav(t, n, id);
    KeyIsTruthy(t, n.activeId);
    assert LastEntry(s.history) == Some(n.activeId);
    assert s.history[..|s.history| - 1] == n.history;
  }

  /** Selecting the active id changes nothing, so selecting the same id twice is selecting it once. */
  lemma SelectIdempotent(t: Table, n: Nav, id: Id)
    requires NavOk(t, n) && id in Index(t)
    ensures SelectNav(t, n, n.activeId) == n
    ensures SelectNav(t, SelectNav(t, n, id), id) == SelectNav(t, n, id)
  {
  }

  /** Back changes the state exactly when there is history to return to. */
  lemma BackMovesIffHistory(t: Table, n: Nav)
    requires KeysNonEmpty(t) && NavOk(t, n)
    ensures BackNav(t, n) == n <==> n.history == []
    ensures n.history != [] ==> |BackNav(t, n).history| == |n.history| - 1
  {
    if n.history != [] {
      var last := n.history[|n.history| - 1];
      assert last in n.history;
      KeyIsTruthy(t, last);
      assert BackNav(t, n).activeId == last != n.activeId;
    }
  }

  /** The user's navigation events: a click that selects an id, or the back button. */
  datatype NavEvent = Select(id: Id) | Back

  /** Events whose selected ids are all keys. */
  ghost predicate EventsResolve(t: Table, events: seq<NavEvent>)
  {
    forall k :: 0 <= k < |events| && events[k].Select? ==> events[k].id in Index(t)
  }

  /** One event applied to the navigation state. */
  function Step(t: Table, n: Nav, e: NavEvent): (r: Nav)
    requires NavOk(t, n) && (e.Select? ==> e.id in Index(t))
    ensures NavOk(t, r)
  {
    match e
    case Select(id) => SelectOk(t, n, id); SelectNav(t, n, id)
    case Back => BackOk(t, n); BackNav(t, n)
  }

  /** The state after a run of events; consistency is kept throughout. */
  function Run(t: Table, n: Nav, events: seq<NavEvent>): (r: Nav)
    requires NavOk(t, n) && EventsResolve(t, events)
    ensures NavOk(t, r)
    decreases |events|
  {
    if events == [] then n
    else
      var next := Step(t, n, events[0]);
      assert EventsResolve(t, events[1..]) by {
        forall k | 0 <= k < |events| - 1 && events[1..][k].Select? ensures events[1..][k].id in Index(t) {
          assert events[1..][k] == events[k + 1];
        }
      }
      Run(t, next, events[1..])
  }

  /** How one event changes the history length: +1 for a select that moves, -1 for a back that moves, 0 otherwise. */
  function Delta(t: Table, n: Nav, e: NavEvent): int
  {
    match e
    case Select(id) => if id != n.activeId then 1 else 0
    case Back => if Truthy(LastEntry(n.history)) then -1 else 0
  }

  /** The net count of effective selects minus effective backs over a run. */
  function NetPushes(t: Table, n: Nav, events: seq<NavEvent>): int
    requires NavOk(t, n) && EventsResolve(t, events)
    decreases |events|
  {
    if events == [] then 0
    else
      var next := Step(t, n, events[0]);
      assert EventsResolve(t, events[1..]) by {
        forall k | 0 <= k < |events| - 1 && events[1..][k].Select? ensures events[1..][k].id in Index(t) {
          assert events[1..][k] == events[k + 1];
        }
      }
      Delta(t, n, events[0]) + NetPushes(t, next, events[1..])
  }

  /** The history length is the starting length plus effective selects minus effective backs. */
  lemma {:induction false} HistoryAccounting(t: Table, n: Nav, events: seq<NavEvent>)
    requires NavOk(t, n) && EventsResolve(t, events)
    ensures |Run(t, n, events).history| == |n.history| + NetPushes(t, n, events)
    decreases |events|
  {
    if events != [] {
      var next := Step(t, n, events[0]);
      assert |next.history| == |n.history| + Delta(t, n, events[0]);
      assert EventsResolve(t, events[1..]) by {
        forall k | 0 <= k < |events| - 1 && events[1..][k].Select? ensures events[1..][k].id in Index(t) {
          assert events[1..][k] == events[k + 1];
        }
      }
      HistoryAccounting(t, next, events[1..]);
    }
  }

  /**
   * A location the modal can show: without an `ads` field, or with at least
   * one ad screen (the modal reads `ads[currentAdIndex]` as soon as it opens).
   */
  predicate AdsShowable(loc: Location)
  {
    loc.ads.None? || |loc.ads.value| > 0
  }

  /** The modal's ad screens: the zoomed location's `ads`, when there is a zoomed location with that field. */
  function ModalAds(m: Modal): Option<seq<AdScreen>>
  {
    if m.zoomed.Some? then m.zoomed.value.ads else None
  }

  /** Between events the ad index points at an existing screen whenever the modal shows ads. */
  ghost predicate ModalOk(m: Modal)
  {
    ModalAds(m).Some? ==> m.adIndex < |ModalAds(m).value|
  }

  /** `openZoom(loc)`: show `loc` from its first screen. */
  function OpenModal(m: Modal, loc: Location): (r: Modal)
    ensures r.zoomed == Some(loc) && ModalAds(r) == loc.ads && r.adIndex == 0
    ensures AdsShowable(loc) ==> ModalOk(r)
  {
    Modal(Some(loc), 0)
  }

  /** `closeZoom()`: hide the modal; the index is left as it was. */
  function CloseModal(m: Modal): (r: Modal)
    ensures r.zoomed.None? && ModalAds(r).None? && r.adIndex == m.adIndex
    ensures ModalOk(r)
  {
    m.(zoomed := None)
  }

  /** `nextAd()`: one screen forward, wrapping to the first; nothing without a zoomed location or `ads`. */
  function NextAdModal(m: Modal): (r: Modal)
    requires ModalAds(m).Some? ==> |ModalAds(m).value| > 0
    ensures r.zoomed == m.zoomed
    ensures ModalAds(m).None? ==> r == m
    ensures ModalAds(m).Some? ==> r.adIndex < |ModalAds(m).value|
  {
    match ModalAds(m)
    case None => m
    case Some(ads) => m.(adIndex := (m.adIndex + 1) % |ads|)
  }

  /** `prevAd()`: one screen back, wrapping to the last; nothing without a zoomed location or `ads`. */
  function PrevAdModal(m: Modal): (r: Modal)
    requires ModalAds(m).Some? ==> |ModalAds(m).value| > 0
    ensures r.zoomed == m.zoomed
    ensures ModalAds(m).None? ==> r == m
    ensures ModalAds(m).Some? ==> r.adIndex < |ModalAds(m).value|
  {
    match ModalAds(m)
    case None => m
    case Some(ads) => m.(adIndex := (m.adIndex - 1 + |ads|) % |ads|)
  }

  /** Opening shows the location from screen 0, which exists whenever the location has ads. */
  lemma OpenOk(m: Modal, loc: Location)
    requires AdsShowable(loc)
    ensures ModalOk(OpenModal(m, loc))
    ensures OpenModal(m, loc).zoomed == Some(loc) && OpenModal(m, loc).adIndex == 0
  {
  }

  /** Closing hides the location and keeps the index; nothing is shown, so nothing can be out of range. */
  lemma CloseOk(m: Modal)
    ensures ModalOk(CloseModal(m)) && CloseModal(m).zoomed.None?
    ensures CloseModal(m).adIndex == m.adIndex
  {
  }

  /** Both carousel steps keep the index in range and change nothing but the index. */
  lemma StepsStayInRange(m: Modal)
    requires ModalOk(m)
    ensures ModalOk(NextAdModal(m)) && ModalOk(PrevAdModal(m))
    ensures NextAdModal(m).zoomed == m.zoomed && PrevAdModal(m).zoomed == m.zoomed
    ensures ModalAds(m).None? ==> NextAdModal(m) == m && PrevAdModal(m) == m
  {
  }

  /** `prevAd` undoes `nextAd` and `nextAd` undoes `prevAd`. */
  lemma PrevUndoesNext(m: Modal)
    requires ModalOk(m)
    ensures ModalOk(NextAdModal(m)) && PrevAdModal(NextAdModal(m)) == m
    ensures ModalOk(PrevAdModal(m)) && NextAdModal(PrevAdModal(m)) == m
  {
    if ModalAds(m).Some? {
      WrapSteps(m.adIndex, |ModalAds(m).value|);
    }
  }

  /** On `[0, n)`, stepping forward and back with wrap-around are inverse and stay in range. */
  lemma WrapSteps(i: int, n: int)
    requires 0 <= i < n
    ensures 0 <= (i + 1) % n < n && 0 <= (i - 1 + n) % n < n
    ensures ((i + 1) % n - 1 + n) % n == i
    ensures ((i - 1 + n) % n + 1) % n == i
  {
    var up := (i + 1) % n;
    if i + 1 < n {
      ModUnique(i + 1, n, 0, i + 1);
      assert up - 1 + n == i + n;
      ModUnique(i + n, n, 1, i);
    } else {
      ModUnique(i + 1, n, 1, 0);
      assert up - 1 + n == n - 1;
      ModUnique(n - 1, n, 0, n - 1);
    }
    var down := (i - 1 + n) % n;
    if i == 0 {
      ModUnique(n - 1, n, 0, n - 1);
      assert down + 1 == n;
      ModUnique(n, n, 1, 0);
    } else {
      ModUnique(i - 1 + n, n, 1, i - 1);
      assert down + 1 == i;
      ModUnique(i, n, 0, i);
    }
  }

  /** `nextAd` pressed `k` times. */
  function NextAdTimes(m: Modal, k: nat): Modal
    requires ModalAds(m).Some? ==> |ModalAds(m).value| > 0
    decreases k
  {
    if k == 0 then m
    else
      var next := NextAdModal(m);
      assert ModalAds(next) == ModalAds(m);
      NextAdTimes(next, k - 1)
  }

  /** Pressing `nextAd` `k` times moves the index `k` screens forward, modulo the number of screens. */
  lemma {:induction false} NextAdTimesWraps(m: Modal, k: nat)
    requires ModalOk(m) && ModalAds(m).Some?
    ensures NextAdTimes(m, k) == m.(adIndex := (m.adIndex + k) % |ModalAds(m).value|)
    decreases k
  {
    var n := |ModalAds(m).value|;
    if k > 0 {
      var i := m.adIndex;
      var next := m.(adIndex := (i + 1) % n);
      assert NextAdModal(m) == next;
      AdvanceOne(i, k, n);
      NextAdTimesWraps(next, k - 1);
    } else {
      ModUnique(m.adIndex, n, 0, m.adIndex);
    }
  }

  /** One step forward and then `k - 1` more land where `k` steps do. */
  lemma AdvanceOne(i: nat, k: nat, n: nat)
    requires i < n && k > 0
    ensures (i + 1) % n < n
    ensures ((i + 1) % n + (k - 1)) % n == (i + k) % n
  {
    ModAddLeft(i + 1, k - 1, n);
  }

  /** A product with a positive factor of at least one is at least the other factor. */
  lemma {:induction false} MulAtLeast(d: int, n: int)
    requires d >= 1 && n > 0
    ensures d * n >= n
  {
    if d > 1 {
      MulAtLeast(d - 1, n);
      assert d * n == (d - 1) * n + n;
    }
  }

  /** The remainder is the one `r` in `[0, n)` with `x == q * n + r`. */
  lemma ModUnique(x: int, n: int, q: int, r: int)
    requires 0 < n && 0 <= r < n && x == q * n + r
    ensures x % n == r
  {
    var q0, r0 := x / n, x % n;
    assert x == q0 * n + r0;
    var d := q0 - q;
    assert d * n == q0 * n - q * n;
    assert d * n == r - r0;
    if d >= 1 {
      MulAtLeast(d, n);
    } else if d <= -1 {
      assert (-d) * n == -(d * n);
      MulAtLeast(-d, n);
    }
  }

  /** Adding after reducing modulo `n` is the same as adding first. */
  lemma ModAddLeft(a: nat, b: nat, n: nat)
    requires n > 0
    ensures (a % n + b) % n == (a + b) % n
  {
    var q, r := a / n, a % n;
    var q2, r2 := (r + b) / n, (r + b) % n;
    assert a == q * n + r;
    assert r + b == q2 * n + r2;
    assert a + b == (q + q2) * n + r2 by {
      assert (q + q2) * n == q * n + q2 * n;
    }
    ModUnique(a + b, n, q + q2, r2);
  }

  /** With the two screens of `mansour`: three `nextAd` from 0 reach 1, and one `prevAd` from 0 reaches 1. */
  lemma MansourCarousel()
    ensures var m := OpenModal(InitialModal, Constants.Mansour);
      NextAdTimes(m, 3).adIndex == 1 && PrevAdModal(m).adIndex == 1
  {
    var m := OpenModal(InitialModal, Constants.Mansour);
    assert |ModalAds(m).value| == 2;
    NextAdTimesWraps(m, 3);
  }

  /**
   * The application component's state, updated in place by its handlers.
   * The location table is the dataset itself.
   */
  class App {
    const locations: Table
    var activeId: Id
    var history: seq<Id>
    var viewMode: ViewMode
    /** `zoomedLocation` */
    var zoomed: Option<Location>
    /** `currentAdIndex` */
    var adIndex: nat

    function NavState(): Nav
      reads this
    {
      Nav(activeId, history, viewMode)
    }

    function ModalState(): Modal
      reads this
    {
      Modal(zoomed, adIndex)
    }

    ghost predicate Valid()
      reads this
    {
      KeysNonEmpty(locations) && NavOk(locations, NavState()) && ModalOk(ModalState())
    }

    /** The first render: `'iraq'` active, no history, national view, no modal, index 0. */
    constructor ()
      ensures locations == Constants.Locations
      ensures NavState() == InitialNav && ModalState() == InitialModal
      ensures Valid()
    {
      locations := Constants.Locations;
      activeId := "iraq";
      history := [];
      viewMode := NationalView;
      zoomed := None;
      adIndex := 0;
      new;
      Constants.RootStored();
      InitialNavOk(locations);
    }

    /** `handleSelect(id)` */
    method HandleSelect(id: Id)
      requires Valid() && id in Index(locations)
      modifies this
      ensures Valid()
      ensures NavState() == SelectNav(locations, old(NavState()), id)
      ensures ModalState() == old(ModalState())
    {
      ghost var before := NavState();
      SelectOk(locations, before, id);
      if id == activeId {
        return;
      }
      history := history + [activeId];
      activeId := id;
      var loc := Index(locations)[id];
      if loc.level == Country {
        viewMode := NationalView;
      } else {
        viewMode := ProvinceView;
      }
    }

    /** `handleBack()` */
    method HandleBack()
      requires Valid()
      modifies this
      ensures Valid()
      ensures NavState() == BackNav(locations, old(NavState()))
      ensures ModalState() == old(ModalState())
    {
      ghost var before := NavState();
      BackOk(locations, before);
      var prev := LastEntry(history);
      if Truthy(prev) {
        activeId := prev.value;
        history := history[..|history| - 1];
        var loc := Index(locations)[prev.value];
        if loc.level == Country {
          viewMode := NationalView;
        } else {
          viewMode := ProvinceView;
        }
      }
    }

    /** `openZoom(loc)` */
    method OpenZoom(loc: Location)
      requires Valid() && AdsShowable(loc)
      modifies this
      ensures Valid()
      ensures ModalState() == OpenModal(old(ModalState()), loc)
      ensures NavState() == old(NavState())
    {
      zoomed := Some(loc);
      adIndex := 0;
    }

    /** `closeZoom()` */
    method CloseZoom()
      requires Valid()
      modifies this
      ensures Valid()
      ensures ModalState() == CloseModal(old(ModalState()))
      ensures NavState() == old(NavState())
    {
      zoomed := None;
    }

    /** `nextAd()` */
    method NextAd()
      requires Valid()
      modifies this
      ensures Valid()
      ensures ModalState() == NextAdModal(old(ModalState()))
      ensures NavState() == old(NavState())
    {
      StepsStayInRange(ModalState());
      if zoomed.None? || zoomed.value.ads.None? {
        return;
      }
      adIndex := (adIndex + 1) % |zoomed.value.ads.value|;
    }

    /** `prevAd()` */
    method PrevAd()
      requires Valid()
      modifies this
      ensures Valid()
      ensures ModalState() == PrevAdModal(old(ModalState()))
      ensures NavState() == old(NavState())
    {
      StepsStayInRange(ModalState());
      if zoomed.None? || zoomed.value.ads.None? {
        return;
      }
      var n := |zoomed.value.ads.value|;
      adIndex := (adIndex - 1 + n) % n;
    }
  }
}
