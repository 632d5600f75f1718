/**
 * Walks through the shipped dataset (constants.ts): what the application
 * shows on its first render, after selecting Baghdad, and on the Mansour
 * terminal.
 */
module Scenarios {
  import opened Types
  import opened LocationTree
  import opened MapView
  import opened Transition
  import opened Panel
  import opened AppState
  import opened Constants

  /** Selecting Baghdad from the first render pushes `'iraq'` and switches to the province view. */
  lemma SelectBaghdadFromStart()
    ensures "baghdad" in Index(Locations)
      && SelectNav(Locations, InitialNav, "baghdad") == Nav("baghdad", ["iraq"], ProvinceView)
  {
    ProvincesStored();
  }

  /** With `'iraq'` on the history, the back button is labelled with the country's name. */
  lemma BackToTheCountryLabel()
    ensures BackLabel(Locations, ["iraq"]) == Some("Republic of Iraq")
  {
    RootStored();
  }

  /**
   * The map's controller starts settled on the country; selecting Baghdad
   * starts the zoom with timer 1, and when timer 1 fires the map is shown.
   */
  lemma BaghdadZoom()
    ensures RootId in Index(Locations) && "baghdad" in Index(Locations)
      && MountFrame(Locations, RootId) == Frame("iraq", false, false, None, {}, 1)
      && NavigateFrame(Locations, Frame("iraq", false, false, None, {}, 1), "baghdad")
         == Frame("baghdad", true, false, Some(1), {1}, 2)
      && FireFrame(Frame("baghdad", true, false, Some(1), {1}, 2), 1)
         == Frame("baghdad", false, true, None, {}, 2)
  {
    RootStored();
    ProvincesStored();
  }

  /**
   * Moving on to Najaf before timer 1 fires cancels it and leaves the zoom
   * flag set with nothing pending: the controller is stalled.
   */
  lemma NajafBeforeTheTimer()
    ensures "baghdad" in Index(Locations) && "najaf" in Index(Locations)
      && var f := NavigateFrame(Locations, Frame("baghdad", true, false, Some(1), {1}, 2), "najaf");
         f == Frame("najaf", true, false, Some(1), {}, 2) && Stalled(f)
  {
    ProvincesStored();
  }

  /** On the first render the map has no embed and draws the four provinces; on Baghdad it shows Baghdad's embed. */
  lemma EmbedsOnTheWay()
    ensures WellFormed(Locations) && RootId in Index(Locations) && "baghdad" in Index(Locations)
      && NearestEmbedUrl(Locations, RootId).None?
      && |VisiblePins(Locations, RootId, false)| == 4
      && NearestEmbedUrl(Locations, "baghdad") == Baghdad.embedUrl
  {
    LocationsWellFormed();
    AssetPlacement();
    RootStored();
    ProvincesStored();
    NearestEmbedByLevel(Locations, RootId);
    NearestEmbedByLevel(Locations, "baghdad");
    PinsAreChildren(Locations, RootId);
  }

  /** The Mansour terminal has no embed of its own and borrows Baghdad's, the province listing it. */
  lemma MansourUsesBaghdadsMap()
    ensures WellFormed(Locations) && "mansour" in Index(Locations)
      && NearestEmbedUrl(Locations, "mansour") == Baghdad.embedUrl
  {
    LocationsWellFormed();
    assert "mansour" in Index(Locations) && Index(Locations)["mansour"] == Mansour by {
      LocationsKeys();
      IndexAt(Locations, 6);
    }
    assert Locations[1].loc == Baghdad && "mansour" in ChildIds(Locations[1].loc) by {
      Declared();
    }
    EmbedFromParent(Locations, 1, "mansour");
  }
}
