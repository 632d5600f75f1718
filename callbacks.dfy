/** The callbacks the map and the panel invoke on the application when the user clicks. */
module Callbacks {
  import opened Types

  datatype Callback =
    | OnSelect(id: Id)
    | OnBack
    | OnPhotoZoom(location: Location)
}
