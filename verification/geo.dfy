/** GPS positions as the browser reports them; carried along, never computed on. */
module Geo {
  datatype Coordinates = Coordinates(latitude: real, longitude: real)
}
