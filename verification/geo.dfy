/**
 * Coordinates and the two trigonometric helpers of the program. Their
 * floating-point bodies (the haversine formula on a 6371 km sphere and the
 * initial-bearing formula) are not modelled; only the facts every caller
 * relies on are kept as the constraints of the function types.
 */
module Geo {

  /** A point as the program stores it: latitude and longitude in degrees. */
  datatype Coord = Coord(lat: real, lng: real)

  /** Haversine distance in kilometres: never negative, zero between equal points. */
  type Distance = f: (Coord, Coord) -> real
    | (forall a, b :: 0.0 <= f(a, b)) && (forall a :: f(a, a) == 0.0)
    witness (a: Coord, b: Coord) => 0.0

  /** Initial bearing in degrees, normalised into [0, 360). */
  type Bearing = f: (Coord, Coord) -> real
    | forall a, b :: 0.0 <= f(a, b) < 360.0
    witness (a: Coord, b: Coord) => 0.0
}
