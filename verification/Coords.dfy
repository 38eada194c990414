/** Positions and vectors on the playground. */
module Coords {

  datatype Coord = Coord(x: real, y: real)
}
