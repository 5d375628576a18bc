/** Places on the map. */
module Positions {

  datatype Position = Position(x: int, y: int, z: int)
}
