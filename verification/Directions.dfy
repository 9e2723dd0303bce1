/** Which way a price is expected to move, or moved. */
module Directions {
  datatype Direction = Up | Down | Neutral
}
