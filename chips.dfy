/** The colours a Material UI `Chip` is given by the board components. */
module Chips {

  datatype ChipColor = Default | Primary | Secondary | Error | Info | Success | Warning
}
