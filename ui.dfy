/** The colour families the pages choose for their status badges. */
module Ui {
  datatype Colour = Green | Yellow | Gray | Red | Blue
}
