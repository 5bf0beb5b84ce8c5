/** The input events every device driver produces (struct dev_input). */
module Inputs {
  datatype Event = Motion(idx: int, val: int) | Button(idx: int, val: int) | Flush
}
