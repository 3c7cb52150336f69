/** Three-valued status of a record field. */
module Truths {

  /** Anything that is neither explicitly true nor explicitly false is unknown. */
  datatype Truth = True | False | Unknown
}
