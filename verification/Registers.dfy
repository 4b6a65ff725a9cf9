/** A memory-mapped register that several writers share. */
module Registers {

  /** Positions of the bits that are 1. */
  class Register {
    var bits: set<nat>

    constructor ()
      ensures bits == {}
    {
      bits := {};
    }
  }
}
