/** Stand-ins for the strategies module root, which is not part of this model:
    the opaque `Slot` handle both strategies return, and the optional result
    of a lookup. */
module Strategies {

  /** An opaque index into the external routing table; only its identity matters. */
  datatype Slot = Slot(index: nat)

  /** The outcome of a lookup: a slot, or no route. */
  datatype Option<+T> = None | Some(value: T)
}
