/**
 * A predicate of the form "for every u, Facts(..., u)", with Facts as the trigger, unfolds only
 * where Facts(..., Unfolded) is written, so what it says does not follow every proof around.
 */
module Hiding {
  datatype Unfolding = Unfolded
}
