/** System.Guid, compared by value, with its distinguished all-zero value. */
module Ids {

  datatype Guid = Guid(bits: bv128)

  /** Guid.Empty: the code treats it as "no identifier". */
  const Empty: Guid := Guid(0)
}
