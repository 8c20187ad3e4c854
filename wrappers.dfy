/** The optional value used where the importer has `X | None`. */
module Wrappers {

  datatype Option<+T> = None | Some(value: T)

}
