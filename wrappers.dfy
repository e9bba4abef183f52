/** The optional value used for the tracker's nullable results (a null ObjectData pointer). */
module Wrappers {

  datatype Option<+T> = None | Some(value: T)

}
