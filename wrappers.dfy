/** The nullable values of the source (`Int?`, `String?`, `Meal?`) as an explicit option. */
module Wrappers {

  datatype Option<+T> = None | Some(value: T)
}
