/** Optional values, used where the source works with a nullable (`AnnotatedString?`, a regex match). */
module Wrappers {
  datatype Option<+T> = None | Some(value: T)
}
