/** Optional values, used where the Java code would return null or skip work. */
module Wrappers {

  datatype Option<+T> = None | Some(value: T)

}
