/** Optional values: a ray either yields a wall band or nothing. */
module Wrappers {

  datatype Option<+T> = None | Some(value: T)

}
