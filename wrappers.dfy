/** Optional values: `None` stands for a C# null reference or an absent record. */
module Wrappers {
  datatype Option<+T> = None | Some(value: T)
}
