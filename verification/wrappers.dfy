/** Small types and functions that several components share. */
module Wrappers {
  datatype Option<T> = None | Some(value: T)

  /** The sequence without its element at `i`. */
  function Without<T>(s: seq<T>, i: nat): seq<T>
    requires i < |s|
  {
    s[..i] + s[i + 1..]
  }
}

/** Cache and request keys. */
module CacheKeys {
  datatype Key = Key(name: string)
}
