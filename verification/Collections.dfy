/** Small shared notions. */
module Collections {
  datatype Option<+T> = None | Some(value: T)

  function Elements<T>(s: seq<T>): set<T> { set x | x in s }
}
