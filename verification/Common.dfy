/** Definitions that several models share. */
module Common {

  datatype Option<T> = None | Some(value: T)

  /** The number of values of a 64-bit word. */
  const WORD64: int := 0x1_0000_0000_0000_0000

  lemma Regrouped<T>(a: seq<T>, b: seq<T>, c: seq<T>)
    ensures a + b + c == a + (b + c) && [] + c == c && a + [] == a
  {
  }
}
