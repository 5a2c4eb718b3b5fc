/** The two wrappers every module uses for an absent value and for a refused call. */
module Wrappers {

  datatype Option<+T> = None | Some(value: T)

  datatype Result<+T, +E> = Ok(value: T) | Err(error: E)
}

/** What several modules share. */
module Basics {

  const U64_MAX: nat := 0xFFFF_FFFF_FFFF_FFFF

  predicate LowerHex(c: char) { '0' <= c <= '9' || 'a' <= c <= 'f' }

  ghost predicate NoRepeats<T>(items: seq<T>) {
    forall i, j :: 0 <= i < j < |items| ==> items[i] != items[j]
  }
}
