/** Values shared by every part of the model. */
module Common {

  datatype Option<+T> = None | Some(value: T)

  /** What a C++ function that may throw gives its caller. */
  datatype Result<+T> = Ok(value: T) | Thrown

  /** A part has no more elements than the whole. */
  lemma {:induction false} SubsetSize<T>(a: set<T>, b: set<T>)
    requires a <= b
    ensures |a| <= |b|
  {
    assert b == a + (b - a);
  }
}

/** The sizes that limit what a message can carry. */
module Limits {
  const ID_SIZE := 33
  const KEY_SIZE := 65
  const MAX_BODY := 0xFFFF
  /** As many neighbours as fit the body of a state after its key. */
  const MAX_NEIGHBORS := 1983
}
