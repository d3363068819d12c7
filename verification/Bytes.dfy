/** A byte and its number. */
module Bytes {
  lemma ByteBack(a: nat)
    requires a < 256
    ensures (a as bv8) as nat == a
  {
  }
}
