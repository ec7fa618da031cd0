/** What the lock-free lists keep in one machine word, or in two that are updated together. */
module Pointers {

  /** A list item pointer: the ghost element, NULL, or a real item. */
  datatype Ref = Ghost | Null | Item(id: nat)

  /** opal_counted_pointer_t. */
  datatype Counted = Counted(count: nat, ref: Ref)

  predicate Distinct(s: seq<nat>)
  {
    forall i, j :: 0 <= i < j < |s| ==> s[i] != s[j]
  }
}
