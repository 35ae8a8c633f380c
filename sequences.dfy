/** Facts about lists of player ids shared by the room and the lobby. */
module Sequences {

  /** True iff no element occurs twice. */
  ghost predicate NoDuplicates(s: seq<int>) {
    forall i, j :: 0 <= i < j < |s| ==> s[i] != s[j]
  }
}
