/** Vocabulary shared by the whole model. */
module Domain {
  datatype Option<+T> = None | Some(value: T)

  /** Database identifiers. */
  type Id = int

  /** A moment in time, in whole microseconds of one clock. */
  type Time = int

  lemma HasMember(s: set<Id>)
    ensures s == {} || exists x :: x in s
  {
    if forall x :: x !in s { assert s == {}; }
  }
}
