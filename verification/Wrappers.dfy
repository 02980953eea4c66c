// Small types and set facts shared by the models.
module Wrappers {
  datatype Option<+T> = None | Some(value: T)

  lemma EmptyOrInhabited(s: set<int>)
    ensures s == {} || exists x :: x in s
  {
    if forall x :: x !in s {
      assert s == {};
    }
  }
}
