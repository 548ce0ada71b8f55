// Shared vocabulary of the model.
module Base {
  datatype Option<+T> = None | Some(value: T)

  /** Identifiers drawn from the uuid generator; `NoId` is the empty string. */
  datatype Id = NoId | Uuid(n: nat)

  /** The uuid generator shared by the classifier and the repository. */
  class UuidSource {
    var next: nat

    constructor (start: nat)
      ensures next == start
    {
      next := start;
    }

    method New() returns (id: Id)
      modifies this
      ensures id == Uuid(old(next)) && next == old(next) + 1
    {
      id := Uuid(next);
      next := next + 1;
    }
  }
}
