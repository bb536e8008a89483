/** Small types shared by the modules of the model. */
module Common {

  datatype Option<+T> = None | Some(value: T)

  function Max(a: int, b: int): int {
    if a >= b then a else b
  }

  function Min(a: int, b: int): int {
    if a <= b then a else b
  }

  /** The members of a list, as the `map[string]bool` sets the agent builds from its slices. */
  function Elems<T>(xs: seq<T>): set<T> {
    set x | x in xs
  }

  lemma EmptyIff<T(!new)>(xs: seq<T>)
    ensures xs == [] <==> forall x :: x !in xs
  {
    if xs != [] { assert xs[0] in xs; }
  }
}
