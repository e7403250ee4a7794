/** The faces of a die and the factory that builds them from the loosely
    typed argument a caller passes (an int, an array, or anything else). */
module Side {
  import opened Php

  /** The ordered list of values printed on the faces of a die. Only its
      size and positional access are used by the rest of the system. */
  datatype DiceSides = DiceSides(values: seq<int>) {

    /** `count($sides)`: the number of faces, one per listed value. */
    function Count(): (c: nat)
      ensures c == |values|
    {
      |values|
    }

    /** `$sides->get(i)`: the value on the face at zero-based position `i`. */
    function Get(i: nat): (v: int)
      requires i < Count()
      ensures v in values
    {
      values[i]
    }
  }

  /** The PHP value a caller may pass where sides are expected. Side values
      are integers; every other PHP type (string, float, bool, null, any
      object that is not a DiceSides) is `Other`. */
  datatype Mixed =
    | IntVal(n: int)
    | ArrayVal(items: seq<int>)
    | SidesVal(sides: DiceSides)
    | Other

  /** `DiceSidesFactory::create`: an int `n` becomes the faces
      `range(1, n)`, an array becomes faces holding exactly its elements,
      and any other value is rejected. Exactly one of the three cases
      applies to every argument. */
  function Create(arg: Mixed): (r: Result<DiceSides>)
    ensures r.Ok? <==> arg.IntVal? || arg.ArrayVal?
    ensures r.Err? ==> r.error == InvalidArgument
    ensures arg.ArrayVal? ==> r.Ok? && r.value.values == arg.items
    ensures arg.IntVal? && arg.n >= 1 ==>
      r.Ok? && r.value.Count() == arg.n &&
      forall i :: 0 <= i < arg.n ==> r.value.Get(i) == i + 1
    ensures arg.IntVal? && arg.n < 1 ==>
      r.Ok? && r.value.Count() == 2 - arg.n &&
      forall i :: 0 <= i < 2 - arg.n ==> r.value.Get(i) == 1 - i
  {
    match arg
    case IntVal(n) => Ok(DiceSides(Range(1, n)))
    case ArrayVal(items) => Ok(DiceSides(items))
    case _ => Err(InvalidArgument)
  }

  /** For an integer argument `n`, the faces are exactly the integers
      between 1 and `n`, and the two end faces are 1 and `n`. */
  lemma IntSidesBetweenOneAndN(n: int, x: int)
    ensures Create(IntVal(n)).Ok?
    ensures x in Create(IntVal(n)).value.values <==>
      (if 1 <= n then 1 <= x <= n else n <= x <= 1)
    ensures Create(IntVal(n)).value.Get(0) == 1
    ensures Create(IntVal(n)).value.Get(Create(IntVal(n)).value.Count() - 1) == n
  {
    RangeMembership(1, n, x);
  }

  /** An integer argument of 1 is the only one whose faces number fewer
      than two; 0 and negative integers give at least two faces because
      `range` counts down. */
  lemma IntSidesFewerThanTwo(n: int)
    ensures Create(IntVal(n)).value.Count() < 2 <==> n == 1
  {
  }
}
