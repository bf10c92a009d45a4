/** The host-path random generator (`rand_`) of the radiation operators.  The
    uniform draws it would produce are supplied in advance, in order; both
    `uniform()` and `uniform2()` hand out the next supplied value. */
module Rng {

  class Random {
    const draws: seq<real>
    var next: nat

    ghost predicate Valid()
      reads this
    {
      next <= |draws|
    }

    constructor (draws: seq<real>)
      ensures Valid() && this.draws == draws && next == 0
    {
      this.draws := draws;
      next := 0;
    }

    /** True while the supplied draws are not used up. */
    predicate Available()
      reads this
    {
      next < |draws|
    }

    method Draw() returns (u: real)
      requires Valid() && Available()
      modifies this
      ensures Valid() && next == old(next) + 1 && u == draws[old(next)]
    {
      u := draws[next];
      next := next + 1;
    }
  }
}
