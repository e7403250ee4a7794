/** The randomness source a die delegates to. Its algorithms are not part of
    this model: a roller is known only through the promise every
    implementation keeps, an integer in the inclusive range asked for. */
module Rollers {

  /** The two implementations in the library. `QuickRoller` is the one a
      die installs when it is constructed without a roller. */
  datatype RollerKind = QuickRoller | StrongRoller

  class Roller {
    const kind: RollerKind
    /** Every answer this roller has given, oldest first. */
    ghost var answers: seq<int>
    /** Every range `(min, max)` this roller has been asked for, oldest
        first. */
    ghost var requests: seq<(int, int)>

    constructor (kind: RollerKind)
      ensures this.kind == kind && answers == [] && requests == []
    {
      this.kind := kind;
      answers := [];
      requests := [];
    }

    /** `roll(min, max)`: some integer between `min` and `max` inclusive,
        recorded as the roller's latest answer to the request recorded as
        its latest one. Which integer is left open,
        so every proof about a die holds whatever the roller answers. */
    method Roll(min: int, max: int) returns (r: int)
      requires min <= max
      modifies this
      ensures min <= r <= max
      ensures answers == old(answers) + [r]
      ensures requests == old(requests) + [(min, max)]
    {
      r :| min <= r <= max;
      answers := answers + [r];
      requests := requests + [(min, max)];
    }
  }
}
