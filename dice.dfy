/** A die: a fixed list of faces (at least two), a pluggable roller, the
    value of the last roll (none before the first), and an optional log of
    every value rolled while logging was switched on. */
module DiceRoller {
  import opened Php
  import opened Side
  import opened Rollers

  /** The faces a die is built from, as its constructor normalises and
      validates its first argument: an int `n` becomes `range(1, n)`, an
      array is wrapped, a DiceSides object is taken as it is, anything else
      is rejected, and so are faces numbering fewer than two. */
  function ConstructorSides(arg: Mixed): (r: Result<DiceSides>)
    ensures r.Ok? ==> r.value.Count() >= 2
    ensures r.Err? ==> r.error == InvalidArgument
    ensures arg.Other? ==> r.Err?
    ensures arg.IntVal? ==> (r.Ok? <==> arg.n != 1)
    ensures arg.ArrayVal? ==> (r.Ok? <==> |arg.items| >= 2)
    ensures arg.ArrayVal? && r.Ok? ==> r.value.values == arg.items
    ensures arg.SidesVal? ==> (r.Ok? <==> arg.sides.Count() >= 2)
    ensures arg.SidesVal? && r.Ok? ==> r.value == arg.sides
  {
    var wrapped :=
      match arg
      case IntVal(n) => SidesVal(DiceSides(Range(1, n)))
      case ArrayVal(items) => SidesVal(DiceSides(items))
      case _ => arg;
    if !wrapped.SidesVal? then Err(InvalidArgument)
    else if wrapped.sides.Count() < 2 then Err(InvalidArgument)
    else Ok(wrapped.sides)
  }

  /** The factory and the die constructor agree on ints and arrays: the
      die takes the factory's faces when there are at least two of them and
      rejects the argument otherwise. */
  lemma FactoryAgreesWithConstructor(arg: Mixed)
    requires arg.IntVal? || arg.ArrayVal?
    ensures Create(arg).Ok?
    ensures ConstructorSides(arg) ==
      if Create(arg).value.Count() >= 2 then Create(arg) else Err(InvalidArgument)
  {
  }

  /** Whether every answer in `draws` is a valid face number, 1 to `n`. */
  predicate ValidDraws(draws: seq<int>, n: nat) {
    forall i :: 0 <= i < |draws| ==> 1 <= draws[i] <= n
  }

  /** The values shown by a die with faces `sides` when its roller answers
      `draws`, one roll after another: answer `d` shows face `d - 1`. */
  function Faces(sides: DiceSides, draws: seq<int>): (r: seq<int>)
    requires ValidDraws(draws, sides.Count())
    ensures |r| == |draws|
    ensures forall i :: 0 <= i < |draws| ==> r[i] == sides.values[draws[i] - 1]
    ensures forall x :: x in r ==> x in sides.values
  {
    if draws == [] then []
    else
      var last := draws[|draws| - 1];
      Faces(sides, draws[..|draws| - 1]) + [sides.Get(last - 1)]
  }

  /** One more roll adds exactly the face it shows to the end. */
  lemma FacesSnoc(sides: DiceSides, draws: seq<int>, d: int)
    requires ValidDraws(draws, sides.Count()) && 1 <= d <= sides.Count()
    ensures ValidDraws(draws + [d], sides.Count())
    ensures Faces(sides, draws + [d]) == Faces(sides, draws) + [sides.values[d - 1]]
  {
    assert (draws + [d])[..|draws|] == draws;
  }

  /** The log after the roller answered `draws`, starting from `log`: the
      faces shown are appended when logging is on, and nothing otherwise. */
  function Logged(log: seq<int>, enabled: bool, sides: DiceSides, draws: seq<int>): seq<int>
    requires ValidDraws(draws, sides.Count())
  {
    if enabled then log + Faces(sides, draws) else log
  }

  /** With logging on, the log keeps its old entries as a prefix and then
      holds one entry per answer, the face that answer shows; with logging
      off it is unchanged. */
  lemma LoggedShape(log: seq<int>, enabled: bool, sides: DiceSides, draws: seq<int>)
    requires ValidDraws(draws, sides.Count())
    ensures var r := Logged(log, enabled, sides, draws);
      (enabled ==> |r| == |log| + |draws| && r[..|log|] == log) &&
      (enabled ==> forall i :: 0 <= i < |draws| ==> r[|log| + i] == sides.values[draws[i] - 1]) &&
      (!enabled ==> r == log)
  {
  }

  /** One more roll extends the log by its face when logging is on. */
  lemma LogStep(log0: seq<int>, before: seq<int>, after: seq<int>, enabled: bool,
                sides: DiceSides, draws: seq<int>, d: int)
    requires ValidDraws(draws, sides.Count()) && 1 <= d <= sides.Count()
    requires before == Logged(log0, enabled, sides, draws)
    requires after == if enabled then before + [sides.values[d - 1]] else before
    ensures ValidDraws(draws + [d], sides.Count())
    ensures after == Logged(log0, enabled, sides, draws + [d])
  {
    FacesSnoc(sides, draws, d);
    if enabled {
      calc {
        after;
        (log0 + Faces(sides, draws)) + [sides.values[d - 1]];
        log0 + (Faces(sides, draws) + [sides.values[d - 1]]);
        log0 + Faces(sides, draws + [d]);
      }
    }
  }

  /** A log that was `log0 + draws` and gains `d` is `log0 + (draws + [d])`. */
  lemma AppendStep<T>(log0: seq<T>, before: seq<T>, after: seq<T>, draws: seq<T>, d: T)
    requires before == log0 + draws && after == before + [d]
    ensures after == log0 + (draws + [d])
  {
  }

  /** `k` requests to a roller for a face number between 1 and `n`. */
  function FaceRequests(k: nat, n: int): (r: seq<(int, int)>)
    ensures |r| == k
    ensures forall i :: 0 <= i < k ==> r[i] == (1, n)
  {
    if k == 0 then [] else FaceRequests(k - 1, n) + [(1, n)]
  }

  /** When logging is on and at least one roll happened, the log ends with
      the face of the last answer. */
  lemma LoggedLast(log: seq<int>, enabled: bool, sides: DiceSides, draws: seq<int>)
    requires ValidDraws(draws, sides.Count()) && draws != []
    ensures var r := Logged(log, enabled, sides, draws);
      enabled ==> |r| >= |draws| && r[|r| - 1] == sides.values[draws[|draws| - 1] - 1]
  {
    var r := Logged(log, enabled, sides, draws);
    LoggedShape(log, enabled, sides, draws);
    if enabled {
      assert r[|log| + (|draws| - 1)] == sides.values[draws[|draws| - 1] - 1];
    }
  }

  class Dice {
    var roller: Roller
    const sides: DiceSides
    var value: Option<int>
    var historyEnabled: bool
    var history: seq<int>

    /** The die's invariant: at least two faces, and the current value and
        every logged value are among the faces. */
    ghost predicate Valid()
      reads this
    {
      sides.Count() >= 2 &&
      (value.Some? ==> value.value in sides.values) &&
      forall x :: x in history ==> x in sides.values
    }

    /** The part of `__construct` that runs once the faces are validated. */
    constructor (sides: DiceSides, roller: Roller)
      requires sides.Count() >= 2
      ensures Valid()
      ensures this.sides == sides && this.roller == roller
      ensures value == None && !historyEnabled && history == []
    {
      this.sides := sides;
      this.roller := roller;
      value := None;
      historyEnabled := false;
      history := [];
    }

    /** `new Dice($sides, $roller)`: rejects the faces argument as
        `ConstructorSides` does; otherwise a fresh, unrolled die with
        logging off, using the given roller or, when none is given (the
        default), a new QuickRoller. */
    static method New(arg: Mixed, roller: Roller? := null) returns (r: Result<Dice>)
      ensures r.Ok? <==> ConstructorSides(arg).Ok?
      ensures r.Err? ==> r.error == InvalidArgument
      ensures r.Ok? ==>
        fresh(r.value) && r.value.Valid() &&
        r.value.sides == ConstructorSides(arg).value &&
        r.value.value == None && !r.value.historyEnabled && r.value.history == []
      ensures r.Ok? && roller != null ==> r.value.roller == roller
      ensures r.Ok? && roller == null ==>
        fresh(r.value.roller) && r.value.roller.kind == QuickRoller &&
        r.value.roller.answers == []
    {
      var sides := ConstructorSides(arg);
      if sides.Err? {
        return Err(sides.error);
      }
      var chosen: Roller;
      if roller == null {
        chosen := new Roller(QuickRoller);
      } else {
        chosen := roller;
      }
      var d := new Dice(sides.value, chosen);
      return Ok(d);
    }

    /** `setRoller`: replaces the roller and nothing else. */
    method SetRoller(roller: Roller)
      requires Valid()
      modifies this
      ensures Valid()
      ensures this.roller == roller
      ensures value == old(value) && historyEnabled == old(historyEnabled)
      ensures history == old(history)
    {
      this.roller := roller;
    }

    /** `getRoller`: the roller most recently installed. */
    method GetRoller() returns (r: Roller)
      ensures r == roller
    {
      r := roller;
    }

    /** `roll($times = 1)`: rejects fewer than one roll and then changes
        nothing, not even the roller. Otherwise asks the roller `times`
        times for a face number between 1 and the number of faces and shows
        that face each time. `draws` are exactly the answers the roller gave
        during this call, in order: the die ends up showing the face of the
        last one, and when logging is on the log grows by exactly the faces
        shown, in roll order. The flag and the installed roller never
        change. */
    method Roll(times: int := 1) returns (r: Outcome, ghost draws: seq<int>)
      requires Valid()
      modifies this, roller
      ensures Valid()
      ensures roller == old(roller) && historyEnabled == old(historyEnabled)
      ensures roller.answers == old(roller.answers) + draws
      ensures roller.requests == old(roller.requests) + FaceRequests(|draws|, sides.Count())
      ensures r.Fail? <==> times < 1
      ensures r.Fail? ==>
        r.error == InvalidArgument && draws == [] &&
        value == old(value) && history == old(history)
      ensures r.Pass? ==>
        |draws| == times && ValidDraws(draws, sides.Count()) &&
        value == Some(sides.values[draws[times - 1] - 1]) &&
        history == Logged(old(history), historyEnabled, sides, draws)
      ensures r.Pass? && historyEnabled ==>
        |history| >= times && history[|history| - 1] == value.value
    {
      draws := [];
      if times < 1 {
        return Fail(InvalidArgument), draws;
      }
      var numberOfSides := sides.Count();
      var remaining := times;
      while remaining > 0
        invariant 0 <= remaining <= times
        invariant |draws| == times - remaining
        invariant ValidDraws(draws, numberOfSides)
        invariant Valid()
        invariant roller == old(roller) && historyEnabled == old(historyEnabled)
        invariant roller.answers == old(roller.answers) + draws
        invariant roller.requests == old(roller.requests) + FaceRequests(|draws|, numberOfSides)
        invariant draws != [] ==> value == Some(sides.values[draws[|draws| - 1] - 1])
        invariant history == Logged(old(history), historyEnabled, sides, draws)
      {
        var d := RollStep(old(roller.answers), old(roller.requests), old(history), draws);
        draws := draws + [d];
        remaining := remaining - 1;
      }
      LoggedLast(old(history), historyEnabled, sides, draws);
      return Pass, draws;
    }

    /** One pass of the loop in `roll`: asks the roller for a face number
        `d` between 1 and the number of faces, and shows face `d - 1`.
        When the roller's answers, its requests and the log were those of
        an initial state (`answers0`, `requests0`, `log0`) followed by the
        answers `draws`, they are afterwards those of `draws + [d]`. */
    method RollStep(ghost answers0: seq<int>, ghost requests0: seq<(int, int)>,
                    ghost log0: seq<int>, ghost draws: seq<int>)
      returns (d: int)
      requires Valid() && ValidDraws(draws, sides.Count())
      requires roller.answers == answers0 + draws
      requires roller.requests == requests0 + FaceRequests(|draws|, sides.Count())
      requires history == Logged(log0, historyEnabled, sides, draws)
      modifies this, roller
      ensures Valid()
      ensures roller == old(roller) && historyEnabled == old(historyEnabled)
      ensures 1 <= d <= sides.Count() && ValidDraws(draws + [d], sides.Count())
      ensures roller.answers == old(roller.answers) + [d]
      ensures roller.answers == answers0 + (draws + [d])
      ensures roller.requests == old(roller.requests) + [(1, sides.Count())]
      ensures roller.requests == requests0 + FaceRequests(|draws| + 1, sides.Count())
      ensures value == Some(sides.values[d - 1])
      ensures history == if historyEnabled then old(history) + [sides.values[d - 1]]
                         else old(history)
      ensures history == Logged(log0, historyEnabled, sides, draws + [d])
    {
      ghost var answersBefore, requestsBefore, historyBefore :=
        roller.answers, roller.requests, history;
      d := roller.Roll(1, sides.Count());
      SetValue(sides.Get(d - 1));
      LogStep(log0, historyBefore, history, historyEnabled, sides, draws, d);
      AppendStep(answers0, answersBefore, roller.answers, draws, d);
      AppendStep(requests0, requestsBefore, roller.requests,
                 FaceRequests(|draws|, sides.Count()), (1, sides.Count()));
    }

    /** `setValue` (private): shows `v` and logs it when logging is on. */
    method SetValue(v: int)
      modifies this
      ensures value == Some(v)
      ensures history == if historyEnabled then old(history) + [v] else old(history)
      ensures roller == old(roller) && historyEnabled == old(historyEnabled)
    {
      value := Some(v);
      if historyEnabled {
        AddHistory(v);
      }
    }

    /** `getValue`: the value shown, which is one of the faces; an unrolled
        die throws a runtime error instead. */
    method GetValue() returns (r: Result<int>)
      requires Valid()
      ensures r.Ok? <==> value.Some?
      ensures r.Ok? ==> r.value == value.value && r.value in sides.values
      ensures r.Err? ==> r.error == RuntimeError
    {
      if value.None? {
        return Err(RuntimeError);
      }
      return Ok(value.value);
    }

    /** `enableHistory($enabled = true)`: sets the logging flag to
        `enabled`. */
    method EnableHistory(enabled: bool := true)
      requires Valid()
      modifies this
      ensures Valid()
      ensures historyEnabled == enabled
      ensures roller == old(roller) && value == old(value) && history == old(history)
    {
      historyEnabled := enabled;
    }

    /** `disableHistory($disabled = true)`: sets the logging flag to the
        negation of `disabled`. */
    method DisableHistory(disabled: bool := true)
      requires Valid()
      modifies this
      ensures Valid()
      ensures historyEnabled == !disabled
      ensures roller == old(roller) && value == old(value) && history == old(history)
    {
      historyEnabled := !disabled;
    }

    /** `isHistoryEnabled`: the logging flag. */
    method IsHistoryEnabled() returns (b: bool)
      ensures b == historyEnabled
    {
      b := historyEnabled;
    }

    /** `addHistory` (private): appends one value to the log. */
    method AddHistory(v: int)
      modifies this
      ensures history == old(history) + [v]
      ensures roller == old(roller) && value == old(value)
      ensures historyEnabled == old(historyEnabled)
    {
      history := history + [v];
    }

    /** `getHistory`: the log, every entry of which is one of the faces. */
    method GetHistory() returns (h: seq<int>)
      requires Valid()
      ensures h == history
      ensures forall x :: x in h ==> x in sides.values
    {
      h := history;
    }

    /** `clearHistory`: empties the log and changes nothing else. */
    method ClearHistory()
      requires Valid()
      modifies this
      ensures Valid()
      ensures history == []
      ensures roller == old(roller) && value == old(value)
      ensures historyEnabled == old(historyEnabled)
    {
      history := [];
    }
  }

  /** A caller's view of the contracts above: build a die from an int `n`
      with the default roller, roll it once and read its value. The roll
      succeeds for every `n` except 1, and the value read is an integer
      between 1 and `n`. */
  method RollOnce(n: int) returns (r: Result<int>)
    ensures r.Ok? <==> n != 1
    ensures r.Err? ==> r.error == InvalidArgument
    ensures r.Ok? && n >= 1 ==> 1 <= r.value <= n
    ensures r.Ok? && n < 1 ==> n <= r.value <= 1
  {
    var made := Dice.New(IntVal(n));
    if made.Err? {
      return Err(made.error);
    }
    var die := made.value;
    var rolled, draws := die.Roll();
    r := die.GetValue();
    RangeMembership(1, n, r.value);
  }
}
