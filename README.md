# Dice roller: a verified model of the die and its faces

This project models the die of the `daverichards00/dice-roller` PHP library
in Dafny. It also models the factory that turns a caller's argument into the
die's faces.

- A **die** (`DiceRoller.Dice`, a class) holds fixed faces (at least two)
  and a pluggable roller. It also holds the value of its last roll, which is
  null before the first roll, and a history log that records each rolled
  value while logging is switched on. `roll(times)` asks the roller `times`
  times for a face number between 1 and the number of faces. Each time it
  shows that face and, if logging is on, appends it to the log.
- The **faces** (`Side.DiceSides`) are an ordered list of integer values.
  Only their count and positional access are used.
- The **sides factory** (`Side.Create`) maps an int `n` to the faces
  `range(1, n)` and an array to faces holding exactly its elements. It
  rejects every other argument.
- A **roller** (`Rollers.Roller`) is known only by its promise: `roll(min,
  max)` returns an integer in `[min, max]`. The model leaves the answer
  nondeterministic, so every property of the die holds whatever the roller
  answers. Each roller keeps a ghost record of the ranges it was asked for
  and of the answers it gave. A die's `roll` is tied to exactly the
  requests it made and the answers it got during the call: `times`
  requests for `[1, count(sides)]`.
- PHP's `range` on integers (`Php.Range`) counts down when its first bound
  is larger. So `new Dice(0)` is accepted with the faces `[1, 0]`, and
  `new Dice(-2)` with `[1, 0, -1, -2]`. With integers taken as unbounded
  (see "Left out"), only the int argument `1` gives fewer than two faces
  and is rejected (`Side.IntSidesFewerThanTwo`,
  `DiceRoller.ConstructorSides`). The model keeps this behaviour as the code
  has it.

Exceptions are modelled as `Php.Result` / `Php.Outcome` values carrying the
exception class (`InvalidArgument` or `RuntimeError`). A PHP constructor
that throws becomes the static method `Dice.New`, which returns a
`Result<Dice>`. The Dafny constructor is the part of `__construct` that runs
after validation. `roll` also returns, as a ghost value, the roller's
answers in order (`draws`). Its contract says these are exactly the
answers the roller recorded during the call, and states the new value and
the new log in terms of them. The PHP default arguments are kept as Dafny
default parameters: `roll` rolls once, `enableHistory` and
`disableHistory` default to `true`, and `New` defaults to no roller.

## Model

| member | source | states |
|---|---|---|
| `Php.Range` | src/Side/DiceSidesFactory.php:16-19 | `range(low, high)` has `abs(high - low) + 1` elements, starts at `low`, ends at `high`, and its i-th element is `low + i` counting up or `low - i` counting down |
| `Php.RangeMonotone` | src/Side/DiceSidesFactory.php:18 | a range is strictly ascending when `low <= high` and strictly descending otherwise |
| `Php.RangeMembership` | src/Dice.php:35-39 | an integer is in `range(low, high)` exactly when it lies between the two bounds |
| `Side.DiceSides.Count` | src/Dice.php:51 | the number of faces is the number of values listed, one face per value |
| `Side.DiceSides.Get` | src/Dice.php:97-99 | the face at a valid position is one of the faces |
| `Side.Create` | src/Side/DiceSidesFactory.php:14-29 | exactly one case applies to each argument: an int or an array succeeds and anything else fails with InvalidArgument; an array passes through with the same elements in the same order; an int `n >= 1` gives `n` faces `1..n` ascending; an int `n < 1` gives `2 - n` faces counting down `1, 0, ..., n` |
| `Side.IntSidesBetweenOneAndN` | src/Side/DiceSidesFactory.php:16-19 | an int argument `n` always succeeds; its faces are exactly the integers between 1 and `n`, the first face is 1 and the last is `n` |
| `Side.IntSidesFewerThanTwo` | src/Dice.php:51-53 | among int arguments, only `1` yields fewer than two faces |
| `Rollers.Roller.constructor` | src/Dice.php:57-60 | a roller is created with the given implementation kind and has had no requests and given no answers yet |
| `Rollers.Roller.Roll` | tests/Rollers/StrongRollerTest.php:39-49 | a roller returns an integer between `min` and `max` inclusive; it records `(min, max)` as its latest request and the integer as its latest answer |
| `DiceRoller.ConstructorSides` | src/Dice.php:35-53 | the die's faces always number at least two; an int `n` is accepted exactly when `n != 1`; an array is accepted exactly when it has at least two elements and is taken unchanged; a DiceSides object is accepted exactly when it has at least two faces and is taken unchanged; any other argument is rejected; every rejection is InvalidArgument |
| `DiceRoller.FactoryAgreesWithConstructor` | src/Side/DiceSidesFactory.php:16-24 | for int and array arguments the factory succeeds, and the die constructor takes the factory's faces when they number at least two and rejects the argument otherwise |
| `DiceRoller.Faces` | src/Dice.php:95-101 | the values shown by successive rolls have one entry per roller answer; answer `d` shows face `d - 1`; every value shown is one of the faces |
| `DiceRoller.FacesSnoc` | src/Dice.php:95-101 | one more roll appends exactly the face it shows to the values shown so far |
| `DiceRoller.LoggedShape` | src/Dice.php:114-116 | with logging on, the log after a series of rolls keeps its old entries as a prefix and then holds, in order, the face each answer shows; with logging off it is unchanged |
| `DiceRoller.LogStep` | src/Dice.php:95-101 | one more roll extends the log by exactly its face when logging is on, and leaves it unchanged otherwise |
| `DiceRoller.LoggedLast` | src/Dice.php:112-116 | with logging on, after at least one roll the last log entry is the face of the last answer |
| `DiceRoller.FaceRequests` | src/Dice.php:93-98 | the requests made by `k` rolls of a die with `n` faces number exactly `k`, and each asks for the range `[1, n]` |
| `DiceRoller.Dice.constructor` | src/Dice.php:55-61 | a new die stores the given faces and roller, has no value, has logging off and has an empty log |
| `DiceRoller.Dice.New` | src/Dice.php:33-62 | construction fails exactly when `ConstructorSides` rejects the argument, always with InvalidArgument; otherwise the die is fresh and unrolled, with logging off and an empty log; it uses the given roller, or a fresh QuickRoller with no answers yet when none is given (the default) |
| `DiceRoller.Dice.SetRoller` | src/Dice.php:68-72 | the roller is replaced; value, log and flag are unchanged, and the die's invariant is kept |
| `DiceRoller.Dice.GetRoller` | src/Dice.php:77-80 | returns the roller most recently installed |
| `DiceRoller.Dice.Roll` | src/Dice.php:87-104 | `times < 1` fails with InvalidArgument and changes nothing, the roller's requests and answers included; otherwise the roller is asked exactly `times` more times, each time for the range `[1, count(sides)]`, and gives exactly the answers `draws`, each between 1 and the number of faces; the die shows `sides[d - 1]` for the last answer `d`; the log grows by exactly the faces of the answers, in roll order, when logging is on and is unchanged when it is off; the last log entry is then the current value; flag and installed roller never change, and the value and every log entry remain among the faces; `times` defaults to 1 |
| `DiceRoller.Dice.RollStep` | src/Dice.php:95-101 | one loop pass: the roller is asked once more, for the range `[1, count(sides)]`, and gives one more answer `d`, which is a valid face number; the die shows `sides[d - 1]`; the log gains exactly that value when logging is on; the requests so far are extended by that range, and the answers and the log so far by `d` |
| `DiceRoller.Dice.SetValue` | src/Dice.php:110-119 | the value becomes `v`; the log gains `v` when logging is on and is unchanged otherwise |
| `DiceRoller.Dice.GetValue` | src/Dice.php:125-132 | fails with RuntimeError exactly when the die has never been rolled; otherwise returns the current value, which is one of the faces |
| `DiceRoller.Dice.EnableHistory` | src/Dice.php:138-142 | the flag becomes `enabled`, which defaults to `true`; value, log and roller are unchanged, and the die's invariant is kept |
| `DiceRoller.Dice.DisableHistory` | src/Dice.php:148-152 | the flag becomes `!disabled`, where `disabled` defaults to `true`; value, log and roller are unchanged, and the die's invariant is kept |
| `DiceRoller.Dice.IsHistoryEnabled` | src/Dice.php:157-160 | returns the flag |
| `DiceRoller.Dice.AddHistory` | src/Dice.php:166-170 | appends one value at the end of the log; nothing else changes |
| `DiceRoller.Dice.GetHistory` | src/Dice.php:175-178 | returns the log unchanged, and every entry is one of the faces |
| `DiceRoller.Dice.ClearHistory` | src/Dice.php:183-187 | the log becomes empty; value, flag and roller are unchanged, and the die's invariant is kept |
| `DiceRoller.RollOnce` | src/Dice.php:87-131 | building a die from an int `n` with the default roller, rolling once and reading the value succeeds exactly when `n != 1`, and the value is between 1 and `n` |

## Left out

- Roller algorithms (QuickRoller, StrongRoller): their randomness sources
  are not part of this model. A roller is modelled only by its range
  promise, with a nondeterministic answer, so the two kinds behave alike
  here. Rollers written by callers against the roller interface are not
  modelled as a kind of their own.
- DiceRoller.ConstructorSides, Side.IntSidesFewerThanTwo and
  DiceRoller.RollOnce treat integers as unbounded. PHP integers are
  64-bit. For a huge int argument `n`, `range(1, n)` fails in PHP because the array would exceed the maximum array size (a warning and
  `false` in PHP 7, a ValueError in PHP 8), and memory runs out long before
  that. The model does not capture this: it says every int argument other
  than 1 is accepted.
- Uniform distribution of rolls: the model says which values are possible,
  not how likely they are.
- Exception message texts built with `sprintf` and `gettype`: only the
  exception class is modelled.
- PHP type juggling: face values are integers, and `setValue(int)` /
  `getValue(): int` coercion or TypeError for string or float faces is not
  reproduced. Arrays passed as faces are modelled as integer sequences.
- DiceRoller.Dice.Roll takes an integer `times`. In PHP a non-integer such as
  `roll(1.5)` passes the `< 1` test, and `while ($times--)` then steps
  through 1.5, 0.5, -0.5, ... without ever reaching 0, so the loop never
  ends. The model does not capture that non-termination.
- DiceRoller.ConstructorSides and DiceRoller.FactoryAgreesWithConstructor
  treat the faces class named in src/Dice.php (namespace
  `daverichards00\DiceRoller`, no `use` import) and the one the factory
  builds (namespace `daverichards00\DiceRoller\Side`) as the same class,
  `Side.DiceSides`. The class definitions are not part of this model. If
  they are distinct classes, a factory-built object would fail the
  constructor's `instanceof` test, and the model does not capture that.
- Any argument that is not an int, an array or (for the die) a DiceSides
  object is one case, `Other`. The model does not distinguish strings,
  floats, booleans, null or other objects, since they are all rejected the
  same way.
- `DiceSides` is modelled as a plain wrapper around its value list. Its
  own validation is not part of this model. `get` is only called at
  positions the roller guarantees to be valid.
- The fluent `return $this` of the mutating methods: Dafny methods here
  return nothing, or an `Outcome` where the PHP method can throw.
- The selector engine (`DiceCollection`, the selector classes and
  `src/Selector/DiceSelectorFactory.php`) is not part of this model. The
  factory only forwards its arguments to constructors whose source is not
  part of this model.
