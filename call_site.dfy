/**
 * How PHP binds the arguments of a call to
 * `Retrier::attempt(LoopInterface $loop, int $attempts, callable $action)`:
 * positionally, checking each declared parameter's type in order. A value
 * that the parameter's type does not accept raises a `TypeError` naming the
 * argument's position (an object is never coerced to `int`, nor an `int` to
 * `callable`); a missing argument raises an `ArgumentCountError`; extra
 * arguments are ignored.
 */
module CallSite {

  import Downloader

  /** The kinds of value the download loop has at hand. */
  datatype PhpValue = EventLoop | ConsoleOutput | IntValue(n: int) | Closure

  datatype ParameterType = LoopInterfaceType | IntType | CallableType

  datatype Binding =
    | Bound(attempts: int)
    | TypeError(argument: nat)       // 1-based position of the rejected argument
    | ArgumentCountError

  const AttemptParameters: seq<ParameterType> := [LoopInterfaceType, IntType, CallableType]

  predicate Accepts(t: ParameterType, v: PhpValue) {
    match t
    case LoopInterfaceType => v == EventLoop
    case IntType => v.IntValue?
    case CallableType => v == Closure
  }

  function BindAttempt(args: seq<PhpValue>): (b: Binding)
    ensures b.Bound? <==> |args| >= 3 && forall i :: 0 <= i < 3 ==> Accepts(AttemptParameters[i], args[i])
    ensures b.Bound? ==> b.attempts == args[1].n
    ensures b.ArgumentCountError? <==>
      |args| < 3 && forall i :: 0 <= i < |args| ==> Accepts(AttemptParameters[i], args[i])
    ensures b.TypeError? ==>
      1 <= b.argument <= 3 && b.argument <= |args| &&
      !Accepts(AttemptParameters[b.argument - 1], args[b.argument - 1]) &&
      forall i :: 0 <= i < b.argument - 1 ==> Accepts(AttemptParameters[i], args[i])
  {
    if |args| < 1 then ArgumentCountError
    else if !Accepts(LoopInterfaceType, args[0]) then TypeError(1)
    else if |args| < 2 then ArgumentCountError
    else if !Accepts(IntType, args[1]) then TypeError(2)
    else if |args| < 3 then ArgumentCountError
    else if !Accepts(CallableType, args[2]) then TypeError(3)
    else Bound(args[1].n)
  }

  /** The arguments the download loop passes: `($loop, $output, 3, fn() => ...)`. */
  const AsWrittenArguments: seq<PhpValue> := [EventLoop, ConsoleOutput, IntValue(3), Closure]

  /** The arguments it evidently means: `($loop, 3, fn() => ...)`. */
  const IntendedArguments: seq<PhpValue> := [EventLoop, IntValue(Downloader.MaxAttempts), Closure]

  /** As written, the console output lands on `int $attempts`: the call raises a TypeError for argument 2. */
  lemma AsWrittenCallRaisesTypeError()
    ensures BindAttempt(AsWrittenArguments) == TypeError(2)
  {
  }

  /** The intended call binds, with three attempts: the count the downloader's model uses. */
  lemma IntendedCallBindsThreeAttempts()
    ensures BindAttempt(IntendedArguments) == Bound(3)
    ensures Downloader.MaxAttempts == 3
  {
  }
}
