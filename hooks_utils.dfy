/**
 * The status logic of the action hooks (`hooks-utils.ts`): the derived
 * status, its one-hot shorthand object, the shared error predicate, and the
 * state steps of `useInternalAction` when an execution starts, settles, or
 * the hook is reset.
 *
 * React's scheduling (transitions, deferred setters, refs) is not modelled:
 * each step is one atomic transition of the hook's state record that also
 * reports the callbacks it fires, in order. `isTransitioning`, which React
 * supplies, is a parameter of the status.
 */
module HooksUtils {
  import opened Wrappers

  /** `HookActionStatus`. */
  datatype HookActionStatus = Idle | Executing | Transitioning | HasSucceeded | HasErrored | HasNavigated

  /** `NavigationKind`: the kind of framework navigation an action threw. */
  datatype NavigationKind = Redirect | NotFound | Forbidden | Unauthorized | OtherNavigation

  /** `CoolActionResult`: every property optional. */
  datatype CoolActionResult<D, SE, VE> = CoolActionResult(data: Option<D>, serverError: Option<SE>, validationErrors: Option<VE>)

  /** The empty result `{}`. */
  function EmptyResult<D, SE, VE>(): CoolActionResult<D, SE, VE>
  {
    CoolActionResult(None, None, None)
  }

  /** `HookShorthandStatus`. */
  datatype HookShorthandStatus = HookShorthandStatus(
    isIdle: bool,
    isExecuting: bool,
    isTransitioning: bool,
    isPending: bool,
    hasSucceeded: bool,
    hasErrored: bool,
    hasNavigated: bool)

  // ---------------------------------------------------------------------------
  // Status derivation
  // ---------------------------------------------------------------------------

  /** `hasResultErrors(result, thrownError)`: a thrown error, validation
      errors or a server error. */
  predicate HasResultErrors<D, SE, VE, E>(result: CoolActionResult<D, SE, VE>, thrownError: Option<E>)
  {
    thrownError.Some? || result.validationErrors.Some? || result.serverError.Some?
  }

  /** `getActionStatus`: the first that applies of idle, executing,
      transitioning, errored, navigated; succeeded otherwise. */
  function GetActionStatus<D, SE, VE>(isIdle: bool, isExecuting: bool, isTransitioning: bool,
                                      hasNavigated: bool, hasThrownError: bool,
                                      result: CoolActionResult<D, SE, VE>): (r: HookActionStatus)
    ensures r == Idle <==> isIdle
    ensures r == Executing <==> !isIdle && isExecuting
    ensures r == Transitioning <==> !isIdle && !isExecuting && isTransitioning
    ensures r == HasErrored <==> !isIdle && !isExecuting && !isTransitioning
                                 && (hasThrownError || result.validationErrors.Some? || result.serverError.Some?)
    ensures r == HasNavigated <==> !isIdle && !isExecuting && !isTransitioning && hasNavigated
                                   && !hasThrownError && result.validationErrors.None? && result.serverError.None?
    ensures r == HasSucceeded <==> !isIdle && !isExecuting && !isTransitioning && !hasNavigated
                                   && !hasThrownError && result.validationErrors.None? && result.serverError.None?
  {
    if isIdle then Idle
    else if isExecuting then Executing
    else if isTransitioning then Transitioning
    else if hasThrownError || result.validationErrors.Some? || result.serverError.Some? then HasErrored
    else if hasNavigated then HasNavigated
    else HasSucceeded
  }

  /** The error predicate the settle step uses is the errored condition of
      the status: once the hook is neither idle, executing nor
      transitioning, the status is "hasErrored" exactly when
      `hasResultErrors` holds of the result and the thrown error. */
  lemma HasErroredIsResultErrors<D, SE, VE, E>(hasNavigated: bool, result: CoolActionResult<D, SE, VE>, thrownError: Option<E>)
    ensures GetActionStatus(false, false, false, hasNavigated, thrownError.Some?, result) == HasErrored
            <==> HasResultErrors(result, thrownError)
  {
  }

  /** Errors take precedence over navigation. */
  lemma ErrorsBeforeNavigation<D, SE, VE>(hasThrownError: bool, result: CoolActionResult<D, SE, VE>)
    requires hasThrownError || result.serverError.Some? || result.validationErrors.Some?
    ensures GetActionStatus(false, false, false, true, hasThrownError, result) == HasErrored
  {
  }

  /** `getActionShorthandStatusObject(status)`. */
  function ShorthandStatus(status: HookActionStatus): (r: HookShorthandStatus)
    ensures r.isPending <==> status == Executing || status == Transitioning
    ensures StatusOfShorthand(r) == status
  {
    HookShorthandStatus(
      isIdle := status == Idle,
      isExecuting := status == Executing,
      isTransitioning := status == Transitioning,
      isPending := status == Executing || status == Transitioning,
      hasSucceeded := status == HasSucceeded,
      hasErrored := status == HasErrored,
      hasNavigated := status == HasNavigated)
  }

  /** The number of true flags. */
  function CountTrue(flags: seq<bool>): nat
  {
    if flags == [] then 0 else (if flags[0] then 1 else 0) + CountTrue(flags[1..])
  }

  /** Reads the status back from the first true flag of a shorthand object. */
  function StatusOfShorthand(s: HookShorthandStatus): HookActionStatus
  {
    if s.isIdle then Idle
    else if s.isExecuting then Executing
    else if s.isTransitioning then Transitioning
    else if s.hasSucceeded then HasSucceeded
    else if s.hasErrored then HasErrored
    else HasNavigated
  }

  /** The flags of a shorthand object other than `isPending`. */
  function Flags(s: HookShorthandStatus): seq<bool>
  {
    [s.isIdle, s.isExecuting, s.isTransitioning, s.hasSucceeded, s.hasErrored, s.hasNavigated]
  }

  /** No flag set: the count is zero. */
  lemma {:induction false} CountTrueNone(flags: seq<bool>)
    requires forall j :: 0 <= j < |flags| ==> !flags[j]
    ensures CountTrue(flags) == 0
  {
    if flags != [] {
      CountTrueNone(flags[1..]);
    }
  }

  /** Exactly the flag at `k` set: the count is one. */
  lemma {:induction false} CountTrueSingle(flags: seq<bool>, k: nat)
    requires k < |flags| && flags[k]
    requires forall j :: 0 <= j < |flags| && j != k ==> !flags[j]
    ensures CountTrue(flags) == 1
  {
    if k == 0 {
      CountTrueNone(flags[1..]);
    } else {
      CountTrueSingle(flags[1..], k - 1);
    }
  }

  /** Exactly one of the six status flags of a shorthand object is set. */
  lemma ShorthandOneHot(status: HookActionStatus)
    ensures CountTrue(Flags(ShorthandStatus(status))) == 1
  {
    var k := match status
      case Idle => 0
      case Executing => 1
      case Transitioning => 2
      case HasSucceeded => 3
      case HasErrored => 4
      case HasNavigated => 5;
    CountTrueSingle(Flags(ShorthandStatus(status)), k);
  }

  /** Different statuses give different shorthand objects. */
  lemma ShorthandInjective(a: HookActionStatus, b: HookActionStatus)
    ensures ShorthandStatus(a) == ShorthandStatus(b) ==> a == b
  {
  }

  // ---------------------------------------------------------------------------
  // The state of `useInternalAction`
  // ---------------------------------------------------------------------------

  /** The React state of the hook: `isIdle`, `isExecuting`, `result`,
      `navigationError`, `thrownError` (null as None) and the client input
      (undefined as None). */
  datatype HookState<I, D, SE, VE, E> = HookState(
    isIdle: bool,
    isExecuting: bool,
    result: CoolActionResult<D, SE, VE>,
    navigationError: Option<E>,
    thrownError: Option<E>,
    clientInput: Option<I>)

  /** The status the hook returns. */
  function Status<I, D, SE, VE, E>(s: HookState<I, D, SE, VE, E>, isTransitioning: bool): (r: HookActionStatus)
    ensures r == Idle <==> s.isIdle
    ensures r == HasErrored <==> !s.isIdle && !s.isExecuting && !isTransitioning && HasResultErrors(s.result, s.thrownError)
    ensures r == HasNavigated ==> s.navigationError.Some?
  {
    GetActionStatus(s.isIdle, s.isExecuting, isTransitioning, s.navigationError.Some?, s.thrownError.Some?, s.result)
  }

  /** The initial state of the `useState` calls. */
  function InitialState<I, D, SE, VE, E>(): (s: HookState<I, D, SE, VE, E>)
    ensures forall t :: Status(s, t) == Idle
  {
    HookState(true, false, EmptyResult(), None, None, None)
  }


  /** A value thrown by the server action or by a callback: any value, with
      `null` as None, or an error the framework classifies as a navigation,
      with its kind. */
  datatype Thrown<E> =
    | Raised(raised: Option<E>)
    | NavigationError(error: E, kind: NavigationKind)

  /** The `error` argument of `onError`: the result itself when it carries
      errors, or `{ thrownError: e }` for a caught value `e`. */
  datatype ErrorArg<D, SE, VE, E> =
    | ResultError(result: CoolActionResult<D, SE, VE>)
    | ThrownError(thrownError: Option<E>)

  /** A hook callback as invoked (when the caller supplied it), with its
      argument. `OnBeforeExecute` is the `onBeforeExecute` option of the
      optimistic hook. */
  datatype Callback<I, D, SE, VE, E> =
    | OnExecute(input: I)
    | OnBeforeExecute(input: I)
    | OnSuccess(data: Option<D>, input: I)
    | OnError(error: ErrorArg<D, SE, VE, E>, input: I)
    | OnNavigation(input: I, kind: NavigationKind)
    | OnSettled(result: CoolActionResult<D, SE, VE>, input: I, navigationKind: Option<NavigationKind>)

  /** How the server action's promise settled: with a (possibly nullish)
      result, or with a thrown value. */
  datatype ActionOutcome<D, SE, VE, E> =
    | Resolved(res: Option<CoolActionResult<D, SE, VE>>)
    | Rejected(thrown: Thrown<E>)

  /** What the promise returned by `executeAsync` does: it fulfils with the
      raw result, rejects with a non-navigation value (which `execute`
      rethrows), or never settles (after a navigation, or when a callback of
      the `.catch` handler throws). */
  datatype AsyncResult<D, SE, VE, E> =
    | Fulfilled(res: Option<CoolActionResult<D, SE, VE>>)
    | RejectedWith(reason: Option<E>)
    | NeverSettles

  /** Whether the caller's callbacks return normally (None) or throw, for
      each invocation. */
  type Throws<!I, !D, !SE, !VE, !E> = Callback<I, D, SE, VE, E> -> Option<Thrown<E>>

  /** Callbacks called one after the other: the ones invoked and the value
      that stopped the sequence, if any. */
  datatype Invoked<I, D, SE, VE, E> = Invoked(fired: seq<Callback<I, D, SE, VE, E>>, thrown: Option<Thrown<E>>)

  /** Calls the callbacks in order until one throws. */
  function Invoke<I, D, SE, VE, E>(cbs: seq<Callback<I, D, SE, VE, E>>, throws: Throws<I, D, SE, VE, E>)
    : (r: Invoked<I, D, SE, VE, E>)
    ensures r.fired <= cbs
    ensures cbs != [] ==> r.fired != []
    ensures r.thrown.None? <==> r.fired == cbs && forall k :: 0 <= k < |cbs| ==> throws(cbs[k]).None?
    ensures r.thrown.Some? ==> r.fired != [] && r.thrown == throws(r.fired[|r.fired| - 1])
                               && forall k :: 0 <= k < |r.fired| - 1 ==> throws(r.fired[k]).None?
    decreases |cbs|
  {
    if cbs == [] then Invoked([], None)
    else match throws(cbs[0])
      case Some(t) => Invoked([cbs[0]], Some(t))
      case None =>
        var rest := Invoke(cbs[1..], throws);
        Invoked([cbs[0]] + rest.fired, rest.thrown)
  }

  /** The start of `execute`/`executeAsync`: the callbacks fired at once, the
      state once the deferred setters have run, and the value a start
      callback threw, if any (after which the action is not called). */
  datatype Started<I, D, SE, VE, E> = Started(
    state: HookState<I, D, SE, VE, E>,
    fired: seq<Callback<I, D, SE, VE, E>>,
    thrown: Option<Thrown<E>>)

  /** The settling of an execution: the new state, the callbacks fired and
      the fate of the `executeAsync` promise. */
  datatype Settled<I, D, SE, VE, E> = Settled(
    state: HookState<I, D, SE, VE, E>,
    fired: seq<Callback<I, D, SE, VE, E>>,
    promise: AsyncResult<D, SE, VE, E>)

  /** The state the deferred setters of a start leave: out of idle, both
      errors cleared, the input recorded, executing; the result is kept. */
  function StartedState<I, D, SE, VE, E>(s: HookState<I, D, SE, VE, E>, input: I): HookState<I, D, SE, VE, E>
  {
    s.(isIdle := false, navigationError := None, thrownError := None, clientInput := Some(input), isExecuting := true)
  }

  /** Starting an execution with `input`: `onExecute` is called first; when
      it throws nothing else happens. Otherwise the setters are scheduled
      with `setTimeout` and `onBeforeExecute` is called at once, before they
      run; the action runs only if it returns. The state is the one after
      the scheduled setters have run. */
  function StartStep<I, D, SE, VE, E>(s: HookState<I, D, SE, VE, E>, input: I, throws: Throws<I, D, SE, VE, E>)
    : (r: Started<I, D, SE, VE, E>)
    ensures throws(OnExecute(input)).Some? ==>
              r.state == s && r.fired == [OnExecute(input)] && r.thrown == throws(OnExecute(input))
    ensures throws(OnExecute(input)).None? ==>
              && r.fired == [OnExecute(input), OnBeforeExecute(input)]
              && r.thrown == throws(OnBeforeExecute(input))
              && !r.state.isIdle && r.state.isExecuting
              && r.state.navigationError.None? && r.state.thrownError.None?
              && r.state.clientInput == Some(input) && r.state.result == s.result
              && forall t :: Status(r.state, t) == Executing
  {
    var onExecute := Invoke([OnExecute(input)], throws);
    if onExecute.thrown.Some? then Started(s, onExecute.fired, onExecute.thrown)
    else
      var onBeforeExecute := Invoke([OnBeforeExecute(input)], throws);
      Started(StartedState(s, input), onExecute.fired + onBeforeExecute.fired, onBeforeExecute.thrown)
  }

  /** `res ?? {}`. */
  function SafeResult<D, SE, VE>(res: Option<CoolActionResult<D, SE, VE>>): CoolActionResult<D, SE, VE>
  {
    if res.Some? then res.value else EmptyResult()
  }

  /** The callbacks of the `.then` handler for a resolved result: `onSuccess`
      when it has no errors, `onError` with the result otherwise, then
      `onSettled`. */
  function ThenCallbacks<I, D, SE, VE, E>(safeRes: CoolActionResult<D, SE, VE>, input: I): (r: seq<Callback<I, D, SE, VE, E>>)
    ensures |r| == 2 && r[1] == OnSettled(safeRes, input, None)
    ensures r[0].OnSuccess? <==> !HasResultErrors(safeRes, Option<E>.None)
    ensures r[0].OnSuccess? ==> r[0] == OnSuccess(safeRes.data, input)
    ensures !r[0].OnSuccess? ==> r[0] == OnError(ResultError(safeRes), input)
  {
    if !HasResultErrors(safeRes, Option<E>.None) then [OnSuccess(safeRes.data, input), OnSettled(safeRes, input, None)]
    else [OnError(ResultError(safeRes), input), OnSettled(safeRes, input, None)]
  }

  /** The `.catch` handler, then `.finally`, for a thrown value `t`: the
      result becomes `{}`. A navigation error is stored as the navigation
      error, fires `onNavigation` then `onSettled` with its kind, and is
      swallowed. Any other value, `null` included, is stored as the thrown
      error, fires `onError` then `onSettled`, and is rethrown. A callback
      that throws here ends the handler. */
  function CatchStep<I, D, SE, VE, E>(s: HookState<I, D, SE, VE, E>, input: I, t: Thrown<E>,
                                      throws: Throws<I, D, SE, VE, E>): Settled<I, D, SE, VE, E>
  {
    match t
    case NavigationError(e, kind) =>
      var called := Invoke([OnNavigation(input, kind), OnSettled(EmptyResult(), input, Some(kind))], throws);
      Settled(s.(result := EmptyResult(), navigationError := Some(e), isExecuting := false), called.fired, NeverSettles)
    case Raised(v) =>
      var called := Invoke([OnError(ThrownError(v), input), OnSettled(EmptyResult(), input, None)], throws);
      Settled(s.(result := EmptyResult(), thrownError := v, isExecuting := false), called.fired,
              if called.thrown.None? then RejectedWith(v) else NeverSettles)
  }

  /** The settling of the execution started with `input`. The `.then`
      handler stores the nullish-safe result and calls its callbacks; when
      one of them throws, the `.catch` handler runs with the thrown value,
      exactly as for a rejected action. In every case the hook stops
      executing. */
  function SettleStep<I, D, SE, VE, E>(s: HookState<I, D, SE, VE, E>, input: I, outcome: ActionOutcome<D, SE, VE, E>,
                                       throws: Throws<I, D, SE, VE, E>): (r: Settled<I, D, SE, VE, E>)
    ensures !r.state.isExecuting
    ensures r.state.isIdle == s.isIdle && r.state.clientInput == s.clientInput
    ensures r.fired != []
    ensures outcome.Resolved? && !HasResultErrors(SafeResult(outcome.res), Option<E>.None) ==>
              r.fired[0] == OnSuccess(SafeResult(outcome.res).data, input)
    ensures outcome.Resolved? && HasResultErrors(SafeResult(outcome.res), Option<E>.None) ==>
              r.fired[0] == OnError(ResultError(SafeResult(outcome.res)), input)
    ensures outcome.Rejected? && outcome.thrown.NavigationError? ==>
              && r.fired[0] == OnNavigation(input, outcome.thrown.kind)
              && r.state.navigationError == Some(outcome.thrown.error) && r.state.thrownError == s.thrownError
              && r.promise == NeverSettles
    ensures outcome.Rejected? && outcome.thrown.Raised? ==>
              && r.fired[0] == OnError(ThrownError(outcome.thrown.raised), input)
              && r.state.thrownError == outcome.thrown.raised && r.state.navigationError == s.navigationError
              && (r.promise == RejectedWith(outcome.thrown.raised) || r.promise == NeverSettles)
    ensures r.promise.Fulfilled? <==>
              outcome.Resolved? && forall k :: 0 <= k < 2 ==> throws(ThenCallbacks(SafeResult(outcome.res), input)[k]).None?
    ensures r.promise.Fulfilled? ==>
              && r.promise.res == outcome.res && r.state.result == SafeResult(outcome.res)
              && r.fired == [r.fired[0], OnSettled(SafeResult(outcome.res), input, None)]
              && r.state.navigationError == s.navigationError && r.state.thrownError == s.thrownError
    ensures !r.promise.Fulfilled? ==> r.state.result == EmptyResult()
    ensures r.fired[|r.fired| - 1].OnSettled? || throws(r.fired[|r.fired| - 1]).Some?
  {
    match outcome
    case Resolved(res) =>
      var safeRes := SafeResult(res);
      var called := Invoke(ThenCallbacks(safeRes, input), throws);
      if called.thrown.None? then Settled(s.(result := safeRes, isExecuting := false), called.fired, Fulfilled(res))
      else
        var caught := CatchStep(s.(result := safeRes), input, called.thrown.value, throws);
        Settled(caught.state, called.fired + caught.fired, caught.promise)
    case Rejected(t) => CatchStep(s, input, t, throws)
  }

  /** With callbacks that return normally, exactly two fire: the first, then
      `onSettled` with the stored result (and the navigation kind after a
      navigation). The promise fulfils with the raw result, never settles
      after a navigation, and rejects with any other thrown value. */
  lemma SettleWithReturningCallbacks<I, D, SE, VE, E>(s: HookState<I, D, SE, VE, E>, input: I,
                                                       outcome: ActionOutcome<D, SE, VE, E>, throws: Throws<I, D, SE, VE, E>)
    requires forall c :: throws(c).None?
    ensures var r := SettleStep(s, input, outcome, throws);
            && |r.fired| == 2
            && r.fired[1] == OnSettled(r.state.result, input,
                                       if outcome.Rejected? && outcome.thrown.NavigationError? then Some(outcome.thrown.kind) else None)
            && (outcome.Resolved? ==> r.promise == Fulfilled(outcome.res))
            && (outcome.Rejected? && outcome.thrown.Raised? ==> r.promise == RejectedWith(outcome.thrown.raised))
  {
  }

  /** A callback of the `.then` handler that throws is caught by `.catch`:
      after the callbacks already fired, the settling goes on exactly as if
      the action had rejected with the thrown value. */
  lemma {:induction false} ThrowingCallbackIsCaught<I, D, SE, VE, E>(
    s: HookState<I, D, SE, VE, E>, input: I, res: Option<CoolActionResult<D, SE, VE>>, throws: Throws<I, D, SE, VE, E>,
    t: Thrown<E>)
    requires Invoke(ThenCallbacks(SafeResult(res), input), throws).thrown == Some(t)
    ensures var called := Invoke(ThenCallbacks(SafeResult(res), input), throws);
            var rejected := SettleStep(s, input, Rejected(t), throws);
            SettleStep(s, input, Resolved(res), throws)
              == Settled(rejected.state, called.fired + rejected.fired, rejected.promise)
  {
    var safeRes := SafeResult(res);
    assert s.(result := safeRes).(result := EmptyResult()) == s.(result := EmptyResult());
  }

  /** A rejection with `null`: `onError` fires with `{ thrownError: null }`,
      but nothing non-null is stored, so once settled the status is
      "hasSucceeded". */
  lemma NullRejectionSucceeds<I, D, SE, VE, E>(s: HookState<I, D, SE, VE, E>, input: I, throws: Throws<I, D, SE, VE, E>)
    requires StartStep(s, input, throws).thrown.None?
    ensures var r := SettleStep(StartStep(s, input, throws).state, input, Rejected(Raised(None)), throws);
            && r.fired[0] == OnError(ThrownError(None), input)
            && Status(r.state, false) == HasSucceeded
  {
  }

  /** `reset`: idle again, with no errors, no input and the empty result. */
  function ResetStep<I, D, SE, VE, E>(s: HookState<I, D, SE, VE, E>): (r: HookState<I, D, SE, VE, E>)
    ensures r.isIdle && r.navigationError.None? && r.thrownError.None? && r.clientInput.None?
    ensures r.result == EmptyResult()
    ensures r.isExecuting == s.isExecuting
    ensures forall t :: Status(r, t) == Idle
  {
    s.(isIdle := true, navigationError := None, thrownError := None, clientInput := None, result := EmptyResult())
  }

  /** Some callback of the list is `onNavigation`. */
  predicate FiredNavigation<I, D, SE, VE, E>(fired: seq<Callback<I, D, SE, VE, E>>)
  {
    exists k :: 0 <= k < |fired| && fired[k].OnNavigation?
  }

  /** Two lists in a row fire `onNavigation` when one of them does. */
  lemma FiredNavigationAppend<I, D, SE, VE, E>(a: seq<Callback<I, D, SE, VE, E>>, b: seq<Callback<I, D, SE, VE, E>>)
    ensures FiredNavigation(a + b) <==> FiredNavigation(a) || FiredNavigation(b)
  {
    if FiredNavigation(a + b) {
      var k :| 0 <= k < |a + b| && (a + b)[k].OnNavigation?;
      if k >= |a| {
        assert b[k - |a|].OnNavigation?;
      }
    }
    if FiredNavigation(b) {
      var k :| 0 <= k < |b| && b[k].OnNavigation?;
      assert (a + b)[|a| + k] == b[k];
    }
    if FiredNavigation(a) {
      var k :| 0 <= k < |a| && a[k].OnNavigation?;
      assert (a + b)[k] == a[k];
    }
  }

  /** The argument of the last `onError` of the list, if any. */
  function LastError<I, D, SE, VE, E>(fired: seq<Callback<I, D, SE, VE, E>>): Option<ErrorArg<D, SE, VE, E>>
    decreases |fired|
  {
    if fired == [] then None
    else if fired[|fired| - 1].OnError? then Some(fired[|fired| - 1].error)
    else LastError(fired[..|fired| - 1])
  }

  /** The last `onError` of the list reports an error the hook keeps: a
      result with errors, or a non-null thrown value. */
  predicate LastErrorCarries<I, D, SE, VE, E>(fired: seq<Callback<I, D, SE, VE, E>>)
  {
    match LastError(fired)
    case None => false
    case Some(ResultError(result)) => HasResultErrors(result, Option<E>.None)
    case Some(ThrownError(e)) => e.Some?
  }

  /** The last `onError` of two lists in a row is that of the second, if it
      has one. */
  lemma {:induction false} LastErrorAppend<I, D, SE, VE, E>(a: seq<Callback<I, D, SE, VE, E>>, b: seq<Callback<I, D, SE, VE, E>>)
    ensures LastError(a + b) == if LastError(b).Some? then LastError(b) else LastError(a)
    decreases |b|
  {
    if b == [] {
      assert a + b == a;
    } else {
      assert (a + b)[..|a + b| - 1] == a + b[..|b| - 1];
      LastErrorAppend(a, b[..|b| - 1]);
    }
  }

  /** What the `.catch` handler fires: an `onNavigation` exactly for a
      navigation error, and otherwise an `onError` with the thrown value,
      which is the last `onError` of the handler; never `onSuccess`. */
  lemma CatchFired<I, D, SE, VE, E>(s: HookState<I, D, SE, VE, E>, input: I, t: Thrown<E>,
                                    throws: Throws<I, D, SE, VE, E>)
    ensures var r := CatchStep(s, input, t, throws);
            && r.fired != []
            && (FiredNavigation(r.fired) <==> t.NavigationError?)
            && LastError(r.fired) == (if t.Raised? then Some(ThrownError(t.raised)) else None)
            && (forall k :: 0 <= k < |r.fired| ==> !r.fired[k].OnSuccess?)
  {
    var r := CatchStep(s, input, t, throws);
    var first: Callback<I, D, SE, VE, E> :=
      match t
      case NavigationError(_, kind) => OnNavigation(input, kind)
      case Raised(v) => OnError(ThrownError(v), input);
    assert r.fired[0] == first;
    assert r.fired == [first] || (|r.fired| == 2 && r.fired[1].OnSettled?);
    assert [first][..0] == [];
    assert LastError([first]) == if first.OnError? then Some(first.error) else LastError([first][..0]);
    if |r.fired| == 2 {
      assert r.fired[..1] == [first];
    }
  }

  /** The status after an execution has started, called the action and
      settled (and React's transition has ended) agrees with the callbacks
      fired, whichever of them threw: "hasNavigated" exactly when
      `onNavigation` fired; otherwise "hasErrored" exactly when the last
      `onError` fired reported a result with errors or a non-null thrown
      value, and "hasSucceeded" when none did (no `onError`, or a last one
      with `{ thrownError: null }`). */
  lemma {:induction false} SettledStatusMatchesCallbacks<I, D, SE, VE, E>(
    s: HookState<I, D, SE, VE, E>, input: I, outcome: ActionOutcome<D, SE, VE, E>, throws: Throws<I, D, SE, VE, E>)
    requires StartStep(s, input, throws).thrown.None?
    ensures var r := SettleStep(StartStep(s, input, throws).state, input, outcome, throws);
            && (Status(r.state, false) == HasNavigated <==> FiredNavigation(r.fired))
            && (Status(r.state, false) == HasErrored <==> !FiredNavigation(r.fired) && LastErrorCarries(r.fired))
            && (Status(r.state, false) == HasSucceeded <==> !FiredNavigation(r.fired) && !LastErrorCarries(r.fired))
            && Status(r.state, true) == Transitioning
  {
    var started := StartStep(s, input, throws).state;
    var r := SettleStep(started, input, outcome, throws);
    match outcome
    case Rejected(t) =>
      CatchFired(started, input, t, throws);
    case Resolved(res) =>
      var safeRes := SafeResult(res);
      var cbs := ThenCallbacks<I, D, SE, VE, E>(safeRes, input);
      var called := Invoke(cbs, throws);
      assert forall k :: 0 <= k < |called.fired| ==> called.fired[k] == cbs[k];
      assert !FiredNavigation(called.fired);
      if called.thrown.None? {
        assert r.fired == cbs;
        assert cbs[..1] == [cbs[0]] && [cbs[0]][..0] == [];
        assert LastError(r.fired) == LastError([cbs[0]]);
        assert LastError([cbs[0]]) == if cbs[0].OnError? then Some(cbs[0].error) else LastError([cbs[0]][..0]);
        if cbs[0].OnError? {
          assert LastError(r.fired) == Some(ResultError(safeRes));
        } else {
          assert LastError(r.fired) == None;
        }
      } else {
        var t := called.thrown.value;
        var caught := CatchStep(started.(result := safeRes), input, t, throws);
        CatchFired(started.(result := safeRes), input, t, throws);
        assert r.fired == called.fired + caught.fired;
        LastErrorAppend(called.fired, caught.fired);
        FiredNavigationAppend(called.fired, caught.fired);
      }
  }

  /** After a reset the previous execution leaves no trace: starting again
      and settling gives the same state and callbacks whatever happened
      before the reset. */
  lemma ResetForgetsHistory<I, D, SE, VE, E>(
    s1: HookState<I, D, SE, VE, E>, s2: HookState<I, D, SE, VE, E>, input: I, outcome: ActionOutcome<D, SE, VE, E>,
    throws: Throws<I, D, SE, VE, E>)
    requires throws(OnExecute(input)).None?
    ensures SettleStep(StartStep(ResetStep(s1), input, throws).state, input, outcome, throws)
            == SettleStep(StartStep(ResetStep(s2), input, throws).state, input, outcome, throws)
  {
  }

  // ---------------------------------------------------------------------------
  // The hook's state as updated by its setters
  // ---------------------------------------------------------------------------

  /** The React state cells of one `useInternalAction` instance, updated by
      the setters that `execute`, `executeAsync` and `reset` call. */
  class InternalAction<I, D, SE, VE, E> {
    var isIdle: bool
    var isExecuting: bool
    var result: CoolActionResult<D, SE, VE>
    var navigationError: Option<E>
    var thrownError: Option<E>
    var clientInput: Option<I>

    /** The state record of the cells. */
    function State(): HookState<I, D, SE, VE, E>
      reads this
    {
      HookState(isIdle, isExecuting, result, navigationError, thrownError, clientInput)
    }

    /** The hook's initial `useState` values. */
    constructor ()
      ensures State() == InitialState()
    {
      isIdle := true;
      isExecuting := false;
      result := EmptyResult();
      navigationError := None;
      thrownError := None;
      clientInput := None;
    }

    /** The start of `execute(input)`: `onExecute`; then, inside the
        transition, `onBeforeExecute`; then the setters deferred by
        `setTimeout`, which run even when `onBeforeExecute` threw. */
    method Execute(input: I, throws: Throws<I, D, SE, VE, E>)
      returns (fired: seq<Callback<I, D, SE, VE, E>>, thrown: Option<Thrown<E>>)
      modifies this
      ensures Started(State(), fired, thrown) == StartStep(old(State()), input, throws)
    {
      fired := [OnExecute(input)];
      thrown := throws(OnExecute(input));
      if thrown.Some? {
        return;
      }
      fired := fired + [OnBeforeExecute(input)];
      thrown := throws(OnBeforeExecute(input));
      isIdle := false;
      navigationError := None;
      thrownError := None;
      clientInput := Some(input);
      isExecuting := true;
    }

    /** The `.then`, `.catch` and `.finally` handlers of the execution
        started with `input`. */
    method Settle(input: I, outcome: ActionOutcome<D, SE, VE, E>, throws: Throws<I, D, SE, VE, E>)
      returns (fired: seq<Callback<I, D, SE, VE, E>>, promise: AsyncResult<D, SE, VE, E>)
      modifies this
      ensures Settled(State(), fired, promise) == SettleStep(old(State()), input, outcome, throws)
    {
      match outcome {
        case Resolved(res) =>
          var safeRes := SafeResult(res);
          result := safeRes;
          var first := if !HasResultErrors(safeRes, Option<E>.None) then OnSuccess(safeRes.data, input)
                       else OnError(ResultError(safeRes), input);
          var last := OnSettled(safeRes, input, None);
          assert ThenCallbacks(safeRes, input) == [first, last];
          var thrown := throws(first);
          fired := [first];
          if thrown.None? {
            fired := fired + [last];
            thrown := throws(last);
          }
          if thrown.None? {
            isExecuting := false;
            promise := Fulfilled(res);
          } else {
            var caught;
            caught, promise := Catch(input, thrown.value, throws);
            fired := fired + caught;
          }
        case Rejected(t) =>
          fired, promise := Catch(input, t, throws);
      }
    }

    /** The `.catch` handler for the thrown value `t`, then `.finally`. */
    method Catch(input: I, t: Thrown<E>, throws: Throws<I, D, SE, VE, E>)
      returns (fired: seq<Callback<I, D, SE, VE, E>>, promise: AsyncResult<D, SE, VE, E>)
      modifies this
      ensures Settled(State(), fired, promise) == CatchStep(old(State()), input, t, throws)
    {
      result := EmptyResult();
      promise := NeverSettles;
      match t {
        case NavigationError(e, kind) =>
          var cbs: seq<Callback<I, D, SE, VE, E>> := [OnNavigation(input, kind), OnSettled(EmptyResult(), input, Some(kind))];
          assert cbs[1..] == [cbs[1]] && [cbs[1]][1..] == [];
          navigationError := Some(e);
          fired := [OnNavigation(input, kind)];
          if throws(OnNavigation(input, kind)).None? {
            fired := fired + [OnSettled(EmptyResult(), input, Some(kind))];
          }
        case Raised(v) =>
          var cbs: seq<Callback<I, D, SE, VE, E>> := [OnError(ThrownError(v), input), OnSettled(EmptyResult(), input, None)];
          assert cbs[1..] == [cbs[1]] && [cbs[1]][1..] == [];
          thrownError := v;
          fired := [OnError(ThrownError(v), input)];
          var thrown := throws(OnError(ThrownError(v), input));
          if thrown.None? {
            fired := fired + [OnSettled(EmptyResult(), input, None)];
            thrown := throws(OnSettled(EmptyResult(), input, None));
          }
          if thrown.None? {
            promise := RejectedWith(v);
          }
      }
      isExecuting := false;
    }

    /** `reset()`. */
    method Reset()
      modifies this
      ensures State() == ResetStep(old(State()))
    {
      isIdle := true;
      navigationError := None;
      thrownError := None;
      clientInput := None;
      result := EmptyResult();
    }
  }
}
