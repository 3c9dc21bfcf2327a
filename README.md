# next-cool-action core, modelled in Dafny

This project models three pieces of the next-cool-action library and proves properties about them.

- **The react-hook-form error mapper.** `mapToHookFormErrors` walks a nested validation-errors object in key order. Each `_errors` string array it meets becomes a react-hook-form field error `{ type: "validate", message }`. The error is written into a fresh output object at the key path that led to the array, or under `"root"` for the top level. Intermediate objects are created on demand, and messages are joined with a configurable separator.
  - Module `HookFormAdapter` (`hook_form_errors.dfy`) gives the reference definitions as values:
    - the sites the traversal meets, in order;
    - one write into the output tree, including the `??=` descent;
    - the fold of all writes;
    - the whole mapper.
  - Module `HookFormMapper` (`hook_form_mapper.dfy`) is the imperative mapper. It is a class whose `fieldErrors` map is updated in place. It has a recursive `Mapper` method with a loop over the keys, and a `SetError` method that walks a moving reference down and writes back. Both are proved equal to the reference definitions.
- **The status logic of the action hooks** (module `HooksUtils`, `hooks_utils.dfy`). It covers:
  - the prioritised status derivation;
  - the one-hot shorthand object;
  - the shared error predicate;
  - the state steps of `useInternalAction`: start, settle on resolve or reject, and reset.

  Each step is a function that returns the new state record together with the callbacks fired, in order. Any callback may throw, as a parameter says for each call. A throw from a `.then` callback is handled by `.catch` like a rejection of the action. The class `InternalAction` holds the state cells, and its methods are proved to perform exactly those steps.
- **The persistent client builder and its factory** (module `ActionClient`, `action_client.dfy`).
  - `CoolActionClient` is its readonly args record. Each builder method returns a new record with one or two properties replaced.
  - `createCoolActionClient` fixes the initial record from option defaults.
  - Caller-supplied functions, schemas and middleware are opaque values, known by identity.

JavaScript `undefined` and absent optional properties are `Option.None` (module `Wrappers`).

## Model

| member | source | states |
|---|---|---|
| HookFormAdapter.ElementText | packages/adapter-react-hook-form/src/index.ts:47 | The text `Array.prototype.join` gives an item: a string itself, null/undefined empty, a nested array joined with commas, an object "[object Object]", another primitive its string form. Specified through `Join` and `JoinConcat`. |
| HookFormAdapter.Join | packages/adapter-react-hook-form/src/index.ts:47 | A non-empty join starts with the first item's text, and with two or more items that text is followed by the separator. |
| HookFormAdapter.SitesFrom | packages/adapter-react-hook-form/src/index.ts:19-30 | Every site the traversal of an object lists has a key path that extends the path of that object. Which sites are listed is stated by `SitesExact`. |
| HookFormAdapter.TargetPath | packages/adapter-react-hook-form/src/index.ts:42 | The key path of a site, or `["root"]` for the top level, is never empty. |
| HookFormAdapter.ChildDict | packages/adapter-react-hook-form/src/index.ts:37-38 | The `??=` descent fails exactly when the key holds a string. An absent key yields a new empty object, and an object under the key is yielded itself. |
| HookFormAdapter.Put | packages/adapter-react-hook-form/src/index.ts:32-48 | A successful write adds at most its first key at the top level and removes none. Its effect is stated by `PutLands`, `PutFrame`, `PutWalksObjects`, `PutShape` and `PutFailsIffText`. |
| HookFormAdapter.PutFailsIffText | packages/adapter-react-hook-form/src/index.ts:35-45 | A write throws exactly when the walk down the proper prefixes of its target path meets a string. |
| HookFormAdapter.Apply | packages/adapter-react-hook-form/src/index.ts:21-50 | A successful fold of writes never removes a top-level key. Its effect is stated by `ApplyConcat`, `ApplyKeepsText`, `ApplyLastWins`, `ApplySound` and `ApplyFailsIffText`. |
| HookFormAdapter.ApplyFailsIffText | packages/adapter-react-hook-form/src/index.ts:21-50 | The writes throw exactly when, for some site, all writes before it succeed and the walk down its target path then meets a string. |
| HookFormAdapter.MapperThrowsIffWalkMeetsText | packages/adapter-react-hook-form/src/index.ts:9-56 | The mapper throws a TypeError exactly when, for some `_errors` array, the arrays before it are written and the walk down its key path then meets a string. |
| HookFormAdapter.JoinBy | packages/adapter-react-hook-form/src/index.ts:47 | The separator is `props.joinBy` when given, otherwise one space. Specified through `FieldErrorsComplete`. |
| HookFormAdapter.JoinConcat | packages/adapter-react-hook-form/src/index.ts:47 | Joining the concatenation of two non-empty item lists gives the join of the first, one separator, then the join of the second, so the message is the item texts with the separator between consecutive ones. |
| HookFormAdapter.SitesExact | packages/adapter-react-hook-form/src/index.ts:19-30 | The traversal lists a site if and only if its key path runs from the current path, through nested non-null, non-array objects, to an `_errors` entry holding an array with those items. Arrays, strings and null under any other key contribute nothing. |
| HookFormAdapter.PutLands | packages/adapter-react-hook-form/src/index.ts:32-48 | After a successful write, the written value is found at the target path. |
| HookFormAdapter.PutFrame | packages/adapter-react-hook-form/src/index.ts:32-48 | A write leaves unchanged every path that is neither a prefix nor an extension of its target. |
| HookFormAdapter.PutWalksObjects | packages/adapter-react-hook-form/src/index.ts:35-39 | A successful write only passes through absent keys or existing objects. Afterwards every proper prefix of the target holds an object: it is created when absent (`??=`) and kept otherwise. |
| HookFormAdapter.PutShape | packages/adapter-react-hook-form/src/index.ts:35-48 | Every path present after a write was present before, or is a prefix of the target, or lies inside the written value. |
| HookFormAdapter.ApplyConcat | packages/adapter-react-hook-form/src/index.ts:21-50 | The writes of two consecutive runs of sites compose in order. Any failure (TypeError) stops everything after it. |
| HookFormAdapter.ApplyKeepsText | packages/adapter-react-hook-form/src/index.ts:45-48 | A string in the output survives every later write whose target is not a prefix of its path. |
| HookFormAdapter.ApplyLastWins | packages/adapter-react-hook-form/src/index.ts:21-48 | A site's field error (type "validate", joined message) is in the final output unless a later write targets a prefix of its `type` or `message` entry. |
| HookFormAdapter.ApplySound | packages/adapter-react-hook-form/src/index.ts:29-49 | Every path of the output existed before or is covered by some write: on the way to its target, the target itself, or its `type`/`message`. |
| HookFormAdapter.HookFormErrors | packages/adapter-react-hook-form/src/index.ts:9-56 | Undefined input and an object with no keys give undefined. Any non-empty input gives an object or a TypeError, never undefined. |
| HookFormAdapter.NoErrorArraysYieldEmpty | packages/adapter-react-hook-form/src/index.ts:13-55 | A non-empty input without any `_errors` array anywhere gives the empty object. |
| HookFormAdapter.FieldErrorsSound | packages/adapter-react-hook-form/src/index.ts:29-49 | Every entry of the result lies on the path to, or inside, the field error of some `_errors` array of the input. That field error sits at the array's key path, or at "root" for the top level. |
| HookFormAdapter.FieldErrorsComplete | packages/adapter-react-hook-form/src/index.ts:29-48 | Each `_errors` array that no later one shadows appears in the result at its key path, or at "root". Its type is "validate" and its message is the items joined by `joinBy`, default one space. |
| HookFormAdapter.TopLevelUnderRoot | packages/adapter-react-hook-form/src/index.ts:41-47 | `{_errors: ["bad", "input"]}` maps to `{root: {type: "validate", message: "bad input"}}`. |
| HookFormAdapter.SharedPrefixShareContainer | packages/adapter-react-hook-form/src/index.ts:35-39 | Two errors under `user` end up in one `user` container, which is created once. |
| HookFormAdapter.LaterParentOverwrites | packages/adapter-react-hook-form/src/index.ts:21-48 | A parent `_errors` key after a child key replaces the container that holds the child's error. |
| HookFormAdapter.EarlierParentGainsChild | packages/adapter-react-hook-form/src/index.ts:35-48 | A parent `_errors` key before a child key: the child's error is added inside the parent's field error object. |
| HookFormAdapter.FieldNamedMessageThrows | packages/adapter-react-hook-form/src/index.ts:35-45 | A nested field named "message" under a field that already has an error makes the walk reach a string. The write then throws. |
| HookFormMapper.ErrorMapper.constructor | packages/adapter-react-hook-form/src/index.ts:17 | The field-errors object starts empty. |
| HookFormMapper.ErrorMapper.SetError | packages/adapter-react-hook-form/src/index.ts:31-48 | The moving-reference walk plus the final assignment succeeds exactly when the reference write does. On success it leaves `fieldErrors` equal to that write's result. |
| HookFormMapper.ErrorMapper.Mapper | packages/adapter-react-hook-form/src/index.ts:19-51 | The recursive key loop performs, in order, exactly the writes of the sites the traversal lists. On success `fieldErrors` is the fold of those writes over its old value. |
| HookFormMapper.MapToHookFormErrors | packages/adapter-react-hook-form/src/index.ts:9-56 | The imperative mapper returns exactly what the reference mapper gives, including undefined and the TypeError. |
| HooksUtils.GetActionStatus | packages/next-cool-action/src/hooks-utils.ts:7-39 | Each status holds if and only if its condition in the priority order idle > executing > transitioning > hasErrored > hasNavigated > hasSucceeded holds. |
| HooksUtils.HasErroredIsResultErrors | packages/next-cool-action/src/hooks-utils.ts:28-65 | Once not idle, executing or transitioning, the status is "hasErrored" exactly when `hasResultErrors` holds with the thrown error. |
| HooksUtils.ErrorsBeforeNavigation | packages/next-cool-action/src/hooks-utils.ts:28-35 | With errors present, a navigation does not make the status "hasNavigated": errors take precedence. |
| HooksUtils.ShorthandStatus | packages/next-cool-action/src/hooks-utils.ts:41-51 | `isPending` holds exactly for "executing" and "transitioning". The status can be read back from the object. |
| HooksUtils.ShorthandOneHot | packages/next-cool-action/src/hooks-utils.ts:41-51 | Exactly one of isIdle, isExecuting, isTransitioning, hasSucceeded, hasErrored, hasNavigated is true. |
| HooksUtils.ShorthandInjective | packages/next-cool-action/src/hooks-utils.ts:41-51 | Different statuses give different shorthand objects. |
| HooksUtils.InitialState | packages/next-cool-action/src/hooks-utils.ts:79-101 | The initial state has status "idle". |
| HooksUtils.HasResultErrors | packages/next-cool-action/src/hooks-utils.ts:56-65 | A result has errors exactly when a thrown error is given or it has validation errors or a server error. Specified through `GetActionStatus`, `Status` and `HasErroredIsResultErrors`. |
| HooksUtils.SafeResult | packages/next-cool-action/src/hooks-utils.ts:122 | `res ?? {}`: a nullish result counts as the empty result. Specified through `SettleStep`. |
| HooksUtils.Status | packages/next-cool-action/src/hooks-utils.ts:94-101 | The hook's status is "idle" exactly when the idle flag is set. It is "hasErrored" exactly when the hook is settled (not idle, executing or transitioning) and `hasResultErrors` holds of its result and thrown error. It is "hasNavigated" only with a navigation error stored. |
| HooksUtils.Invoke | packages/next-cool-action/src/hooks-utils.ts:126-134 | Callbacks run in order until one throws. Without a throw every callback fires. With one, the callbacks fired are a prefix of the list, the last of them threw, and the ones before it returned. |
| HooksUtils.StartStep | packages/next-cool-action/src/hooks-utils.ts:103-118 | `onExecute` fires first, and if it throws nothing else happens. Otherwise `onBeforeExecute` fires at once, and the action runs only if it returns. The setters deferred by `setTimeout` run after it whether or not it threw. In the state they leave the hook is out of idle, both errors are cleared, the input is recorded and it is executing, so its status is "executing". The result is kept. |
| HooksUtils.ThenCallbacks | packages/next-cool-action/src/hooks-utils.ts:126-134 | The `.then` handler calls two callbacks: `onSuccess(data, input)` exactly when the result has no errors, otherwise `onError` with the result, then `onSettled` with the result. |
| HooksUtils.CatchStep | packages/next-cool-action/src/hooks-utils.ts:137-165 | The `.catch` and `.finally` handlers for a thrown value: the result becomes `{}` and execution stops. A navigation error is stored, fires `onNavigation` then `onSettled` with its kind, and the promise never settles. Any other value is stored as the thrown error, fires `onError` then `onSettled`, and is rethrown. Specified through `CatchFired`, `SettleStep` and `SettleWithReturningCallbacks`. |
| HooksUtils.SettleStep | packages/next-cool-action/src/hooks-utils.ts:121-165 | Execution always stops. On resolve the first callback is `onSuccess(data, input)` for a result, or `{}` if nullish, without errors, and `onError(result, input)` otherwise. On a navigation rejection it is `onNavigation(input, kind)`; the error is stored and the promise never settles. On any other rejection, `null` included, it is `onError({thrownError}, input)`; the value is stored as the thrown error (so `null` stores nothing) and rethrown. The promise fulfils with the raw result exactly when the action resolved and both `.then` callbacks returned; then only the result changes. In every other case the result is `{}`. |
| HooksUtils.SettleWithReturningCallbacks | packages/next-cool-action/src/hooks-utils.ts:121-236 | When no callback throws, exactly two fire, the second being `onSettled` with the stored result (and the navigation kind after a navigation). The promise fulfils with the raw result on resolve and rejects with a non-navigation error. |
| HooksUtils.ThrowingCallbackIsCaught | packages/next-cool-action/src/hooks-utils.ts:121-162 | When a `.then` callback throws, `.catch` handles its error: after the callbacks already fired, the settling is exactly that of an action rejected with that error. |
| HooksUtils.CatchFired | packages/next-cool-action/src/hooks-utils.ts:137-162 | The `.catch` handler fires `onNavigation` exactly for a navigation error. For any other value its last `onError` reports that value as `thrownError`. It never fires `onSuccess`. |
| HooksUtils.NullRejectionSucceeds | packages/next-cool-action/src/hooks-utils.ts:94-165 | An action that rejects with `null` fires `onError` with `{ thrownError: null }`, yet the settled status is "hasSucceeded", since `thrownError !== null` fails. |
| HooksUtils.ResetStep | packages/next-cool-action/src/hooks-utils.ts:245-251 | Reset makes the hook idle, clears the errors and the input, empties the result and leaves `isExecuting` alone, so the status is "idle". |
| HooksUtils.SettledStatusMatchesCallbacks | packages/next-cool-action/src/hooks-utils.ts:94-165 | After a start whose callbacks returned and a settle, once the transition ends, the status matches the callbacks fired, even when one threw. It is "hasNavigated" exactly when `onNavigation` fired. Otherwise it is "hasErrored" exactly when the last `onError` fired reported a result with errors or a non-null thrown value, and "hasSucceeded" when there was no `onError` or the last one carried a `null`. While transitioning it is "transitioning". |
| HooksUtils.ResetForgetsHistory | packages/next-cool-action/src/hooks-utils.ts:245-251 | After a reset, the next execution's outcome does not depend on anything before the reset. |
| HooksUtils.InternalAction.constructor | packages/next-cool-action/src/hooks-utils.ts:79-84 | The state cells start at the initial state. |
| HooksUtils.InternalAction.Execute | packages/next-cool-action/src/hooks-utils.ts:103-118 | Updates the cells and reports the callbacks fired and the error of a throwing start callback, exactly as the start step. |
| HooksUtils.InternalAction.Settle | packages/next-cool-action/src/hooks-utils.ts:121-236 | Updates the cells, reports the callbacks and the promise's fate exactly as the settle step, including callbacks that throw. |
| HooksUtils.InternalAction.Catch | packages/next-cool-action/src/hooks-utils.ts:137-165 | Updates the cells and reports the callbacks and the promise's fate exactly as the `.catch` and `.finally` handlers. |
| HooksUtils.InternalAction.Reset | packages/next-cool-action/src/hooks-utils.ts:245-251 | Updates the cells exactly as the reset step. |
| ActionClient.Use | packages/next-cool-action/src/cool-action-client.ts:44-52 | The middleware list grows by one: the old list followed by the new function. Only `middlewareFns` and `ctxType` change. |
| ActionClient.Metadata | packages/next-cool-action/src/cool-action-client.ts:60-66 | Sets `metadata` and `metadataProvided = true`, nothing else. |
| ActionClient.InputSchema | packages/next-cool-action/src/cool-action-client.ts:75-103 | An async function composes with the previous input schema function, and any other argument replaces it. The shape function of `utils` is used when given, otherwise the previous one is kept. Nothing else changes. |
| ActionClient.BindArgsSchemas | packages/next-cool-action/src/cool-action-client.ts:111-125 | Replaces `bindArgsSchemas` only; the validation errors shape function is kept. |
| ActionClient.OutputSchema | packages/next-cool-action/src/cool-action-client.ts:133-140 | Replaces `outputSchema` only. |
| ActionClient.Action | packages/next-cool-action/src/cool-action-client.ts:149-157 | Only callable once metadata is provided. Hands the accumulated args unchanged to the action builder, as a plain action. |
| ActionClient.StateAction | packages/next-cool-action/src/cool-action-client.ts:167-174 | Only callable once metadata is provided. Hands the accumulated args unchanged to the action builder, as a stateful action. |
| ActionClient.IsAsyncFunction | packages/next-cool-action/src/cool-action-client.ts:90 | The argument counts as a refiner exactly when its `Symbol.toStringTag` is "AsyncFunction". Used by `InputSchema`. |
| ActionClient.ResolveSchema | packages/next-cool-action/src/cool-action-client.ts:90-95 | Awaiting an input schema function gives its plain schema, or the refiner applied to what the previous function gives. Specified through `InputSchemaComposes` and `RefinerChain`. |
| ActionClient.CurrentSchema | packages/next-cool-action/src/cool-action-client.ts:92 | `inputSchemaFn?.()` is undefined when no input schema was given. Specified through `InputSchemaComposes` and `RefinerChain`. |
| ActionClient.MetadataReady | packages/next-cool-action/src/cool-action-client.ts:149-174 | `action` and `stateAction` are callable when no metadata schema is defined or `metadata` was called. Specified through `ReadyIffMetadataCalled` and `FreshClientNeedsMetadata`. |
| ActionClient.InputSchemaComposes | packages/next-cool-action/src/cool-action-client.ts:90-95 | The new input schema is the async refiner applied to the schema in force before it (undefined if none). A plain schema ignores the previous one. |
| ActionClient.RefinerChain | packages/next-cool-action/src/cool-action-client.ts:90-95 | A chain of async refiners applies each one, in call order, to the schema the one before produced. |
| ActionClient.MiddlewareInCallOrder | packages/next-cool-action/src/cool-action-client.ts:47-51 | After any chain of builder calls, the middleware list is the initial one followed by the `use` arguments in call order. |
| ActionClient.FactorySettingsPersist | packages/next-cool-action/src/cool-action-client.ts:47-139 | No builder call changes the metadata schema, the server error handler, the default validation errors shape or `throwValidationErrors`. |
| ActionClient.ReadyIffMetadataCalled | packages/next-cool-action/src/cool-action-client.ts:60-174 | `action`/`stateAction` accept the end of a chain exactly when metadata was already provided (or no metadata schema is defined) or the chain calls `metadata`. |
| ActionClient.CreateCoolActionClient | packages/next-cool-action/src/index.ts:29-72 | The initial record has the following values: <br>- one pass-through middleware; <br>- no input or output schema, no bind-args schemas, undefined metadata and no `metadataProvided`; <br>- the metadata schema from `defineMetadataSchema`; <br>- the caller's server error handler, or the default one; <br>- the given default shape, or "formatted"; <br>- `throwValidationErrors` true only when set to true; <br>- a shape function that flattens exactly when the default shape is "flattened". |
| ActionClient.HandleServerError | packages/next-cool-action/src/index.ts:37-42 | The caller's handler is used when given, otherwise the default one. Specified through `DefaultServerErrorMessage`. |
| ActionClient.DefaultServerErrorMessage | packages/next-cool-action/src/index.ts:37-42 | Without a handler of the caller's, every server error maps to `DEFAULT_SERVER_ERROR_MESSAGE`. |
| ActionClient.FreshClientNeedsMetadata | packages/next-cool-action/src/index.ts:49-63 | A fresh client accepts `action` exactly when the factory defined no metadata schema, or when the chain calls `metadata`. |

## Left out

- React plumbing and timing are not modelled, because they are UI scheduling:
  - `useTransition`, `startTransition` and the `setTimeout`-deferred setters;
  - `useRef`/`useCallback` and Promise scheduling.

  Start and settle are atomic steps. `isTransitioning` is a parameter of the status, and a settle that overtakes the deferred start setters is not considered.
- `FrameworkErrorHandler.isNavigationError` and `getNavigationKind` live in a file that is not part of this model. A thrown value carries their answer as data: `NavigationError(error, kind)` for a navigation, `Raised(value)` for anything else, with `null` as `None`. A navigation error is taken to be a non-null object.
- `execute` and `executeAsync` share their settle logic. `execute` rethrows a non-navigation error from the `.catch` handler as an unhandled rejection, and `executeAsync` rejects its promise with it. Both are the `RejectedWith` outcome.
- A throw from `onExecute` or `onBeforeExecute` is reported by the start step as its `thrown` error. The model does not say where that error then surfaces. `onExecute` throws out of `execute` or rejects the promise of `executeAsync`, and `onBeforeExecute` throws inside React's `startTransition`.
- A throw from a callback of the `.catch` handler ends the handler. `executeAsync`'s promise then never settles, and `execute` leaves an unhandled rejection with the callback's error. Both are the `NeverSettles` outcome, and which error the rejection carries is not modelled.
- Callbacks are modelled as deterministic in their arguments. Whether a callback throws is a function of the callback and its arguments (`Throws`), so a callback that throws on one call and returns on another identical call is not modelled. Absent callbacks are callbacks that return.
- `useAction`, `useOptimisticAction` and the react-hook-form hooks are thin wrappers over React and are not modelled.
- The action builder, schema validation, the middleware executor and `flattenValidationErrors`/`formatValidationErrors` are not part of this model. They appear only as opaque values:
  - `BuiltAction` records what is handed to the action builder;
  - `DefaultShape(flatten)` records which validation-errors function is chosen.
- `DEFAULT_SERVER_ERROR_MESSAGE` is defined in `utils.ts`, which is not part of this model. Its value is a parameter.
- `console.error` in the default server-error handler is logging I/O and is not modelled.
- `ctxType` is a fresh `{}` on every `use`. Object identity is not modelled, so all empty objects are equal.
- `MDProvided` is a TypeScript type parameter. `MetadataReady` models it by the run-time record: no metadata schema, or `metadata` called.
- `CreateClientOpts.defineMetadataSchema` is a function. Its result is given directly, so the model does not cover when it is called.
- `CreateClientOpts.throwValidationErrors` is typed boolean, so `Boolean(x)` is true only for `true`. Other truthy values are not modelled.
- Inherited JavaScript properties are not modelled. In the error mapper every key is an own data property. A key such as `constructor` or `__proto__`, which would find an inherited value under `??=`, is treated like any other key.
- The `ref` alias of the error mapper is modelled as a descent stack and a write-back. This is observably the same, since the output object is fresh and not shared.
- Strict-mode JavaScript throws a TypeError when the mapper writes a property on a string, which happens when the walk reaches a field error's `type` or `message`. The model returns `ThrewTypeError` instead of raising.
- `Array.prototype.join` is modelled for strings, null/undefined (empty), nested arrays (joined with commas) and other primitives (their string form). An object item gives "[object Object]", and a custom `toString` is not modelled.
- The output of the error mapper is a `map`, so the insertion order of the keys of `fieldErrors` and of its nested objects (observable through `Object.keys`) is not modelled. Which keys are present and what they hold is.
