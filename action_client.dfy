/**
 * The persistent action-client builder (`CoolActionClient`) and its factory
 * (`createCoolActionClient`).
 *
 * A client is nothing but its readonly configuration record; every builder
 * method returns a new client whose record is the old one with one or two
 * properties replaced, so in Dafny a client is a value. Functions, schemas
 * and middleware supplied by the caller are opaque: only their identity
 * (and, for the argument of `inputSchema`, its `Symbol.toStringTag`) matters
 * to the builder.
 */
module ActionClient {
  import opened Wrappers

  /** A JavaScript value supplied by the caller (a schema, a function, a
      metadata object), known by identity, with its `Symbol.toStringTag`
      property (None when absent). */
  datatype Opaque = Opaque(id: nat, toStringTag: Option<string>)

  /** The tag an `async function` carries. */
  const ASYNC_FUNCTION_TAG := "AsyncFunction"

  /** A middleware function: the factory's built-in pass-through, which
      calls `next({ ctx: {} })`, or one passed to `use`. */
  datatype Middleware = PassThrough | UserMiddleware(fn: Opaque)

  /** `inputSchemaFn`: either `async () => inputSchema`, or the composing
      `async () => refiner(await prev?.())`. */
  datatype InputSchemaFn =
    | ReturnSchema(schema: Opaque)
    | Refine(refiner: Opaque, prev: Option<InputSchemaFn>)

  /** `handleValidationErrorsShape`: the factory's default, which flattens
      or formats, or one supplied to `inputSchema`. */
  datatype ShapeFn = DefaultShape(flatten: bool) | CustomShape(fn: Opaque)

  /** `handleServerError`: the factory's default, which returns
      `DEFAULT_SERVER_ERROR_MESSAGE`, or the caller's. */
  datatype ServerErrorHandler = DefaultHandler | CustomHandler(fn: Opaque)

  /** `DVES`: the default validation errors shape. */
  datatype Dves = Formatted | Flattened

  /** `ctxType`: always the empty object `{}` at run time. */
  datatype EmptyObject = EmptyObject

  /** `CoolActionClientArgs`. Optional properties and `undefined` are None. */
  datatype ClientArgs = ClientArgs(
    middlewareFns: seq<Middleware>,
    metadataSchema: Option<Opaque>,
    metadata: Option<Opaque>,
    metadataProvided: Option<bool>,
    inputSchemaFn: Option<InputSchemaFn>,
    outputSchema: Option<Opaque>,
    bindArgsSchemas: seq<Opaque>,
    handleValidationErrorsShape: ShapeFn,
    ctxType: EmptyObject,
    handleServerError: ServerErrorHandler,
    defaultValidationErrorsShape: Dves,
    throwValidationErrors: bool)

  /** `CoolActionClient`: a client holds its readonly `#args`. */
  datatype CoolActionClient = CoolActionClient(args: ClientArgs)

  /** The names of the properties of `CoolActionClientArgs`. */
  datatype Field =
    | MiddlewareFnsField | MetadataSchemaField | MetadataField | MetadataProvidedField
    | InputSchemaFnField | OutputSchemaField | BindArgsSchemasField | HandleValidationErrorsShapeField
    | CtxTypeField | HandleServerErrorField | DefaultValidationErrorsShapeField | ThrowValidationErrorsField

  /** `b` is `{ ...a, <changed> }`: every property not in `changed` is
      carried over from `a`. */
  predicate AgreeExcept(a: ClientArgs, b: ClientArgs, changed: set<Field>)
  {
    && (MiddlewareFnsField in changed || b.middlewareFns == a.middlewareFns)
    && (MetadataSchemaField in changed || b.metadataSchema == a.metadataSchema)
    && (MetadataField in changed || b.metadata == a.metadata)
    && (MetadataProvidedField in changed || b.metadataProvided == a.metadataProvided)
    && (InputSchemaFnField in changed || b.inputSchemaFn == a.inputSchemaFn)
    && (OutputSchemaField in changed || b.outputSchema == a.outputSchema)
    && (BindArgsSchemasField in changed || b.bindArgsSchemas == a.bindArgsSchemas)
    && (HandleValidationErrorsShapeField in changed || b.handleValidationErrorsShape == a.handleValidationErrorsShape)
    && (CtxTypeField in changed || b.ctxType == a.ctxType)
    && (HandleServerErrorField in changed || b.handleServerError == a.handleServerError)
    && (DefaultValidationErrorsShapeField in changed || b.defaultValidationErrorsShape == a.defaultValidationErrorsShape)
    && (ThrowValidationErrorsField in changed || b.throwValidationErrors == a.throwValidationErrors)
  }

  // ---------------------------------------------------------------------------
  // Builder methods
  // ---------------------------------------------------------------------------

  /** `use(middlewareFn)`: the middleware is appended after the existing
      ones and a fresh `ctxType` is set; nothing else changes. */
  function Use(c: CoolActionClient, middlewareFn: Opaque): (r: CoolActionClient)
    ensures |r.args.middlewareFns| == |c.args.middlewareFns| + 1
    ensures r.args.middlewareFns[..|c.args.middlewareFns|] == c.args.middlewareFns
    ensures r.args.middlewareFns[|c.args.middlewareFns|] == UserMiddleware(middlewareFn)
    ensures AgreeExcept(c.args, r.args, {MiddlewareFnsField, CtxTypeField})
  {
    CoolActionClient(c.args.(middlewareFns := c.args.middlewareFns + [UserMiddleware(middlewareFn)], ctxType := EmptyObject))
  }

  /** `metadata(data)`: records the metadata and that it was provided;
      nothing else changes. */
  function Metadata(c: CoolActionClient, data: Option<Opaque>): (r: CoolActionClient)
    ensures r.args.metadata == data && r.args.metadataProvided == Some(true)
    ensures AgreeExcept(c.args, r.args, {MetadataField, MetadataProvidedField})
  {
    CoolActionClient(c.args.(metadata := data, metadataProvided := Some(true)))
  }

  /** Whether the argument of `inputSchema` is taken for a refiner of the
      previous schema: exactly when its tag is that of an async function. */
  predicate IsAsyncFunction(v: Opaque)
  {
    v.toStringTag == Some(ASYNC_FUNCTION_TAG)
  }

  /** `inputSchema(inputSchema, utils)`: a new input schema function that
      composes with the previous one when the argument is an async function
      and returns the argument otherwise; the validation errors shape
      function of `utils` when given, the previous one otherwise. */
  function InputSchema(c: CoolActionClient, inputSchema: Opaque, shapeFromUtils: Option<Opaque>): (r: CoolActionClient)
    ensures IsAsyncFunction(inputSchema) ==> r.args.inputSchemaFn == Some(Refine(inputSchema, c.args.inputSchemaFn))
    ensures !IsAsyncFunction(inputSchema) ==> r.args.inputSchemaFn == Some(ReturnSchema(inputSchema))
    ensures shapeFromUtils.None? ==> r.args.handleValidationErrorsShape == c.args.handleValidationErrorsShape
    ensures shapeFromUtils.Some? ==> r.args.handleValidationErrorsShape == CustomShape(shapeFromUtils.value)
    ensures AgreeExcept(c.args, r.args, {InputSchemaFnField, HandleValidationErrorsShapeField})
  {
    var newInputSchemaFn :=
      if IsAsyncFunction(inputSchema) then Refine(inputSchema, c.args.inputSchemaFn) else ReturnSchema(inputSchema);
    var shape := if shapeFromUtils.Some? then CustomShape(shapeFromUtils.value) else c.args.handleValidationErrorsShape;
    CoolActionClient(c.args.(inputSchemaFn := Some(newInputSchemaFn), handleValidationErrorsShape := shape))
  }

  /** `bindArgsSchemas(schemas)`: replaces the bind-args schemas and keeps
      the validation errors shape function; nothing else changes. */
  function BindArgsSchemas(c: CoolActionClient, bindArgsSchemas: seq<Opaque>): (r: CoolActionClient)
    ensures r.args.bindArgsSchemas == bindArgsSchemas
    ensures AgreeExcept(c.args, r.args, {BindArgsSchemasField})
  {
    CoolActionClient(c.args.(bindArgsSchemas := bindArgsSchemas, handleValidationErrorsShape := c.args.handleValidationErrorsShape))
  }

  /** `outputSchema(dataSchema)`: replaces the output schema only. */
  function OutputSchema(c: CoolActionClient, dataSchema: Opaque): (r: CoolActionClient)
    ensures r.args.outputSchema == Some(dataSchema)
    ensures AgreeExcept(c.args, r.args, {OutputSchemaField})
  {
    CoolActionClient(c.args.(outputSchema := Some(dataSchema)))
  }

  /** `MDProvided`: no metadata schema was defined, or `metadata` has been
      called. Only then do `action` and `stateAction` accept the client. */
  predicate MetadataReady(c: CoolActionClient)
  {
    c.args.metadataSchema.None? || c.args.metadataProvided == Some(true)
  }

  /** What `actionBuilder(args).action(...)` or `.stateAction(...)` is
      handed: the accumulated configuration, the server code and the
      optional utils. */
  datatype BuiltAction = BuiltAction(args: ClientArgs, serverCodeFn: Opaque, utils: Option<Opaque>, stateful: bool)

  /** `action(serverCodeFn, utils)`. */
  function Action(c: CoolActionClient, serverCodeFn: Opaque, utils: Option<Opaque>): (r: BuiltAction)
    requires MetadataReady(c)
    ensures r.args == c.args && !r.stateful
    ensures r.serverCodeFn == serverCodeFn && r.utils == utils
  {
    BuiltAction(c.args, serverCodeFn, utils, false)
  }

  /** `stateAction(serverCodeFn, utils)`. */
  function StateAction(c: CoolActionClient, serverCodeFn: Opaque, utils: Option<Opaque>): (r: BuiltAction)
    requires MetadataReady(c)
    ensures r.args == c.args && r.stateful
    ensures r.serverCodeFn == serverCodeFn && r.utils == utils
  {
    BuiltAction(c.args, serverCodeFn, utils, true)
  }

  // ---------------------------------------------------------------------------
  // The input schema a chain of `inputSchema` calls produces
  // ---------------------------------------------------------------------------

  /** What awaiting an input schema function yields, given what each async
      refiner returns for the previous schema (`undefined` as None). */
  function ResolveSchema(f: InputSchemaFn, call: (Opaque, Option<Opaque>) -> Opaque): Opaque
  {
    match f
    case ReturnSchema(s) => s
    case Refine(refiner, prev) => call(refiner, if prev.Some? then Some(ResolveSchema(prev.value, call)) else None)
  }

  /** `inputSchemaFn?.()`: undefined when no input schema was given. */
  function CurrentSchema(c: CoolActionClient, call: (Opaque, Option<Opaque>) -> Opaque): Option<Opaque>
  {
    if c.args.inputSchemaFn.Some? then Some(ResolveSchema(c.args.inputSchemaFn.value, call)) else None
  }

  /** An async refiner is applied to the schema in force before it
      (undefined when there is none); any other argument replaces it. */
  lemma InputSchemaComposes(c: CoolActionClient, inputSchema: Opaque, shapeFromUtils: Option<Opaque>,
                            call: (Opaque, Option<Opaque>) -> Opaque)
    ensures IsAsyncFunction(inputSchema) ==>
              CurrentSchema(InputSchema(c, inputSchema, shapeFromUtils), call) == Some(call(inputSchema, CurrentSchema(c, call)))
    ensures !IsAsyncFunction(inputSchema) ==>
              CurrentSchema(InputSchema(c, inputSchema, shapeFromUtils), call) == Some(inputSchema)
  {
  }

  /** Applies the async refiners in order, starting from `start`. */
  function RefineAll(start: Option<Opaque>, refiners: seq<Opaque>, call: (Opaque, Option<Opaque>) -> Opaque): Option<Opaque>
    decreases |refiners|
  {
    if refiners == [] then start
    else RefineAll(Some(call(refiners[0], start)), refiners[1..], call)
  }

  /** Calls `inputSchema` with each argument in order, without utils. */
  function InputSchemaAll(c: CoolActionClient, inputSchemas: seq<Opaque>): CoolActionClient
    decreases |inputSchemas|
  {
    if inputSchemas == [] then c else InputSchemaAll(InputSchema(c, inputSchemas[0], None), inputSchemas[1..])
  }

  /** A chain of async refiners refines the schema in force step by step,
      each applied to the result of the one before. */
  lemma {:induction false} RefinerChain(c: CoolActionClient, refiners: seq<Opaque>, call: (Opaque, Option<Opaque>) -> Opaque)
    requires forall i :: 0 <= i < |refiners| ==> IsAsyncFunction(refiners[i])
    ensures CurrentSchema(InputSchemaAll(c, refiners), call) == RefineAll(CurrentSchema(c, call), refiners, call)
    decreases |refiners|
  {
    if refiners != [] {
      var c' := InputSchema(c, refiners[0], None);
      InputSchemaComposes(c, refiners[0], None, call);
      RefinerChain(c', refiners[1..], call);
    }
  }

  // ---------------------------------------------------------------------------
  // Chains of builder calls
  // ---------------------------------------------------------------------------

  /** One builder call. */
  datatype Step =
    | UseStep(middlewareFn: Opaque)
    | MetadataStep(data: Option<Opaque>)
    | InputSchemaStep(inputSchema: Opaque, shapeFromUtils: Option<Opaque>)
    | BindArgsSchemasStep(schemas: seq<Opaque>)
    | OutputSchemaStep(dataSchema: Opaque)

  /** The client a builder call returns. */
  function Apply(c: CoolActionClient, step: Step): CoolActionClient
  {
    match step
    case UseStep(fn) => Use(c, fn)
    case MetadataStep(d) => Metadata(c, d)
    case InputSchemaStep(s, u) => InputSchema(c, s, u)
    case BindArgsSchemasStep(b) => BindArgsSchemas(c, b)
    case OutputSchemaStep(o) => OutputSchema(c, o)
  }

  /** The client at the end of a chain of builder calls. */
  function Build(c: CoolActionClient, steps: seq<Step>): CoolActionClient
    decreases |steps|
  {
    if steps == [] then c else Build(Apply(c, steps[0]), steps[1..])
  }

  /** The middleware passed to the `use` calls of a chain, in order. */
  function UsedMiddleware(steps: seq<Step>): seq<Middleware>
  {
    if steps == [] then []
    else (if steps[0].UseStep? then [UserMiddleware(steps[0].middlewareFn)] else []) + UsedMiddleware(steps[1..])
  }

  /** Whether a chain calls `metadata`. */
  predicate CallsMetadata(steps: seq<Step>)
  {
    exists i :: 0 <= i < |steps| && steps[i].MetadataStep?
  }

  /** The middleware list at the end of a chain is the initial one followed
      by the middleware of the `use` calls, in call order. */
  lemma {:induction false} MiddlewareInCallOrder(c: CoolActionClient, steps: seq<Step>)
    ensures Build(c, steps).args.middlewareFns == c.args.middlewareFns + UsedMiddleware(steps)
    decreases |steps|
  {
    if steps != [] {
      var c' := Apply(c, steps[0]);
      MiddlewareInCallOrder(c', steps[1..]);
      assert c'.args.middlewareFns == c.args.middlewareFns + (if steps[0].UseStep? then [UserMiddleware(steps[0].middlewareFn)] else []);
    }
  }

  /** The metadata schema, the server error handler, the default shape
      and `throwValidationErrors` fixed by the factory survive every chain of
      builder calls. */
  lemma {:induction false} FactorySettingsPersist(c: CoolActionClient, steps: seq<Step>)
    ensures AgreeExcept(c.args, Build(c, steps).args,
                        {MiddlewareFnsField, MetadataField, MetadataProvidedField, InputSchemaFnField, OutputSchemaField,
                         BindArgsSchemasField, HandleValidationErrorsShapeField, CtxTypeField})
    decreases |steps|
  {
    if steps != [] {
      FactorySettingsPersist(Apply(c, steps[0]), steps[1..]);
    }
  }

  /** `action`/`stateAction` accept the end of a chain exactly when no
      metadata schema is defined or the chain calls `metadata` (or it was
      already provided). */
  lemma {:induction false} ReadyIffMetadataCalled(c: CoolActionClient, steps: seq<Step>)
    ensures MetadataReady(Build(c, steps)) <==> MetadataReady(c) || CallsMetadata(steps)
    decreases |steps|
  {
    if steps != [] {
      var c' := Apply(c, steps[0]);
      ReadyIffMetadataCalled(c', steps[1..]);
      if CallsMetadata(steps) && !steps[0].MetadataStep? {
        var i :| 0 <= i < |steps| && steps[i].MetadataStep?;
        assert steps[1..][i - 1].MetadataStep?;
      }
      if CallsMetadata(steps[1..]) {
        var i :| 0 <= i < |steps[1..]| && steps[1..][i].MetadataStep?;
        assert steps[i + 1].MetadataStep?;
      }
    }
  }

  // ---------------------------------------------------------------------------
  // createCoolActionClient
  // ---------------------------------------------------------------------------

  /** `CreateClientOpts`. `defineMetadataSchema` stands for the value its
      call returns (None for a nullish one). */
  datatype CreateClientOpts = CreateClientOpts(
    defineMetadataSchema: Option<Option<Opaque>>,
    handleServerError: Option<Opaque>,
    defaultValidationErrorsShape: Option<Dves>,
    throwValidationErrors: Option<bool>)

  /** `createCoolActionClient(createOpts)`: the initial configuration. */
  function CreateCoolActionClient(createOpts: Option<CreateClientOpts>): (r: CoolActionClient)
    ensures r.args.middlewareFns == [PassThrough]
    ensures r.args.inputSchemaFn.None? && r.args.outputSchema.None? && r.args.bindArgsSchemas == []
    ensures r.args.metadata.None? && r.args.metadataProvided.None?
    ensures createOpts.None? ==> r.args.metadataSchema.None? && r.args.handleServerError == DefaultHandler
                                 && r.args.defaultValidationErrorsShape == Formatted && !r.args.throwValidationErrors
                                 && r.args.handleValidationErrorsShape == DefaultShape(false)
    ensures createOpts.Some? ==> var o := createOpts.value;
              && (o.defineMetadataSchema.Some? ==> r.args.metadataSchema == o.defineMetadataSchema.value)
              && (o.defineMetadataSchema.None? ==> r.args.metadataSchema.None?)
              && (o.handleServerError.Some? ==> r.args.handleServerError == CustomHandler(o.handleServerError.value))
              && (o.handleServerError.None? ==> r.args.handleServerError == DefaultHandler)
              && (o.defaultValidationErrorsShape.Some? ==> r.args.defaultValidationErrorsShape == o.defaultValidationErrorsShape.value)
              && (o.defaultValidationErrorsShape.None? ==> r.args.defaultValidationErrorsShape == Formatted)
              && (r.args.throwValidationErrors <==> o.throwValidationErrors == Some(true))
    ensures r.args.handleValidationErrorsShape.DefaultShape?
    ensures r.args.handleValidationErrorsShape.flatten <==> r.args.defaultValidationErrorsShape == Flattened
  {
    var opts := createOpts.GetOr(CreateClientOpts(None, None, None, None));
    CoolActionClient(ClientArgs(
      middlewareFns := [PassThrough],
      metadataSchema := opts.defineMetadataSchema.GetOr(None),
      metadata := None,
      metadataProvided := None,
      inputSchemaFn := None,
      outputSchema := None,
      bindArgsSchemas := [],
      handleValidationErrorsShape := DefaultShape(opts.defaultValidationErrorsShape == Some(Flattened)),
      ctxType := EmptyObject,
      handleServerError := if opts.handleServerError.Some? then CustomHandler(opts.handleServerError.value) else DefaultHandler,
      defaultValidationErrorsShape := opts.defaultValidationErrorsShape.GetOr(Formatted),
      throwValidationErrors := opts.throwValidationErrors == Some(true)))
  }

  /** What `handleServerError` returns for an error: the default handler's
      message, or whatever the caller's handler returns. */
  function HandleServerError<SE>(h: ServerErrorHandler, error: Opaque, defaultMessage: SE, call: (Opaque, Opaque) -> SE): SE
  {
    match h
    case DefaultHandler => defaultMessage
    case CustomHandler(fn) => call(fn, error)
  }

  /** Without a handler of the caller's, every server error becomes
      `DEFAULT_SERVER_ERROR_MESSAGE`. */
  lemma DefaultServerErrorMessage<SE>(createOpts: Option<CreateClientOpts>, error: Opaque, defaultMessage: SE,
                                      call: (Opaque, Opaque) -> SE)
    requires createOpts.None? || createOpts.value.handleServerError.None?
    ensures HandleServerError(CreateCoolActionClient(createOpts).args.handleServerError, error, defaultMessage, call) == defaultMessage
  {
  }

  /** A fresh client accepts `action` exactly when the factory defines no
      metadata schema, and keeps refusing it along any chain until
      `metadata` is called. */
  lemma {:induction false} FreshClientNeedsMetadata(createOpts: Option<CreateClientOpts>, steps: seq<Step>)
    ensures MetadataReady(Build(CreateCoolActionClient(createOpts), steps))
            <==> CreateCoolActionClient(createOpts).args.metadataSchema.None? || CallsMetadata(steps)
  {
    ReadyIffMetadataCalled(CreateCoolActionClient(createOpts), steps);
  }
}
