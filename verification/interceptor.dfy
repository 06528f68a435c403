/** The Effect interceptor: a handler's return value is either passed through or,
    when it is an Effect, run once; a failure of the Effect is turned into an HTTP
    exception by a first-match-wins rule table. */
module Interceptor {
  import opened Http
  import opened Errors

  /** An Effect after `Effect.runPromise` has settled: it resolved or it rejected. */
  datatype Outcome<+V> = Succeeded(value: V) | Failed(error: ErrorValue)

  /** What the route handler did: returned a plain value, returned an Effect
      (`Effect.isEffect`), or threw, which makes `next.handle()` error. */
  datatype HandlerResult<+V> = Plain(value: V) | Deferred(effect: Outcome<V>) | Threw(error: ErrorValue)

  /** What the interceptor's observable delivers: a value, a mapped HTTP
      exception, or a handler's own error passed on as it was thrown. */
  datatype Emission<+V> = Emit(value: V) | Raise(exception: HttpException) | PassOn(error: ErrorValue)

  /** The emission together with the number of times the Effect was run. */
  datatype Interception<+V> = Interception(emission: Emission<V>, runs: nat)

  const ValidationFailedMessage := "Validation failed"
  const ResourceNotFoundMessage := "Resource not found"
  const UnexpectedErrorMessage := "An unexpected error occurred"
  const ValidationErrorName := "ValidationError"
  const NotFoundErrorName := "NotFoundError"

  /** `mapEffectErrorToHttpException`: the rules are tried in source order and the
      first that applies decides. Only a schema parse error consults the formatter. */
  function MapEffectError(error: ErrorValue, format: Formatter): (r: HttpException)
    ensures r.status in {BadRequestStatus, NotFoundStatus, InternalServerErrorStatus}
    ensures r.status == BadRequestStatus <==>
              error.ParseError? || (error.ErrorObject? && error.name == ValidationErrorName)
    ensures r.status == NotFoundStatus <==>
              error.Null? || error.Undefined? || (error.ErrorObject? && error.name == NotFoundErrorName)
    ensures r.body.Detailed? <==> error.ParseError?
    ensures error.ParseError? ==> r.body == Detailed(ValidationFailedMessage, format(error.tree))
    ensures error.Null? || error.Undefined? ==> r.body == Text(ResourceNotFoundMessage)
    ensures error.ErrorObject? ==> r.body == Text(error.message)
    ensures error.StringError? ==> r.body == Text(error.text)
    ensures error.OtherValue? ==> r.body == Text(UnexpectedErrorMessage)
  {
    if error.ParseError? then
      BadRequest(Detailed(ValidationFailedMessage, format(error.tree)))
    else if error.Null? || error.Undefined? then
      NotFound(ResourceNotFoundMessage)
    else if IsErrorInstance(error) then
      if error.name == ValidationErrorName then BadRequest(Text(error.message))
      else if error.name == NotFoundErrorName then NotFound(error.message)
      else InternalServerError(error.message)
    else if error.StringError? then
      InternalServerError(error.text)
    else
      InternalServerError(UnexpectedErrorMessage)
  }

  /** `intercept`: a non-Effect value is emitted as it is; an Effect is run exactly
      once, its success value is emitted, and its failure is mapped and thrown.
      `catchError` wraps only the Effect's own promise, so an error thrown by
      the handler itself bypasses the rule table and is passed on unmapped. */
  function Intercept<V>(data: HandlerResult<V>, format: Formatter): (r: Interception<V>)
    ensures r.runs == if data.Deferred? then 1 else 0
    ensures data.Plain? ==> r.emission == Emit(data.value)
    ensures r.emission.Emit? <==> data.Plain? || (data.Deferred? && data.effect.Succeeded?)
    ensures r.emission.PassOn? <==> data.Threw?
    ensures data.Threw? ==> r.emission == PassOn(data.error)
    ensures data.Deferred? && data.effect.Succeeded? ==> r.emission == Emit(data.effect.value)
    ensures data.Deferred? && data.effect.Failed? ==>
              r.emission == Raise(MapEffectError(data.effect.error, format))
  {
    match data
    case Plain(v) => Interception(Emit(v), 0)
    case Deferred(effect) =>
      var emission := match effect
        case Succeeded(v) => Emit(v)
        case Failed(e) => Raise(MapEffectError(e, format));
      Interception(emission, 1)
    case Threw(e) => Interception(PassOn(e), 0)
  }

  /** A failure taxonomy written independently of the rule table:
      schema failures, absent values, the two named domain errors, and the rest. */
  datatype Kind = SchemaFailure | AbsentValue | NamedValidation | NamedNotFound | Unclassified

  function Classify(error: ErrorValue): Kind {
    match error
    case ParseError(_) => SchemaFailure
    case Null => AbsentValue
    case Undefined => AbsentValue
    case ErrorObject(name, _) =>
      if name == ValidationErrorName then NamedValidation
      else if name == NotFoundErrorName then NamedNotFound
      else Unclassified
    case StringError(_) => Unclassified
    case OtherValue => Unclassified
  }

  function KindStatus(k: Kind): int {
    match k
    case SchemaFailure => 400
    case AbsentValue => 404
    case NamedValidation => 400
    case NamedNotFound => 404
    case Unclassified => 500
  }

  /** The rule table agrees with the taxonomy on every failure value. */
  lemma StatusFollowsTaxonomy(error: ErrorValue, format: Formatter)
    ensures MapEffectError(error, format).status == KindStatus(Classify(error))
  {
  }

  /** A parse error is also an `Error` instance, yet the parse-error rule comes
      first, so it is answered with 400 and the `{message, errors}` body rather
      than with the generic Error rule's 500. */
  lemma ParseErrorRuleWins(tree: ParseTree, format: Formatter)
    ensures IsErrorInstance(ParseError(tree))
    ensures MapEffectError(ParseError(tree), format)
            == HttpException(400, Detailed("Validation failed", format(tree)))
  {
  }

  /** The mapping is a function of the failure value alone: the formatter is
      consulted only for parse errors, so any two formatters agree elsewhere. */
  lemma MappingIgnoresFormatter(error: ErrorValue, f1: Formatter, f2: Formatter)
    requires !error.ParseError?
    ensures MapEffectError(error, f1) == MapEffectError(error, f2)
  {
  }

  /** A failed Effect never reaches the client as a success value, and the
      exception thrown for it is the mapped one. */
  lemma FailureIsNeverEmitted<V>(error: ErrorValue, format: Formatter)
    ensures Intercept<V>(Deferred(Failed(error)), format).emission.Raise?
    ensures Intercept<V>(Deferred(Failed(error)), format).emission.exception.status in {400, 404, 500}
  {
  }

  /** Whatever the interceptor emits as a value is exactly the value the handler
      produced, directly or through its Effect. */
  lemma EmittedValueComesFromHandler<V>(data: HandlerResult<V>, format: Formatter, v: V)
    ensures Intercept(data, format).emission == Emit(v) <==>
              data == Plain(v) || data == Deferred(Succeeded(v))
  {
  }

  /** Only the Effect's failure goes through the rule table: every mapped
      exception comes from a failed Effect, and an error the handler threw is
      delivered exactly as thrown, with nothing run. */
  lemma OnlyEffectFailuresAreMapped<V>(data: HandlerResult<V>, format: Formatter)
    ensures Intercept(data, format).emission.Raise? <==> data.Deferred? && data.effect.Failed?
    ensures data.Threw? ==> Intercept(data, format) == Interception(PassOn(data.error), 0)
  {
  }
}
