/** The opt-in validation pipe: an argument whose declared type is an Effect
    Schema is decoded before the handler sees it; any other argument passes
    through untouched. */
module ValidationPipe {
  import opened Wrappers
  import opened Http
  import opened Errors
  import Interceptor

  /** What `Schema.decodeUnknownSync` does with a value: it returns the decoded
      value, throws a `ParseError`, or throws some other fault (a misconfigured
      schema, say). */
  datatype Decoded<+V, +E> = Ok(value: V) | ParseFail(tree: ParseTree) | OtherFault(fault: E)

  /** What `transform` does: returns a value, throws a 400, or rethrows a fault. */
  datatype PipeResult<+V, +E> = Pass(value: V) | Reject(exception: HttpException) | Rethrow(fault: E)

  const ValidationPrefix := "Validation failed: "

  /** The gate of `transform`: a metatype is present and it is a schema.
      `isEffectSchema` is the schema library's `Schema.isSchema`, which the
      model takes as the parameter `isSchema`. */
  predicate Validates<M>(metatype: Option<M>, isSchema: M -> bool) {
    metatype.Some? && isSchema(metatype.value)
  }

  /** `transform`. `metatype` is None when the parameter has no declared type. */
  function Transform<M, V, E>(value: V, metatype: Option<M>, isSchema: M -> bool,
                              decode: (M, V) -> Decoded<V, E>, format: Formatter): (r: PipeResult<V, E>)
    ensures !Validates(metatype, isSchema) ==> r == Pass(value)
    ensures Validates(metatype, isSchema) ==>
              (r.Pass? <==> decode(metatype.value, value).Ok?)
    ensures Validates(metatype, isSchema) && decode(metatype.value, value).Ok? ==>
              r.value == decode(metatype.value, value).value
    ensures Validates(metatype, isSchema) && decode(metatype.value, value).ParseFail? ==>
              r == Reject(HttpException(400, Text(ValidationPrefix + format(decode(metatype.value, value).tree))))
    ensures Validates(metatype, isSchema) && decode(metatype.value, value).OtherFault? ==>
              r == Rethrow(decode(metatype.value, value).fault)
  {
    if metatype.Some? && isSchema(metatype.value) then
      match decode(metatype.value, value)
      case Ok(decoded) => Pass(decoded)
      case ParseFail(tree) => Reject(BadRequest(Text(ValidationPrefix + format(tree))))
      case OtherFault(fault) => Rethrow(fault)
    else
      Pass(value)
  }

  /** With a schema, the raw value influences the result only through what the
      decoder makes of it; without one, every value comes back as it went in.
      Either way, which of the two happens is fixed by the metatype alone. */
  lemma GateDependsOnlyOnMetatype<M, V, E>(v1: V, v2: V, metatype: Option<M>, isSchema: M -> bool,
                                           decode: (M, V) -> Decoded<V, E>, format: Formatter)
    ensures Validates(metatype, isSchema) && decode(metatype.value, v1) == decode(metatype.value, v2) ==>
              Transform(v1, metatype, isSchema, decode, format) == Transform(v2, metatype, isSchema, decode, format)
    ensures !Validates(metatype, isSchema) ==>
              Transform(v1, metatype, isSchema, decode, format) == Pass(v1) &&
              Transform(v2, metatype, isSchema, decode, format) == Pass(v2)
  {
  }

  /** A rejection is always a 400 whose message starts with the fixed prefix,
      and only a parse failure of the decoder produces one. */
  lemma RejectionIsPrefixed400<M, V, E>(value: V, metatype: Option<M>, isSchema: M -> bool,
                                        decode: (M, V) -> Decoded<V, E>, format: Formatter)
    ensures var r := Transform(value, metatype, isSchema, decode, format);
            r.Reject? ==>
              && Validates(metatype, isSchema)
              && decode(metatype.value, value).ParseFail?
              && r.exception.status == 400
              && r.exception.body.Text?
              && ValidationPrefix <= r.exception.body.message
  {
  }

  /** The pipe and the interceptor answer the same parse failure with the same
      status but with differently shaped bodies: a single prefixed string here,
      a `{message, errors}` object there. */
  lemma PipeAndInterceptorBodiesDiffer<M, V, E>(value: V, metatype: Option<M>, isSchema: M -> bool,
                                                decode: (M, V) -> Decoded<V, E>, format: Formatter)
    requires Validates(metatype, isSchema)
    requires decode(metatype.value, value).ParseFail?
    ensures var pipe := Transform(value, metatype, isSchema, decode, format);
            var interceptor := Interceptor.MapEffectError(ParseError(decode(metatype.value, value).tree), format);
            pipe.Reject? && pipe.exception.status == interceptor.status && pipe.exception.body != interceptor.body
  {
  }
}
