/** The HTTP exceptions the core raises: a status code and the body handed to
    the exception's constructor. The framework's own JSON serialisation of that
    body (its `statusCode` and `error` fields) is not modelled. */
module Http {

  /** What a Nest exception constructor receives: a bare message string, or the
      `{message, errors}` object the interceptor builds for schema failures. */
  datatype Body = Text(message: string) | Detailed(message: string, errors: string)

  datatype HttpException = HttpException(status: int, body: Body)

  const BadRequestStatus: int := 400
  const NotFoundStatus: int := 404
  const InternalServerErrorStatus: int := 500

  /** `new BadRequestException(body)` */
  function BadRequest(body: Body): HttpException {
    HttpException(BadRequestStatus, body)
  }

  /** `new NotFoundException(message)` */
  function NotFound(message: string): HttpException {
    HttpException(NotFoundStatus, Text(message))
  }

  /** `new InternalServerErrorException(message)` */
  function InternalServerError(message: string): HttpException {
    HttpException(InternalServerErrorStatus, Text(message))
  }
}
