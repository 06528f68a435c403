/** The values a failed Effect (or a failing call) can reject with, as seen by
    the error-mapping code: JavaScript lets anything be thrown, and the mapper
    only tells apart the cases below. */
module Errors {

  /** The issue tree inside an Effect Schema `ParseError`. Its structure belongs
      to the schema library; the model only ever hands it to a formatter. */
  type ParseTree

  /** The schema library's `TreeFormatter.formatErrorSync`, left uninterpreted. */
  type Formatter = ParseTree -> string

  datatype ErrorValue =
    | ParseError(tree: ParseTree)                    // ParseResult.ParseError
    | Null                                           // null
    | Undefined                                      // undefined
    | ErrorObject(name: string, message: string)     // any other instance of Error
    | StringError(text: string)                      // a thrown string
    | OtherValue                                     // numbers, plain objects, ...

  /** `error instanceof Error`: a schema ParseError is an Error subclass too. */
  predicate IsErrorInstance(error: ErrorValue) {
    error.ParseError? || error.ErrorObject?
  }
}
