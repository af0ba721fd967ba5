/**
  What the pipeline reports. Scanner and parser diagnostics go to the
  driver's error channel (Lox.error, which is not part of this model);
  runtime errors carry the offending token like Java's RuntimeError.
*/
module Errors {
  import opened Tokens

  datatype Diagnostic =
    | AtLine(line: int, message: string)
    | AtToken(token: Token, message: string)

  datatype RuntimeError = RuntimeError(token: Token, message: string)
}
