/** Values shared by every part of the model: optional values, JSON-like
    request bodies, the exception hierarchy and results that carry them. */
module Common {

  datatype Option<+T> = None | Some(value: T)

  /** A JSON value, as held by the Python dictionaries the client sends. */
  datatype Json =
    | JNull
    | JBool(b: bool)
    | JInt(i: int)
    | JStr(s: string)
    | JList(items: seq<Json>)
    | JObj(fields: map<string, Json>)

  /** The subclasses of KintoneError that carry no fields of their own. */
  datatype ErrorKind = Base | AuthFailure | ConfigFailure | ValidationFailure | NetworkFailure

  /** The exceptions the core raises: KintoneError and its plain subclasses,
      KintoneAPIError with its extra fields, and Python's own exceptions
      (ValueError, KeyError, ...) identified by their class name. */
  datatype Error =
    | KintoneError(kind: ErrorKind, message: string, details: map<string, Json>)
    | KintoneAPIError(message: string, code: Option<string>, errors: Option<map<string, Json>>, statusCode: Option<int>)
    | PythonError(typeName: string, message: string)

  datatype Result<+T> = Ok(value: T) | Err(error: Error)

  function ValidationError(message: string): Error {
    KintoneError(ValidationFailure, message, map[])
  }

  function ConfigError(message: string): Error {
    KintoneError(ConfigFailure, message, map[])
  }

  function ValueError(message: string): Error {
    PythonError("ValueError", message)
  }

  /** Python truthiness of an optional string: neither None nor "". */
  predicate Truthy(s: Option<string>) {
    s.Some? && s.value != []
  }
}
