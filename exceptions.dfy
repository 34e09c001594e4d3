/**
 * The exception hierarchy: a base exception carrying a message, the name of the
 * process where it arose, an HTTP status code and a list of error details, and three
 * subclasses that fix or default the status code and the process name.
 */
module Exceptions {
  import opened Wrappers
  import opened Text

  const DEFAULT_STATUS_CODE: int := 500
  const BUSINESS_STATUS_CODE: int := 400
  const CONFLICT_STATUS_CODE: int := 409
  const INTERNAL_SERVER_ERROR_STATUS_CODE: int := 500
  const CONFLICT_PROCESS: string := "Resource Conflict"
  const INTERNAL_SERVER_ERROR_PROCESS: string := "Internal Server Error"

  /** Which class the exception was raised as. */
  datatype ExceptionKind = PhoenixBase | Business | Conflict | InternalServerError

  /** The stored fields of an exception; the details are of any type `E`. */
  datatype PhoenixException<E> = PhoenixException(
    kind: ExceptionKind,
    message: string,
    process: string,
    statusCode: int,
    errors: seq<E>)

  /** A value of the dictionary form: text (`message`, `process`) or the detail list (`errors`). */
  datatype DictValue<E> = Text(text: string) | Errors(items: seq<E>)

  /**
   * The base initialiser run for an exception of the given class: message, process and
   * status code are stored as given, and missing details become the empty list.
   */
  function Init<E>(kind: ExceptionKind, message: string, process: string, statusCode: int, errors: Option<seq<E>>)
    : (e: PhoenixException<E>)
    ensures e.kind == kind && e.message == message && e.process == process && e.statusCode == statusCode
    ensures errors.None? ==> e.errors == []
    ensures errors.Some? ==> e.errors == errors.value
  {
    PhoenixException(kind, message, process, statusCode, if errors.Some? && errors.value != [] then errors.value else [])
  }

  /** `PhoenixBaseException(message, process, status_code=500, errors=None)`. */
  function NewPhoenixException<E>(message: string, process: string, statusCode: Option<int>, errors: Option<seq<E>>)
    : (e: PhoenixException<E>)
    ensures e.kind == PhoenixBase && e.message == message && e.process == process
    ensures statusCode.None? ==> e.statusCode == DEFAULT_STATUS_CODE
    ensures statusCode.Some? ==> e.statusCode == statusCode.value
    ensures e.errors == errors.GetOr([])
  {
    Init(PhoenixBase, message, process, statusCode.GetOr(DEFAULT_STATUS_CODE), errors)
  }

  /** `BusinessException(message, process, status_code=400, errors=None)`. */
  function NewBusinessException<E>(message: string, process: string, statusCode: Option<int>, errors: Option<seq<E>>)
    : (e: PhoenixException<E>)
    ensures e.kind == Business && e.message == message && e.process == process
    ensures statusCode.None? ==> e.statusCode == BUSINESS_STATUS_CODE
    ensures statusCode.Some? ==> e.statusCode == statusCode.value
    ensures e.errors == errors.GetOr([])
  {
    Init(Business, message, process, statusCode.GetOr(BUSINESS_STATUS_CODE), errors)
  }

  /** `ConflictException(message, process="Resource Conflict", errors=None)`: always status 409. */
  function NewConflictException<E>(message: string, process: Option<string>, errors: Option<seq<E>>)
    : (e: PhoenixException<E>)
    ensures e.kind == Conflict && e.message == message && e.statusCode == CONFLICT_STATUS_CODE
    ensures process.None? ==> e.process == CONFLICT_PROCESS
    ensures process.Some? ==> e.process == process.value
    ensures e.errors == errors.GetOr([])
  {
    Init(Conflict, message, process.GetOr(CONFLICT_PROCESS), CONFLICT_STATUS_CODE, errors)
  }

  /** `InternalServerErrorException(message, process="Internal Server Error", errors=None)`: always status 500. */
  function NewInternalServerErrorException<E>(message: string, process: Option<string>, errors: Option<seq<E>>)
    : (e: PhoenixException<E>)
    ensures e.kind == InternalServerError && e.message == message && e.statusCode == INTERNAL_SERVER_ERROR_STATUS_CODE
    ensures process.None? ==> e.process == INTERNAL_SERVER_ERROR_PROCESS
    ensures process.Some? ==> e.process == process.value
    ensures e.errors == errors.GetOr([])
  {
    Init(InternalServerError, message, process.GetOr(INTERNAL_SERVER_ERROR_PROCESS), INTERNAL_SERVER_ERROR_STATUS_CODE, errors)
  }

  /** `__str__`: the process, a colon and a space, then the message. */
  function ToString<E>(e: PhoenixException<E>): (s: string)
    ensures |s| == |e.process| + 2 + |e.message|
    ensures s[..|e.process|] == e.process
    ensures s[|e.process|..|e.process| + 2] == ": "
    ensures s[|e.process| + 2..] == e.message
  {
    e.process + ": " + e.message
  }

  /** When the process name has no colon, the display splits at its first colon into the process and the message after one space. */
  lemma ToStringRoundTrip<E>(e: PhoenixException<E>)
    requires ':' !in e.process
    ensures SplitOnce(ToString(e), ':') == [e.process, " " + e.message]
  {
    assert ToString(e) == e.process + [':'] + (" " + e.message);
    SplitOnceAtFirst(e.process, ':', " " + e.message);
  }

  /** `to_dict`: exactly `message`, `process` and `errors`; the status code is never included. */
  function ToDict<E>(e: PhoenixException<E>): (d: map<string, DictValue<E>>)
    ensures d.Keys == {"message", "process", "errors"}
    ensures "status_code" !in d
    ensures d["message"] == Text(e.message) && d["process"] == Text(e.process) && d["errors"] == Errors(e.errors)
  {
    map["message" := Text(e.message), "process" := Text(e.process), "errors" := Errors(e.errors)]
  }

  /** The dictionary form does not depend on the status code or the class, only on message, process and errors. */
  lemma ToDictIgnoresStatus<E>(e: PhoenixException<E>, f: PhoenixException<E>)
    requires e.message == f.message && e.process == f.process && e.errors == f.errors
    ensures ToDict(e) == ToDict(f)
  {
  }

  /** A business exception displays as `process: message`, like its base. */
  lemma BusinessDisplay<E>(message: string, process: string, statusCode: Option<int>, errors: Option<seq<E>>)
    ensures ToString(NewBusinessException(message, process, statusCode, errors)) == process + ": " + message
  {
  }

  /** A conflict with the default process displays as `Resource Conflict: message`. */
  lemma ConflictDefaultDisplay<E>(message: string, errors: Option<seq<E>>)
    ensures ToString(NewConflictException(message, None, errors)) == CONFLICT_PROCESS + ": " + message
  {
  }

  /** An internal server error with the default process displays as `Internal Server Error: message`. */
  lemma InternalServerErrorDefaultDisplay<E>(message: string, errors: Option<seq<E>>)
    ensures ToString(NewInternalServerErrorException(message, None, errors)) == INTERNAL_SERVER_ERROR_PROCESS + ": " + message
  {
  }

  /** Each subclass is the base exception with its own status code (and default process) filled in. */
  lemma SubclassesForwardToBase<E>(message: string, process: string, errors: Option<seq<E>>)
    ensures NewBusinessException(message, process, None, errors) == NewPhoenixException(message, process, Some(BUSINESS_STATUS_CODE), errors).(kind := Business)
    ensures NewConflictException(message, Some(process), errors) == NewPhoenixException(message, process, Some(CONFLICT_STATUS_CODE), errors).(kind := Conflict)
    ensures NewInternalServerErrorException(message, Some(process), errors) == NewPhoenixException(message, process, None, errors).(kind := InternalServerError)
  {
  }
}
