/**
 * The library's error codes (the `yobd_err` values) and `yobd_strerror`,
 * src/error.c.
 *
 * The numeric values of the codes live in the public header yobd.h, which is
 * not part of this model. The model numbers them 0, -1, -2, ... in the order
 * in which error.c lists them; every property below holds for any numbering
 * that is injective and non-positive, which is what error.c relies on.
 */
module Errors {

  import opened Wrappers

  datatype YobdErr =
    | Ok
    | Oom
    | PidDoesNotExist
    | InvalidParameter
    | InvalidPath
    | CannotOpenFile
    | UnknownId
    | InvalidDlc
    | InvalidMode
    | InvalidPid
    | UnknownModePid
    | UnknownUnit
    | InvalidDataBytes
    | ParseFail

  /** The code's integer value (see the module comment for the numbering). */
  function Code(e: YobdErr): (v: int)
    ensures v <= 0
    ensures v == 0 <==> e == Ok
  {
    match e
    case Ok => 0
    case Oom => -1
    case PidDoesNotExist => -2
    case InvalidParameter => -3
    case InvalidPath => -4
    case CannotOpenFile => -5
    case UnknownId => -6
    case InvalidDlc => -7
    case InvalidMode => -8
    case InvalidPid => -9
    case UnknownModePid => -10
    case UnknownUnit => -11
    case InvalidDataBytes => -12
    case ParseFail => -13
  }

  /** The code whose value is `v`, if any: the inverse of Code. */
  function CodeOf(v: int): (r: Option<YobdErr>)
    ensures r.Some? ==> Code(r.value) == v
  {
    if v == 0 then Some(Ok)
    else if v == -1 then Some(Oom)
    else if v == -2 then Some(PidDoesNotExist)
    else if v == -3 then Some(InvalidParameter)
    else if v == -4 then Some(InvalidPath)
    else if v == -5 then Some(CannotOpenFile)
    else if v == -6 then Some(UnknownId)
    else if v == -7 then Some(InvalidDlc)
    else if v == -8 then Some(InvalidMode)
    else if v == -9 then Some(InvalidPid)
    else if v == -10 then Some(UnknownModePid)
    else if v == -11 then Some(UnknownUnit)
    else if v == -12 then Some(InvalidDataBytes)
    else if v == -13 then Some(ParseFail)
    else None
  }

  /** What `yobd_strerror` returns. */
  datatype StrError =
    | LibcMessage(errnum: int)   // the C library's strerror(errnum)
    | Fixed(text: string)        // one of the fixed strings
    | Null                       // NULL

  /** The fixed message of each code. */
  function Message(e: YobdErr): string
  {
    match e
    case Ok => "OK"
    case Oom => "out of memory!"
    case PidDoesNotExist => "specified PID does not exist"
    case InvalidParameter => "invalid parameter"
    case InvalidPath => "invalid path"
    case CannotOpenFile => "cannot open file"
    case UnknownId => "unknown CAN ID"
    case InvalidDlc => "invalid CAN DLC code"
    case InvalidMode => "invald mode"
    case InvalidPid => "invalid PID"
    case UnknownModePid => "unknown mode/PID combination specified"
    case UnknownUnit => "unknown unit specified"
    case InvalidDataBytes => "bytes specified is different than expected"
    case ParseFail => "failed to parse YOBD schema"
  }

  /**
   * yobd_strerror: a positive value is an errno and goes to the C library;
   * a listed code gets its message; anything else gets NULL.
   */
  function StrErrorOf(err: int): (r: StrError)
    ensures err > 0 ==> r == LibcMessage(err)
    ensures err <= 0 && CodeOf(err).Some? ==> r == Fixed(Message(CodeOf(err).value))
    ensures err <= 0 && CodeOf(err).None? ==> r == Null
  {
    if err > 0 then LibcMessage(err)
    else match CodeOf(err)
      case Some(e) => Fixed(Message(e))
      case None => Null
  }

  /** Code and CodeOf are inverse: every code round-trips through its value. */
  lemma CodeRoundTrip(e: YobdErr)
    ensures CodeOf(Code(e)) == Some(e)
  {
  }

  /** Every listed code gets its own message from yobd_strerror. */
  lemma StrErrorOfCode(e: YobdErr)
    ensures StrErrorOf(Code(e)) == Fixed(Message(e))
  {
    CodeRoundTrip(e);
  }

  /** The fixed messages are pairwise distinct, so a message names its code. */
  lemma MessagesDistinct(e1: YobdErr, e2: YobdErr)
    requires e1 != e2
    ensures Message(e1) != Message(e2)
  {
  }
}
