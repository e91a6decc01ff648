/**
 * Status-to-exception translation and timestamp naming of the solutions
 * library (mediapipe-solutions/util/util.h).
 */
module Util {
  import opened Wrappers

  /** The canonical status codes of absl::Status. */
  datatype StatusCode =
    | Ok | Cancelled | Unknown | InvalidArgument | DeadlineExceeded | NotFound
    | AlreadyExists | PermissionDenied | ResourceExhausted | FailedPrecondition
    | Aborted | OutOfRange | Unimplemented | Internal | Unavailable | DataLoss
    | Unauthenticated

  /**
   * An absl::Status. absl drops the message of an ok status, so a status
   * the engine returns with code Ok has an empty message.
   */
  datatype Status = Status(code: StatusCode, message: string) {
    predicate IsOk() { code == Ok }
  }

  /** The std::errc values a std::system_error raised here can carry. */
  datatype Errc = NoSuchFileOrDirectory | FileExists

  /**
   * The C++ exceptions raised by the core, with the text they were built from.
   * AtOutOfRange is the std::out_of_range of a bounds-checked `at()`, whose
   * text the standard library chooses; BadAnyCast is std::bad_any_cast;
   * FatalError is a protobuf usage check that aborts the process. NullText
   * stands for an exception constructor handed a null `const char *`, whose
   * behaviour the C++ standard leaves undefined.
   */
  datatype Error =
    | InvalidArgumentError(what: string)
    | SystemError(errc: Errc, what: string)
    | LogicError(what: string)
    | RuntimeError(what: string)
    | OutOfRangeError(what: string)
    | AtOutOfRange
    | BadAnyCast
    | FatalError(what: string)
    | NullText

  /**
   * The text of a C string made from `s.data()`: the exception constructors
   * take a `const char *`, so the text stops at the first NUL character.
   */
  function CString(s: string): (r: string)
    ensures r <= s
    ensures '\0' !in r
    ensures |r| < |s| ==> s[|r|] == '\0'
  {
    if s == [] || s[0] == '\0' then [] else [s[0]] + CString(s[1..])
  }

  /**
   * ThrowError: every status, the ok one included, becomes an exception;
   * the function is total, so it always "raises". absl keeps a status with an
   * empty message without a message buffer, so `message().data()` is then a
   * null pointer and no well-defined exception is built.
   */
  function ThrowError(status: Status): (e: Error)
    ensures e == NullText <==> status.message == []
    ensures status.message != [] ==>
      && (e.InvalidArgumentError? <==> status.code == InvalidArgument)
      && (e.SystemError? <==> status.code == NotFound || status.code == AlreadyExists)
      && (e.SystemError? ==> e.errc == (if status.code == NotFound then NoSuchFileOrDirectory else FileExists))
      && (e.LogicError? <==> status.code == Unimplemented)
      && (e.RuntimeError? <==> status.code !in {InvalidArgument, NotFound, AlreadyExists, Unimplemented})
      && (e.InvalidArgumentError? || e.SystemError? || e.LogicError? || e.RuntimeError?)
      && e.what == CString(status.message)
  {
    if status.message == [] then NullText
    else
      var what := CString(status.message);
      match status.code
      case InvalidArgument => InvalidArgumentError(what)
      case NotFound => SystemError(NoSuchFileOrDirectory, what)
      case AlreadyExists => SystemError(FileExists, what)
      case Unimplemented => LogicError(what)
      case _ => RuntimeError(what)
  }

  /** ThrowIfNotOk: nothing for an ok status, otherwise exactly ThrowError. */
  function ThrowIfNotOk(status: Status): (o: Outcome<Error>)
    ensures o.Pass? <==> status.IsOk()
    ensures o.Fail? ==> o.error == ThrowError(status)
  {
    if status.IsOk() then Pass else Fail(ThrowError(status))
  }

  /**
   * A MediaPipe timestamp: the eight special values, which are distinct from
   * each other and from every ordinary value, or an ordinary microsecond count.
   */
  datatype Timestamp =
    | Unset | Unstarted | PreStream | Min | Max | PostStream | OneOverPostStream | Done
    | Micros(value: int)
  {
    predicate IsSpecial() { !Micros? }
  }

  /**
   * TimestampValueString. `debugString` stands for MediaPipe's
   * Timestamp::DebugString, which is not part of this model.
   */
  function TimestampValueString(t: Timestamp, debugString: Timestamp -> string): (s: string)
    ensures !t.IsSpecial() ==> s == debugString(t)
    ensures t.IsSpecial() ==> |s| > 0 && forall i :: 0 <= i < |s| ==> 'A' <= s[i] <= 'Z'
  {
    match t
    case Unset => "UNSET"
    case Unstarted => "UNSTARTED"
    case PreStream => "PRESTREAM"
    case Min => "MIN"
    case Max => "MAX"
    case PostStream => "POSTSTREAM"
    case OneOverPostStream => "ONEOVERPOSTSTREAM"
    case Done => "DONE"
    case Micros(_) => debugString(t)
  }

  /** Each special timestamp has its own name: the names tell them apart. */
  lemma SpecialNamesDistinct(t: Timestamp, u: Timestamp, debugString: Timestamp -> string)
    requires t.IsSpecial() && u.IsSpecial()
    requires TimestampValueString(t, debugString) == TimestampValueString(u, debugString)
    ensures t == u
  {
  }

  /** A message without NUL characters reaches the exception unchanged. */
  lemma CStringWithoutNul(s: string)
    requires '\0' !in s
    ensures CString(s) == s
  {
  }
}
