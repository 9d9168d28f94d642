/**
 * The two exception types of the public API whose text the Java side builds
 * itself: `Error` ("errorCode: message", with `getMessage` giving back the raw
 * message) and `NgrokException` ("code", a blank line, then "details"). Both are
 * immutable once built, so both are values here.
 */
module NgrokErrors {
  import opened Exceptions
  import NativeGlue

  /** What `String.format("%s", x)` writes for a string that may be null. */
  function Str(x: Nullable<string>): (s: string)
    ensures x.NonNull? ==> s == x.ref
    ensures x.Null? ==> s == "null"
  {
    match x
    case Null => "null"
    case NonNull(v) => v
  }

  /** `com.ngrok.Error`: the fields as given and the text passed to `IOException`. */
  datatype Error = Error(message: Nullable<string>, errorCode: Nullable<string>, text: string)

  /** `new Error(message, errorCode)`: note the order, the code is written first. */
  function NewError(message: Nullable<string>, errorCode: Nullable<string>): (e: Error)
    ensures e.message == message && e.errorCode == errorCode
    ensures |e.text| == |Str(errorCode)| + 2 + |Str(message)|
    ensures e.text[..|Str(errorCode)|] == Str(errorCode)
    ensures e.text[|Str(errorCode)|..|Str(errorCode)| + 2] == ": "
    ensures e.text[|Str(errorCode)| + 2..] == Str(message)
  {
    Error(message, errorCode, Str(errorCode) + ": " + Str(message))
  }

  /** `getMessage()`, overridden to give the raw message rather than the text. */
  function GetMessage(e: Error): Nullable<string>
  {
    e.message
  }

  /** `getErrorCode()`. */
  function GetErrorCode(e: Error): Nullable<string>
  {
    e.errorCode
  }

  /**
   * Whatever is passed, the getters give the arguments back, and `getMessage`
   * never gives the exception text: the text is strictly longer than the message.
   */
  lemma ErrorGettersGiveArguments(message: Nullable<string>, errorCode: Nullable<string>)
    ensures GetMessage(NewError(message, errorCode)) == message
    ensures GetErrorCode(NewError(message, errorCode)) == errorCode
    ensures NonNull(NewError(message, errorCode).text) != GetMessage(NewError(message, errorCode))
  {
    var e := NewError(message, errorCode);
    assert |e.text| > |Str(message)|;
  }

  /**
   * The text can be read back: two errors with codes of the same length have the
   * same text only when they were given the same code and the same message.
   */
  lemma {:induction false} ErrorTextInjective(m1: string, c1: string, m2: string, c2: string)
    requires |c1| == |c2|
    requires NewError(NonNull(m1), NonNull(c1)).text == NewError(NonNull(m2), NonNull(c2)).text
    ensures c1 == c2 && m1 == m2
  {
    var t1 := NewError(NonNull(m1), NonNull(c1)).text;
    var t2 := NewError(NonNull(m2), NonNull(c2)).text;
    assert c1 == t1[..|c1|] == t2[..|c2|] == c2;
    assert m1 == t1[|c1| + 2..] == t2[|c2| + 2..] == m2;
  }

  /** `com.ngrok.NgrokException`: the code, the details and the text passed to `IOException`. */
  datatype NgrokException = NgrokException(code: Nullable<string>, details: Nullable<string>, text: string)

  /** `new NgrokException(code, details)`: the code, a blank line, then the details. */
  function NewNgrokException(code: Nullable<string>, details: Nullable<string>): (e: NgrokException)
    ensures e.code == code && e.details == details
    ensures |e.text| == |Str(code)| + 2 + |Str(details)|
    ensures e.text[..|Str(code)|] == Str(code)
    ensures e.text[|Str(code)|..|Str(code)| + 2] == "\n\n"
    ensures e.text[|Str(code)| + 2..] == Str(details)
  {
    NgrokException(code, details, Str(code) + "\n\n" + Str(details))
  }

  /** `getCode()`. */
  function GetCode(e: NgrokException): Nullable<string>
  {
    e.code
  }

  /** `getDetails()`. */
  function GetDetails(e: NgrokException): Nullable<string>
  {
    e.details
  }

  /** The getters give the constructor's arguments back unchanged. */
  lemma NgrokExceptionGettersGiveArguments(code: Nullable<string>, details: Nullable<string>)
    ensures GetCode(NewNgrokException(code, details)) == code
    ensures GetDetails(NewNgrokException(code, details)) == details
  {
  }

  /**
   * An `NgrokException` reads exactly like the IOException the native glue raises
   * for an engine error that carries a code: same code, blank line, same message.
   */
  lemma {:induction false} SameLayoutAsCodedEngineError(code: string, msg: string)
    ensures NewNgrokException(NonNull(code), NonNull(msg)).text
         == NativeGlue.NgrokExc(NativeGlue.EngineError(Of(code), msg)).message
  {
    var t := NewNgrokException(NonNull(code), NonNull(msg)).text;
    var x := NativeGlue.NgrokExc(NativeGlue.EngineError(Of(code), msg)).message;
    assert x == code + "\n\n" + msg;
    assert t == code + "\n\n" + msg;
  }

  /**
   * The two layouts differ: for the same two strings, `Error` separates them with
   * ": " and `NgrokException` with a blank line, so the texts never coincide.
   */
  lemma ErrorAndNgrokExceptionLayoutsDiffer(code: Nullable<string>, message: Nullable<string>)
    ensures NewError(message, code).text != NewNgrokException(code, message).text
  {
    var a := NewError(message, code).text;
    var b := NewNgrokException(code, message).text;
    assert a[|Str(code)|] == ':' && b[|Str(code)|] == '\n';
  }
}
