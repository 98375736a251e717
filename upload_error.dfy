/** The record of one failure while saving: its kind, its messages, the
    file it concerns and, for a rule that failed, the rule. */
module UploadErrors {
  import opened Wrappers
  import opened Php
  import opened Files
  import opened Constraints

  /** The three kinds of failure. */
  datatype ErrorType = PhpUpload | Filesystem | ConstraintViolation

  /** The class constant of each kind. */
  function TypeCode(t: ErrorType): (c: int)
    ensures 0 <= c <= 2
  {
    match t
    case PhpUpload => 0
    case Filesystem => 1
    case ConstraintViolation => 2
  }

  /** The kind a value names, compared strictly: only the integers 0, 1 and
      2 name one, so neither the string "1" nor `true` does. */
  function TypeOf(v: Scalar): (r: Option<ErrorType>)
    ensures r.Some? <==> v.Int? && 0 <= v.i <= 2
    ensures r.Some? ==> TypeCode(r.value) == v.i
  {
    match v
    case Int(0) => Some(PhpUpload)
    case Int(1) => Some(Filesystem)
    case Int(2) => Some(ConstraintViolation)
    case _ => None
  }

  lemma TypeCodeRoundTrip(t: ErrorType)
    ensures TypeOf(Int(TypeCode(t))) == Some(t)
  {
    match t
    case PhpUpload =>
    case Filesystem =>
    case ConstraintViolation =>
  }

  /** The refusal of a value that names no kind. */
  function InvalidTypeMessage(v: Scalar): string {
    "The type \"" + ToString(v) + "\" is not a valid type. Muste be one of 0 1 2."
  }

  /** The message argument of the constructor: absent, one text, or a list. */
  datatype MessageArg = NoMessage | Text(text: string) | List(texts: seq<string>)

  /** The messages a new record starts with. An argument equal to PHP's null
      under loose comparison (absent, the empty string or the empty list) is
      skipped; a list becomes the whole list and a text a one-element list. */
  function InitialMessages(m: MessageArg): (r: seq<string>)
    ensures m.List? ==> r == m.texts
    ensures m.Text? && m.text != "" ==> r == [m.text]
    ensures m.NoMessage? || m == Text("") ==> r == []
  {
    match m
    case NoMessage => []
    case Text(t) => if t == "" then [] else [t]
    case List(ts) => ts
  }

  class UploadError {
    var kind: ErrorType
    var messages: seq<string>
    var file: File?
    var constraint: Option<Constraint>

    /** A record of a kind already known to be valid. */
    constructor (kind: ErrorType, message: MessageArg, file: File?, constraint: Option<Constraint>)
      ensures this.kind == kind && messages == InitialMessages(message)
      ensures this.file == file && this.constraint == constraint
    {
      this.kind := kind;
      messages := InitialMessages(message);
      this.file := file;
      this.constraint := constraint;
    }

    /** The constructor as PHP runs it: the kind is checked first, and a
        value that names none is refused before anything else is stored. */
    static method Create(v: Scalar, message: MessageArg, file: File?, constraint: Option<Constraint>)
      returns (r: Result<UploadError, string>)
      ensures r.Success? <==> TypeOf(v).Some?
      ensures r.Success? ==> fresh(r.value) && r.value.kind == TypeOf(v).value
      ensures r.Success? ==> r.value.messages == InitialMessages(message)
      ensures r.Success? ==> r.value.file == file && r.value.constraint == constraint
      ensures r.Failure? ==> r.error == InvalidTypeMessage(v)
    {
      match TypeOf(v)
      case None =>
        r := Failure(InvalidTypeMessage(v));
      case Some(t) =>
        var e := new UploadError(t, message, file, constraint);
        r := Success(e);
    }

    /** Stores the kind a value names; any other value is refused and the
        kind kept. */
    method SetType(v: Scalar) returns (r: Result<(), string>)
      modifies this`kind
      ensures r.Success? <==> TypeOf(v).Some?
      ensures r.Success? ==> TypeCode(kind) == v.i
      ensures r.Failure? ==> kind == old(kind) && r.error == InvalidTypeMessage(v)
    {
      match TypeOf(v)
      case None =>
        r := Failure(InvalidTypeMessage(v));
      case Some(t) =>
        kind := t;
        r := Success(());
    }

    /** Appends one message after the earlier ones. */
    method SetMessage(m: string)
      modifies this`messages
      ensures messages == old(messages) + [m]
    {
      messages := messages + [m];
    }

    /** Replaces the whole list. */
    method SetMessages(ms: seq<string>)
      modifies this`messages
      ensures messages == ms
    {
      messages := ms;
    }

    method SetFile(f: File)
      modifies this`file
      ensures file == f
    {
      file := f;
    }

    method SetConstraint(c: Constraint)
      modifies this`constraint
      ensures constraint == Some(c)
    {
      constraint := Some(c);
    }
  }
}
