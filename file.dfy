/** One uploaded file: the metadata PHP reports in `$_FILES` for it, the
    name it is saved under and the outcome of saving it. */
module Files {
  import opened Wrappers
  import opened Php

  /** The upload error codes a File accepts: PHP's UPLOAD_ERR_* constants
      (5 is not one of them). */
  datatype ErrorCode =
    | Ok | IniSize | FormSize | Partial | NoFile | NoTmpDir | CantWrite | StoppedByExtension

  /** The numeric value of each constant. */
  function Code(e: ErrorCode): (c: int)
    ensures 0 <= c <= 8 && c != 5
  {
    match e
    case Ok => 0
    case IniSize => 1
    case FormSize => 2
    case Partial => 3
    case NoFile => 4
    case NoTmpDir => 6
    case CantWrite => 7
    case StoppedByExtension => 8
  }

  /** The constant a number stands for, or None for 5 and every number
      outside 0..8. */
  function FromCode(c: int): (r: Option<ErrorCode>)
    ensures r.Some? <==> 0 <= c <= 8 && c != 5
    ensures r.Some? ==> Code(r.value) == c
  {
    match c
    case 0 => Some(Ok)
    case 1 => Some(IniSize)
    case 2 => Some(FormSize)
    case 3 => Some(Partial)
    case 4 => Some(NoFile)
    case 6 => Some(NoTmpDir)
    case 7 => Some(CantWrite)
    case 8 => Some(StoppedByExtension)
    case _ => None
  }

  /** Every constant survives the trip through its number. */
  lemma CodeRoundTrip(e: ErrorCode)
    ensures FromCode(Code(e)) == Some(e)
  {
    match e
    case Ok =>
    case IniSize =>
    case FormSize =>
    case Partial =>
    case NoFile =>
    case NoTmpDir =>
    case CantWrite =>
    case StoppedByExtension =>
  }

  /** The text `getErrorMessage` gives for each code. */
  function Message(e: ErrorCode): string {
    match e
    case Ok => "The file was successfully uploaded"
    case IniSize => "The size exceeds upload_max_filesize set in php.ini"
    case FormSize => "The size exceeds MAX_FILE_SIZE set in the HTML form"
    case Partial => "The file was only partially uploaded"
    case NoFile => "No file was uploaded"
    case NoTmpDir => "No temporary directory was set"
    case CantWrite => "Could not write to disk"
    case StoppedByExtension => "File upload stopped due to extension"
  }

  /** The record of one uploaded file. PHP's null for a missing name is the
      empty string here; the error code and the saved path are optional. */
  class File {
    var name: string
    var originalName: string
    var temporaryName: string
    var fieldName: string
    var mimeType: string
    var size: int
    var errorCode: Option<ErrorCode>
    var isUploaded: bool
    var filePath: Option<string>

    /** A fresh record: no names, size 0, no error code, not uploaded, no path. */
    constructor ()
      ensures name == "" && originalName == "" && temporaryName == ""
      ensures fieldName == "" && mimeType == ""
      ensures size == 0 && errorCode == None && !isUploaded && filePath == None
    {
      name := "";
      originalName := "";
      temporaryName := "";
      fieldName := "";
      mimeType := "";
      size := 0;
      errorCode := None;
      isUploaded := false;
      filePath := None;
    }

    method SetName(n: string)
      modifies this`name
      ensures name == n
    {
      name := n;
    }

    method SetOriginalName(n: string)
      modifies this`originalName
      ensures originalName == n
    {
      originalName := n;
    }

    method SetTemporaryName(n: string)
      modifies this`temporaryName
      ensures temporaryName == n
    {
      temporaryName := n;
    }

    method SetFieldName(n: string)
      modifies this`fieldName
      ensures fieldName == n
    {
      fieldName := n;
    }

    method SetMimeType(t: string)
      modifies this`mimeType
      ensures mimeType == t
    {
      mimeType := t;
    }

    /** Stores a numeric size that is a whole number; anything else is
        refused and the size kept. */
    method SetSize(v: Scalar) returns (r: Result<(), string>)
      modifies this`size
      ensures r.Success? <==> IntegralValue(v).Some?
      ensures r.Success? ==> size == IntegralValue(v).value
      ensures r.Failure? ==> size == old(size) && r.error == "The given size is not a number"
    {
      match IntegralValue(v)
      case Some(n) =>
        size := n;
        r := Success(());
      case None =>
        r := Failure("The given size is not a number");
    }

    /** Stores one of the eight upload error codes; any other number is
        refused and the code kept. */
    method SetErrorCode(c: int) returns (r: Result<(), string>)
      modifies this`errorCode
      ensures r.Success? <==> 0 <= c <= 8 && c != 5
      ensures r.Success? ==> errorCode.Some? && Code(errorCode.value) == c
      ensures r.Failure? ==> errorCode == old(errorCode)
      ensures r.Failure? ==> r.error == "The error code \"" + SignedDecimal(c) + "\" is not valid"
    {
      match FromCode(c)
      case Some(e) =>
        errorCode := Some(e);
        r := Success(());
      case None =>
        r := Failure("The error code \"" + SignedDecimal(c) + "\" is not valid");
    }

    /** The message for the stored code, or "" when no code is set. */
    function ErrorMessage(): (msg: string)
      reads this
      ensures msg == "" <==> errorCode.None?
      ensures errorCode.Some? ==> msg == Message(errorCode.value)
    {
      match errorCode
      case Some(e) => Message(e)
      case None => ""
    }

    /** Stores the truthiness of the argument. */
    method SetUploaded(v: Scalar)
      modifies this`isUploaded
      ensures isUploaded == Truthy(v)
    {
      isUploaded := Truthy(v);
    }

    method SetFilePath(p: string)
      modifies this`filePath
      ensures filePath == Some(p)
    {
      filePath := Some(p);
    }

    /** The extension of the name: what follows its last '.', or "". */
    function GetExtension(): (ext: string)
      reads this
      ensures '.' !in ext && '/' !in ext
    {
      Extension(name)
    }
  }
}
