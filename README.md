# php-file-upload: the upload validation pipeline, in Dafny

This project models how the PHP library php-file-upload checks the files
of a form upload and moves them. It also proves properties of that model.
A web request delivers uploads as `$_FILES` records. Rules accept or refuse
a file by its metadata. An orchestrator takes each file through the steps
to an outcome:

- it refuses a transport error;
- it refuses a bad directory;
- it refuses a file a rule rejects;
- it moves the file, or fails to move it.

The repository holds this design three times, and each version is a module
of its own.

- **The current library** (`src/Faultier/FileUpload`).
  - `SizeConstraints` and `TypeConstraints` model the size and type rules. Each parses an expression such as `< 1024` or `~ image/png image/gif` into a mode and operands, then decides `holds`.
  - `BaseConstraints`, `MimeTypeConstraints` and `ImageConstraints` model the validator family. It keeps an error list and a table of message templates.
  - `Files` models the per-upload record: error codes, messages, extension.
  - `UploadErrors` models the error record.
  - `Constraints` models the interface both rule kinds share: the alias registry (`size`, `type`) and the verdicts of a list of rules.
  - `FileUploads` models the orchestrator: `checkUploadDirectory`, reading `$_FILES`, `getFile`, `setConstraints`, `saveFile`, `save` and the uploaded/not-uploaded partition.
- **The `gdcFileUploader` prototype** (`lib/gdcFileUploader.class.php`), in `GdcUploaders`.
  - A criteria string such as `type=image|EQUAL size=1024|LESS` is parsed into a type criterion and a size criterion.
  - Files are split into good and bad ones.
  - `saveAllFiles` answers with the result of the last file only.
- **The `FileUploader` prototype** (`lib/Faultier/FileUploader/FileUploader.php`), in `FileUploaders`.
  - Rules are kept in a map keyed by name.
  - `saveFile` records every rule that fails, not only the first.

Objects the source changes in place are Dafny classes: files, rules, uploaders and the criteria object. Their methods state the whole new state. Pure decisions are functions, and each comes with lemmas relating it to the property the code is meant to have.

PHP built-ins the code relies on are functions in `Php`: `explode`/`implode`, `strpos`, `strtolower`, `strrchr`, `str_replace`, `pathinfo`, `is_numeric` and the `(bool)` cast. Option and Result types are in `Wrappers`.

Inputs the model takes as parameters:

- **The filesystem** is a value `Disk`. It records the paths that exist, the directories, the writable paths and the temporary files still waiting to be moved. A move consumes its temporary file.
- **`$_FILES`** is a sequence of (field, record) pairs.
- **Callbacks** (`save`'s closure, `saveFiles`' and `saveAllFiles`' callables) are functions of what the callback can see of a file.
- **The rule check** of the `FileUploader` prototype is a function `holds` of a rule and a file's facts.
- **The error closures** of `FileUpload` are an append-only log, `errors`. It is what the closures would be handed.

## Model

| member | source | states |
|---|---|---|
| SizeConstraints.ModeOf | src/Faultier/FileUpload/Constraint/SizeConstraint.php:16-22 | an operator is a mode exactly when it is one of the five symbols `<`, `=`, `>`, `<=`, `>=`, and then the mode's symbol is that operator |
| SizeConstraints.Captures | src/Faultier/FileUpload/Constraint/SizeConstraint.php:64 | a match of the anchored pattern (one of the five operators, one space, digits) yields a known operator and a non-empty run of digits that, joined by one space, are the whole subject |
| SizeConstraints.ParseExpression | src/Faultier/FileUpload/Constraint/SizeConstraint.php:55-70 | an expression parses exactly when it matches the pattern; the mode is the captured operator and the size the value of the captured digits |
| SizeConstraints.SymbolFacts | src/Faultier/FileUpload/Constraint/SizeConstraint.php:10-22 | no mode's symbol holds a space, and every symbol names its own mode back |
| SizeConstraints.CapturesOf | src/Faultier/FileUpload/Constraint/SizeConstraint.php:64 | a subject that is a mode's symbol, a space and digits is matched with exactly those two captures |
| SizeConstraints.ParseComplete | src/Faultier/FileUpload/Constraint/SizeConstraint.php:55-70 | every `<op> <digits>` expression, with or without the trailing newline `$` admits, parses to that mode and the digits' value |
| SizeConstraints.ParseRoundTrip | src/Faultier/FileUpload/Constraint/SizeConstraint.php:55-70 | printing any mode and size as an expression and parsing it gives the same mode and size back |
| SizeConstraints.Compare | src/Faultier/FileUpload/Constraint/SizeConstraint.php:72-93 | the comparison each mode names between a size and a threshold, strict for `<` and `>`; `SizeConstraint.Holds` turns it into the signs each mode accepts |
| SizeConstraints.Satisfies | src/Faultier/FileUpload/Constraint/SizeConstraint.php:72-93 | the size against the threshold when one is set; without one, the size as a boolean against null as a boolean, which `SizeConstraint.Holds` spells out per mode |
| SizeConstraints.DigitsOf1024 | src/Faultier/FileUpload/Constraint/SizeConstraint.php:64-68 | "1024" is a digit string of value 1024 |
| SizeConstraints.StrictLessAtThreshold | src/Faultier/FileUpload/Constraint/SizeConstraint.php:75-76 | `< 1024` parses to (Less, 1024) and refuses a file of exactly 1024 bytes while admitting one of 1023 |
| SizeConstraints.SizeConstraint.constructor | src/Faultier/FileUpload/Constraint/SizeConstraint.php:24-25 | a fresh rule has neither mode nor size |
| SizeConstraints.SizeConstraint.SetSize | src/Faultier/FileUpload/Constraint/SizeConstraint.php:31-37 | a value is accepted exactly when it is numeric and not negative and is then stored; otherwise the size is kept and the refusal names the value |
| SizeConstraints.SizeConstraint.SetMode | src/Faultier/FileUpload/Constraint/SizeConstraint.php:43-49 | exactly the five operators are accepted and stored; any other leaves the mode unchanged and is refused naming it |
| SizeConstraints.SizeConstraint.Parse | src/Faultier/FileUpload/Constraint/SizeConstraint.php:55-70 | a matching expression sets mode and size to what it names; a non-matching one changes neither |
| SizeConstraints.SizeConstraint.Holds | src/Faultier/FileUpload/Constraint/SizeConstraint.php:72-93 | with no mode no file passes; with mode and size set a file passes exactly when the sign of size minus threshold is one the mode accepts (strict for `<` and `>`); with a mode and no size the size is compared with null as booleans: `=` and `<=` hold only for an empty file, `<` never, `>` for any non-empty file and `>=` always |
| TypeConstraints.ModeOf | src/Faultier/FileUpload/Constraint/TypeConstraint.php:15-20 | an operator is a mode exactly when it is `=`, `!=`, `~` or `!~`, and then the mode's symbol is that operator |
| TypeConstraints.SymbolFacts | src/Faultier/FileUpload/Constraint/TypeConstraint.php:10-20 | no mode's symbol holds a space, and every symbol names its own mode back |
| TypeConstraints.Captures | src/Faultier/FileUpload/Constraint/TypeConstraint.php:57 | a match of the anchored pattern (one of the four operators, one space, any rest) yields a known operator and a non-empty newline-free rest that, joined by one space, are the whole subject |
| TypeConstraints.ParseExpression | src/Faultier/FileUpload/Constraint/TypeConstraint.php:49-63 | an expression parses exactly when it matches; the mode is the captured operator and the types are the rest split at single spaces, which join back to the rest |
| TypeConstraints.CapturesOf | src/Faultier/FileUpload/Constraint/TypeConstraint.php:57 | a subject that is a mode's symbol, a space and a newline-free rest is matched with exactly those two captures |
| TypeConstraints.ParseRoundTrip | src/Faultier/FileUpload/Constraint/TypeConstraint.php:49-63 | printing a mode and a list of space-free types as an expression and parsing it gives the same mode and list back, with or without a trailing newline |
| TypeConstraints.Accepts | src/Faultier/FileUpload/Constraint/TypeConstraint.php:69-103 | the test one listed type puts to the MIME type: `=` equality, `!=` inequality, `~` occurrence, `!~` absence; the four lemmas below state each mode over the whole list |
| TypeConstraints.Matches | src/Faultier/FileUpload/Constraint/TypeConstraint.php:65-107 | with no mode every MIME type passes; otherwise it passes exactly when every listed type passes the mode's test |
| TypeConstraints.FailsOpen | src/Faultier/FileUpload/Constraint/TypeConstraint.php:65-67 | with no mode or an empty list of types, every file passes |
| TypeConstraints.EqualMeansAllSame | src/Faultier/FileUpload/Constraint/TypeConstraint.php:69-76 | `=` holds exactly when every listed type equals the MIME type |
| TypeConstraints.EqualTwoDistinctNeverHolds | src/Faultier/FileUpload/Constraint/TypeConstraint.php:69-76 | `=` with two different listed types holds for no file |
| TypeConstraints.NotEqualMeansUnlisted | src/Faultier/FileUpload/Constraint/TypeConstraint.php:78-85 | `!=` holds exactly when the MIME type is not among the listed types |
| TypeConstraints.ContainsMeansOccurs | src/Faultier/FileUpload/Constraint/TypeConstraint.php:87-94 | `~` holds exactly when every listed type occurs somewhere in the MIME type |
| TypeConstraints.ContainsNotMeansNoOccurrence | src/Faultier/FileUpload/Constraint/TypeConstraint.php:96-103 | `!~` holds exactly when no listed type occurs anywhere in the MIME type |
| TypeConstraints.ImagePrefixParses | src/Faultier/FileUpload/Constraint/TypeConstraint.php:49-63 | `~ image` and `!~ image` parse to Contains and ContainsNot of the single type `image` |
| TypeConstraints.ImagePrefixMatches | src/Faultier/FileUpload/Constraint/TypeConstraint.php:87-103 | `~ image` admits `image/jpeg` and `!~ image` refuses it |
| TypeConstraints.TypeConstraint.constructor | src/Faultier/FileUpload/Constraint/TypeConstraint.php:22-23 | a fresh rule has no mode and no types |
| TypeConstraints.TypeConstraint.SetMode | src/Faultier/FileUpload/Constraint/TypeConstraint.php:29-35 | exactly the four operators are accepted and stored; any other leaves the mode unchanged and is refused naming it |
| TypeConstraints.TypeConstraint.SetTypes | src/Faultier/FileUpload/Constraint/TypeConstraint.php:41-43 | the list given becomes the types |
| TypeConstraints.TypeConstraint.Parse | src/Faultier/FileUpload/Constraint/TypeConstraint.php:49-63 | a matching expression sets mode and types to what it names; a non-matching one changes neither |
| TypeConstraints.TypeConstraint.Holds | src/Faultier/FileUpload/Constraint/TypeConstraint.php:65-107 | the loop with early exit answers the all-types quantifier `Matches` of the mode, the types and the file's MIME type |
| BaseConstraints.WithMessagesKeepsKeys | src/Faultier/FileUpload/Constraint/baseConstraint.php:82-86 | setting messages never removes a template |
| BaseConstraints.SetMessageIn | src/Faultier/FileUpload/Constraint/baseConstraint.php:67-76 | a key naming a class constant replaces the template under that constant's value; any other key leaves the templates as they are |
| BaseConstraints.WithMessages | src/Faultier/FileUpload/Constraint/baseConstraint.php:82-86 | the templates after one `setMessage` per pair, in order; the three lemmas here state which templates change and to what |
| BaseConstraints.WithMessagesUntouched | src/Faultier/FileUpload/Constraint/baseConstraint.php:67-86 | a template no pair's key maps to is neither added nor changed |
| BaseConstraints.WithMessagesLastWins | src/Faultier/FileUpload/Constraint/baseConstraint.php:82-86 | the template a constant names holds the text of the last pair naming that constant |
| BaseConstraints.BaseConstraint.constructor | src/Faultier/FileUpload/Constraint/baseConstraint.php:10-20 | a validator starts with no errors and its class's constants and templates |
| BaseConstraints.BaseConstraint.AddError | src/Faultier/FileUpload/Constraint/baseConstraint.php:26-28 | the message is appended after the earlier errors, which keep their order |
| BaseConstraints.BaseConstraint.SetMessage | src/Faultier/FileUpload/Constraint/baseConstraint.php:67-76 | the templates become `SetMessageIn`: the value is stored under the constant's value when the key names a constant, and nothing changes otherwise |
| BaseConstraints.BaseConstraint.SetMessages | src/Faultier/FileUpload/Constraint/baseConstraint.php:82-86 | the templates become those after applying every pair in order (see the three lemmas above) |
| BaseConstraints.BaseConstraint.AddErrorMessage | src/Faultier/FileUpload/Constraint/baseConstraint.php:104-110 | it succeeds exactly when a template exists for the key, appending its text; otherwise errors are unchanged and the refusal is "Message Template does not Exists!" |
| MimeTypeConstraints.MimeTypeConstraint.constructor | src/Faultier/FileUpload/Constraint/MimeTypeConstraint.php:9-15 | a fresh validator has no types, no errors and the "Invalid File Type" template |
| MimeTypeConstraints.MimeTypeConstraint.SetMimeTypes | src/Faultier/FileUpload/Constraint/MimeTypeConstraint.php:17-20 | the list given becomes the types |
| MimeTypeConstraints.MimeTypeConstraint.SetOptions | src/Faultier/FileUpload/Constraint/MimeTypeConstraint.php:27-32 | the types are replaced only when a `value` option is present |
| MimeTypeConstraints.MimeTypeConstraint.Parse | src/Faultier/FileUpload/Constraint/baseConstraint.php:92-98 | the options are always applied; the templates change, as `setMessages` would, only when a `messages` option is present |
| MimeTypeConstraints.MimeTypeConstraint.IsValid | src/Faultier/FileUpload/Constraint/MimeTypeConstraint.php:39-47 | a file is valid exactly when its MIME type is a listed type; acceptance keeps the errors, rejection appends exactly the invalid-type template |
| ImageConstraints.ImageConstraint.constructor | src/Faultier/FileUpload/Constraint/ImageConstraint.php:19-39 | a fresh validator has extensions jpeg, jpg, png, gif, wants images, uses the simple level and has the two image templates |
| ImageConstraints.ImageConstraint.AddImageExtension | src/Faultier/FileUpload/Constraint/ImageConstraint.php:119-121 | the extension is appended after the earlier ones |
| ImageConstraints.ImageConstraint.AddImageExtensions | src/Faultier/FileUpload/Constraint/ImageConstraint.php:127-131 | the extensions are appended, in order, after the earlier ones |
| ImageConstraints.ImageConstraint.SetValidationLevel | src/Faultier/FileUpload/Constraint/ImageConstraint.php:144-146 | the level is stored lower-cased |
| ImageConstraints.ImageConstraint.SetIsImage | src/Faultier/FileUpload/Constraint/ImageConstraint.php:151-153 | the flag is the truthiness of the value |
| ImageConstraints.ImageConstraint.SetOptions | src/Faultier/FileUpload/Constraint/ImageConstraint.php:133-142 | the flag changes only when `value` is set, the level only when `validation-level` is set |
| ImageConstraints.ImageConstraint.Parse | src/Faultier/FileUpload/Constraint/baseConstraint.php:92-98 | the options are always applied; the templates change only when a `messages` option is present |
| ImageConstraints.ImageConstraint.IsValid | src/Faultier/FileUpload/Constraint/ImageConstraint.php:162-186 | the file is valid exactly when being recognised as an image agrees with the wanted flag; success keeps the errors, failure appends the one template for the wanted flag |
| ImageConstraints.Recognised | src/Faultier/FileUpload/Constraint/ImageConstraint.php:162-186 | at the simple level the extension check's verdict, at any other level membership of the MIME type in the image list |
| ImageConstraints.ListDecidesAboveSimple | src/Faultier/FileUpload/Constraint/ImageConstraint.php:44-100 | the simple level goes by the extension check alone; at every other level a MIME type is recognised exactly when it is in the image list, whatever the extension check says, and the list holds `image/jpeg`, `image/png` and `image/gif` |
| Files.Code | src/Faultier/FileUpload/File.php:69-98 | every error code is one of 0 to 8 other than 5 |
| Files.FromCode | src/Faultier/FileUpload/File.php:69-98 | an integer names a code exactly when it is one of 0 to 8 other than 5, and that code has it as number |
| Files.CodeRoundTrip | src/Faultier/FileUpload/File.php:69-98 | the number of every code names that code back |
| Files.Message | src/Faultier/FileUpload/File.php:104-135 | the fixed text of each of the eight error codes |
| Files.File.constructor | src/Faultier/FileUpload/File.php:7-15 | a fresh file has empty names, size 0, no error code, is not uploaded and has no path |
| Files.File.SetName | src/Faultier/FileUpload/File.php:17-19 | the name read back is the one set |
| Files.File.SetOriginalName | src/Faultier/FileUpload/File.php:25-27 | the original name read back is the one set |
| Files.File.SetTemporaryName | src/Faultier/FileUpload/File.php:33-35 | the temporary name read back is the one set |
| Files.File.SetFieldName | src/Faultier/FileUpload/File.php:41-43 | the field name read back is the one set |
| Files.File.SetMimeType | src/Faultier/FileUpload/File.php:49-51 | the MIME type read back is the one set |
| Files.File.SetSize | src/Faultier/FileUpload/File.php:57-63 | a value is stored exactly when it is numeric and a whole number; otherwise the size is kept and the refusal is "The given size is not a number" |
| Files.File.SetErrorCode | src/Faultier/FileUpload/File.php:69-98 | exactly the codes 0-4 and 6-8 are accepted and stored; 5 and anything else keep the code and are refused naming the value |
| Files.File.ErrorMessage | src/Faultier/FileUpload/File.php:104-135 | each code gives its fixed message, and the text is empty exactly when no code is set |
| Files.File.SetUploaded | src/Faultier/FileUpload/File.php:137-139 | the flag is the truthiness of the value |
| Files.File.SetFilePath | src/Faultier/FileUpload/File.php:145-147 | the path read back is the one set |
| Files.File.GetExtension | src/Faultier/FileUpload/File.php:153-155 | the extension holds no `.` and no `/` |
| Php.ExtensionSplit | src/Faultier/FileUpload/File.php:153-155 | a name ending in `.` and dot- and slash-free text has that text as extension (`Georg.jpg` gives `jpg`) |
| Php.ExtensionNone | src/Faultier/FileUpload/File.php:153-155 | a name without a `.` has no extension |
| Php.Extension | src/Faultier/FileUpload/File.php:153-155 | the extension holds no `.` and no `/` |
| Php.TrimSlashes | src/Faultier/FileUpload/File.php:154 | the path without its trailing slashes: a prefix, not ending in `/`, followed only by slashes |
| Php.ExtensionTrailingSlash | src/Faultier/FileUpload/File.php:154 | a trailing slash does not change the extension (`a.jpg/` gives `jpg`) |
| Php.TailAfter | lib/gdcFileUploader.class.php:790 | the longest suffix free of the character: a suffix, preceded by the character when shorter than the string |
| Php.TailAfterAppend | lib/gdcFileUploader.class.php:790 | appending text free of the character extends that suffix by the text |
| Php.AfterLast | lib/gdcFileUploader.class.php:790 | the text after the last occurrence of the character holds no such character |
| Php.AfterLastSplit | lib/gdcFileUploader.class.php:790 | the text after the last `c` of `u`, `c`, `v` is `v` when `v` has no `c` |
| Php.RemoveAllTrailing | lib/gdcFileUploader.class.php:791 | removing `search` from text followed by one `search`, where the text never starts one, strips just the final one |
| Php.Explode | lib/gdcFileUploader.class.php:786 | at least one piece, and no piece holds the separator |
| Php.ImplodeExplode | lib/gdcFileUploader.class.php:786 | joining the pieces with the separator gives back the exploded string |
| Php.ExplodePrefix | lib/gdcFileUploader.class.php:786 | a separator-free prefix joins the first piece of what follows |
| Php.ExplodeImplode | src/Faultier/FileUpload/Constraint/TypeConstraint.php:61 | exploding separator-free pieces joined by the separator gives back the pieces |
| Php.ImplodeExcludes | lib/gdcFileUploader.class.php:786 | a character that is not the separator and occurs in no piece does not occur in the joined string |
| Php.SplitFirst | lib/gdcFileUploader.class.php:792 | None exactly when the character is absent; otherwise the text before it, free of it, and the text after it, which put back together give the string |
| Php.SplitFirstOf | lib/gdcFileUploader.class.php:792 | splitting `u`, `c`, `v` at its first `c` gives `u` and `v` when `u` has no `c` |
| Php.AnchoredSubject | src/Faultier/FileUpload/Constraint/SizeConstraint.php:64 | what a `$`-anchored pattern must match: the subject, or the subject less one final newline |
| Php.AnchoredSubjectOf | src/Faultier/FileUpload/Constraint/TypeConstraint.php:57 | a subject not ending in a newline is matched as it is, with or without one newline appended |
| Php.ContainsIffOccurs | src/Faultier/FileUpload/Constraint/TypeConstraint.php:89-98 | `strpos(...) !== false` holds exactly when the needle occurs at some offset |
| Php.Decimal | src/Faultier/FileUpload/FileUpload.php:176 | the decimal string of a number is a non-empty digit string |
| Php.Truthy | src/Faultier/FileUpload/File.php:138 | `(bool)`: null, false, 0, "" and "0" are false and every other value true |
| Php.ToString | src/Faultier/FileUpload/Constraint/SizeConstraint.php:35 | `(string)`: null and false give "", true gives "1", an int its signed decimal text, a string itself |
| Php.ToLower | src/Faultier/FileUpload/Constraint/ImageConstraint.php:145 | `strtolower` on ASCII letters, character by character |
| Php.ToUpper | lib/gdcFileUploader.class.php:790 | `strtoupper` on ASCII letters, character by character |
| Php.Implode | src/Faultier/FileUpload/UploadError.php:43 | `implode` of at least one piece; `ImplodeExplode` and `ExplodeImplode` make it the inverse of `Explode` |
| Php.Contains | src/Faultier/FileUpload/Constraint/TypeConstraint.php:89-98 | `strpos(...) !== false`: the needle starts at the first character or occurs in the rest; `ContainsIffOccurs` states it as an occurrence at some offset |
| Php.RemoveAll | lib/gdcFileUploader.class.php:791 | `str_replace` with an empty replacement: every occurrence, found left to right without overlap, removed; `RemoveAllTrailing` states its use on a criteria piece |
| Php.NumericValue | src/Faultier/FileUpload/Constraint/SizeConstraint.php:32 | the number an `is_numeric` value stands for: an int, or a numeric string read exactly; None for anything else |
| Php.DecimalValue | src/Faultier/FileUpload/FileUpload.php:176 | reading back the decimal string of a number gives the number |
| Php.DecimalInjective | src/Faultier/FileUpload/FileUpload.php:176 | distinct numbers have distinct decimal strings |
| Php.LeadingDigits | lib/gdcFileUploader.class.php:123-146 | the digits a string starts with: a digit prefix followed by no digit, the whole of a digit string |
| Php.LeadingDigitsOf | lib/gdcFileUploader.class.php:123-146 | the leading digits of digits followed by a non-digit are those digits |
| Php.LeadingNumber | src/Faultier/FileUpload/File.php:58 | the number a string starts with, as PHP 7 reads one (white space, sign, mantissa, exponent), takes a non-empty prefix of it |
| Php.IntegralValue | src/Faultier/FileUpload/File.php:58 | a whole number exactly when the value is numeric without a fractional part, and then that number |
| Php.LeadingUnsigned | src/Faultier/FileUpload/File.php:58 | a string starting with a digit or a point is read with neither white space nor sign |
| Php.MantissaOfDigits | src/Faultier/FileUpload/File.php:58 | a mantissa without a point is worth its digits |
| Php.MantissaOfPoint | src/Faultier/FileUpload/File.php:58 | a mantissa with a point is worth all its digits scaled down by the places after the point |
| Php.UnsignedWhole | src/Faultier/FileUpload/File.php:58 | a mantissa that takes the whole string is the whole number |
| Php.NumericDigits | src/Faultier/FileUpload/File.php:58 | a digit string is numeric and stands for its value, for `is_numeric` and when compared with an int |
| Php.NumericFraction | src/Faultier/FileUpload/Constraint/SizeConstraint.php:32 | digits, a point and digits are numeric and stand for all the digits scaled down by the places after the point (`1.5` is 15 tenths) |
| Php.ExponentOf | src/Faultier/FileUpload/Constraint/SizeConstraint.php:32 | `e`, an optional `-` and digits make an exponent of the digits' value, negated after `-` |
| Php.NumericExponent | src/Faultier/FileUpload/Constraint/SizeConstraint.php:32 | digits with an exponent are numeric and stand for the digits times a power of ten (`1e3` is 1000) |
| Php.NumericSigned | src/Faultier/FileUpload/Constraint/SizeConstraint.php:32 | a leading sign negates or keeps what a digit string stands for (`-5` is -5) |
| Php.NumericAfterSpace | src/Faultier/FileUpload/Constraint/SizeConstraint.php:32 | leading white space changes neither whether a string is numeric nor what it stands for |
| Php.NumericDecimal | src/Faultier/FileUpload/File.php:58 | the text of any int is numeric and stands for that int |
| UploadErrors.TypeCode | src/Faultier/FileUpload/UploadError.php:10-12 | every error kind is numbered 0, 1 or 2 |
| UploadErrors.TypeOf | src/Faultier/FileUpload/UploadError.php:19-23 | a value names a kind exactly when it is the integer 0, 1 or 2 (strict comparison: no strings, no floats), and that kind has it as number |
| UploadErrors.TypeCodeRoundTrip | src/Faultier/FileUpload/UploadError.php:19-23 | the number of every kind names that kind back |
| UploadErrors.InitialMessages | src/Faultier/FileUpload/UploadError.php:28-34 | an array message is the whole list, a non-empty single message a one-element list, no message or an empty one no messages |
| UploadErrors.UploadError.constructor | src/Faultier/FileUpload/UploadError.php:25-38 | the error keeps the given kind, file and rule and the initial messages |
| UploadErrors.UploadError.Create | src/Faultier/FileUpload/UploadError.php:25-38 | construction succeeds exactly when the type is valid and then stores everything given; otherwise it is refused with the type message |
| UploadErrors.UploadError.SetType | src/Faultier/FileUpload/UploadError.php:40-47 | exactly 0, 1 and 2 are accepted and stored; anything else keeps the kind and is refused |
| UploadErrors.UploadError.SetMessage | src/Faultier/FileUpload/UploadError.php:54-57 | the message is appended after the earlier ones |
| UploadErrors.UploadError.SetMessages | src/Faultier/FileUpload/UploadError.php:59-62 | the list given replaces all messages |
| UploadErrors.UploadError.SetFile | src/Faultier/FileUpload/UploadError.php:69-72 | the file read back is the one set |
| UploadErrors.UploadError.SetConstraint | src/Faultier/FileUpload/UploadError.php:79-82 | the rule read back is the one set |
| Constraints.ObjectsAllocated | src/Faultier/FileUpload/FileUpload.php:220-226 | proof step: the objects the rules keep their state in exist, so a save can state that it leaves them unchanged |
| Constraints.Verdicts | src/Faultier/FileUpload/FileUpload.php:220-226 | one verdict per rule, in list order, each what that rule decides for the file |
| Constraints.FirstFailing | src/Faultier/FileUpload/FileUpload.php:220-226 | the position found is the first refusing rule, all before it admitting; None means every rule admits |
| Constraints.FirstFailingIs | src/Faultier/FileUpload/FileUpload.php:220-226 | a refusing position with no refusal before it, or None with no refusal at all, is the first failing position |
| Constraints.Holds | src/Faultier/FileUpload/FileUpload.php:221 | asking a rule about a file answers what that rule admits for the file's size and MIME type |
| Constraints.AdmitsByState | src/Faultier/FileUpload/FileUpload.php:220-226 | a rule's verdict depends on its fields alone |
| Constraints.States | src/Faultier/FileUpload/FileUpload.php:220-226 | the fields of every rule of a list, in order |
| Constraints.StateVerdicts | src/Faultier/FileUpload/FileUpload.php:220-226 | one verdict per set of rule fields, each what those fields decide |
| Constraints.VerdictsByState | src/Faultier/FileUpload/FileUpload.php:220-226 | the verdicts of a list of rules are those of their fields, so they survive anything that keeps the fields |
| Constraints.FromAlias | src/Faultier/FileUpload/FileUpload.php:69-77 | an alias is accepted exactly when it is registered (case-insensitively, `size` or `type`); the new rule is fresh, of that kind and parsed from the expression; otherwise the refusal names the alias |
| Constraints.Kept | src/Faultier/FileUpload/FileUpload.php:57-65 | the entries that add a rule: none of them is a foreign object |
| Constraints.KeptAppend | src/Faultier/FileUpload/FileUpload.php:57-65 | one more entry adds one more rule unless it is a foreign object |
| Constraints.FirstUnknown | src/Faultier/FileUpload/FileUpload.php:69-74 | the position found is the first unregistered alias, all before it usable; None means every entry is usable |
| FileUploads.CheckUploadDirectory | src/Faultier/FileUpload/FileUpload.php:294-309 | a directory passes exactly when it exists, is a directory and is writable; each failure has its own message, tested in that order |
| FileUploads.Parses | src/Faultier/FileUpload/FileUpload.php:150-156 | reading `$_FILES` succeeds exactly when every single entry before the first multi-file field and every entry of that field is acceptable; `FileUpload.ParseFilesArray` answers it |
| FileUploads.AfterMove | src/Faultier/FileUpload/FileUpload.php:230 | a move consumes the temporary file, creates the target and leaves directories and permissions alone |
| FileUploads.MovedOnce | src/Faultier/FileUpload/FileUpload.php:230 | a temporary file, once moved, cannot be moved again |
| FileUploads.CanMove | src/Faultier/FileUpload/FileUpload.php:230 | `move_uploaded_file` succeeds exactly when the upload is still pending and the target directory is a writable directory; `MovedOnce` shows a moved upload cannot move again |
| FileUploads.Decide | src/Faultier/FileUpload/FileUpload.php:191-241 | the outcome is a transport failure exactly when the code is not OK, a directory refusal carries the check's message, a constraint failure names the first failing rule, and a move happens exactly when all checks pass and the move is possible, to directory + `/` + name |
| FileUploads.Finish | src/Faultier/FileUpload/FileUpload.php:219-240 | after the earlier checks: refused at the first broken rule when there is one, else moved to directory + `/` + name exactly when the move is possible |
| FileUploads.Settle | src/Faultier/FileUpload/FileUpload.php:219-240 | the same from the rules' verdicts: refused exactly when some verdict is false, at the first such one |
| FileUploads.PassesByState | src/Faultier/FileUpload/FileUpload.php:220-226 | every rule holds for a file exactly when rules with their fields all do |
| FileUploads.Records | src/Faultier/FileUpload/FileUpload.php:251-265 | what each file shows and its name, flag and path, in order |
| FileUploads.SaveRun | src/Faultier/FileUpload/FileUpload.php:246-268 | one outcome per file, in order, and for each the filesystem it met |
| FileUploads.OutcomeOf | src/Faultier/FileUpload/FileUpload.php:253-264 | a file is named as the callback leaves it, then saved in the directory the callback names under the rules' verdicts; `SaveRunOutcomes` ties each file of a save to it |
| FileUploads.SaveRunOutcomes | src/Faultier/FileUpload/FileUpload.php:251-265 | each file has the outcome `Decide` gives for its error code, the name and directory chosen for it and the rules' verdicts on it, on the filesystem it met; the answer is true exactly when every file moved |
| FileUploads.SaveRunThreads | src/Faultier/FileUpload/FileUpload.php:251-265 | the first file meets the filesystem the save started on, each later file the one the file before it left, and the save ends on the one the last file left |
| FileUploads.SaveRunStep | src/Faultier/FileUpload/FileUpload.php:251-265 | handling one more file adds its outcome on the filesystem the files before it left |
| FileUploads.SavedPassed | src/Faultier/FileUpload/FileUpload.php:219-241 | a moved file had the OK code, every rule held for it, its directory passed the check on the filesystem it met, and it lies at that directory + `/` + its chosen name |
| FileUploads.SaveRunDisk | src/Faultier/FileUpload/FileUpload.php:230 | saving keeps directories and permissions, only consumes uploads and only adds paths; every moved file exists at its path and its upload is consumed |
| FileUploads.SaveRunMovesOnce | src/Faultier/FileUpload/FileUpload.php:230 | no two moved files had the same upload |
| FileUploads.ReachedStep | src/Faultier/FileUpload/FileUpload.php:251-265 | proof step: handling one more file changes the record of that file only |
| FileUploads.ReportsRunStep | src/Faultier/FileUpload/FileUpload.php:191-241 | proof step: one more file adds no report when it moved and exactly one, of the kind its outcome calls for, otherwise |
| FileUploads.ReportsRunFiles | src/Faultier/FileUpload/FileUpload.php:191-241 | the reports a save adds are about exactly the files left not uploaded, in order |
| FileUploads.FirstFailingAgrees | src/Faultier/FileUpload/FileUpload.php:220-226 | two verdict lists that agree up to and including a refusal have the same first failure |
| FileUploads.StopsAtFirstFailingRule | src/Faultier/FileUpload/FileUpload.php:220-226 | the rules after the first failing one do not affect the outcome |
| FileUploads.NewFile | src/Faultier/FileUpload/FileUpload.php:150-156 | a record becomes a fresh File carrying all of its fields exactly when its size is numeric and its error code valid; otherwise the setter's refusal |
| FileUploads.FirstMulti | src/Faultier/FileUpload/FileUpload.php:141-148 | the position found is the first multi-file field, all before it single; None means all are single |
| FileUploads.MultiKeysDistinct | src/Faultier/FileUpload/FileUpload.php:176 | the keys of different entries of a multi-file field differ |
| FileUploads.IndexOf | src/Faultier/FileUpload/FileUpload.php:47 | the index found holds the key; None exactly when the key is absent |
| FileUploads.ChosenName | src/Faultier/FileUpload/FileUpload.php:258-261 | without a callback the name is the temporary name; with one it is the temporary name or the non-empty name the callback left |
| FileUploads.ChosenDirectory | src/Faultier/FileUpload/FileUpload.php:253-263 | without a callback the directory is the default; with one it is the default or the directory the callback returned |
| FileUploads.Filter | src/Faultier/FileUpload/FileUpload.php:97-119 | the files kept all have the wanted upload flag, come from the list, and every file with that flag is kept |
| FileUploads.Partition | src/Faultier/FileUpload/FileUpload.php:97-119 | uploaded and not-uploaded files together are exactly the files, as a multiset |
| FileUploads.TotalSizeAppend | src/Faultier/FileUpload/FileUpload.php:121-129 | one more file adds its size to the total |
| FileUploads.TotalSize | src/Faultier/FileUpload/FileUpload.php:121-129 | the sum of the sizes of a list of files; `TotalSizeAppend` and the partition lemma state it, `FileUpload.GetAggregatedFileSize` computes it |
| FileUploads.PartitionSize | src/Faultier/FileUpload/FileUpload.php:121-129 | the sizes of uploaded and not-uploaded files add up to the total |
| FileUploads.TotalOfOneFile | src/Faultier/FileUpload/FileUpload.php:121-129 | the total size of a single 1024-byte file is 1024 |
| FileUploads.Processed | src/Faultier/FileUpload/FileUpload.php:57-80 | the entries handled before an unknown alias stops it form a prefix of the entries |
| FileUploads.Apart | src/Faultier/FileUpload/FileUpload.php:220-226 | proof step: neither a file nor the uploader is one of the rule objects, which lets a save show that the rules are untouched |
| FileUploads.Resolve | src/Faultier/FileUpload/FileUpload.php:57-78 | an entry is accepted exactly when it is usable; a foreign object adds nothing; otherwise the rule added is the one the entry describes, fresh when made from an alias |
| FileUploads.FileUpload.constructor | src/Faultier/FileUpload/FileUpload.php:11-16 | an empty uploader: no directory, files, rules or errors, single upload |
| FileUploads.FileUpload.Create | src/Faultier/FileUpload/FileUpload.php:20-25 | construction succeeds exactly when the directory passes, every alias is known and every record parses; the new upload holds that directory, no errors, the rules the entries describe in order, and one fresh File per single field (or per entry of the first multi-file field) carrying its record under its key; a directory failure is reported first, then the first unknown alias |
| FileUploads.FileUpload.SetUploadDirectory | src/Faultier/FileUpload/FileUpload.php:29-33 | the answer is the directory check; only a passing directory is stored |
| FileUploads.FileUpload.GetFile | src/Faultier/FileUpload/FileUpload.php:43-49 | a multi-file upload is refused with its message; otherwise the file under that field name, or none |
| FileUploads.FileUpload.SetConstraints | src/Faultier/FileUpload/FileUpload.php:55-81 | it succeeds exactly when no alias is unknown; earlier rules stay, and the new ones are in order the rules the processed entries describe |
| FileUploads.FileUpload.RemoveConstraints | src/Faultier/FileUpload/FileUpload.php:185-187 | no rules remain |
| FileUploads.FileUpload.ParseFilesArray | src/Faultier/FileUpload/FileUpload.php:137-161 | single fields give one fresh File each under the field name with all fields copied; the first multi-file field gives one File per entry and sets the multi flag; a refusal keeps the files |
| FileUploads.FileUpload.ParseMultiUpload | src/Faultier/FileUpload/FileUpload.php:163-181 | one fresh File per entry, keyed by field name and position, carrying that entry's fields; refused when any entry is |
| FileUploads.FileUpload.SaveFile | src/Faultier/FileUpload/FileUpload.php:191-241 | the file is uploaded exactly when `Decide` moves it, then with path and disk updated; any other outcome leaves path and disk and appends exactly one report of the matching kind |
| FileUploads.FileUpload.FirstBroken | src/Faultier/FileUpload/FileUpload.php:220-226 | the rules are asked in order: the answer is a rule that does not hold with every earlier one holding, or None when all hold |
| FileUploads.FileUpload.Conclude | src/Faultier/FileUpload/FileUpload.php:219-240 | the file is uploaded exactly when `Finish` moves it, then with its path and the disk updated; otherwise one report of the matching kind is added |
| FileUploads.FileUpload.Refuse | src/Faultier/FileUpload/FileUpload.php:201-203 | the file is marked not uploaded and exactly one report about it, of the given kind and message, is appended |
| FileUploads.FileUpload.NameAndSave | src/Faultier/FileUpload/FileUpload.php:253-264 | the file gets the name `ChosenName` gives and its outcome is `Decide`'s for that name, the directory `ChosenDirectory` gives and the rules' verdicts; it is saved exactly when that outcome is a move; its record and the disk change as the outcome says, one report is added exactly when it is not moved, and the other files and the rules are untouched |
| FileUploads.FileUpload.NextProgress | src/Faultier/FileUpload/FileUpload.php:251-265 | proof step: saving file `i` with the outcome the run gives it moves the loop's progress to `i + 1` |
| FileUploads.FileUpload.SaveAt | src/Faultier/FileUpload/FileUpload.php:253-264 | file `i` is saved exactly when `OutcomeOf` its record before saving moves it; its record becomes `RecordAfter` that outcome, the disk `DiskAfter` it, one report of the matching kind is added exactly when it is not moved, and the rules are untouched |
| FileUploads.FileUpload.SaveNext | src/Faultier/FileUpload/FileUpload.php:251-265 | one more file is saved with the outcome the run gives it, and the record of files, disk, answer and reports grows by it |
| FileUploads.FileUpload.SaveStart | src/Faultier/FileUpload/FileUpload.php:248-249 | before the loop no file is handled, nothing is reported and the answer is true |
| FileUploads.FileUpload.SaveDone | src/Faultier/FileUpload/FileUpload.php:265-267 | after the loop the answer, the disk, every file's record and the new reports are those of the run over all files |
| FileUploads.FileUpload.Unsaved | src/Faultier/FileUpload/FileUpload.php:264-267 | once every file has its outcome's record, the run's answer is true exactly when every file is uploaded, and the new reports are about the not-uploaded files, in order |
| FileUploads.FileUpload.SaveAll | src/Faultier/FileUpload/FileUpload.php:251-265 | the loop keeps going after failures and handles every file, ending where the run over all files ends |
| FileUploads.FileUpload.Save | src/Faultier/FileUpload/FileUpload.php:246-268 | the answer, the disk and every file's record are those `SaveRun` gives over the files' records and the rules before saving, each file meeting the filesystem the one before left; the answer is true exactly when every file ends uploaded; the new reports are the run's, about exactly the not-uploaded files in order |
| FileUploads.FileUpload.GetUploadedFiles | src/Faultier/FileUpload/FileUpload.php:97-107 | the uploaded files, in order |
| FileUploads.FileUpload.GetNotUploadedFiles | src/Faultier/FileUpload/FileUpload.php:109-119 | the files not uploaded, in order |
| FileUploads.FileUpload.AggregatedFileSizeAsWritten | src/Faultier/FileUpload/FileUpload.php:121-129 | as written the sum is always 0 |
| FileUploads.FileUpload.GetAggregatedFileSize | src/Faultier/FileUpload/FileUpload.php:121-129 | the sum of the sizes of all files |
| GdcUploaders.ModeNamed | lib/gdcFileUploader.class.php:726-729 | a name is a size mode exactly when it is one of the six mode names, and the mode has that name |
| GdcUploaders.TypeModeNamed | lib/gdcFileUploader.class.php:819-824 | a name is a type mode exactly when it is EQUAL or NOT_EQUAL |
| GdcUploaders.HasCriteria | lib/gdcFileUploader.class.php:756-759 | a criterion is set when a type or a size is; a fresh or cleared criteria object has none |
| GdcUploaders.ParseSetting | lib/gdcFileUploader.class.php:790-801 | one piece as `setByString` reads it: the mode after the last pipe character, upper-cased; every pipe followed by that mode removed; the key before `=` compared lower-cased, the value after it lower-cased; `SettingOf` states it for a well-formed piece |
| GdcUploaders.SettingsOf | lib/gdcFileUploader.class.php:786-792 | one parsed piece per space-separated piece of the string, in order |
| GdcUploaders.Apply | lib/gdcFileUploader.class.php:794-801 | an unknown key changes nothing; a type or size piece is stored exactly when its mode is allowed, setting that criterion's value and mode and nothing else |
| GdcUploaders.ApplyAllStep | lib/gdcFileUploader.class.php:788-802 | storing pieces is storing the first and, unless it is refused, the rest |
| GdcUploaders.ApplyAll | lib/gdcFileUploader.class.php:788-802 | the pieces stored in order until the first refused mode, which ends it with the pieces before it kept; `ApplyAllStep` states one step |
| GdcUploaders.ByString | lib/gdcFileUploader.class.php:782-809 | an empty string stores nothing and answers false; otherwise the pieces are stored in order and the answer is true, unless a refused mode ends it; `ByStringOnePiece` states it for one piece |
| GdcUploaders.KeyFacts | lib/gdcFileUploader.class.php:794-800 | the keys `type` and `size` are lower-case and hold no `=`, no bar character and no space |
| GdcUploaders.ExplodePair | lib/gdcFileUploader.class.php:792 | splitting `key=value` at `=` gives the key and the value |
| GdcUploaders.DocumentedPieces | lib/gdcFileUploader.class.php:790-792 | for a documented piece (key, `=`, value, a bar, MODE) the mode read is MODE and the rest splits into key and value |
| GdcUploaders.SettingOf | lib/gdcFileUploader.class.php:790-800 | a documented piece with an upper-case mode is read as that criterion, the value lower-cased |
| GdcUploaders.RemoveAllAbsent | lib/gdcFileUploader.class.php:791 | removing a text that does not occur leaves the string unchanged |
| GdcUploaders.ByStringOnePiece | lib/gdcFileUploader.class.php:782-809 | `setByString` on one documented piece stores exactly that criterion and answers true, or is refused with the state unchanged |
| GdcUploaders.UpperModeAbsent | lib/gdcFileUploader.class.php:790-791 | when the mode is not upper-case, a bar followed by its upper-cased form does not occur in the piece |
| GdcUploaders.LowerCaseModeStaysInValue | lib/gdcFileUploader.class.php:790-796 | a piece whose mode is not upper-case keeps the bar and the mode in its value while the mode read is upper-cased |
| GdcUploaders.Graded | lib/gdcFileUploader.class.php:52-58 | the files of one grade: all from the list, all of that grade, and every file of that grade is kept |
| GdcUploaders.GradedAppend | lib/gdcFileUploader.class.php:52-58 | a new file joins exactly the list of its own grade, at the end |
| GdcUploaders.TotalSizeAppend | lib/gdcFileUploader.class.php:272-281 | one more file adds its size to the total |
| GdcUploaders.GradedPartition | lib/gdcFileUploader.class.php:52-58 | good and bad files together are exactly all files, as a multiset |
| GdcUploaders.GradedCount | lib/gdcFileUploader.class.php:388-395 | the good and bad counts add up to the count of all files |
| GdcUploaders.GradedSize | lib/gdcFileUploader.class.php:272-281 | the sizes of good and bad files add up to the total size |
| GdcUploaders.SizeModesCompare | lib/gdcFileUploader.class.php:123-146 | the six size modes compare the file size with the number the setting stands for as `==`, `>`, `>=`, `<`, `<=` and `!=`, in complementary pairs |
| GdcUploaders.SizeAdmits | lib/gdcFileUploader.class.php:123-146 | each mode refuses the file by the comparison its `case` tests; `SizeModesCompare` states the comparison each mode admits |
| GdcUploaders.Operand | lib/gdcFileUploader.class.php:123-146 | the number a size setting stands for when compared with the file size; `OperandOfNumeric` states it for numeric settings |
| GdcUploaders.Passes | lib/gdcFileUploader.class.php:104-147 | with no criterion every file passes; otherwise the type, when set, must occur in the MIME type (EQUAL) or not (NOT_EQUAL), and the size, when set with a mode, must be admitted |
| GdcUploaders.Verdict | lib/gdcFileUploader.class.php:104-147 | the criteria's verdict on a file is `Passes` on its MIME type and size |
| GdcUploaders.ErrorName | lib/gdcFileUploader.class.php:572-594 | each of the codes 0 to 4 and 6 to 8 has its `UPLOAD_ERR_` name, and the name is null exactly for every other code |
| GdcUploaders.Attempt | lib/gdcFileUploader.class.php:76-160 | given the criteria's verdict on files: it throws exactly when there is no file, the file is bad, or the directory is missing or not writable, and then with the not-writable message for a good file; it is refused exactly when a good file fails the criteria in a writable directory; it moves exactly when a good file passes in a writable directory and the move is possible, under the given name or else the original name; the move fails exactly when all that holds but the move is impossible |
| GdcUploaders.OperandOfNumeric | lib/gdcFileUploader.class.php:123-128 | a numeric size setting compares as the number it stands for; a digit string as its value |
| GdcUploaders.Snapshot | lib/gdcFileUploader.class.php:150-156 | the new name, path and upload flag of every file, in order |
| GdcUploaders.FieldsAfter | lib/gdcFileUploader.class.php:150-156 | a move records the new name, the path and the upload; any other outcome leaves the fields |
| GdcUploaders.RecordedStep | lib/gdcFileUploader.class.php:181-192 | one more attempt changes the fields of the next file as its outcome says and no others |
| GdcUploaders.Next | lib/gdcFileUploader.class.php:185-191 | one more attempt adds one outcome and answers as that attempt does |
| GdcUploaders.SaveRunKeeps | lib/gdcFileUploader.class.php:181-192 | a run keeps the earlier outcomes and adds at most one per file, exactly one per file when it ends without exception |
| GdcUploaders.SaveRun | lib/gdcFileUploader.class.php:176-195 | the files attempted in order, each answer replacing the one before and an exception ending the run; the `SaveRun` lemmas here state it |
| GdcUploaders.SaveRunAnswersLast | lib/gdcFileUploader.class.php:191-194 | the answer is that of the last attempt, each answer overwriting the one before; with no attempt it is the initial one |
| GdcUploaders.SaveRunThrowsOnlyLast | lib/gdcFileUploader.class.php:191 | no attempt but the last throws: an exception ends the loop |
| GdcUploaders.SaveRunThrowsLast | lib/gdcFileUploader.class.php:191-194 | a run ends in an exception exactly when its last attempt throws |
| GdcUploaders.SaveRunStep | lib/gdcFileUploader.class.php:181-192 | a run from file `i` is one attempt on file `i` followed by the run from file `i + 1` |
| GdcUploaders.LastWins | lib/gdcFileUploader.class.php:191-194 | when no exception is thrown every good file is attempted and the answer is true exactly when the last one moved, whatever the earlier ones did |
| GdcUploaders.AppendedStep | lib/gdcFileUploader.class.php:49-60 | one more read record extends the files by a file carrying it and graded by its upload and error |
| GdcUploaders.GradedDistinct | lib/gdcFileUploader.class.php:52-58 | the files of a grade are distinct when all files are |
| GdcUploaders.Criteria.constructor | lib/gdcFileUploader.class.php:716-729 | fresh criteria set nothing, so `hasCriteria` is false |
| GdcUploaders.Criteria.SetType | lib/gdcFileUploader.class.php:819-830 | EQUAL and NOT_EQUAL are accepted and stored with the value, exactly as `Apply` says; any other mode is refused with the criteria unchanged |
| GdcUploaders.Criteria.SetSize | lib/gdcFileUploader.class.php:873-884 | the six modes are accepted and stored with the value; any other mode is refused with the criteria unchanged |
| GdcUploaders.Criteria.RemoveType | lib/gdcFileUploader.class.php:857-863 | the type criterion is cleared and the size criterion kept |
| GdcUploaders.Criteria.RemoveSize | lib/gdcFileUploader.class.php:911-917 | the size criterion is cleared and the type criterion kept |
| GdcUploaders.Criteria.RemoveAll | lib/gdcFileUploader.class.php:924-932 | both criteria are cleared and `hasCriteria` becomes false |
| GdcUploaders.Criteria.Store | lib/gdcFileUploader.class.php:794-801 | storing one piece does what `Apply` says, and a refusal changes nothing |
| GdcUploaders.Criteria.SetByString | lib/gdcFileUploader.class.php:782-809 | the state and answer are those of `ByString`: an empty string answers false and changes nothing, otherwise the pieces are stored in order and the answer is true unless a mode is refused |
| GdcUploaders.UploadedFile.constructor | lib/gdcFileUploader.class.php:469-478 | the file carries its record, is good exactly when the temporary file is a pending upload and the error is 0, and has no new name, no path and is not uploaded |
| GdcUploaders.Uploader.constructor | lib/gdcFileUploader.class.php:21-27 | an uploader starts without directory or files |
| GdcUploaders.Uploader.CountsAddUp | lib/gdcFileUploader.class.php:388-395 | the count of all files is the good count plus the bad count, and the two lists split the files |
| GdcUploaders.Uploader.AddFile | lib/gdcFileUploader.class.php:51-58 | one fresh file carrying the record is appended to the files and to the list of its grade |
| GdcUploaders.Uploader.ReadFiles | lib/gdcFileUploader.class.php:49-60 | every record becomes a fresh file appended in order, each in the list of its grade |
| GdcUploaders.Uploader.Initialize | lib/gdcFileUploader.class.php:45-63 | the directory is set, the records are read in order and graded, and the criteria string is applied as `setByString` does |
| GdcUploaders.Uploader.SaveTarget | lib/gdcFileUploader.class.php:86-160 | the answer follows `Attempt`; the directory is changed unless an exception is thrown; a move records new name, path and the upload, any other outcome leaves the file and disk unchanged |
| GdcUploaders.Uploader.SaveFile | lib/gdcFileUploader.class.php:76-160 | with no file given, the first file is taken when exactly one file is good, else it throws; then as `SaveTarget` |
| GdcUploaders.Uploader.Target | lib/gdcFileUploader.class.php:79-83 | the file given, or, when none is and exactly one file is good, the first of all files; None otherwise, where `SaveFile` throws |
| GdcUploaders.Uploader.CountFiles | lib/gdcFileUploader.class.php:388-395 | the number of good files, or of all files; `CountsAddUp` shows all files are the good plus the bad |
| GdcUploaders.Uploader.SaveNext | lib/gdcFileUploader.class.php:181-191 | the next good file is named by the callable and saved: answer, disk, directory and the files' fields are those of one more step of the run |
| GdcUploaders.Uploader.SaveAt | lib/gdcFileUploader.class.php:191 | one good file is saved under the given name: answer, disk and directory follow `Attempt`, and only that file's fields change, as `FieldsAfter` says |
| GdcUploaders.Uploader.SaveTurn | lib/gdcFileUploader.class.php:181-192 | one turn of the loop keeps the invariant: the files attempted so far, the answer and the disk are those of the run so far |
| GdcUploaders.Uploader.SaveEach | lib/gdcFileUploader.class.php:178-194 | the loop ends with the answer, disk and fields of the whole run |
| GdcUploaders.Uploader.SaveAllFiles | lib/gdcFileUploader.class.php:176-195 | the answer, disk and directory are those of `SaveRun` over the good files in order, and every file attempted carries exactly what its attempt recorded, the others unchanged; with `SaveRunAnswersLast` and `LastWins` the answer is the last result only, and an exception stops it |
| GdcUploaders.Uploader.GetTotalSize | lib/gdcFileUploader.class.php:272-281 | the sum of the sizes of the good files, or of all files |
| FileUploaders.Keys | lib/Faultier/FileUploader/FileUploader.php:224-226 | the names rules are kept under, in order |
| FileUploaders.Find | lib/Faultier/FileUploader/FileUploader.php:224-226 | the position found is the first entry under the name; None exactly when no entry has it |
| FileUploaders.Lookup | lib/Faultier/FileUploader/FileUploader.php:224-226 | `$constraints[$key]`: None exactly when no entry has the key; otherwise the rule of an entry under the key |
| FileUploaders.Put | lib/Faultier/FileUploader/FileUploader.php:224-226 | `$constraints[$key] = $rule`: a stored key keeps its place and takes the new rule, a new key goes last; `LookupPut` and `KeysPut` state it |
| FileUploaders.Rules | lib/Faultier/FileUploader/FileUploader.php:236-240 | the rules kept, in order |
| FileUploaders.NotHolding | lib/Faultier/FileUploader/FileUploader.php:236-247 | the rules that do not hold for the file, in the array's order; `NotHoldingComplete`, `NotHoldingSound` and `NotHoldingEmpty` state it |
| FileUploaders.Delete | lib/Faultier/FileUploader/FileUploader.php:232-234 | the entries left are the others, all from the map and none under the name |
| FileUploaders.FindUnique | lib/Faultier/FileUploader/FileUploader.php:224-226 | with distinct names the entry found is the only one under the name |
| FileUploaders.LookupPut | lib/Faultier/FileUploader/FileUploader.php:224-226 | after adding, the name gives the new rule, every other name what it gave before, and names stay distinct |
| FileUploaders.KeysPut | lib/Faultier/FileUploader/FileUploader.php:224-226 | overwriting keeps a name's place; a new name is added at the end |
| FileUploaders.DeleteUnique | lib/Faultier/FileUploader/FileUploader.php:232-234 | removing keeps the names distinct |
| FileUploaders.LookupDelete | lib/Faultier/FileUploader/FileUploader.php:232-234 | after removing, the name gives nothing and every other name what it gave before |
| FileUploaders.LastNamed | lib/Faultier/FileUploader/FileUploader.php:217-222 | the last rule of a list with the name, or None exactly when none has it |
| FileUploaders.LookupPutAll | lib/Faultier/FileUploader/FileUploader.php:217-222 | after adding a list, a name gives the last rule added under it, or what it gave before |
| FileUploaders.NotHoldingComplete | lib/Faultier/FileUploader/FileUploader.php:236-247 | every rule that does not hold is in the result |
| FileUploaders.NotHoldingSound | lib/Faultier/FileUploader/FileUploader.php:236-247 | every rule in the result is a kept rule that does not hold |
| FileUploaders.NotHoldingEmpty | lib/Faultier/FileUploader/FileUploader.php:236-247 | the result is empty exactly when every rule holds |
| FileUploaders.WithErrors | lib/Faultier/FileUploader/FileUploader.php:76-98 | no more files than given |
| FileUploaders.WithErrorsMembers | lib/Faultier/FileUploader/FileUploader.php:76-98 | the files kept have an error code other than OK (or equal to it) as asked, and every such file is kept |
| FileUploaders.WithErrorsPartition | lib/Faultier/FileUploader/FileUploader.php:76-98 | files with and without errors together are exactly the files, as a multiset |
| FileUploaders.Decide | lib/Faultier/FileUploader/FileUploader.php:251-298 | an upload error fails first; then a given directory that fails its check; then any rule not holding, naming all of them; a move goes to directory + `/` + name |
| FileUploaders.DecideNamesAllBroken | lib/Faultier/FileUploader/FileUploader.php:274-297 | a file is refused by rules exactly when some rule fails, and then every failing rule is named |
| FileUploaders.ChosenName | lib/Faultier/FileUploader/FileUploader.php:316-320 | without a callable, or when it leaves the name empty, the name is the temporary name |
| FileUploaders.SaveRun | lib/Faultier/FileUploader/FileUploader.php:303-325 | an outcome, and the filesystem it met, for at most every file; every file when no exception ends it |
| FileUploaders.OutcomeOf | lib/Faultier/FileUploader/FileUploader.php:309-321 | a file is named, then `Decide` settles it with the rules that do not hold under its new name; `SaveRunOutcomes` ties each file of a run to it |
| FileUploaders.SaveRunOutcomes | lib/Faultier/FileUploader/FileUploader.php:309-321 | each file attempted has the outcome `Decide` gives for its facts under the chosen name, the rules that do not hold for it under that name, and the filesystem it met |
| FileUploaders.SaveRunAnswer | lib/Faultier/FileUploader/FileUploader.php:305-324 | without an exception every file was attempted, none threw, and the answer is true exactly when every file moved |
| FileUploaders.SaveRunThrowsLast | lib/Faultier/FileUploader/FileUploader.php:268-269 | an exception ends the run at the file whose directory failed its check, and carries that check's message |
| FileUploaders.SaveRunThreads | lib/Faultier/FileUploader/FileUploader.php:307-322 | the first file meets the filesystem the run started on, each later file the one the file before it left, and the run ends on the one the last file left |
| FileUploaders.SaveRunStep | lib/Faultier/FileUploader/FileUploader.php:307-322 | saving one more file after a run without exception adds its outcome on the filesystem the files before left, and its answer as `saveFile` gives it |
| FileUploaders.SaveRunStops | lib/Faultier/FileUploader/FileUploader.php:307-322 | after an exception the later files change nothing: the run over all files is the run up to the exception |
| FileUploaders.SaveRunDisk | lib/Faultier/FileUploader/FileUploader.php:280-281 | saving keeps directories and permissions, only adds paths and consumes uploads, and leaves the filesystem as it was when every file had an upload error |
| FileUploaders.AnyOkLast | lib/Faultier/FileUploader/FileUploader.php:262 | proof step: some file has the OK code exactly when one before the last, or the last, has it |
| FileUploaders.SaveRunFails | lib/Faultier/FileUploader/FileUploader.php:262-272 | the run throws exactly when a directory was asked for that fails its check and some file has the OK code |
| FileUploaders.MovedPassed | lib/Faultier/FileUploader/FileUploader.php:262-285 | a moved file had the OK code and every rule held for it under its chosen name; it lies at the directory asked for, or else the current one, + `/` + that name |
| FileUploaders.RecordedStep | lib/Faultier/FileUploader/FileUploader.php:307-322 | proof step: saving one more file changes that file's record only |
| FileUploaders.SettledRecords | lib/Faultier/FileUploader/FileUploader.php:303-324 | after a run without exception every file has its chosen name and is uploaded exactly when it moved, then at the directory + `/` + name, and the answer is true exactly when all are uploaded |
| FileUploaders.LegacyFile.constructor | lib/Faultier/FileUploader/File.php:7-14 | the file carries the record's fields, has no name, is not uploaded and has no path and no broken rules |
| FileUploaders.FactsList | lib/Faultier/FileUploader/FileUploader.php:307 | the facts of each file, in order |
| FileUploaders.Snapshot | lib/Faultier/FileUploader/FileUploader.php:307 | what saving recorded in each file, in order |
| FileUploaders.FileUploader.constructor | lib/Faultier/FileUploader/FileUploader.php:18-23 | the uploader holds the given directory, which passed the check, and the given rules and files |
| FileUploaders.FileUploader.SetUploadDirectory | lib/Faultier/FileUploader/FileUploader.php:27-31 | the answer is the directory check; only a passing directory is stored |
| FileUploaders.FileUploader.GetFile | lib/Faultier/FileUploader/FileUploader.php:41-47 | a multi-file upload is refused with its message; otherwise the file of that field, or none |
| FileUploaders.FileUploader.AddConstraint | lib/Faultier/FileUploader/FileUploader.php:224-226 | the rule is stored under its name, replacing one of the same name |
| FileUploaders.FileUploader.AddConstraints | lib/Faultier/FileUploader/FileUploader.php:217-222 | the rules are stored in order as `AddConstraint` does |
| FileUploaders.FileUploader.RemoveAllConstraints | lib/Faultier/FileUploader/FileUploader.php:228-230 | no rules remain |
| FileUploaders.FileUploader.RemoveConstraint | lib/Faultier/FileUploader/FileUploader.php:232-234 | only the rule under that name is removed |
| FileUploaders.FileUploader.GetConstraintsNotHolding | lib/Faultier/FileUploader/FileUploader.php:236-247 | all rules that do not hold for the file, in map order |
| FileUploaders.FileUploader.GetFilesWithErrors | lib/Faultier/FileUploader/FileUploader.php:76-86 | the files whose error code is not OK, in order |
| FileUploaders.FileUploader.GetFilesWithoutErrors | lib/Faultier/FileUploader/FileUploader.php:88-98 | the files whose error code is OK, in order |
| FileUploaders.FileUploader.Select | lib/Faultier/FileUploader/FileUploader.php:76-98 | the files with or without errors, as asked, in order |
| FileUploaders.FileUploader.SaveFile | lib/Faultier/FileUploader/FileUploader.php:251-298 | the answer and the new state follow `Decide`: a directory failure throws and leaves the file alone; otherwise the file is uploaded exactly when moved, and a rule refusal records the failing rules |
| FileUploaders.FileUploader.SaveNext | lib/Faultier/FileUploader/FileUploader.php:309-321 | the answer is `Answer` of `OutcomeOf` the file's facts: `Decide` under the chosen name with the rules not holding under that name; the disk becomes `DiskAfter` that outcome, the file's record `SavedAfter` it, and no other file changes |
| FileUploaders.FileUploader.SaveTurn | lib/Faultier/FileUploader/FileUploader.php:307-322 | one more file is saved and the loop's progress moves to the next file |
| FileUploaders.FileUploader.NextProgress | lib/Faultier/FileUploader/FileUploader.php:307-322 | proof step: what `SaveNext` ensures about file `i` moves the loop's progress to `i + 1` |
| FileUploaders.FileUploader.EachStart | lib/Faultier/FileUploader/FileUploader.php:305 | before the loop no file is saved and the answer is true |
| FileUploaders.FileUploader.EachDone | lib/Faultier/FileUploader/FileUploader.php:307-324 | when the loop stops, because every file was saved or one threw, answer, disk and records are the run's over all files |
| FileUploaders.FileUploader.SaveEach | lib/Faultier/FileUploader/FileUploader.php:307-324 | the loop saves the files in order until one throws, and ends where the run over all files ends |
| FileUploaders.FileUploader.FilesSaved | lib/Faultier/FileUploader/FileUploader.php:303-325 | from the run's records: the exception happens exactly when a directory asked for fails and some file has the OK code; otherwise the answer is true exactly when all files are uploaded, each under its chosen name at the directory + `/` + name |
| FileUploaders.FileUploader.SaveFiles | lib/Faultier/FileUploader/FileUploader.php:303-325 | the answer, the disk and every file's record are those `SaveRun` gives over the files' facts before saving; it throws exactly when a directory was asked for that fails its check and some file has the OK code; otherwise the answer is true exactly when every file is uploaded, and each file has its chosen name and, when uploaded, lies at the directory + `/` + that name |

## Left out

- Human-readable sizes (`getHumanReadableSize`, `getReadableAggregatedFileSize`, `makeBytesReadable`, `getTotalSizeReadable`, `getSizeReadable`) use floating-point division and rounding, which are not modelled.
- PHP values are null, booleans, ints and strings (`Php.Scalar`). Floats are not modelled, so a float passed to a setter is outside the model; numeric strings are read exactly, as decimal fractions.
- The filesystem primitives `file_exists`, `is_dir`, `is_writable`, `is_uploaded_file` and `move_uploaded_file` are read off the `Disk` value. A move succeeds exactly when the temporary file is pending and the directory is a writable directory.
- `$_FILES` is an input sequence, not a global. The parse takes distinct field names, as PHP array keys are.
- Class lookup by reflection (`ReflectionClass`, `ucfirst(alias).'Constraint'`) is the fixed registry `Constraints.Registry`, which holds only `size` and `type`. `MimeTypeConstraint` and `ImageConstraint` extend `baseConstraint`, which implements `ConstraintInterface`, but neither defines its `holds()` (src/Faultier/FileUpload/Constraint/ConstraintInterface.php:12), so PHP cannot load either class as a rule and the `mimetype` and `image` aliases are not registered. The constant lookup of the validators is a fixed map per class.
- The autoloader (src/Faultier/FileUpload/Autoloader.php) is class loading and file I/O.
- The `error` and `errorConstraint` closures are modelled as the `errors` log, which is always kept. Whether a closure is set changes nothing else.
  - `callErrorClosure` and `callConstraintClosure` call `$this->errorClosure(...)` and `$this->errorConstraintClosure(...)` as methods (src/Faultier/FileUpload/FileUpload.php:282, 288). `FileUpload` has no such methods, so once a closure is set PHP stops with an undefined-method error. The model hands every report on, as the tests of the closures expect.
  - The `Closure` type hints of `save`, `error` and `errorConstraint` (src/Faultier/FileUpload/FileUpload.php:246, 272, 276) name `Faultier\FileUpload\Closure` inside the namespace, a class that does not exist, so PHP refuses a real closure there. The model takes the callback as given.
- `FileUploads.FileUpload.SaveFile`: the code has several defects, and the model does what they evidently mean.
  - `holds()` is called without the file.
  - `checkUploadDirectory` is called without `$this`.
  - It uses the misspelt constants `ERR_UPLOAD_OK` and `DIRECTORY_SEPERATOR`.
  - A failed move reports the kind `ERR_MOVE_FILE` (3), which `UploadError` refuses; the model reports it as a filesystem error.
- `FileUploads.FileUpload.Save`: `$callable` is undefined. The closure is modelled as given, returning the directory and possibly leaving a new name.
- `FileUploads.FileUpload.ParseMultiUpload` reads every entry of the multi-file field. The code always reads five, whatever the field holds.
- `FileUploads.FileUpload.ParseFilesArray` keeps all single fields before the first multi-file field. It then replaces them with that field's files, as the early `return` does.
- `FileUploads.FileUpload.SetConstraints` adds each rule with `addConstraint`, which `FileUpload` does not define (src/Faultier/FileUpload/FileUpload.php:63, 77), so PHP stops with an undefined-method error on any rule. It also writes `ReflectionClass` without a leading backslash inside the namespace, which names a class that does not exist. The model keeps the rules in order, as `getConstraints` and `saveFile` expect, and looks aliases up in `Constraints.Registry`.
- `Constraints.Kept` skips an object that is not a rule, as the interface check does. The reflection behind that check is not modelled.
- Loose comparisons are exact. The `!= ERR_UPLOAD_OK` test and `in_array` with its coercions are modelled this way, so a file without an error code counts as an error, not as OK.
- `Files.File.ErrorMessage` gives "" for a file with no code. PHP's loose `switch` would give the OK message.
- Files.File.SetSize: keeps sizes as integers, so it refuses a numeric value that is not a whole number, such as "1.5" or "1e-1", which `is_numeric` accepts and PHP stores. An upload's size is always a whole number of bytes.
- `SizeConstraints.SizeConstraint.SetSize` spells the value out as text in its refusal. The source's `%i` is not a PHP conversion, and what `sprintf` prints for it is not modelled.
- `TypeConstraints` uses substring semantics for `~` and `!~` (`strpos(...) !== false`). An empty listed type therefore occurs in every MIME type, as in PHP 8.
- `ImageConstraints.ImageConstraint.IsValid`: the simple level calls `setFileTypes` and `isValid` on `TypeConstraint`, which defines neither. Its verdict is a parameter. `getImageExtensions` calls a method that does not exist and is not modelled.
- `GdcUploaders.Passes` matches the type criterion as a literal substring. The code uses `preg_match` with the criterion as the pattern.
- `GdcUploaders.Operand` compares a size criterion with the file size as the number the criterion starts with (white space, sign, fraction and exponent included, 0 when it starts with none), as PHP 7 converts a string compared with an int: `"-5"`, `"1.5"` and `"1e3"` stand for -5, 1.5 and 1000. PHP 8 compares a non-numeric string with an int as text; that is not modelled.
- `GdcUploaders.Criteria.SetSize` gives a fixed refusal message. The code prints the modes with `var_export`, which writes to the output.
- The `gdcFileUploaderCriteria` singleton is a single `Criteria` object that the uploader holds.
  - `addCriteria` and `removeCriteria` are one-line delegations to its `setByString` and `removeAll`.
  - `getCriteria` and `hasCriteria` read it.
  - `getInstance` is not modelled.
- From `gdcFileUploader`, `getFile`, `hasFile`, `hasFiles`, `getGoodFiles`, `getBadFiles`, `getType`, `getSuffix`, `getErrorMsg` and `__toString` are accessors and presentation, and are not modelled.
- `GdcUploaders.Uploader.SaveAllFiles` leaves out the `is_callable` check. The callable is a function of the upload.
- `GdcUploaders.Uploader.SaveFile` picks `files[0]` when exactly one file is good, as written, even when that first file is a bad one.
- The `FileUploader` prototype has its own set of defects, and the model does what they evidently mean.
  - `FileUploaders.FileUploader.SaveFile`: `checkUploadDirectory` and `getConstraintsNotHolding` are called without `$this`, and `ERR_UPLOAD_OK` is misspelt.
  - Its `File` class has no `setFilePath` or `setBrokenConstraints`.
  - Its `setErrorCode` writes `$this->code`.
- `FileUploaders.FileUploader.SaveFiles` names `$fileNameCallable`, which is undefined; that check is not modelled. The callable is a function of the file's facts returning its new name.
- The `FileUploader` prototype's `parseFilesArray` always breaks after its first field, and its `parseConstraintString` is commented out, so neither is modelled. The constructor takes the files already parsed and the rules already keyed.
- FileUploaders.FileUploader.constructor: a directory that fails the check throws `InvalidArgumentException` in PHP before any object exists; the model requires a directory that passes instead of returning that error.
- `FileUploaders` keeps rules as values with a name and a mode. A rule object renamed after it was added is not tracked. Every rule class of the prototype holds for every file, so the verdict is the parameter `holds`.
- Stub files whose `holds` always answers true and whose `parse` is empty, the interfaces, the exception classes and the example pages state nothing and are not modelled.

## Findings

| source | as written | input that shows it | evidently intended | confidence | as-written member | corrected member |
|---|---|---|---|---|---|---|
| src/Faultier/FileUpload/FileUpload.php:121-129 | the closure captures `$sum` by value, so the additions are lost and the answer is always 0 | one file of 1024 bytes: the answer is 0, not 1024 (`FileUploads.TotalOfOneFile`) | the sum of the sizes of all files | not executed | FileUploads.FileUpload.AggregatedFileSizeAsWritten | FileUploads.FileUpload.GetAggregatedFileSize |
