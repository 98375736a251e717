/** The MIME type rule: a file passes when its MIME type is one of a
    configured list, and a file that does not pass leaves an
    "Invalid File Type" message behind. */
module MimeTypeConstraints {
  import opened Wrappers
  import opened Files
  import opened BaseConstraints

  /** The name of the one template, which is also the value of the class
      constant of that name. */
  const InvalidFileType := "invalidFileType"

  const Constants: map<string, string> := map[InvalidFileType := InvalidFileType]

  const DefaultTemplates: map<string, string> := map[InvalidFileType := "Invalid File Type"]

  class MimeTypeConstraint {
    const base: BaseConstraint
    var types: seq<string>

    /** The class constants are fixed and the rejection template is present
        (templates are never removed, only overwritten). */
    ghost predicate Valid()
      reads this, base
    {
      base.constants == Constants && InvalidFileType in base.templates
    }

    /** A fresh rule: no types, so it rejects every file; no errors yet. */
    constructor ()
      ensures Valid() && fresh(base)
      ensures types == [] && base.errors == [] && base.templates == DefaultTemplates
    {
      base := new BaseConstraint(Constants, DefaultTemplates);
      types := [];
    }

    method SetMimeTypes(ts: seq<string>)
      modifies this`types
      ensures types == ts
    {
      types := ts;
    }

    /** Replaces the types only when the options carry a value. */
    method SetOptions(options: Options<seq<string>>)
      modifies this`types
      ensures types == options.value.GetOr(old(types))
    {
      if options.value.Some? {
        SetMimeTypes(options.value.value);
      }
    }

    /** Applies the options, then the messages when the options carry any. */
    method Parse(options: Options<seq<string>>)
      requires Valid()
      modifies this`types, base`templates
      ensures Valid()
      ensures types == options.value.GetOr(old(types))
      ensures base.templates ==
        if options.messages.Some? then WithMessages(old(base.templates), Constants, options.messages.value)
        else old(base.templates)
    {
      SetOptions(options);
      if options.messages.Some? {
        base.SetMessages(options.messages.value);
        WithMessagesKeepsKeys(old(base.templates), Constants, options.messages.value);
      }
    }

    /** Accepts a file exactly when its MIME type is listed. A rejection
        appends the current rejection text once; an acceptance leaves the
        errors as they were. */
    method IsValid(file: File) returns (r: bool)
      requires Valid()
      modifies base`errors
      ensures r <==> file.mimeType in types
      ensures r ==> base.errors == old(base.errors)
      ensures !r ==> base.errors == old(base.errors) + [base.templates[InvalidFileType]]
    {
      if file.mimeType in types {
        return true;
      }
      var added := base.AddErrorMessage(InvalidFileType);
      return false;
    }
  }
}
