/** The image rule: a file passes when it is recognised as an image (or,
    when the rule asks for anything but an image, when it is not), and a
    file that does not pass leaves a message behind. */
module ImageConstraints {
  import opened Wrappers
  import opened Php
  import opened Files
  import opened BaseConstraints
  import MimeTypeConstraints

  /** Template names, equal to the values of the class constants of the
      same name. */
  const FileIsNotImage := "fileIsNotImage"
  const FileIsImage := "fileIsImage"

  /** The two validation levels. */
  const LevelSimple := "simple"
  const LevelAdvanced := "advanced"

  const Constants: map<string, string> := map[
    FileIsNotImage := FileIsNotImage,
    FileIsImage := FileIsImage,
    "validationLevelSimple" := LevelSimple,
    "validationLevelAdvanced" := LevelAdvanced]

  const DefaultTemplates: map<string, string> := map[
    FileIsNotImage := "The uploaded file is not a valid image!",
    FileIsImage := "The uploaded file is a image!"]

  const DefaultExtensions: seq<string> := ["jpeg", "jpg", "png", "gif"]

  /** The MIME types the advanced level recognises as images. */
  const ImageMimeTypes: seq<string> := [
    "application/cdf", "application/dicom", "application/fractals",
    "application/postscript", "application/vnd.hp-hpgl",
    "application/vnd.oasis.opendocument.graphics", "application/x-cdf",
    "application/x-cmu-raster", "application/x-ima", "application/x-inventor",
    "application/x-koan", "application/x-portable-anymap",
    "application/x-world-x-3dmf", "image/bmp", "image/c", "image/cgm",
    "image/fif", "image/gif", "image/jpeg", "image/jpm", "image/jpx",
    "image/jp2", "image/naplps", "image/pjpeg", "image/png", "image/svg",
    "image/svg+xml", "image/tiff", "image/vnd.adobe.photoshop",
    "image/vnd.djvu", "image/vnd.fpx", "image/vnd.net-fpx",
    "image/x-cmu-raster", "image/x-cmx", "image/x-coreldraw", "image/x-cpi",
    "image/x-emf", "image/x-ico", "image/x-icon", "image/x-jg",
    "image/x-ms-bmp", "image/x-niff", "image/x-pict", "image/x-pcx",
    "image/x-png", "image/x-portable-anymap", "image/x-portable-bitmap",
    "image/x-portable-greymap", "image/x-portable-pixmap",
    "image/x-quicktime", "image/x-rgb", "image/x-tiff", "image/x-unknown",
    "image/x-windows-bmp", "image/x-xpmi"]

  /** Whether the level's check recognises a file as an image: at the simple
      level the verdict of the extension check (given), at every other level
      membership of its MIME type in the image list. */
  predicate Recognised(level: string, mime: string, simpleVerdict: bool) {
    if level == LevelSimple then simpleVerdict else mime in ImageMimeTypes
  }

  /** The template a failing file gets: "not an image" when images are
      wanted, "is an image" otherwise. */
  function FailureTemplate(isImage: bool): string {
    if isImage then FileIsNotImage else FileIsImage
  }

  class ImageConstraint {
    const base: BaseConstraint
    var imageExtensions: seq<string>
    var isImage: bool
    var validationLevel: string

    /** The class constants are fixed and both failure templates present. */
    ghost predicate Valid()
      reads this, base
    {
      base.constants == Constants && FileIsNotImage in base.templates && FileIsImage in base.templates
    }

    /** A fresh rule: wants images, checks at the simple level, knows the
        four default extensions and has no errors yet. */
    constructor ()
      ensures Valid() && fresh(base)
      ensures imageExtensions == DefaultExtensions && isImage && validationLevel == LevelSimple
      ensures base.errors == [] && base.templates == DefaultTemplates
    {
      base := new BaseConstraint(Constants, DefaultTemplates);
      imageExtensions := DefaultExtensions;
      isImage := true;
      validationLevel := LevelSimple;
    }

    method AddImageExtension(extension: string)
      modifies this`imageExtensions
      ensures imageExtensions == old(imageExtensions) + [extension]
    {
      imageExtensions := imageExtensions + [extension];
    }

    /** Appends each extension in order. */
    method AddImageExtensions(extensions: seq<string>)
      modifies this`imageExtensions
      ensures imageExtensions == old(imageExtensions) + extensions
    {
      var i := 0;
      while i < |extensions|
        invariant 0 <= i <= |extensions|
        invariant imageExtensions == old(imageExtensions) + extensions[..i]
      {
        AddImageExtension(extensions[i]);
        assert extensions[..i + 1] == extensions[..i] + [extensions[i]];
        i := i + 1;
      }
      assert extensions[..i] == extensions;
    }

    /** Stores the level lower-cased. */
    method SetValidationLevel(level: string)
      modifies this`validationLevel
      ensures validationLevel == ToLower(level)
    {
      validationLevel := ToLower(level);
    }

    /** Stores the truthiness of the argument as the wish for images. */
    method SetIsImage(v: Scalar)
      modifies this`isImage
      ensures isImage == Truthy(v)
    {
      isImage := Truthy(v);
    }

    /** Sets the wish for images only when the options carry a non-null
        value, and the level only when they carry one. */
    method SetOptions(options: Options<Scalar>)
      modifies this`isImage, this`validationLevel
      ensures isImage ==
        if options.value.Some? && options.value.value != Null then Truthy(options.value.value) else old(isImage)
      ensures validationLevel ==
        if options.validationLevel.Some? then ToLower(options.validationLevel.value) else old(validationLevel)
    {
      if options.value.Some? && options.value.value != Null {
        SetIsImage(options.value.value);
      }
      if options.validationLevel.Some? {
        SetValidationLevel(options.validationLevel.value);
      }
    }

    /** Applies the options, then the messages when the options carry any. */
    method Parse(options: Options<Scalar>)
      requires Valid()
      modifies this`isImage, this`validationLevel, base`templates
      ensures Valid()
      ensures isImage ==
        if options.value.Some? && options.value.value != Null then Truthy(options.value.value) else old(isImage)
      ensures validationLevel ==
        if options.validationLevel.Some? then ToLower(options.validationLevel.value) else old(validationLevel)
      ensures base.templates ==
        if options.messages.Some? then WithMessages(old(base.templates), Constants, options.messages.value)
        else old(base.templates)
    {
      SetOptions(options);
      if options.messages.Some? {
        base.SetMessages(options.messages.value);
        WithMessagesKeepsKeys(old(base.templates), Constants, options.messages.value);
      }
    }

    /** Whether the file is what the rule asks for: recognised as an image
        when images are wanted, not recognised otherwise. The advanced check
        runs on a validator built afresh for this call. A failure appends
        the matching template's text once; a pass leaves the errors as they
        were. The simple level's verdict is a parameter. */
    method IsValid(file: File, simpleVerdict: bool) returns (r: bool)
      requires Valid()
      modifies base`errors
      ensures r <==> (isImage <==> Recognised(validationLevel, file.mimeType, simpleVerdict))
      ensures r ==> base.errors == old(base.errors)
      ensures !r ==> base.errors == old(base.errors) + [base.templates[FailureTemplate(isImage)]]
    {
      var recognised: bool;
      if validationLevel == LevelSimple {
        recognised := simpleVerdict;
      } else {
        var validator := new MimeTypeConstraints.MimeTypeConstraint();
        validator.SetMimeTypes(ImageMimeTypes);
        recognised := validator.IsValid(file);
      }
      if isImage {
        if !recognised {
          base.AddError(base.templates[FileIsNotImage]);
          return false;
        }
        return true;
      } else {
        if recognised {
          base.AddError(base.templates[FileIsImage]);
          return false;
        }
        return true;
      }
    }
  }

  /** The simple level goes by the extension check alone; at every other
      level the image list decides, whatever the extension check says: a
      MIME type is recognised exactly when it is listed. The list holds the
      JPEG, PNG and GIF types of the default extensions. */
  lemma ListDecidesAboveSimple(level: string, mime: string, simpleVerdict: bool)
    ensures Recognised(LevelSimple, mime, simpleVerdict) == simpleVerdict
    ensures level != LevelSimple ==> (Recognised(level, mime, simpleVerdict) <==> mime in ImageMimeTypes)
    ensures level != LevelSimple ==>
      Recognised(level, "image/jpeg", simpleVerdict) && Recognised(level, "image/png", simpleVerdict)
      && Recognised(level, "image/gif", simpleVerdict)
  {
    assert ImageMimeTypes[18] == "image/jpeg" && ImageMimeTypes[24] == "image/png";
    assert ImageMimeTypes[17] == "image/gif";
  }


}
