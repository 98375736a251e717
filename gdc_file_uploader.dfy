/** The first prototype of the uploader, one class file: the files PHP
    received, sorted into good and bad ones when they are read; criteria on
    the type and the size of a file, kept in one shared object and set from
    a compact string such as `type=image|EQUAL size=1024|LESS`; and saving
    one file or all of them. */
module GdcUploaders {
  import opened Wrappers
  import opened Php
  import FileUploads

  // ----- comparison modes

  /** The comparison modes of a criterion. */
  datatype Mode = Equal | NotEqual | Greater | GreaterEqual | Less | LessEqual

  function ModeName(m: Mode): string {
    match m
    case Equal => "EQUAL"
    case NotEqual => "NOT_EQUAL"
    case Greater => "GREATER"
    case GreaterEqual => "GREATER_EQUAL"
    case Less => "LESS"
    case LessEqual => "LESS_EQUAL"
  }

  /** The names of the modes, in the order `getModes` lists them. */
  const Modes: seq<string> := ["EQUAL", "NOT_EQUAL", "GREATER", "GREATER_EQUAL", "LESS", "LESS_EQUAL"]

  /** The mode a name stands for; only the names of `Modes` stand for one. */
  function ModeNamed(name: string): (r: Option<Mode>)
    ensures r.Some? <==> name in Modes
    ensures r.Some? ==> ModeName(r.value) == name
  {
    if name == "EQUAL" then Some(Equal)
    else if name == "NOT_EQUAL" then Some(NotEqual)
    else if name == "GREATER" then Some(Greater)
    else if name == "GREATER_EQUAL" then Some(GreaterEqual)
    else if name == "LESS" then Some(Less)
    else if name == "LESS_EQUAL" then Some(LessEqual)
    else None
  }

  /** The modes a type criterion takes: EQUAL and NOT_EQUAL only. */
  function TypeModeNamed(name: string): (r: Option<Mode>)
    ensures r.Some? <==> name == "EQUAL" || name == "NOT_EQUAL"
    ensures r.Some? ==> ModeName(r.value) == name && ModeNamed(name) == r
  {
    if name == "EQUAL" || name == "NOT_EQUAL" then ModeNamed(name) else None
  }

  function TypeModeMessage(mode: string): string {
    "The mode \"" + mode + "\" is not valid for setType() criteria"
  }

  /** The refusal of a size mode; the list of modes is printed rather than
      formatted into it, so the message ends after the colon. */
  function SizeModeMessage(mode: string): string {
    "The mode \"" + mode + "\" is not a valid comparison mode. Only the following modes are allowed: "
  }

  // ----- the criteria

  /** The fields of the criteria object; a field PHP leaves null is None. */
  datatype Settings = Settings(typeValue: Option<string>, typeMode: Option<Mode>,
                               sizeValue: Option<string>, sizeMode: Option<Mode>)

  const NoSettings := Settings(None, None, None, None)

  /** Whether a type or a size is set. */
  predicate HasCriteria(s: Settings) {
    s.typeValue.Some? || s.sizeValue.Some?
  }

  /** One space-separated piece of a criteria string, as `setByString` reads
      it: a type or a size with the text of its mode, or something else. */
  datatype Setting = TypeSetting(value: string, mode: string) | SizeSetting(value: string, mode: string) | Ignored

  /** Reads one piece: the mode is the text after the last `|`, upper-cased;
      every `|` followed by that upper-cased mode is removed; what is left is
      split at `=` into a key, compared lower-cased, and a value, stored
      lower-cased (a missing value is null, which lower-cases to ""). */
  function ParseSetting(crit: string): Setting {
    var mode := ToUpper(AfterLast('|', crit));
    var parts := Explode('=', RemoveAll(crit, "|" + mode));
    var value := if |parts| > 1 then ToLower(parts[1]) else "";
    var key := ToLower(parts[0]);
    if key == "type" then TypeSetting(value, mode)
    else if key == "size" then SizeSetting(value, mode)
    else Ignored
  }

  /** The pieces of a criteria string, in order. */
  function SettingsOf(criteria: string): (r: seq<Setting>)
    ensures |r| == |Explode(' ', criteria)|
    ensures forall i :: 0 <= i < |r| ==> r[i] == ParseSetting(Explode(' ', criteria)[i])
  {
    var crits := Explode(' ', criteria);
    seq(|crits|, i requires 0 <= i < |crits| => ParseSetting(crits[i]))
  }

  /** What storing one piece does: `setType` or `setSize` with its value and
      mode, refused when the mode is not one the criterion takes. */
  function Apply(s: Settings, t: Setting): (r: Result<Settings, string>)
    ensures t.Ignored? ==> r == Success(s)
    ensures t.TypeSetting? ==> (r.Success? <==> TypeModeNamed(t.mode).Some?)
    ensures t.SizeSetting? ==> (r.Success? <==> ModeNamed(t.mode).Some?)
    ensures r.Success? && t.TypeSetting? ==>
      r.value == s.(typeValue := Some(t.value), typeMode := TypeModeNamed(t.mode))
    ensures r.Success? && t.SizeSetting? ==>
      r.value == s.(sizeValue := Some(t.value), sizeMode := ModeNamed(t.mode))
  {
    match t
    case TypeSetting(v, m) =>
      if TypeModeNamed(m).None? then Failure(TypeModeMessage(m))
      else Success(s.(typeValue := Some(v), typeMode := TypeModeNamed(m)))
    case SizeSetting(v, m) =>
      if ModeNamed(m).None? then Failure(SizeModeMessage(m))
      else Success(s.(sizeValue := Some(v), sizeMode := ModeNamed(m)))
    case Ignored => Success(s)
  }

  /** The settings after storing pieces in order, and the refusal that
      stopped it, if one did; the pieces before a refused one stay stored. */
  function ApplyAll(s: Settings, ts: seq<Setting>): (Settings, Option<string>)
    decreases |ts|
  {
    if ts == [] then (s, None)
    else match Apply(s, ts[0])
      case Failure(e) => (s, Some(e))
      case Success(s') => ApplyAll(s', ts[1..])
  }

  /** The settings after `setByString`, and its answer: an empty string
      (which null equals) stores nothing and answers false; otherwise the
      pieces are stored in order and the answer is true, unless a refused
      mode ends it with the refusal. */
  function ByString(s: Settings, criteria: string): (Settings, Result<bool, string>) {
    if criteria == "" then (s, Success(false))
    else
      var (s', e) := ApplyAll(s, SettingsOf(criteria));
      (s', if e.Some? then Failure(e.value) else Success(true))
  }

  /** Storing a non-empty list of pieces is storing the first one and,
      unless it is refused, the rest after it. */
  lemma ApplyAllStep(s: Settings, ts: seq<Setting>)
    requires ts != []
    ensures Apply(s, ts[0]).Failure? ==> ApplyAll(s, ts) == (s, Some(Apply(s, ts[0]).error))
    ensures Apply(s, ts[0]).Success? ==> ApplyAll(s, ts) == ApplyAll(Apply(s, ts[0]).value, ts[1..])
  {
  }

  /** The two keys are written in lower case, without `=` or `|`. */
  lemma KeyFacts(key: string)
    requires key == "type" || key == "size"
    ensures ToLower(key) == key && '=' !in key && '|' !in key && ' ' !in key
  {
    assert |key| == 4;
    forall i | 0 <= i < 4
      ensures LowerChar(key[i]) == key[i] && key[i] != '=' && key[i] != '|' && key[i] != ' '
    {
      assert 'a' <= key[i] <= 'z';
    }
  }

  /** Splitting `key=value` at `=` gives the key and the value. */
  lemma ExplodePair(key: string, value: string)
    requires '=' !in key && '=' !in value
    ensures Explode('=', key + "=" + value) == [key, value]
  {
    assert key + "=" + value == Implode('=', [key, value]) by {
      assert [key, value][1..] == [value];
    }
    ExplodeImplode('=', [key, value]);
  }

  /** The mode and the key and value of a piece written `key=value|MODE`. */
  lemma DocumentedPieces(key: string, v: string, m: string)
    requires key == "type" || key == "size"
    requires '|' !in v && '=' !in v && '|' !in m && ToUpper(m) == m
    ensures ToUpper(AfterLast('|', key + "=" + v + "|" + m)) == m
    ensures Explode('=', RemoveAll(key + "=" + v + "|" + m, "|" + m)) == [key, v]
  {
    var u := key + "=" + v;
    assert key + "=" + v + "|" + m == u + ['|'] + m == u + ("|" + m);
    AfterLastSplit('|', u, m);
    KeyFacts(key);
    RemoveAllTrailing(u, "|" + m);
    ExplodePair(key, v);
  }

  /** A piece written as the syntax documents it, `key=value|MODE` with an
      upper-case mode, is read back as that key, value and mode. */
  lemma SettingOf(key: string, v: string, m: string)
    requires key == "type" || key == "size"
    requires '|' !in v && '=' !in v && '|' !in m && ToUpper(m) == m
    ensures ParseSetting(key + "=" + v + "|" + m)
         == if key == "type" then TypeSetting(ToLower(v), m) else SizeSetting(ToLower(v), m)
  {
    DocumentedPieces(key, v, m);
    KeyFacts(key);
  }

  /** Removing text that does not occur leaves a string as it is. */
  lemma {:induction false} RemoveAllAbsent(s: string, search: string)
    requires |search| > 0
    requires forall i :: !OccursAt(s, search, i)
    ensures RemoveAll(s, search) == s
    decreases |s|
  {
    if |s| >= |search| {
      assert !OccursAt(s, search, 0);
      forall i
        ensures !OccursAt(s[1..], search, i)
      {
        if OccursAt(s[1..], search, i) {
          assert s[1..][i..i + |search|] == s[i + 1..i + 1 + |search|];
          assert OccursAt(s, search, i + 1);
        }
      }
      RemoveAllAbsent(s[1..], search);
      assert s == [s[0]] + s[1..];
    }
  }

  /** A criteria string of one documented piece, such as
      `type=image|EQUAL`, stores that piece with its value lower-cased and
      answers true, or is refused with the mode's refusal, nothing stored. */
  lemma ByStringOnePiece(s: Settings, key: string, v: string, m: string)
    requires key == "type" || key == "size"
    requires ' ' !in v && '|' !in v && '=' !in v && ' ' !in m && '|' !in m && ToUpper(m) == m
    ensures var t := if key == "type" then TypeSetting(ToLower(v), m) else SizeSetting(ToLower(v), m);
      ByString(s, key + "=" + v + "|" + m)
        == match Apply(s, t)
           case Success(s') => (s', Success(true))
           case Failure(e) => (s, Failure(e))
  {
    var crit := key + "=" + v + "|" + m;
    KeyFacts(key);
    assert ' ' !in crit;
    ExplodeImplode(' ', [crit]);
    assert Explode(' ', crit) == [crit];
    SettingOf(key, v, m);
    assert SettingsOf(crit) == [ParseSetting(crit)];
    ApplyAllStep(s, SettingsOf(crit));
  }

  /** In a piece `key=value|mode` whose mode is not in upper case, the
      upper-cased mode after a `|` occurs nowhere. */
  lemma UpperModeAbsent(key: string, v: string, m: string)
    requires key == "type" || key == "size"
    requires '|' !in v && '|' !in m && ToUpper(m) != m
    ensures forall i :: !OccursAt(key + "=" + v + "|" + m, "|" + ToUpper(m), i)
  {
    var u := key + "=" + v;
    var crit := key + "=" + v + "|" + m;
    var search := "|" + ToUpper(m);
    assert crit == u + ['|'] + m;
    KeyFacts(key);
    forall i
      ensures !OccursAt(crit, search, i)
    {
      if 0 <= i && i + |search| <= |crit| {
        if i < |u| {
          assert crit[i..i + |search|][0] == u[i];
        } else {
          assert crit[i..i + |search|] == ['|'] + m;
          assert (['|'] + m)[1..] == m && search[1..] == ToUpper(m);
        }
      }
    }
  }

  /** A mode not written in upper case is accepted, since it is
      upper-cased, but the `|` and the mode stay part of the value, since
      only the upper-cased spelling is removed: `type=image|equal` sets the
      type `image|equal` with the mode EQUAL. */
  lemma LowerCaseModeStaysInValue(key: string, v: string, m: string)
    requires key == "type" || key == "size"
    requires '|' !in v && '=' !in v && '|' !in m && '=' !in m && ToUpper(m) != m
    ensures ParseSetting(key + "=" + v + "|" + m)
         == if key == "type" then TypeSetting(ToLower(v + "|" + m), ToUpper(m))
            else SizeSetting(ToLower(v + "|" + m), ToUpper(m))
  {
    var crit := key + "=" + v + "|" + m;
    assert crit == (key + "=" + v) + ['|'] + m == key + "=" + (v + "|" + m);
    AfterLastSplit('|', key + "=" + v, m);
    UpperModeAbsent(key, v, m);
    RemoveAllAbsent(crit, "|" + ToUpper(m));
    KeyFacts(key);
    ExplodePair(key, v + "|" + m);
  }

  /** The criteria object every uploader shares (a singleton in PHP). */
  class Criteria {
    var typeValue: Option<string>
    var typeMode: Option<Mode>
    var sizeValue: Option<string>
    var sizeMode: Option<Mode>

    function State(): Settings
      reads this
    {
      Settings(typeValue, typeMode, sizeValue, sizeMode)
    }

    constructor ()
      ensures State() == NoSettings && !HasCriteria(State())
    {
      typeValue, typeMode, sizeValue, sizeMode := None, None, None, None;
    }

    /** Sets the type and its mode; a mode other than EQUAL and NOT_EQUAL
        is refused and nothing changes. */
    method SetType(value: string, mode: string) returns (r: Result<(), string>)
      modifies this
      ensures r.Success? <==> TypeModeNamed(mode).Some?
      ensures Apply(old(State()), TypeSetting(value, mode)) ==
        (if r.Success? then Success(State()) else Failure(r.error))
      ensures r.Failure? ==> State() == old(State())
    {
      var m := TypeModeNamed(mode);
      if m.None? {
        return Failure(TypeModeMessage(mode));
      }
      typeValue, typeMode := Some(value), m;
      r := Success(());
    }

    /** Sets the size and its mode; a mode not among `Modes` is refused and
        nothing changes. */
    method SetSize(value: string, mode: string) returns (r: Result<(), string>)
      modifies this
      ensures r.Success? <==> ModeNamed(mode).Some?
      ensures Apply(old(State()), SizeSetting(value, mode)) ==
        (if r.Success? then Success(State()) else Failure(r.error))
      ensures r.Failure? ==> State() == old(State())
    {
      var m := ModeNamed(mode);
      if m.None? {
        return Failure(SizeModeMessage(mode));
      }
      sizeValue, sizeMode := Some(value), m;
      r := Success(());
    }

    method RemoveType()
      modifies this
      ensures State() == old(State()).(typeValue := None, typeMode := None)
    {
      typeValue, typeMode := None, None;
    }

    method RemoveSize()
      modifies this
      ensures State() == old(State()).(sizeValue := None, sizeMode := None)
    {
      sizeValue, sizeMode := None, None;
    }

    /** Clears everything, after which no criterion is set. */
    method RemoveAll()
      modifies this
      ensures State() == NoSettings && !HasCriteria(State())
    {
      typeValue, typeMode, sizeValue, sizeMode := None, None, None, None;
    }

    /** Stores one piece of a criteria string; other keys are skipped. */
    method Store(t: Setting) returns (r: Result<(), string>)
      modifies this
      ensures Apply(old(State()), t) == (if r.Success? then Success(State()) else Failure(r.error))
      ensures r.Failure? ==> State() == old(State())
    {
      match t {
        case TypeSetting(v, m) =>
          r := SetType(v, m);
        case SizeSetting(v, m) =>
          r := SetSize(v, m);
        case Ignored =>
          r := Success(());
      }
    }

    /** Stores the pieces of a criteria string in order (an empty string,
        which null equals, stores nothing and answers false). A refused mode
        ends it with the refusal, the pieces before it stored. */
    method SetByString(criteria: string) returns (r: Result<bool, string>)
      modifies this
      ensures (State(), r) == ByString(old(State()), criteria)
    {
      if criteria == "" {
        return Success(false);
      }
      var crits := Explode(' ', criteria);
      ghost var pieces := SettingsOf(criteria);
      var i := 0;
      while i < |crits|
        invariant 0 <= i <= |crits|
        invariant ApplyAll(old(State()), pieces) == ApplyAll(State(), pieces[i..])
      {
        ApplyAllStep(State(), pieces[i..]);
        var s := Store(ParseSetting(crits[i]));
        if s.Failure? {
          return Failure(s.error);
        }
        assert pieces[i..][1..] == pieces[i + 1..];
        i := i + 1;
      }
      r := Success(true);
    }
  }

  // ----- the files

  /** What PHP reports about one uploaded file, with its field. */
  datatype Upload = Upload(field: string, name: string, tmpName: string, mimeType: string,
                           error: int, size: int)

  /** The name of an upload error code, as `getError` gives it; a code
      without a name gives null, written here as "". */
  function ErrorName(code: int): (r: string)
    ensures r == "" <==> code !in {0, 1, 2, 3, 4, 6, 7, 8}
  {
    match code
    case 0 => "UPLOAD_ERR_OK"
    case 1 => "UPLOAD_ERR_INI_SIZE"
    case 2 => "UPLOAD_ERR_FORM_SIZE"
    case 3 => "UPLOAD_ERR_PARTIAL"
    case 4 => "UPLOAD_ERR_NO_FILE"
    case 6 => "UPLOAD_ERR_NO_TMP_DIR"
    case 7 => "UPLOAD_ERR_CANT_WRITE"
    case 8 => "UPLOAD_ERR_EXTENSION"
    case _ => ""
  }

  /** One uploaded file. What PHP reported never changes; saving gives it a
      new name and a directory and marks it uploaded. */
  class UploadedFile {
    const upload: Upload
    /** PHP holds it as an upload and reported no error. */
    const isGood: bool
    var newName: Option<string>
    var path: Option<string>
    var isUploaded: bool

    /** The fields a save may change. */
    function Saved(): Fields
      reads this
    {
      (newName, path, isUploaded)
    }

    /** `is_uploaded_file` is asked of the disk: the temporary name is an
        upload PHP still holds. */
    constructor (upload: Upload, disk: FileUploads.Disk)
      ensures this.upload == upload
      ensures isGood <==> upload.tmpName in disk.pending && upload.error == 0
      ensures newName == None && path == None && !isUploaded
    {
      this.upload := upload;
      isGood := upload.tmpName in disk.pending && upload.error == 0;
      newName, path, isUploaded := None, None, false;
    }
  }

  /** The files of a list that are good (or bad), in order. */
  function Graded(fs: seq<UploadedFile>, good: bool): (r: seq<UploadedFile>)
    ensures |r| <= |fs|
    ensures forall k :: 0 <= k < |r| ==> r[k] in fs && r[k].isGood == good
    ensures forall k :: 0 <= k < |fs| && fs[k].isGood == good ==> fs[k] in r
  {
    if fs == [] then []
    else
      var init := fs[..|fs| - 1];
      var last := fs[|fs| - 1];
      assert forall k :: 0 <= k < |fs| - 1 ==> fs[k] == init[k];
      Graded(init, good) + (if last.isGood == good then [last] else [])
  }

  /** The sum of the sizes of a list of files. */
  function TotalSize(fs: seq<UploadedFile>): int {
    if fs == [] then 0 else TotalSize(fs[..|fs| - 1]) + fs[|fs| - 1].upload.size
  }

  lemma GradedAppend(fs: seq<UploadedFile>, f: UploadedFile, good: bool)
    ensures Graded(fs + [f], good) == Graded(fs, good) + (if f.isGood == good then [f] else [])
  {
    assert (fs + [f])[..|fs|] == fs;
  }

  lemma TotalSizeAppend(fs: seq<UploadedFile>, f: UploadedFile)
    ensures TotalSize(fs + [f]) == TotalSize(fs) + f.upload.size
  {
    assert (fs + [f])[..|fs|] == fs;
  }

  /** The good and the bad files together are all files, each once. */
  lemma {:induction false} GradedPartition(fs: seq<UploadedFile>)
    ensures multiset(Graded(fs, true)) + multiset(Graded(fs, false)) == multiset(fs)
  {
    if fs != [] {
      var init := fs[..|fs| - 1];
      GradedPartition(init);
      assert fs == init + [fs[|fs| - 1]];
    }
  }

  /** So there are as many good and bad files as files. */
  lemma GradedCount(fs: seq<UploadedFile>)
    ensures |Graded(fs, true)| + |Graded(fs, false)| == |fs|
  {
    GradedPartition(fs);
    assert |multiset(Graded(fs, true)) + multiset(Graded(fs, false))| == |multiset(fs)|;
  }

  /** And the sizes of the good and the bad files add up to the total. */
  lemma {:induction false} GradedSize(fs: seq<UploadedFile>)
    ensures TotalSize(Graded(fs, true)) + TotalSize(Graded(fs, false)) == TotalSize(fs)
  {
    if fs != [] {
      var init := fs[..|fs| - 1];
      var last := fs[|fs| - 1];
      assert fs == init + [last];
      GradedSize(init);
      GradedAppend(init, last, true);
      GradedAppend(init, last, false);
      if last.isGood {
        TotalSizeAppend(Graded(init, true), last);
        assert Graded(fs, false) == Graded(init, false);
      } else {
        TotalSizeAppend(Graded(init, false), last);
        assert Graded(fs, true) == Graded(init, true);
      }
    }
  }

  // ----- size and type checks

  /** A size criterion as `saveFile` applies it: each mode names the
      comparison that rejects the file. */
  predicate SizeAdmits(m: Mode, fsize: int, limit: real) {
    match m
    case Equal => !(fsize as real != limit)
    case NotEqual => !(fsize as real == limit)
    case Greater => !(fsize as real <= limit)
    case GreaterEqual => !(fsize as real < limit)
    case Less => !(fsize as real >= limit)
    case LessEqual => !(fsize as real > limit)
  }

  /** The six modes are the six comparisons of the file size with the
      criterion's number, strict where the name says so, and come in
      complementary pairs. */
  lemma SizeModesCompare(fsize: int, limit: real)
    ensures SizeAdmits(Equal, fsize, limit) <==> fsize as real == limit
    ensures SizeAdmits(Greater, fsize, limit) <==> fsize as real > limit
    ensures SizeAdmits(GreaterEqual, fsize, limit) <==> fsize as real >= limit
    ensures SizeAdmits(Less, fsize, limit) <==> fsize as real < limit
    ensures SizeAdmits(LessEqual, fsize, limit) <==> fsize as real <= limit
    ensures SizeAdmits(NotEqual, fsize, limit) == !SizeAdmits(Equal, fsize, limit)
    ensures SizeAdmits(Greater, fsize, limit) == !SizeAdmits(LessEqual, fsize, limit)
    ensures SizeAdmits(Less, fsize, limit) == !SizeAdmits(GreaterEqual, fsize, limit)
  {
  }

  /** The number a size setting stands for when PHP 7 compares it with the
      file size, an int: the number the string starts with (white space,
      sign, fraction and exponent included), or 0 when it starts with none. */
  function Operand(value: string): real {
    LeadingValue(value)
  }

  /** A numeric size setting compares as the number it stands for; one of
      digits only, as their value. */
  lemma OperandOfNumeric(value: string)
    ensures NumericString(value).Some? ==> Operand(value) == NumericString(value).value.Value()
    ensures |value| > 0 && AllDigits(value) ==> Operand(value) == DigitsValue(value) as real
  {
    if |value| > 0 && AllDigits(value) {
      NumericDigits(value);
    }
  }

  /** Whether a file passes the criteria: the type, when set, must occur in
      the file's type (EQUAL) or not occur (NOT_EQUAL); the size, when set,
      must satisfy its mode. */
  predicate Passes(s: Settings, mime: string, size: int) {
    HasCriteria(s) ==>
      (s.typeValue.None? || match s.typeMode
        case Some(Equal) => Contains(mime, s.typeValue.value)
        case Some(NotEqual) => !Contains(mime, s.typeValue.value)
        case _ => true)
      && (s.sizeValue.None? || s.sizeMode.None? || SizeAdmits(s.sizeMode.value, size, Operand(s.sizeValue.value)))
  }

  /** The verdict of the criteria `s` on each file. */
  function Verdict(s: Settings): UploadedFile -> bool {
    (f: UploadedFile) => Passes(s, f.upload.mimeType, f.upload.size)
  }

  // ----- saving

  const AmbiguousFileMessage := "More than one file has been uploaded. Therefore \"$file\" must not be null"

  function BadFileMessage(u: Upload): string {
    "The file \"" + u.name + "\" has not been uploaded correctly (Error " + ErrorName(u.error)
      + ") and thus cannot be processed"
  }

  function NotWritableMessage(dir: Option<string>): string {
    "The upload directory \"" + dir.GetOr("") + "\" is not writable"
  }

  /** How saving one file ends: with an exception, refused by the criteria,
      not moved, or moved to a directory under a name. */
  datatype Outcome = Thrown(message: string) | Refused | NotMoved | Moved(dir: string, name: string)

  /** `saveFile`'s decision for the file it settled on (None when it could
      not settle on one), the name and directory asked for ("" and None for
      null), the current directory, the verdict of the criteria and the
      disk. */
  function Attempt(f: Option<UploadedFile>, fileName: string, dir: Option<string>, current: Option<string>,
                   passes: UploadedFile -> bool, disk: FileUploads.Disk): (o: Outcome)
    ensures f.None? ==> o == Thrown(AmbiguousFileMessage)
    ensures f.Some? && !f.value.isGood ==> o == Thrown(BadFileMessage(f.value.upload))
    ensures var d := if dir.Some? then dir else current;
      f.Some? && f.value.isGood && (d.None? || d.value !in disk.writable) ==> o == Thrown(NotWritableMessage(d))
    ensures var d := if dir.Some? then dir else current;
      o.Thrown? <==> f.None? || !f.value.isGood || d.None? || d.value !in disk.writable
    ensures o == Refused <==>
      f.Some? && f.value.isGood && (if dir.Some? then dir else current).Some?
      && (if dir.Some? then dir else current).value in disk.writable
      && !passes(f.value)
    ensures var d := if dir.Some? then dir else current;
      o.Moved? <==>
        f.Some? && f.value.isGood && d.Some? && d.value in disk.writable
        && passes(f.value)
        && FileUploads.CanMove(disk, f.value.upload.tmpName, d.value)
    ensures var d := if dir.Some? then dir else current;
      o == NotMoved <==>
        f.Some? && f.value.isGood && d.Some? && d.value in disk.writable
        && passes(f.value)
        && !FileUploads.CanMove(disk, f.value.upload.tmpName, d.value)
    ensures o.Moved? ==>
      o.dir == (if dir.Some? then dir else current).GetOr("")
      && o.name == (if fileName == "" then f.value.upload.name else fileName)
  {
    if f.None? then Thrown(AmbiguousFileMessage)
    else if !f.value.isGood then Thrown(BadFileMessage(f.value.upload))
    else
      var d := if dir.Some? then dir else current;
      if d.None? || d.value !in disk.writable then Thrown(NotWritableMessage(d))
      else
        var name := if fileName == "" then f.value.upload.name else fileName;
        if !passes(f.value) then Refused
        else if FileUploads.CanMove(disk, f.value.upload.tmpName, d.value) then Moved(d.value, name)
        else NotMoved
  }

  /** What `saveFile` answers: an exception, or whether the file moved. */
  function Answer(o: Outcome): Result<bool, string> {
    match o
    case Thrown(m) => Failure(m)
    case Moved(_, _) => Success(true)
    case _ => Success(false)
  }

  /** The fields a save may change: the new name, the directory and
      whether the file was uploaded. */
  type Fields = (Option<string>, Option<string>, bool)

  /** The fields a save may change, of each file. */
  function Snapshot(fs: seq<UploadedFile>): (r: seq<Fields>)
    reads fs
    ensures |r| == |fs| && forall j :: 0 <= j < |fs| ==> r[j] == fs[j].Saved()
  {
    if fs == [] then [] else [fs[0].Saved()] + Snapshot(fs[1..])
  }

  /** The fields of a file after an attempt that had `was`: a move records
      the name and the directory and marks the file uploaded; anything else
      leaves them. */
  function FieldsAfter(o: Outcome, was: Fields): (r: Fields)
    ensures o.Moved? ==> r == (Some(o.name), Some(o.dir), true)
    ensures !o.Moved? ==> r == was
  {
    if o.Moved? then (Some(o.name), Some(o.dir), true) else was
  }

  /** The fields `now` of the files are what the first `i` attempts, whose
      outcomes `run` records, left of the fields `before`. */
  predicate Recorded(now: seq<Fields>, i: int, run: Run, before: seq<Fields>) {
    0 <= i <= |now| == |before| && |run.outcomes| == i
    && forall j :: 0 <= j < |now| ==>
         now[j] == if j < i then FieldsAfter(run.outcomes[j], before[j]) else before[j]
  }

  /** One more attempt, with outcome `o`, changes the fields of the next
      file only. */
  lemma RecordedStep(now: seq<Fields>, i: int, run: Run, before: seq<Fields>, o: Outcome, next: Run)
    requires Recorded(now, i, run, before) && i < |now|
    requires next.outcomes == run.outcomes + [o]
    ensures Recorded(now[i := FieldsAfter(o, now[i])], i + 1, next, before)
  {
    var now' := now[i := FieldsAfter(o, now[i])];
    forall j | 0 <= j < |now'|
      ensures now'[j] == if j < i + 1 then FieldsAfter(next.outcomes[j], before[j]) else before[j]
    {
      if j < i {
        assert next.outcomes[j] == run.outcomes[j];
      }
    }
  }

  /** The disk after an attempt: a move consumes the temporary file. */
  function DiskAfter(o: Outcome, f: UploadedFile, disk: FileUploads.Disk): FileUploads.Disk {
    if o.Moved? then FileUploads.AfterMove(disk, f.upload.tmpName, o.dir + "/" + o.name) else disk
  }

  /** The current directory after an attempt: the one asked for becomes
      current unless the attempt threw before setting it. */
  function DirAfter(o: Outcome, dir: Option<string>, current: Option<string>): Option<string> {
    if o.Thrown? then current else if dir.Some? then dir else current
  }

  /** The name `saveAllFiles` saves a file under: what the callable
      answers for it, or the file's own name without one. */
  function NameFor(f: UploadedFile, namer: Option<Upload -> string>): string {
    if namer.Some? then namer.value(f.upload) else f.upload.name
  }

  /** How far saving a list of files has got: the answer so far, the disk,
      the current directory and the outcome of each attempt, in order. */
  datatype Run = Run(answer: Result<bool, string>, disk: FileUploads.Disk, current: Option<string>,
                     outcomes: seq<Outcome>)

  /** The run after attempting file `f` under `NameFor` its name. */
  function Next(f: UploadedFile, namer: Option<Upload -> string>, dir: Option<string>, passes: UploadedFile -> bool,
                run: Run): (r: Run)
    ensures |r.outcomes| == |run.outcomes| + 1 && r.outcomes[..|run.outcomes|] == run.outcomes
    ensures r.answer == Answer(r.outcomes[|run.outcomes|])
  {
    var o := Attempt(Some(f), NameFor(f, namer), dir, run.current, passes, run.disk);
    assert (run.outcomes + [o])[..|run.outcomes|] == run.outcomes;
    Run(Answer(o), DiskAfter(o, f, run.disk), DirAfter(o, dir, run.current), run.outcomes + [o])
  }

  /** Saving the files `fs` in order after `run`: each is attempted under
      `NameFor` its name in the directory asked for, with the disk and the
      current directory the attempt before left; each answer replaces the
      one before, and an exception ends the run. */
  function SaveRun(fs: seq<UploadedFile>, namer: Option<Upload -> string>, dir: Option<string>,
                   passes: UploadedFile -> bool, run: Run): Run
    decreases |fs|
  {
    if fs == [] || run.answer.Failure? then run
    else SaveRun(fs[1..], namer, dir, passes, Next(fs[0], namer, dir, passes, run))
  }

  /** A run keeps the outcomes before it and adds at most one per file,
      one for every file when no attempt throws. */
  lemma {:induction false} SaveRunKeeps(fs: seq<UploadedFile>, namer: Option<Upload -> string>,
                                        dir: Option<string>, passes: UploadedFile -> bool, run: Run)
    requires run.answer.Success?
    ensures var r := SaveRun(fs, namer, dir, passes, run);
      |run.outcomes| <= |r.outcomes| <= |run.outcomes| + |fs| && r.outcomes[..|run.outcomes|] == run.outcomes
      && (r.answer.Success? ==> |r.outcomes| == |run.outcomes| + |fs|)
  {
    if fs != [] {
      var next := Next(fs[0], namer, dir, passes, run);
      if next.answer.Success? {
        SaveRunKeeps(fs[1..], namer, dir, passes, next);
        var r := SaveRun(fs[1..], namer, dir, passes, next);
        assert r.outcomes[..|run.outcomes|] == r.outcomes[..|next.outcomes|][..|run.outcomes|];
      }
    }
  }

  /** The answer of a run is that of the last attempt made (or the answer
      before when none is): earlier results are lost. */
  lemma {:induction false} SaveRunAnswersLast(fs: seq<UploadedFile>, namer: Option<Upload -> string>,
                                              dir: Option<string>, passes: UploadedFile -> bool, run: Run)
    requires run.answer.Success?
    ensures var r := SaveRun(fs, namer, dir, passes, run);
      var k := |run.outcomes|;
      (|r.outcomes| == k ==> r.answer == run.answer && fs == [])
      && (|r.outcomes| > k ==> r.answer == Answer(r.outcomes[|r.outcomes| - 1]))
  {
    if fs != [] {
      var next := Next(fs[0], namer, dir, passes, run);
      var k := |run.outcomes|;
      assert next.answer == Answer(next.outcomes[k]);
      if next.answer.Success? {
        assert SaveRun(fs, namer, dir, passes, run) == SaveRun(fs[1..], namer, dir, passes, next);
        SaveRunKeeps(fs[1..], namer, dir, passes, next);
        SaveRunAnswersLast(fs[1..], namer, dir, passes, next);
        var r := SaveRun(fs[1..], namer, dir, passes, next);
        if |r.outcomes| == k + 1 {
          assert r.outcomes[..k + 1] == next.outcomes;
          assert r.outcomes[k] == next.outcomes[k];
        }
      } else {
        assert SaveRun(fs, namer, dir, passes, run) == next;
      }
    }
  }

  /** No attempt of a run but the last throws: an exception ends it. */
  lemma {:induction false} SaveRunThrowsOnlyLast(fs: seq<UploadedFile>, namer: Option<Upload -> string>,
                                                 dir: Option<string>, passes: UploadedFile -> bool, run: Run, j: int)
    requires run.answer.Success?
    ensures var r := SaveRun(fs, namer, dir, passes, run);
      |run.outcomes| <= j < |r.outcomes| - 1 ==> !r.outcomes[j].Thrown?
  {
    if fs != [] {
      var next := Next(fs[0], namer, dir, passes, run);
      var k := |run.outcomes|;
      if next.answer.Success? {
        SaveRunKeeps(fs[1..], namer, dir, passes, next);
        if j == k {
          var r := SaveRun(fs[1..], namer, dir, passes, next);
          assert r.outcomes[..k + 1] == next.outcomes;
          assert r.outcomes[k] == next.outcomes[k];
        } else {
          SaveRunThrowsOnlyLast(fs[1..], namer, dir, passes, next, j);
        }
      }
    }
  }

  /** A run ends in an exception exactly when its last attempt throws. */
  lemma SaveRunThrowsLast(fs: seq<UploadedFile>, namer: Option<Upload -> string>,
                          dir: Option<string>, passes: UploadedFile -> bool, run: Run)
    requires run.answer.Success?
    ensures var r := SaveRun(fs, namer, dir, passes, run);
      r.answer.Failure? <==> |r.outcomes| > |run.outcomes| && r.outcomes[|r.outcomes| - 1].Thrown?
  {
    SaveRunKeeps(fs, namer, dir, passes, run);
    SaveRunAnswersLast(fs, namer, dir, passes, run);
  }

  /** One step of a run, taken at position `i` of the files. */
  lemma SaveRunStep(fs: seq<UploadedFile>, namer: Option<Upload -> string>, dir: Option<string>,
                    passes: UploadedFile -> bool, run: Run, i: nat)
    requires i < |fs| && run.answer.Success?
    ensures SaveRun(fs[i..], namer, dir, passes, run) == SaveRun(fs[i + 1..], namer, dir, passes, Next(fs[i], namer, dir, passes, run))
  {
    assert fs[i..][1..] == fs[i + 1..];
  }

  /** Saving good files answers true for the last one that moved, even
      when an earlier one was refused: only the last result counts. */
  lemma LastWins(fs: seq<UploadedFile>, namer: Option<Upload -> string>, dir: Option<string>,
                 passes: UploadedFile -> bool, disk: FileUploads.Disk, current: Option<string>)
    requires fs != []
    ensures var r := SaveRun(fs, namer, dir, passes, Run(Success(true), disk, current, []));
      r.answer.Success? ==> |r.outcomes| == |fs| && r.answer.value == r.outcomes[|fs| - 1].Moved?
  {
    SaveRunKeeps(fs, namer, dir, passes, Run(Success(true), disk, current, []));
    SaveRunAnswersLast(fs, namer, dir, passes, Run(Success(true), disk, current, []));
  }

  class Uploader {
    var uploadDir: Option<string>
    var files: seq<UploadedFile>
    var goodFiles: seq<UploadedFile>
    var badFiles: seq<UploadedFile>
    /** The shared criteria object. */
    const criteria: Criteria

    /** The good and bad files are those of the files, in order. */
    ghost predicate Valid()
      reads this`files, this`goodFiles, this`badFiles
    {
      goodFiles == Graded(files, true) && badFiles == Graded(files, false) && FileUploads.Distinct(files)
    }

    constructor (criteria: Criteria)
      ensures Valid() && this.criteria == criteria
      ensures uploadDir == None && files == []
    {
      this.criteria := criteria;
      uploadDir := None;
      files, goodFiles, badFiles := [], [], [];
    }

    /** The files `getFiles` lists: the good ones, or all. */
    function Listed(omitBad: bool): seq<UploadedFile>
      reads this
    {
      if omitBad then goodFiles else files
    }

    function CountFiles(omitBad: bool): nat
      reads this
    {
      |Listed(omitBad)|
    }

    /** All files are counted once, as good or as bad. */
    lemma CountsAddUp()
      requires Valid()
      ensures CountFiles(false) == CountFiles(true) + |badFiles|
      ensures multiset(files) == multiset(goodFiles) + multiset(badFiles)
    {
      GradedPartition(files);
      GradedCount(files);
    }

    /** Reads one file and sorts it into the good or the bad ones. */
    method AddFile(u: Upload, disk: FileUploads.Disk) returns (f: UploadedFile)
      requires Valid()
      modifies this`files, this`goodFiles, this`badFiles
      ensures Valid()
      ensures fresh(f) && files == old(files) + [f]
      ensures f.upload == u && (f.isGood <==> u.tmpName in disk.pending && u.error == 0)
    {
      f := new UploadedFile(u, disk);
      GradedAppend(files, f, true);
      GradedAppend(files, f, false);
      files := files + [f];
      if f.isGood {
        goodFiles := goodFiles + [f];
      } else {
        badFiles := badFiles + [f];
      }
    }

    /** Reads a file per field of `$_FILES`, in order. */
    method ReadFiles(input: seq<Upload>, disk: FileUploads.Disk)
      requires Valid()
      modifies this`files, this`goodFiles, this`badFiles
      ensures Valid() && Appended(files, old(files), input, disk)
      ensures forall i :: |old(files)| <= i < |files| ==> fresh(files[i])
    {
      var i := 0;
      while i < |input|
        invariant 0 <= i <= |input|
        invariant Valid() && Appended(files, old(files), input[..i], disk)
        invariant forall j :: |old(files)| <= j < |files| ==> fresh(files[j])
      {
        ghost var prev := files;
        var f := AddFile(input[i], disk);
        AppendedStep(prev, old(files), input[..i], disk, f, input[i]);
        assert input[..i] + [input[i]] == input[..i + 1];
        i := i + 1;
      }
      assert input[..i] == input;
    }

    /** Sets the directory, reads a file per field of `$_FILES`, in order,
        and sorts each into the good or the bad ones; then stores the
        criteria string in the shared criteria. */
    method Initialize(dir: Option<string>, settings: string, input: seq<Upload>, disk: FileUploads.Disk)
      returns (r: Result<bool, string>)
      requires Valid()
      modifies this, criteria
      ensures Valid() && uploadDir == dir && Appended(files, old(files), input, disk)
      ensures forall i :: |old(files)| <= i < |files| ==> fresh(files[i])
      ensures (criteria.State(), r) == ByString(old(criteria.State()), settings)
    {
      uploadDir := dir;
      ReadFiles(input, disk);
      r := criteria.SetByString(settings);
    }

    /** The file `saveFile` settles on: the one given, or, when none is and
        exactly one file is good, the first of all files. */
    function Target(file: Option<UploadedFile>): (t: Option<UploadedFile>)
      reads this
      requires Valid()
    {
      if file.Some? then file
      else if |goodFiles| == 1 then Some(files[0])
      else None
    }

    function Targets(file: Option<UploadedFile>): set<UploadedFile>
      reads this
      requires Valid()
    {
      if Target(file).Some? then {Target(file).value} else {}
    }

    /** Saves the file `saveFile` settled on: a bad file and a directory
        that is not writable are refused with an exception before anything
        changes; then the directory becomes the current one; a file the
        criteria reject is neither moved nor changed; a moved file records
        its name and directory and is marked uploaded. */
    method SaveTarget(f: UploadedFile, fileName: string, dir: Option<string>, disk: FileUploads.Disk)
      returns (r: Result<bool, string>, disk': FileUploads.Disk)
      modifies this`uploadDir, f
      ensures var o := old(Attempt(Some(f), fileName, dir, uploadDir, Verdict(criteria.State()), disk));
        r == Answer(o)
        && uploadDir == (if o.Thrown? then old(uploadDir) else if dir.Some? then dir else old(uploadDir))
        && if o.Moved? then
             f.newName == Some(o.name) && f.path == Some(o.dir) && f.isUploaded
             && disk' == FileUploads.AfterMove(disk, f.upload.tmpName, o.dir + "/" + o.name)
           else disk' == disk && unchanged(f)
    {
      disk' := disk;
      if !f.isGood {
        return Failure(BadFileMessage(f.upload)), disk;
      }
      var d := if dir.Some? then dir else uploadDir;
      if d.None? || d.value !in disk.writable {
        return Failure(NotWritableMessage(d)), disk;
      }
      uploadDir := d;
      var name := if fileName == "" then f.upload.name else fileName;
      if !Passes(criteria.State(), f.upload.mimeType, f.upload.size) {
        return Success(false), disk;
      }
      if FileUploads.CanMove(disk, f.upload.tmpName, d.value) {
        disk' := FileUploads.AfterMove(disk, f.upload.tmpName, d.value + "/" + name);
        f.newName := Some(name);
        f.path := d;
        f.isUploaded := true;
        r := Success(true);
      } else {
        r := Success(false);
      }
    }

    /** Saves one file: the one given or, when none is, the one `Target`
        settles on; when it settles on none, an exception and no change. */
    method SaveFile(file: Option<UploadedFile>, fileName: string, dir: Option<string>, disk: FileUploads.Disk)
      returns (r: Result<bool, string>, disk': FileUploads.Disk)
      requires Valid()
      modifies this`uploadDir, Targets(file)
      ensures Valid()
      ensures var o := old(Attempt(Target(file), fileName, dir, uploadDir, Verdict(criteria.State()), disk));
        r == Answer(o)
        && uploadDir == (if o.Thrown? then old(uploadDir) else if dir.Some? then dir else old(uploadDir))
        && if o.Moved? then
             var f := old(Target(file)).value;
             f.newName == Some(o.name) && f.path == Some(o.dir) && f.isUploaded
             && disk' == FileUploads.AfterMove(disk, f.upload.tmpName, o.dir + "/" + o.name)
           else disk' == disk && forall f :: f in old(Targets(file)) ==> unchanged(f)
    {
      var f: UploadedFile;
      if file.Some? {
        f := file.value;
      } else if |goodFiles| == 1 {
        f := files[0];
      } else {
        return Failure(AmbiguousFileMessage), disk;
      }
      r, disk' := SaveTarget(f, fileName, dir, disk);
    }

    /** The first `i` good files were attempted as `run` records, in the
        current directory it ends in, and the good files had the fields
        `before`: their fields now are as `Recorded` says. */
    ghost predicate SavedSoFar(i: int, run: Run, before: seq<Fields>)
      reads this`uploadDir, this`goodFiles, goodFiles
    {
      run.current == uploadDir && Recorded(Snapshot(goodFiles), i, run, before)
    }

    /** Saves good file `i` under the name `NameFor` gives it: the answer,
        the disk, the current directory and the fields of the file are as
        `Next` says the attempt at it leaves them, and only that file
        changes. */
    method SaveNext(i: nat, dir: Option<string>, namer: Option<Upload -> string>, disk: FileUploads.Disk,
                    ghost run: Run, ghost before: seq<Fields>)
      returns (saved: Result<bool, string>, disk': FileUploads.Disk)
      requires Valid() && i < |goodFiles| && FileUploads.Distinct(goodFiles)
      requires SavedSoFar(i, run, before) && run.disk == disk
      modifies this`uploadDir, goodFiles[i]
      ensures Valid()
      ensures var next := Next(goodFiles[i], namer, dir, Verdict(criteria.State()), run);
        SavedSoFar(i + 1, next, before) && saved == next.answer && disk' == next.disk
    {
      var f := goodFiles[i];
      var name := if namer.Some? then namer.value(f.upload) else f.upload.name;
      ghost var now := Snapshot(goodFiles);
      ghost var o := Attempt(Some(f), name, dir, uploadDir, Verdict(criteria.State()), disk);
      ghost var next := Next(f, namer, dir, Verdict(criteria.State()), run);
      assert next == Run(Answer(o), DiskAfter(o, f, disk), DirAfter(o, dir, uploadDir), run.outcomes + [o]);
      saved, disk' := SaveAt(i, name, dir, disk);
      RecordedStep(now, i, run, before, o, next);
    }

    /** Saves good file `i` under the given name: the answer, the disk and
        the current directory are as `Attempt` decides, and of the fields
        of the good files only those of file `i` change, as `FieldsAfter`
        says. */
    method SaveAt(i: nat, name: string, dir: Option<string>, disk: FileUploads.Disk)
      returns (saved: Result<bool, string>, disk': FileUploads.Disk)
      requires i < |goodFiles| && FileUploads.Distinct(goodFiles)
      modifies this`uploadDir, goodFiles[i]
      ensures var o := old(Attempt(Some(goodFiles[i]), name, dir, uploadDir, Verdict(criteria.State()), disk));
        saved == Answer(o) && disk' == DiskAfter(o, goodFiles[i], disk) && uploadDir == DirAfter(o, dir, old(uploadDir))
        && Snapshot(goodFiles) == old(Snapshot(goodFiles))[i := FieldsAfter(o, old(Snapshot(goodFiles))[i])]
    {
      ghost var now := Snapshot(goodFiles);
      saved, disk' := SaveTarget(goodFiles[i], name, dir, disk);
      assert Snapshot(goodFiles) == now[i := goodFiles[i].Saved()] by {
        forall j | 0 <= j < |goodFiles| && j != i
          ensures Snapshot(goodFiles)[j] == now[j]
        {
        }
      }
    }

    /** How far the loop of `SaveAllFiles` has got: the first `i` good
        files were attempted as `run` records, with answer `r` and disk
        `disk`, and running on over the rest makes the run `whole`. */
    ghost predicate EachSoFar(i: int, r: Result<bool, string>, disk: FileUploads.Disk, run: Run, whole: Run,
                              namer: Option<Upload -> string>, dir: Option<string>,
                              passes: UploadedFile -> bool, before: seq<Fields>)
      reads this`files, this`goodFiles, this`badFiles, this`uploadDir, goodFiles, criteria
    {
      Valid() && FileUploads.Distinct(goodFiles) && passes == Verdict(criteria.State())
      && SavedSoFar(i, run, before) && run.answer == r && run.disk == disk
      && whole == SaveRun(goodFiles[i..], namer, dir, passes, run)
    }

    /** One turn of the loop of `SaveAllFiles`. */
    method SaveTurn(i: nat, dir: Option<string>, namer: Option<Upload -> string>, disk: FileUploads.Disk,
                    ghost run: Run, ghost whole: Run, ghost passes: UploadedFile -> bool, ghost before: seq<Fields>)
      returns (saved: Result<bool, string>, disk': FileUploads.Disk, ghost next: Run)
      requires i < |goodFiles| && run.answer.Success?
      requires EachSoFar(i, run.answer, disk, run, whole, namer, dir, passes, before)
      modifies this`uploadDir, goodFiles[i]
      ensures EachSoFar(i + 1, saved, disk', next, whole, namer, dir, passes, before)
    {
      SaveRunStep(goodFiles, namer, dir, passes, run, i);
      next := Next(goodFiles[i], namer, dir, passes, run);
      saved, disk' := SaveNext(i, dir, namer, disk, run, before);
    }

    /** The loop of `SaveAllFiles`: saves the good files in order until
        one throws, keeping the record of `SavedSoFar` up to the run
        `whole` that `SaveRun` says it makes. */
    method SaveEach(dir: Option<string>, namer: Option<Upload -> string>, disk: FileUploads.Disk,
                    ghost whole: Run, ghost before: seq<Fields>)
      returns (r: Result<bool, string>, disk': FileUploads.Disk)
      requires Valid() && FileUploads.Distinct(goodFiles)
      requires SavedSoFar(0, Run(Success(true), disk, uploadDir, []), before)
      requires whole == SaveRun(goodFiles, namer, dir, Verdict(criteria.State()), Run(Success(true), disk, uploadDir, []))
      modifies this`uploadDir, goodFiles
      ensures Valid() && SavedSoFar(|whole.outcomes|, whole, before)
      ensures r == whole.answer && disk' == whole.disk
    {
      ghost var passes := Verdict(criteria.State());
      ghost var run := Run(Success(true), disk, uploadDir, []);
      disk', r := disk, Success(true);
      var i := 0;
      assert goodFiles[0..] == goodFiles;
      while i < |goodFiles| && r.Success?
        invariant i <= |goodFiles| && EachSoFar(i, r, disk', run, whole, namer, dir, passes, before)
      {
        r, disk', run := SaveTurn(i, dir, namer, disk', run, whole, passes, before);
        i := i + 1;
      }
      assert whole == run by {
        if r.Success? {
          assert goodFiles[i..] == [];
        }
      }
    }

    /** Saves every good file in order and answers as `SaveRun` says: the
        result of the last save only, or the exception that ended it, the
        earlier files saved. A file moved by its attempt records its name
        and directory; the others are left as they were. */
    method SaveAllFiles(dir: Option<string>, namer: Option<Upload -> string>, disk: FileUploads.Disk)
      returns (r: Result<bool, string>, disk': FileUploads.Disk)
      requires Valid()
      modifies this`uploadDir, goodFiles
      ensures Valid()
      ensures var run := SaveRun(goodFiles, namer, dir, Verdict(criteria.State()), Run(Success(true), disk, old(uploadDir), []));
        r == run.answer && disk' == run.disk && uploadDir == run.current
        && Recorded(Snapshot(goodFiles), |run.outcomes|, run, old(Snapshot(goodFiles)))
    {
      assert FileUploads.Distinct(goodFiles) by {
        forall i, j | 0 <= i < j < |goodFiles|
          ensures goodFiles[i] != goodFiles[j]
        {
          GradedDistinct(files, true, i, j);
        }
      }
      ghost var whole := SaveRun(goodFiles, namer, dir, Verdict(criteria.State()), Run(Success(true), disk, uploadDir, []));
      ghost var before := Snapshot(goodFiles);
      r, disk' := SaveEach(dir, namer, disk, whole, before);
    }

    /** The sum of the sizes of the listed files. */
    method GetTotalSize(omitBad: bool) returns (size: int)
      ensures size == TotalSize(Listed(omitBad))
    {
      var fs := if omitBad then goodFiles else files;
      size := 0;
      var i := 0;
      while i < |fs|
        invariant 0 <= i <= |fs|
        invariant size == TotalSize(fs[..i])
      {
        assert fs[..i + 1] == fs[..i] + [fs[i]];
        TotalSizeAppend(fs[..i], fs[i]);
        size := size + fs[i].upload.size;
        i := i + 1;
      }
      assert fs[..i] == fs;
    }
  }

  /** The files `fs` are those before and then one per upload, in order,
      each holding what PHP reported and good exactly when PHP still holds
      its temporary file and reported no error. */
  predicate Appended(fs: seq<UploadedFile>, before: seq<UploadedFile>, input: seq<Upload>, disk: FileUploads.Disk) {
    |fs| == |before| + |input| && fs[..|before|] == before
    && forall i :: 0 <= i < |input| ==>
         fs[|before| + i].upload == input[i]
         && (fs[|before| + i].isGood <==> input[i].tmpName in disk.pending && input[i].error == 0)
  }

  /** Reading one more upload appends its file. */
  lemma AppendedStep(fs: seq<UploadedFile>, before: seq<UploadedFile>, input: seq<Upload>,
                     disk: FileUploads.Disk, f: UploadedFile, u: Upload)
    requires Appended(fs, before, input, disk)
    requires f.upload == u && (f.isGood <==> u.tmpName in disk.pending && u.error == 0)
    ensures Appended(fs + [f], before, input + [u], disk)
  {
    assert (fs + [f])[..|before|] == fs[..|before|];
    assert forall j :: 0 <= j < |fs| ==> (fs + [f])[j] == fs[j];
  }

  /** The good (or bad) files of a list of distinct files are distinct. */
  lemma {:induction false} GradedDistinct(fs: seq<UploadedFile>, good: bool, i: int, j: int)
    requires FileUploads.Distinct(fs) && 0 <= i < j < |Graded(fs, good)|
    ensures Graded(fs, good)[i] != Graded(fs, good)[j]
  {
    var init := fs[..|fs| - 1];
    var last := fs[|fs| - 1];
    if j < |Graded(init, good)| {
      GradedDistinct(init, good, i, j);
    } else {
      assert Graded(fs, good)[j] == last;
      assert Graded(fs, good)[i] in Graded(init, good);
      assert last !in init;
    }
  }
}
