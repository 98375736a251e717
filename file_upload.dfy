/** The upload orchestrator: it reads the uploaded files from PHP's
    `$_FILES`, holds the rules they are checked against, and drives each
    file to a terminal outcome when it is saved. */
module FileUploads {
  import opened Wrappers
  import opened Php
  import opened Files
  import opened Constraints
  import opened UploadErrors

  /** The filesystem as an upload sees it: the paths that exist, those that
      are directories, those that are writable, and the temporary names of
      the uploads PHP still holds (the ones `move_uploaded_file` accepts). */
  datatype Disk = Disk(existing: set<string>, directories: set<string>,
                       writable: set<string>, pending: set<string>)

  const DirectoryMissing := "The given upload directory does not exist"
  const DirectoryNotADirectory := "The given upload directory is not a directory"
  const DirectoryNotWritable := "The given upload directory is not writable"

  /** The path separator a saved file's path is joined with. */
  const Separator := "/"

  /** Checks, in this order, that a directory exists, is a directory and is
      writable; a failure carries the message of the first test that fails. */
  function CheckUploadDirectory(disk: Disk, dir: string): (r: Result<(), string>)
    ensures r.Success? <==> dir in disk.existing && dir in disk.directories && dir in disk.writable
    ensures r == Failure(DirectoryMissing) <==> dir !in disk.existing
    ensures r == Failure(DirectoryNotADirectory) <==> dir in disk.existing && dir !in disk.directories
    ensures r == Failure(DirectoryNotWritable) <==>
      dir in disk.existing && dir in disk.directories && dir !in disk.writable
  {
    if dir !in disk.existing then Failure(DirectoryMissing)
    else if dir !in disk.directories then Failure(DirectoryNotADirectory)
    else if dir !in disk.writable then Failure(DirectoryNotWritable)
    else Success(())
  }

  /** Whether `move_uploaded_file` succeeds: the temporary name is an upload
      PHP still holds and the target directory is a writable directory. */
  predicate CanMove(disk: Disk, tmp: string, dir: string) {
    tmp in disk.pending && dir in disk.directories && dir in disk.writable
  }

  /** The filesystem after an upload has been moved to `dest`. */
  function AfterMove(disk: Disk, tmp: string, dest: string): (d: Disk)
    ensures tmp !in d.pending && dest in d.existing
    ensures d.directories == disk.directories && d.writable == disk.writable
  {
    disk.(pending := disk.pending - {tmp}, existing := disk.existing + {dest})
  }

  /** An upload that has been moved once cannot be moved again. */
  lemma MovedOnce(disk: Disk, tmp: string, dest: string, dir: string)
    ensures !CanMove(AfterMove(disk, tmp, dest), tmp, dir)
  {
  }

  /** How saving one file ends. */
  datatype Outcome =
    | TransportFailed
    | DirectoryRejected(message: string)
    | ConstraintFailed(index: nat)
    | MoveFailed
    | Moved(path: string)

  /** How saving a file that passed the error and directory checks ends,
      given the first rule that does not hold for it, if any: at that rule,
      or with the move of the upload to `target` under the file's name. */
  function Finish(tmp: string, name: string, target: string, disk: Disk, broken: Option<nat>): (o: Outcome)
    ensures o.ConstraintFailed? <==> broken.Some?
    ensures o.ConstraintFailed? ==> o.index == broken.value
    ensures o.Moved? <==> broken.None? && CanMove(disk, tmp, target)
    ensures o.Moved? ==> o.path == target + Separator + name
    ensures !o.TransportFailed? && !o.DirectoryRejected?
  {
    match broken
    case Some(i) => ConstraintFailed(i)
    case None => if CanMove(disk, tmp, target) then Moved(target + Separator + name) else MoveFailed
  }

  /** The same, from the verdicts of the rules on the file. */
  function Settle(tmp: string, name: string, target: string, disk: Disk, verdicts: seq<bool>): (o: Outcome)
    ensures o.ConstraintFailed? <==> FirstFailing(verdicts).Some?
    ensures o.ConstraintFailed? ==> FirstFailing(verdicts) == Some(o.index)
    ensures o.Moved? <==> (forall i :: 0 <= i < |verdicts| ==> verdicts[i]) && CanMove(disk, tmp, target)
    ensures o.Moved? ==> o.path == target + Separator + name
    ensures !o.TransportFailed? && !o.DirectoryRejected?
  {
    Finish(tmp, name, target, disk, FirstFailing(verdicts))
  }

  /** The outcome of saving a file with the given error code, temporary name
      and name, into the given directory (or the default one), on the given
      filesystem, under rules whose verdicts on the file are `verdicts`. */
  function Decide(code: Option<ErrorCode>, tmp: string, name: string, dir: Option<string>,
                  defaultDir: string, disk: Disk, verdicts: seq<bool>): (o: Outcome)
    ensures o.TransportFailed? <==> code != Some(Ok)
    ensures o.DirectoryRejected? <==>
      code == Some(Ok) && dir.Some? && CheckUploadDirectory(disk, dir.value).Failure?
    ensures o.DirectoryRejected? ==> o.message == CheckUploadDirectory(disk, dir.value).error
    ensures o.ConstraintFailed? <==>
      code == Some(Ok) && (dir.None? || CheckUploadDirectory(disk, dir.value).Success?)
      && FirstFailing(verdicts).Some?
    ensures o.ConstraintFailed? ==> FirstFailing(verdicts) == Some(o.index)
    ensures o.Moved? <==>
      code == Some(Ok) && (dir.None? || CheckUploadDirectory(disk, dir.value).Success?)
      && (forall i :: 0 <= i < |verdicts| ==> verdicts[i]) && CanMove(disk, tmp, dir.GetOr(defaultDir))
    ensures o.Moved? ==> o.path == dir.GetOr(defaultDir) + Separator + name
  {
    if code != Some(Ok) then TransportFailed
    else if dir.Some? && CheckUploadDirectory(disk, dir.value).Failure? then
      DirectoryRejected(CheckUploadDirectory(disk, dir.value).error)
    else Settle(tmp, name, dir.GetOr(defaultDir), disk, verdicts)
  }

  /** Two verdict lists that agree up to a failing verdict have the same
      first failure. */
  lemma FirstFailingAgrees(v: seq<bool>, w: seq<bool>, i: int)
    requires 0 <= i < |v| && i < |w| && v[..i + 1] == w[..i + 1] && !v[i]
    ensures FirstFailing(v) == FirstFailing(w)
  {
    assert forall j :: 0 <= j <= i ==> v[j] == v[..i + 1][j] == w[..i + 1][j] == w[j];
    var a := FirstFailing(v);
    var b := FirstFailing(w);
    assert a.Some? && a.value <= i;
    assert b.Some? && b.value <= i;
  }

  /** Rules after the first failing one are never consulted: their verdicts
      do not change the outcome. */
  lemma StopsAtFirstFailingRule(code: Option<ErrorCode>, tmp: string, name: string, dir: Option<string>,
                                defaultDir: string, disk: Disk, v: seq<bool>, w: seq<bool>, i: int)
    requires 0 <= i < |v| && i < |w| && v[..i + 1] == w[..i + 1] && !v[i]
    ensures Decide(code, tmp, name, dir, defaultDir, disk, v) == Decide(code, tmp, name, dir, defaultDir, disk, w)
  {
    FirstFailingAgrees(v, w, i);
  }

  /** The message of a failed move. */
  function MoveMessage(name: string): string {
    "Could not move file \"" + name + "\" to new location"
  }

  /** The error an outcome other than a move reports for a file with the
      given error message and name, under the given rules. */
  ghost predicate Reports(e: UploadError, o: Outcome, file: File, errorMessage: string, name: string,
                          cs: seq<Constraint>)
    reads e
  {
    e.file == file &&
    match o
    case TransportFailed =>
      e.kind == PhpUpload && e.messages == InitialMessages(Text(errorMessage)) && e.constraint == None
    case DirectoryRejected(m) =>
      e.kind == Filesystem && e.messages == InitialMessages(Text(m)) && e.constraint == None
    case ConstraintFailed(i) =>
      e.kind == ConstraintViolation && e.messages == [] && i < |cs| && e.constraint == Some(cs[i])
    case MoveFailed =>
      e.kind == Filesystem && e.messages == [MoveMessage(name)] && e.constraint == None
    case Moved(_) => false
  }

  /** One file's entry in `$_FILES`. */
  datatype Metadata = Metadata(name: string, tmpName: string, mimeType: string, size: Scalar, error: int)

  /** A field of `$_FILES`: one file, or several when each key holds a list. */
  datatype Field = Single(item: Metadata) | Multi(items: seq<Metadata>)

  /** Whether a File accepts an entry: a numeric size and a known error code. */
  predicate Acceptable(m: Metadata) {
    IntegralValue(m.size).Some? && FromCode(m.error).Some?
  }

  /** The refusal of an entry: its size is checked before its error code. */
  function Refusal(m: Metadata): string {
    if IntegralValue(m.size).None? then "The given size is not a number"
    else "The error code \"" + SignedDecimal(m.error) + "\" is not valid"
  }

  /** A File freshly filled from an entry of a field. */
  ghost predicate Carries(f: File, m: Metadata, field: string)
    reads f
  {
    f.originalName == m.name && f.temporaryName == m.tmpName && f.fieldName == field
    && f.mimeType == m.mimeType && IntegralValue(m.size) == Some(f.size) && f.errorCode == FromCode(m.error)
    && f.name == "" && !f.isUploaded && f.filePath == None
  }

  /** A new File for one entry, or the refusal of its size or error code. */
  method NewFile(field: string, m: Metadata) returns (r: Result<File, string>)
    ensures r.Success? <==> Acceptable(m)
    ensures r.Success? ==> fresh(r.value) && Carries(r.value, m, field)
    ensures r.Failure? ==> r.error == Refusal(m)
  {
    var f := new File();
    f.SetOriginalName(m.name);
    f.SetTemporaryName(m.tmpName);
    f.SetFieldName(field);
    f.SetMimeType(m.mimeType);
    var s := f.SetSize(m.size);
    if s.Failure? {
      return Failure(s.error);
    }
    var e := f.SetErrorCode(m.error);
    if e.Failure? {
      return Failure(e.error);
    }
    r := Success(f);
  }

  /** The position of the first field holding several files. */
  function FirstMulti(input: seq<(string, Field)>): (r: Option<nat>)
    ensures r.Some? ==> r.value < |input| && input[r.value].1.Multi?
    ensures r.Some? ==> forall j :: 0 <= j < r.value ==> input[j].1.Single?
    ensures r.None? ==> forall j :: 0 <= j < |input| ==> input[j].1.Single?
  {
    if input == [] then None
    else if input[0].1.Multi? then Some(0)
    else match FirstMulti(input[1..])
      case None => None
      case Some(k) => Some(k + 1)
  }

  /** Whether reading `$_FILES` succeeds: every single entry before the
      first multi-file field, and every entry of that field, is acceptable. */
  predicate Parses(input: seq<(string, Field)>) {
    match FirstMulti(input)
    case None => forall i :: 0 <= i < |input| ==> Acceptable(input[i].1.item)
    case Some(k) =>
      (forall i :: 0 <= i < k ==> Acceptable(input[i].1.item))
      && forall j :: 0 <= j < |input[k].1.items| ==> Acceptable(input[k].1.items[j])
  }

  /** The key of the `j`-th file of a multi-file field. */
  function MultiKey(field: string, j: nat): string {
    field + Decimal(j)
  }

  /** Different files of a multi-file field get different keys. */
  lemma MultiKeysDistinct(field: string, i: nat, j: nat)
    requires i != j
    ensures MultiKey(field, i) != MultiKey(field, j)
  {
    if MultiKey(field, i) == MultiKey(field, j) {
      assert Decimal(i) == MultiKey(field, i)[|field|..];
      assert Decimal(j) == MultiKey(field, j)[|field|..];
      DecimalInjective(i, j);
    }
  }

  predicate Distinct<T(==)>(s: seq<T>) {
    forall i, j :: 0 <= i < j < |s| ==> s[i] != s[j]
  }

  /** The position of an element in a list, if it is there. */
  function IndexOf<T(==)>(s: seq<T>, x: T): (r: Option<nat>)
    ensures r.Some? ==> r.value < |s| && s[r.value] == x
    ensures r.None? <==> x !in s
  {
    if s == [] then None
    else if s[0] == x then Some(0)
    else match IndexOf(s[1..], x)
      case None => None
      case Some(k) => Some(k + 1)
  }

  /** What a save callback sees of a file. */
  datatype View = View(originalName: string, temporaryName: string, fieldName: string,
                       mimeType: string, size: int, errorCode: Option<ErrorCode>)

  function ViewOf(f: File): View
    reads f
  {
    View(f.originalName, f.temporaryName, f.fieldName, f.mimeType, f.size, f.errorCode)
  }

  /** What a save callback does with a file: it may rename it, and it may
      name the directory to save it in. */
  datatype Callback = Callback(rename: View -> Option<string>, directory: View -> Option<string>)

  /** The name a file is saved under: with no callback its temporary name;
      with one, the name it has after the callback unless that is empty. */
  function ChosenName(cb: Option<Callback>, name: string, v: View): (n: string)
    ensures cb.None? ==> n == v.temporaryName
    ensures n == v.temporaryName || (n != "" && cb.Some? && n == cb.value.rename(v).GetOr(name))
  {
    match cb
    case None => v.temporaryName
    case Some(c) =>
      var n := c.rename(v).GetOr(name);
      if n == "" then v.temporaryName else n
  }

  /** The directory a file is saved in: the callback's answer when it gives
      one, otherwise the default. */
  function ChosenDirectory(cb: Option<Callback>, v: View, defaultDir: string): (d: string)
    ensures cb.None? ==> d == defaultDir
    ensures d == defaultDir || (cb.Some? && cb.value.directory(v) == Some(d))
  {
    match cb
    case None => defaultDir
    case Some(c) => c.directory(v).GetOr(defaultDir)
  }

  /** The files of a list whose uploaded flag is `wanted`, in order. */
  function Filter(fs: seq<File>, wanted: bool): (r: seq<File>)
    reads fs
    ensures |r| <= |fs|
    ensures forall k :: 0 <= k < |r| ==> r[k] in fs && r[k].isUploaded == wanted
    ensures forall f :: f in fs && f.isUploaded == wanted ==> f in r
  {
    if fs == [] then []
    else
      var init := fs[..|fs| - 1];
      var last := fs[|fs| - 1];
      assert forall f :: f in fs ==> f in init || f == last;
      var rest := Filter(init, wanted);
      if last.isUploaded == wanted then rest + [last] else rest
  }

  /** What saving reads or changes of a file: what it shows the callback,
      its name, whether it was uploaded and the path it was saved at. */
  datatype Record = Record(view: View, name: string, isUploaded: bool, filePath: Option<string>)

  function RecordOf(f: File): Record
    reads f
  {
    Record(ViewOf(f), f.name, f.isUploaded, f.filePath)
  }

  /** The records of a list of files, in order. */
  function Records(fs: seq<File>): (r: seq<Record>)
    reads fs
    ensures |r| == |fs|
    ensures forall k :: 0 <= k < |fs| ==> r[k] == RecordOf(fs[k])
  {
    if fs == [] then [] else Records(fs[..|fs| - 1]) + [RecordOf(fs[|fs| - 1])]
  }

  /** The uploaded and the not-uploaded files together are the files,
      each once. */
  lemma {:induction false} Partition(fs: seq<File>)
    ensures multiset(Filter(fs, true)) + multiset(Filter(fs, false)) == multiset(fs)
  {
    if fs != [] {
      var init := fs[..|fs| - 1];
      Partition(init);
      assert fs == init + [fs[|fs| - 1]];
    }
  }

  lemma TotalSizeAppend(fs: seq<File>, f: File)
    ensures TotalSize(fs + [f]) == TotalSize(fs) + f.size
  {
    assert (fs + [f])[..|fs|] == fs;
  }

  /** The sizes of the uploaded and of the not-uploaded files add up to the
      total. */
  lemma {:induction false} PartitionSize(fs: seq<File>)
    ensures TotalSize(Filter(fs, true)) + TotalSize(Filter(fs, false)) == TotalSize(fs)
  {
    if fs != [] {
      var init := fs[..|fs| - 1];
      var last := fs[|fs| - 1];
      PartitionSize(init);
      TotalSizeAppend(Filter(init, last.isUploaded), last);
    }
  }

  /** The sum of the sizes of a list of files. */
  function TotalSize(fs: seq<File>): int
    reads fs
  {
    if fs == [] then 0 else TotalSize(fs[..|fs| - 1]) + fs[|fs| - 1].size
  }

  /** The total of one file of 1024 bytes is 1024. */
  lemma TotalOfOneFile(f: File)
    requires f.size == 1024
    ensures TotalSize([f]) == 1024
  {
    assert [f][..0] == [];
  }

  const MultiUploadMessage := "This is a multi file upload. Files cannot be distinguished by their field name."

  function UnknownAliasMessage(alias: string): string {
    "The constraint type \"" + alias + "\" does not exist"
  }

  /** The entries `setConstraints` gets through: all of them, or those
      before the first unknown alias. */
  function Processed(es: seq<Entry>): (r: seq<Entry>)
    ensures r <= es
  {
    match FirstUnknown(es)
    case None => es
    case Some(k) => es[..k]
  }

  /** Whether every verdict is true. */
  predicate AllHold(verdicts: seq<bool>) {
    forall j :: 0 <= j < |verdicts| ==> verdicts[j]
  }

  /** Every rule of a list holds for a file exactly when rules with their
      fields all do. */
  lemma PassesByState(cs: seq<Constraint>, size: int, mime: string)
    ensures AllHold(Verdicts(cs, size, mime)) == AllAdmit(States(cs), size, mime)
  {
    forall j | 0 <= j < |cs|
      ensures Verdicts(cs, size, mime)[j] == StateAdmits(States(cs)[j], size, mime)
    {
      AdmitsByState(cs[j], size, mime);
    }
  }

  /** The message `getErrorMessage` gives for an error code; "" when no
      code is set. */
  function CodeMessage(code: Option<ErrorCode>): string {
    match code
    case Some(e) => Message(e)
    case None => ""
  }

  /** The outcome of saving a file whose record before saving was `was`:
      it is named as `ChosenName` says and saved in the directory
      `ChosenDirectory` names, which is checked like any directory handed
      to `saveFile`, under rules with the fields `rules`. */
  function OutcomeOf(was: Record, cb: Option<Callback>, dir: string, rules: seq<RuleState>, disk: Disk): Outcome {
    Decide(was.view.errorCode, was.view.temporaryName, ChosenName(cb, was.name, was.view),
           Some(ChosenDirectory(cb, was.view, dir)), dir, disk,
           StateVerdicts(rules, was.view.size, was.view.mimeType))
  }

  /** The record of a file after its save ended with `o`: it has the name
      chosen for it, it is uploaded exactly when it moved, and then it has
      the path it moved to. */
  function RecordAfter(was: Record, cb: Option<Callback>, o: Outcome): Record {
    Record(was.view, ChosenName(cb, was.name, was.view), o.Moved?, if o.Moved? then Some(o.path) else was.filePath)
  }

  /** The filesystem after a save of the upload `tmp` ended with `o`. */
  function DiskAfter(disk: Disk, tmp: string, o: Outcome): Disk {
    if o.Moved? then AfterMove(disk, tmp, o.path) else disk
  }

  /** How far saving a list of files has got: whether every file so far
      was saved, the filesystem now, and for each file in order its outcome
      and the filesystem it met. */
  datatype Run = Run(ok: bool, disk: Disk, outcomes: seq<Outcome>, met: seq<Disk>)

  /** Saving the files whose records before saving were `initial`, in
      order, starting on `disk`: each file meets the filesystem the one
      before left, and the answer is whether every file was saved. */
  function SaveRun(initial: seq<Record>, cb: Option<Callback>, dir: string, rules: seq<RuleState>,
                   disk: Disk): (run: Run)
    ensures |run.outcomes| == |run.met| == |initial|
    decreases |initial|
  {
    if initial == [] then Run(true, disk, [], [])
    else
      var n := |initial| - 1;
      var prev := SaveRun(initial[..n], cb, dir, rules, disk);
      var o := OutcomeOf(initial[n], cb, dir, rules, prev.disk);
      Run(prev.ok && o.Moved?, DiskAfter(prev.disk, initial[n].view.temporaryName, o),
          prev.outcomes + [o], prev.met + [prev.disk])
  }

  /** In a run each file has the outcome `OutcomeOf` gives on the
      filesystem it met, and the answer is whether every file moved. */
  lemma {:induction false} SaveRunOutcomes(initial: seq<Record>, cb: Option<Callback>, dir: string,
                                           rules: seq<RuleState>, disk: Disk)
    ensures var run := SaveRun(initial, cb, dir, rules, disk);
      && (forall j :: 0 <= j < |initial| ==> run.outcomes[j] == OutcomeOf(initial[j], cb, dir, rules, run.met[j]))
      && (run.ok <==> forall j :: 0 <= j < |initial| ==> run.outcomes[j].Moved?)
  {
    if initial != [] {
      var n := |initial| - 1;
      var prev := SaveRun(initial[..n], cb, dir, rules, disk);
      SaveRunOutcomes(initial[..n], cb, dir, rules, disk);
      var run := SaveRun(initial, cb, dir, rules, disk);
      var o := OutcomeOf(initial[n], cb, dir, rules, prev.disk);
      assert run.outcomes == prev.outcomes + [o] && run.met == prev.met + [prev.disk];
      forall j | 0 <= j < |initial|
        ensures run.outcomes[j] == OutcomeOf(initial[j], cb, dir, rules, run.met[j])
      {
        if j < n {
          assert initial[..n][j] == initial[j] && run.outcomes[j] == prev.outcomes[j] && run.met[j] == prev.met[j];
        } else {
          assert run.outcomes[j] == o && run.met[j] == prev.disk;
        }
      }
      assert (forall j :: 0 <= j < |initial| ==> run.outcomes[j].Moved?) <==>
        (forall j :: 0 <= j < n ==> prev.outcomes[j].Moved?) && run.outcomes[n].Moved?;
    }
  }

  /** The first file of a run meets the filesystem the run started on,
      each later one the filesystem the one before left, and the run ends
      on the filesystem the last one left. */
  lemma {:induction false} SaveRunThreads(initial: seq<Record>, cb: Option<Callback>, dir: string,
                                          rules: seq<RuleState>, disk: Disk)
    ensures var run := SaveRun(initial, cb, dir, rules, disk);
      && (initial != [] ==> run.met[0] == disk)
      && (forall j :: 0 <= j < |initial| - 1 ==>
            run.met[j + 1] == DiskAfter(run.met[j], initial[j].view.temporaryName, run.outcomes[j]))
      && run.disk == if initial == [] then disk
           else DiskAfter(run.met[|initial| - 1], initial[|initial| - 1].view.temporaryName,
                          run.outcomes[|initial| - 1])
  {
    if initial != [] {
      var n := |initial| - 1;
      var prev := SaveRun(initial[..n], cb, dir, rules, disk);
      SaveRunThreads(initial[..n], cb, dir, rules, disk);
      var run := SaveRun(initial, cb, dir, rules, disk);
      forall j | 0 <= j < n
        ensures run.met[j + 1] == DiskAfter(run.met[j], initial[j].view.temporaryName, run.outcomes[j])
      {
        assert initial[..n][j] == initial[j] && run.outcomes[j] == prev.outcomes[j] && run.met[j] == prev.met[j];
        if j + 1 < n {
          assert run.met[j + 1] == prev.met[j + 1];
        }
      }
    }
  }

  /** Saving one more file adds its outcome on the filesystem the files
      before it left. */
  lemma SaveRunStep(initial: seq<Record>, cb: Option<Callback>, dir: string, rules: seq<RuleState>,
                    disk: Disk, i: int)
    requires 0 <= i < |initial|
    ensures var run := SaveRun(initial[..i], cb, dir, rules, disk);
      var o := OutcomeOf(initial[i], cb, dir, rules, run.disk);
      SaveRun(initial[..i + 1], cb, dir, rules, disk)
        == Run(run.ok && o.Moved?, DiskAfter(run.disk, initial[i].view.temporaryName, o),
               run.outcomes + [o], run.met + [run.disk])
  {
    assert initial[..i + 1][..i] == initial[..i];
  }

  /** A file is saved only when PHP reported no error for it and every rule
      holds for it; it then lies under its chosen name in its chosen
      directory, which passed the check. */
  lemma SavedPassed(initial: seq<Record>, cb: Option<Callback>, dir: string, rules: seq<RuleState>,
                    disk: Disk, j: int)
    requires 0 <= j < |initial|
    ensures var run := SaveRun(initial, cb, dir, rules, disk);
      var v := initial[j].view;
      var target := ChosenDirectory(cb, v, dir);
      run.outcomes[j].Moved? ==>
        v.errorCode == Some(Ok) && AllAdmit(rules, v.size, v.mimeType)
        && CheckUploadDirectory(run.met[j], target).Success?
        && run.outcomes[j].path == target + Separator + ChosenName(cb, initial[j].name, v)
  {
    var run := SaveRun(initial, cb, dir, rules, disk);
    var v := initial[j].view;
    var verdicts := StateVerdicts(rules, v.size, v.mimeType);
    SaveRunOutcomes(initial, cb, dir, rules, disk);
    if run.outcomes[j].Moved? {
      assert forall k :: 0 <= k < |rules| ==> verdicts[k];
    }
  }

  /** Saving consumes uploads and creates files and nothing else: the
      directories and their permissions stay, and every saved file exists
      at its path at the end, its upload consumed. */
  lemma {:induction false} SaveRunDisk(initial: seq<Record>, cb: Option<Callback>, dir: string,
                                       rules: seq<RuleState>, disk: Disk)
    ensures var run := SaveRun(initial, cb, dir, rules, disk);
      && run.disk.directories == disk.directories && run.disk.writable == disk.writable
      && run.disk.pending <= disk.pending && disk.existing <= run.disk.existing
      && forall j :: 0 <= j < |initial| && run.outcomes[j].Moved? ==>
           run.outcomes[j].path in run.disk.existing && initial[j].view.temporaryName !in run.disk.pending
  {
    if initial != [] {
      var n := |initial| - 1;
      var prev := SaveRun(initial[..n], cb, dir, rules, disk);
      SaveRunDisk(initial[..n], cb, dir, rules, disk);
      var run := SaveRun(initial, cb, dir, rules, disk);
      assert run.outcomes == prev.outcomes + [run.outcomes[n]];
      assert run.disk == DiskAfter(prev.disk, initial[n].view.temporaryName, run.outcomes[n]);
      assert run.disk.pending <= prev.disk.pending && prev.disk.existing <= run.disk.existing;
      forall j | 0 <= j < n && run.outcomes[j].Moved?
        ensures run.outcomes[j].path in run.disk.existing && initial[j].view.temporaryName !in run.disk.pending
      {
        assert prev.outcomes[j] == run.outcomes[j] && initial[..n][j] == initial[j];
      }
    }
  }

  /** No upload is moved twice: two files that were both saved had
      different uploads. */
  lemma {:induction false} SaveRunMovesOnce(initial: seq<Record>, cb: Option<Callback>, dir: string,
                                            rules: seq<RuleState>, disk: Disk)
    ensures var run := SaveRun(initial, cb, dir, rules, disk);
      forall j, k :: 0 <= j < k < |initial| && run.outcomes[j].Moved? && run.outcomes[k].Moved? ==>
        initial[j].view.temporaryName != initial[k].view.temporaryName
  {
    if initial != [] {
      var n := |initial| - 1;
      var prev := SaveRun(initial[..n], cb, dir, rules, disk);
      SaveRunMovesOnce(initial[..n], cb, dir, rules, disk);
      SaveRunDisk(initial[..n], cb, dir, rules, disk);
      var run := SaveRun(initial, cb, dir, rules, disk);
      assert run.outcomes == prev.outcomes + [run.outcomes[n]];
      forall j, k | 0 <= j < k < |initial| && run.outcomes[j].Moved? && run.outcomes[k].Moved?
        ensures initial[j].view.temporaryName != initial[k].view.temporaryName
      {
        assert prev.outcomes[j] == run.outcomes[j] && initial[..n][j] == initial[j];
        if k == n {
          assert run.met[n] == prev.disk;
          assert initial[k].view.temporaryName in prev.disk.pending;
        } else {
          assert prev.outcomes[k] == run.outcomes[k] && initial[..n][k] == initial[k];
        }
      }
    }
  }

  /** Files and file uploads are never among the objects rules keep their
      state in. */
  lemma Apart(f: File?, u: FileUpload, cs: seq<Constraint>)
    ensures f !in Objects(cs) && u !in Objects(cs)
  {
    forall k | 0 <= k < |cs|
      ensures ObjectOf(cs[k]) != f && ObjectOf(cs[k]) != u
    {
    }
  }

  /** The files a list of reports is about, in order. */
  function ReportedFiles(es: seq<UploadError>): (r: seq<File?>)
    reads es
  {
    if es == [] then [] else ReportedFiles(es[..|es| - 1]) + [es[|es| - 1].file]
  }

  /** The records `now` of files whose records before saving were
      `initial` are those the outcomes of the first `|outcomes|` files left,
      and the others are as they were. */
  predicate Reached(now: seq<Record>, initial: seq<Record>, cb: Option<Callback>, outcomes: seq<Outcome>) {
    |now| == |initial| && |outcomes| <= |initial|
    && forall j :: 0 <= j < |now| ==>
         now[j] == if j < |outcomes| then RecordAfter(initial[j], cb, outcomes[j]) else initial[j]
  }

  /** `news` are the reports saving the files `fs`, whose records before
      saving were `initial`, added when their outcomes were `outcomes`:
      one for each file not moved, in order, about that file and of the
      kind its outcome calls for, and none for a moved file. */
  ghost predicate ReportsRun(news: seq<UploadError>, fs: seq<File>, initial: seq<Record>, cb: Option<Callback>,
                             outcomes: seq<Outcome>, cs: seq<Constraint>)
    reads news
    decreases |outcomes|
  {
    if outcomes == [] then news == []
    else
      var n := |outcomes| - 1;
      n < |fs| && n < |initial| &&
      if outcomes[n].Moved? then ReportsRun(news, fs, initial, cb, outcomes[..n], cs)
      else
        var was := initial[n];
        news != [] && ReportsRun(news[..|news| - 1], fs, initial, cb, outcomes[..n], cs)
        && Reports(news[|news| - 1], outcomes[n], fs[n], CodeMessage(was.view.errorCode),
                   ChosenName(cb, was.name, was.view), cs)
  }

  /** One more file, with outcome `o`, changes the record of that file
      only. */
  lemma ReachedStep(now: seq<Record>, initial: seq<Record>, cb: Option<Callback>, outcomes: seq<Outcome>, o: Outcome)
    requires Reached(now, initial, cb, outcomes) && |outcomes| < |initial|
    ensures Reached(now[|outcomes| := RecordAfter(initial[|outcomes|], cb, o)], initial, cb, outcomes + [o])
  {
    var i := |outcomes|;
    var now' := now[i := RecordAfter(initial[i], cb, o)];
    forall j | 0 <= j < |now'|
      ensures now'[j] == if j < i + 1 then RecordAfter(initial[j], cb, (outcomes + [o])[j]) else initial[j]
    {
      if j < i {
        assert (outcomes + [o])[j] == outcomes[j];
      }
    }
  }

  /** One more file, with outcome `o`, adds the report that outcome calls
      for, if any. */
  lemma ReportsRunStep(news: seq<UploadError>, fs: seq<File>, initial: seq<Record>, cb: Option<Callback>,
                       outcomes: seq<Outcome>, cs: seq<Constraint>, o: Outcome, after: seq<UploadError>)
    requires ReportsRun(news, fs, initial, cb, outcomes, cs) && |outcomes| < |fs| && |outcomes| < |initial|
    requires o.Moved? ==> after == news
    requires var was := initial[|outcomes|];
      !o.Moved? ==>
        |after| == |news| + 1 && after == news + [after[|news|]]
        && Reports(after[|news|], o, fs[|outcomes|], CodeMessage(was.view.errorCode),
                   ChosenName(cb, was.name, was.view), cs)
    ensures ReportsRun(after, fs, initial, cb, outcomes + [o], cs)
  {
    assert (outcomes + [o])[..|outcomes|] == outcomes;
    if !o.Moved? {
      assert after[..|after| - 1] == news;
    }
  }

  /** The part of a list after a prefix. */
  lemma After<T>(a: seq<T>, b: seq<T>)
    ensures (a + b)[|a|..] == b
  {
  }

  /** A list one longer than `a + b` that starts with it. */
  lemma Extended<T>(s: seq<T>, a: seq<T>, b: seq<T>)
    requires |s| == |a + b| + 1 && s[..|a + b|] == a + b
    ensures s == a + (b + [s[|s| - 1]])
  {
    assert s == s[..|a + b|] + [s[|s| - 1]];
  }

  /** The reports a save adds are about exactly the files left unsaved,
      in order. */
  lemma {:induction false} ReportsRunFiles(news: seq<UploadError>, fs: seq<File>, initial: seq<Record>,
                                           cb: Option<Callback>, outcomes: seq<Outcome>, cs: seq<Constraint>)
    requires ReportsRun(news, fs, initial, cb, outcomes, cs) && |outcomes| <= |fs|
    requires forall j :: 0 <= j < |outcomes| ==> fs[j].isUploaded == outcomes[j].Moved?
    ensures ReportedFiles(news) == Filter(fs[..|outcomes|], false)
  {
    if outcomes != [] {
      var n := |outcomes| - 1;
      assert fs[..n + 1][..n] == fs[..n];
      if outcomes[n].Moved? {
        ReportsRunFiles(news, fs, initial, cb, outcomes[..n], cs);
      } else {
        ReportsRunFiles(news[..|news| - 1], fs, initial, cb, outcomes[..n], cs);
      }
    }
  }

  /** The rule one entry adds, if any; an unknown alias is refused. */
  method Resolve(e: Entry) returns (r: Result<Option<Constraint>, string>)
    ensures r.Success? <==> Known(e)
    ensures r.Failure? ==> r.error == UnknownAliasMessage(e.alias)
    ensures r.Success? ==> (r.value.None? <==> e.Foreign?)
    ensures r.Success? && r.value.Some? ==> Describes(r.value.value, e)
    ensures r.Success? && r.value.Some? && e.Alias? ==> fresh(ObjectOf(r.value.value))
  {
    match e {
      case Foreign =>
        r := Success(None);
      case Instance(c) =>
        r := Success(Some(c));
      case Alias(a, options) =>
        var made := FromAlias(a, options);
        if made.Failure? {
          return Failure(made.error);
        }
        r := Success(Some(made.value));
    }
  }

  class FileUpload {
    var uploadDirectory: string
    /** The keys of the files: field names, or field name and position. */
    var keys: seq<string>
    var files: seq<File>
    var constraints: seq<Constraint>
    var isMultiFileUpload: bool
    /** Every failure reported while saving, oldest first: what the error
        callbacks are handed. */
    var errors: seq<UploadError>

    /** One file per distinct key, and no file twice. */
    ghost predicate Valid()
      reads this
    {
      |keys| == |files| && Distinct(keys) && Distinct(files)
    }

    constructor ()
      ensures Valid()
      ensures uploadDirectory == "" && files == [] && keys == [] && constraints == []
      ensures !isMultiFileUpload && errors == []
    {
      uploadDirectory := "";
      keys := [];
      files := [];
      constraints := [];
      isMultiFileUpload := false;
      errors := [];
    }

    /** The constructor as PHP runs it: the directory is checked, the rules
        are set and `$_FILES` is read, and the first refusal ends it. */
    static method Create(dir: string, entries: seq<Entry>, input: seq<(string, Field)>, disk: Disk)
      returns (r: Result<FileUpload, string>)
      requires forall i, j :: 0 <= i < j < |input| ==> input[i].0 != input[j].0
      ensures r.Success? <==>
        CheckUploadDirectory(disk, dir).Success? && FirstUnknown(entries).None? && Parses(input)
      ensures r.Success? ==> fresh(r.value) && r.value.Valid() && r.value.uploadDirectory == dir
      ensures r.Success? ==> AllDescribe(r.value.constraints, Kept(entries)) && r.value.errors == []
      ensures r.Success? ==> r.value.isMultiFileUpload == FirstMulti(input).Some?
      ensures r.Success? && FirstMulti(input).None? ==>
        |r.value.files| == |input| &&
        forall i :: 0 <= i < |input| ==>
          r.value.keys[i] == input[i].0 && fresh(r.value.files[i]) &&
          Carries(r.value.files[i], input[i].1.item, input[i].0)
      ensures r.Success? && FirstMulti(input).Some? ==>
        var (field, multi) := input[FirstMulti(input).value];
        |r.value.files| == |multi.items| &&
        forall j :: 0 <= j < |multi.items| ==>
          r.value.keys[j] == MultiKey(field, j) && fresh(r.value.files[j]) &&
          Carries(r.value.files[j], multi.items[j], field)
      ensures r.Failure? && CheckUploadDirectory(disk, dir).Failure? ==>
        r.error == CheckUploadDirectory(disk, dir).error
      ensures r.Failure? && CheckUploadDirectory(disk, dir).Success? && FirstUnknown(entries).Some? ==>
        r.error == UnknownAliasMessage(entries[FirstUnknown(entries).value].alias)
    {
      var up := new FileUpload();
      var d := up.SetUploadDirectory(dir, disk);
      if d.Failure? {
        return Failure(d.error);
      }
      var c := up.SetConstraints(entries);
      if c.Failure? {
        return Failure(c.error);
      }
      assert up.constraints[0..] == up.constraints;
      ghost var rules := up.constraints;
      assert AllDescribe(rules, Kept(entries));
      Apart(null, up, rules);
      ObjectsAllocated(rules);
      var p := up.ParseFilesArray(input);
      if p.Failure? {
        return Failure(p.error);
      }
      assert up.constraints == rules;
      r := Success(up);
    }

    /** Changes the default directory only when it passes the check. */
    method SetUploadDirectory(dir: string, disk: Disk) returns (r: Result<(), string>)
      modifies this`uploadDirectory
      ensures r == CheckUploadDirectory(disk, dir)
      ensures r.Success? ==> uploadDirectory == dir
      ensures r.Failure? ==> uploadDirectory == old(uploadDirectory)
    {
      r := CheckUploadDirectory(disk, dir);
      if r.Success? {
        uploadDirectory := dir;
      }
    }

    /** The file read from a field. A multi-file upload refuses: its files
        have no field names of their own. A field that was not sent has no
        file. */
    function GetFile(fieldName: string): (r: Result<Option<File>, string>)
      reads this
      requires Valid()
      ensures r.Failure? <==> isMultiFileUpload
      ensures r.Failure? ==> r.error == MultiUploadMessage
      ensures r.Success? ==> (r.value.Some? <==> fieldName in keys)
      ensures r.Success? && r.value.Some? ==>
        exists i :: 0 <= i < |keys| && keys[i] == fieldName && files[i] == r.value.value
    {
      if isMultiFileUpload then Failure(MultiUploadMessage)
      else match IndexOf(keys, fieldName)
        case None => Success(None)
        case Some(i) => Success(Some(files[i]))
    }

    /** Adds a rule per entry, in order: a rule object as it is, an alias as
        a fresh rule of its kind parsed from its expression; an object that
        is not a rule is skipped. An unknown alias ends it with a refusal,
        keeping the rules added before it. */
    method SetConstraints(entries: seq<Entry>) returns (r: Result<(), string>)
      modifies this`constraints
      ensures r.Success? <==> FirstUnknown(entries).None?
      ensures r.Failure? ==> r.error == UnknownAliasMessage(entries[FirstUnknown(entries).value].alias)
      ensures |old(constraints)| <= |constraints| && constraints[..|old(constraints)|] == old(constraints)
      ensures AllDescribe(constraints[|old(constraints)|..], Kept(Processed(entries)))
    {
      var i := 0;
      ghost var kept: seq<Entry> := [];
      ghost var added: seq<Constraint> := [];
      ghost var states: seq<RuleState> := [];  // the fields of the added rules
      while i < |entries|
        invariant 0 <= i <= |entries|
        invariant forall j :: 0 <= j < i ==> Known(entries[j])
        invariant kept == Kept(entries[..i])
        invariant constraints == old(constraints) + added
        invariant |added| == |kept| == |states|
        invariant forall j :: 0 <= j < |added| ==> allocated(ObjectOf(added[j]))
        invariant forall j :: 0 <= j < |added| ==> StateOf(added[j]) == states[j]
        invariant forall j :: 0 <= j < |added| ==> Yields(kept[j], added[j], states[j])
      {
        KeptAppend(entries[..i], entries[i]);
        assert entries[..i + 1] == entries[..i] + [entries[i]];
        var step := Resolve(entries[i]);
        if step.Failure? {
          assert FirstUnknown(entries) == Some(i);
          assert Processed(entries) == entries[..i];
          assert constraints[|old(constraints)|..] == added;
          return Failure(step.error);
        }
        if step.value.Some? {
          var c := step.value.value;
          constraints := constraints + [c];
          added := added + [c];
          kept := kept + [entries[i]];
          states := states + [StateOf(c)];
        }
        i := i + 1;
      }
      assert entries[..i] == entries;
      assert constraints[|old(constraints)|..] == added;
      r := Success(());
    }

    method RemoveConstraints()
      modifies this`constraints
      ensures constraints == []
    {
      constraints := [];
    }

    /** Reads `$_FILES`, whose field names are distinct. Single fields give
        one File each, keyed by field name; the first field holding several
        files gives one File per entry, keyed by field name and position,
        and replaces what was read before it. The first refused entry ends
        it with the files and keys as they were. */
    method ParseFilesArray(input: seq<(string, Field)>) returns (r: Result<(), string>)
      requires forall i, j :: 0 <= i < j < |input| ==> input[i].0 != input[j].0
      modifies this`files, this`keys, this`isMultiFileUpload
      ensures r.Success? <==> Parses(input)
      ensures r.Success? ==> Valid()
      ensures r.Success? ==>
        isMultiFileUpload == (if |input| == 0 then old(isMultiFileUpload) else FirstMulti(input).Some?)
      ensures r.Success? && FirstMulti(input).None? ==>
        |files| == |input| &&
        forall i :: 0 <= i < |input| ==>
          keys[i] == input[i].0 && fresh(files[i]) && Carries(files[i], input[i].1.item, input[i].0)
      ensures r.Success? && FirstMulti(input).Some? ==>
        var (field, up) := input[FirstMulti(input).value];
        |files| == |up.items| &&
        forall j :: 0 <= j < |up.items| ==>
          keys[j] == MultiKey(field, j) && fresh(files[j]) && Carries(files[j], up.items[j], field)
      ensures r.Failure? ==> files == old(files) && keys == old(keys)
    {
      var fs: seq<File> := [];
      var ks: seq<string> := [];
      var i := 0;
      while i < |input|
        invariant 0 <= i <= |input|
        invariant forall j :: 0 <= j < i ==> input[j].1.Single? && Acceptable(input[j].1.item)
        invariant |fs| == i && |ks| == i && Distinct(fs)
        invariant forall j :: 0 <= j < i ==>
          ks[j] == input[j].0 && fresh(fs[j]) && Carries(fs[j], input[j].1.item, input[j].0)
        invariant isMultiFileUpload == (if i == 0 then old(isMultiFileUpload) else false)
        invariant files == old(files) && keys == old(keys)
      {
        var (field, up) := input[i];
        isMultiFileUpload := up.Multi?;
        if up.Multi? {
          assert FirstMulti(input) == Some(i);
          r := ParseMultiUpload(field, up.items);
          return;
        }
        var f := NewFile(field, up.item);
        if f.Failure? {
          assert FirstMulti(input).Some? ==> FirstMulti(input).value > i;
          return Failure(f.error);
        }
        fs := fs + [f.value];
        ks := ks + [field];
        i := i + 1;
      }
      assert FirstMulti(input).None?;
      files := fs;
      keys := ks;
      r := Success(());
    }

    /** Reads the entries of a multi-file field, one File per entry. */
    method ParseMultiUpload(field: string, items: seq<Metadata>) returns (r: Result<(), string>)
      modifies this`files, this`keys
      ensures r.Success? <==> forall j :: 0 <= j < |items| ==> Acceptable(items[j])
      ensures r.Success? ==> |keys| == |files| && Distinct(keys) && Distinct(files)
      ensures r.Success? ==> |files| == |items|
      ensures r.Success? ==>
        forall j :: 0 <= j < |items| ==>
          keys[j] == MultiKey(field, j) && fresh(files[j]) && Carries(files[j], items[j], field)
      ensures r.Failure? ==> files == old(files) && keys == old(keys)
    {
      var fs: seq<File> := [];
      var ks: seq<string> := [];
      var j := 0;
      while j < |items|
        invariant 0 <= j <= |items|
        invariant forall k :: 0 <= k < j ==> Acceptable(items[k])
        invariant |fs| == j && |ks| == j && Distinct(fs)
        invariant forall k :: 0 <= k < j ==>
          ks[k] == MultiKey(field, k) && fresh(fs[k]) && Carries(fs[k], items[k], field)
        invariant files == old(files) && keys == old(keys)
      {
        var f := NewFile(field, items[j]);
        if f.Failure? {
          return Failure(f.error);
        }
        fs := fs + [f.value];
        ks := ks + [MultiKey(field, j)];
        j := j + 1;
      }
      forall a, b | 0 <= a < b < |ks|
        ensures ks[a] != ks[b]
      {
        MultiKeysDistinct(field, a, b);
      }
      files := fs;
      keys := ks;
      r := Success(());
    }

    /** Saves one file: a file PHP reports an error for is refused, then a
        directory given here must pass the check, then every rule must hold
        (the first one that fails ends it), then the upload is moved to the
        directory under the file's name. Every refusal is reported once. */
    method SaveFile(file: File, dir: Option<string>, disk: Disk) returns (ok: bool, disk': Disk)
      modifies file`isUploaded, file`filePath, this`errors
      ensures var o := old(Decide(file.errorCode, file.temporaryName, file.name, dir, uploadDirectory,
                                  disk, Verdicts(constraints, file.size, file.mimeType)));
        && (ok <==> o.Moved?)
        && file.isUploaded == ok
        && (o.Moved? ==> file.filePath == Some(o.path) && disk' == AfterMove(disk, file.temporaryName, o.path))
        && (!o.Moved? ==> file.filePath == old(file.filePath) && disk' == disk)
        && (o.Moved? ==> errors == old(errors))
        && (!o.Moved? ==>
              |errors| == |old(errors)| + 1 && errors[..|old(errors)|] == old(errors)
              && fresh(errors[|errors| - 1])
              && Reports(errors[|errors| - 1], o, file, file.ErrorMessage(), file.name, constraints))
    {
      disk' := disk;
      if file.errorCode != Some(Ok) {
        Refuse(file, PhpUpload, Text(file.ErrorMessage()), None);
        return false, disk;
      }
      if dir.Some? {
        var check := CheckUploadDirectory(disk, dir.value);
        if check.Failure? {
          Refuse(file, Filesystem, Text(check.error), None);
          return false, disk;
        }
      }
      ghost var verdicts := Verdicts(constraints, file.size, file.mimeType);
      var broken := FirstBroken(file);
      FirstFailingIs(verdicts, broken);
      ok, disk' := Conclude(file, dir.GetOr(uploadDirectory), disk, broken);
    }

    /** Asks the rules in order whether they hold for a file and stops at
        the first that does not. */
    method FirstBroken(file: File) returns (r: Option<nat>)
      ensures r.Some? ==> r.value < |constraints| && !old(Admits(constraints[r.value], file.size, file.mimeType))
      ensures forall j :: 0 <= j < |constraints| && (r.None? || j < r.value) ==>
                old(Admits(constraints[j], file.size, file.mimeType))
    {
      var i := 0;
      while i < |constraints|
        invariant 0 <= i <= |constraints|
        invariant forall j :: 0 <= j < i ==> old(Admits(constraints[j], file.size, file.mimeType))
      {
        var holds := Holds(constraints[i], file);
        if !holds {
          return Some(i);
        }
        i := i + 1;
      }
      return None;
    }

    /** The rest of `SaveFile` once the error code and the directory have
        passed and the first rule that does not hold is known: that rule
        is reported, or else the upload is moved to `target` under the
        file's name. */
    method Conclude(file: File, target: string, disk: Disk, broken: Option<nat>) returns (ok: bool, disk': Disk)
      requires broken.Some? ==> broken.value < |constraints|
      modifies file`isUploaded, file`filePath, this`errors
      ensures var o := old(Finish(file.temporaryName, file.name, target, disk, broken));
        && (ok <==> o.Moved?)
        && file.isUploaded == ok
        && (o.Moved? ==> file.filePath == Some(o.path) && disk' == AfterMove(disk, file.temporaryName, o.path))
        && (!o.Moved? ==> file.filePath == old(file.filePath) && disk' == disk)
        && (o.Moved? ==> errors == old(errors))
        && (!o.Moved? ==>
              |errors| == |old(errors)| + 1 && errors[..|old(errors)|] == old(errors)
              && fresh(errors[|errors| - 1])
              && Reports(errors[|errors| - 1], o, file, file.ErrorMessage(), file.name, constraints))
    {
      disk' := disk;
      if broken.Some? {
        Refuse(file, ConstraintViolation, NoMessage, Some(constraints[broken.value]));
        return false, disk;
      }
      var path := target + Separator + file.name;
      if CanMove(disk, file.temporaryName, target) {
        file.SetFilePath(path);
        file.SetUploaded(Bool(true));
        ok, disk' := true, AfterMove(disk, file.temporaryName, path);
      } else {
        Refuse(file, Filesystem, Text(MoveMessage(file.name)), None);
        ok := false;
      }
    }

    /** Marks a file not uploaded and appends a new report about it. */
    method Refuse(file: File, kind: ErrorType, message: MessageArg, rule: Option<Constraint>)
      modifies file`isUploaded, this`errors
      ensures !file.isUploaded
      ensures |errors| == |old(errors)| + 1 && errors[..|old(errors)|] == old(errors)
      ensures var e := errors[|errors| - 1];
        fresh(e) && e.file == file && e.kind == kind && e.messages == InitialMessages(message) && e.constraint == rule
    {
      file.SetUploaded(Bool(false));
      var e := new UploadError(kind, message, file, rule);
      errors := errors + [e];
    }

    /** One step of `save`: shows file `i` to the callback, names it and
        saves it in the chosen directory. Its outcome is `OutcomeOf` its
        record; of the files only that one changes, and the rules do not. */
    method SaveAt(i: int, cb: Option<Callback>, disk: Disk, ghost news: seq<UploadError>,
                  ghost initial: seq<Record>, ghost outcomes: seq<Outcome>)
      returns (saved: bool, disk': Disk)
      requires 0 <= i < |files| && Distinct(files)
      modifies files[i], this`errors
      ensures var was := old(Records(files))[i];
        var o := OutcomeOf(was, cb, uploadDirectory, old(States(constraints)), disk);
        && (saved <==> o.Moved?)
        && Records(files) == old(Records(files))[i := RecordAfter(was, cb, o)]
        && disk' == DiskAfter(disk, was.view.temporaryName, o)
        && (o.Moved? ==> errors == old(errors))
        && (!o.Moved? ==>
              |errors| == |old(errors)| + 1 && errors[..|old(errors)|] == old(errors)
              && Reports(errors[|errors| - 1], o, files[i], CodeMessage(was.view.errorCode),
                         ChosenName(cb, was.name, was.view), constraints))
      ensures States(constraints) == old(States(constraints))
      ensures old(ReportsRun(news, files, initial, cb, outcomes, constraints)) ==>
        ReportsRun(news, files, initial, cb, outcomes, constraints)
    {
      ghost var records := Records(files);
      VerdictsByState(constraints, files[i].size, files[i].mimeType);
      saved, disk' := NameAndSave(i, cb, disk);
      assert Records(files) == records[i := RecordOf(files[i])] by {
        forall j | 0 <= j < |files| && j != i
          ensures Records(files)[j] == records[j]
        {
          assert files[j] != files[i];
        }
      }
    }

    /** The work of `SaveAt`: file `i` gets the name `ChosenName` gives and
        goes through `SaveFile` with the directory `ChosenDirectory` gives,
        so its outcome is `Decide`'s for that name and directory. */
    method NameAndSave(i: int, cb: Option<Callback>, disk: Disk) returns (saved: bool, disk': Disk)
      requires 0 <= i < |files| && Distinct(files)
      modifies files[i], this`errors
      ensures var v := old(ViewOf(files[i]));
        var name := ChosenName(cb, old(files[i].name), v);
        var o := old(Decide(files[i].errorCode, files[i].temporaryName, name,
                            Some(ChosenDirectory(cb, v, uploadDirectory)), uploadDirectory, disk,
                            Verdicts(constraints, files[i].size, files[i].mimeType)));
        && (saved <==> o.Moved?)
        && RecordOf(files[i]) == RecordAfter(old(RecordOf(files[i])), cb, o)
        && disk' == DiskAfter(disk, v.temporaryName, o)
        && (o.Moved? ==> errors == old(errors))
        && (!o.Moved? ==>
              |errors| == |old(errors)| + 1 && errors[..|old(errors)|] == old(errors)
              && Reports(errors[|errors| - 1], o, files[i], CodeMessage(v.errorCode), name, constraints))
      ensures forall j :: 0 <= j < |files| && j != i ==> unchanged(files[j])
      ensures unchanged(Objects(constraints))
    {
      var file := files[i];
      var view := ViewOf(file);
      Apart(file, this, constraints);
      Apart(null, this, constraints);
      ObjectsAllocated(constraints);
      ghost var verdicts := Verdicts(constraints, file.size, file.mimeType);
      file.SetName(ChosenName(cb, file.name, view));
      assert Verdicts(constraints, file.size, file.mimeType) == verdicts;
      var target := ChosenDirectory(cb, view, uploadDirectory);
      saved, disk' := SaveFile(file, Some(target), disk);
    }

    /** How far `Save` has got: the files have the records the run of the
        first `i` of them from their records `initial`, the filesystem
        `disk0` and rules with the fields `rules` leaves, its answer is
        `ok` and its filesystem `disk`, and the reports since `start` are
        those that run adds. */
    ghost predicate SaveProgress(i: int, cb: Option<Callback>, disk0: Disk, initial: seq<Record>,
                                 rules: seq<RuleState>, start: seq<UploadError>, ok: bool, disk: Disk)
      reads this, files, errors, Objects(constraints)
    {
      Distinct(files) && 0 <= i <= |files| == |initial| && States(constraints) == rules
      && var run := SaveRun(initial[..i], cb, uploadDirectory, rules, disk0);
      ok == run.ok && disk == run.disk && Reached(Records(files), initial, cb, run.outcomes)
      && start <= errors && ReportsRun(errors[|start|..], files, initial, cb, run.outcomes, constraints)
    }

    /** One turn of the loop of `Save`. */
    method SaveNext(i: int, cb: Option<Callback>, disk0: Disk, ghost initial: seq<Record>,
                    ghost rules: seq<RuleState>, ghost start: seq<UploadError>, ok: bool, disk: Disk)
      returns (saved: bool, disk': Disk)
      requires i < |files| && SaveProgress(i, cb, disk0, initial, rules, start, ok, disk)
      modifies files[i], this`errors
      ensures SaveProgress(i + 1, cb, disk0, initial, rules, start, saved && ok, disk')
    {
      ghost var run := SaveRun(initial[..i], cb, uploadDirectory, rules, disk0);
      ghost var now := Records(files);
      ghost var news := errors[|start|..];
      assert errors == start + news;
      saved, disk' := SaveAt(i, cb, disk, news, initial, run.outcomes);
      NextProgress(i, cb, disk0, initial, rules, start, ok, disk, now, news, saved, disk');
    }

    /** `SaveProgress` moves on by one file once file `i`, whose record
        was `now[i]`, had the outcome the run gives it. */
    lemma NextProgress(i: int, cb: Option<Callback>, disk0: Disk, initial: seq<Record>, rules: seq<RuleState>,
                       start: seq<UploadError>, ok: bool, disk: Disk, now: seq<Record>, news: seq<UploadError>,
                       saved: bool, disk': Disk)
      requires Distinct(files) && 0 <= i < |files| == |initial| && States(constraints) == rules
      requires var run := SaveRun(initial[..i], cb, uploadDirectory, rules, disk0);
        ok == run.ok && disk == run.disk && Reached(now, initial, cb, run.outcomes)
        && ReportsRun(news, files, initial, cb, run.outcomes, constraints)
      requires var was := now[i];
        var o := OutcomeOf(was, cb, uploadDirectory, rules, disk);
        && (saved <==> o.Moved?)
        && Records(files) == now[i := RecordAfter(was, cb, o)]
        && disk' == DiskAfter(disk, was.view.temporaryName, o)
        && (o.Moved? ==> errors == start + news)
        && (!o.Moved? ==>
              |errors| == |start + news| + 1 && errors[..|start + news|] == start + news
              && Reports(errors[|errors| - 1], o, files[i], CodeMessage(was.view.errorCode),
                         ChosenName(cb, was.name, was.view), constraints))
      ensures SaveProgress(i + 1, cb, disk0, initial, rules, start, saved && ok, disk')
    {
      var run := SaveRun(initial[..i], cb, uploadDirectory, rules, disk0);
      assert now[i] == initial[i];
      var o := OutcomeOf(initial[i], cb, uploadDirectory, rules, disk);
      var after := errors[|start|..];
      if o.Moved? {
        After(start, news);
      } else {
        Extended(errors, start, news);
        After(start, news + [errors[|errors| - 1]]);
      }
      SaveRunStep(initial, cb, uploadDirectory, rules, disk0, i);
      ReachedStep(now, initial, cb, run.outcomes, o);
      ReportsRunStep(news, files, initial, cb, run.outcomes, constraints, o, after);
    }

    /** Before the first turn nothing has been saved or reported. */
    lemma SaveStart(cb: Option<Callback>, disk: Disk)
      requires Distinct(files)
      ensures SaveProgress(0, cb, disk, Records(files), States(constraints), errors, true, disk)
    {
      assert Records(files)[..0] == [];
      assert errors[|errors|..] == [];
    }

    /** After the last turn every file has the record and every report the
        run of all files gives. */
    lemma SaveDone(cb: Option<Callback>, disk0: Disk, initial: seq<Record>, rules: seq<RuleState>,
                   start: seq<UploadError>, ok: bool, disk: Disk)
      requires SaveProgress(|files|, cb, disk0, initial, rules, start, ok, disk)
      ensures var run := SaveRun(initial, cb, uploadDirectory, rules, disk0);
        && ok == run.ok && disk == run.disk
        && (forall i :: 0 <= i < |files| ==> RecordOf(files[i]) == RecordAfter(initial[i], cb, run.outcomes[i]))
        && start <= errors && ReportsRun(errors[|start|..], files, initial, cb, run.outcomes, constraints)
    {
      assert initial[..|files|] == initial;
    }

    /** Once every file has the record its outcome calls for, the answer is
        whether all are uploaded, and the new reports are about the files
        not uploaded, in order. */
    lemma Unsaved(cb: Option<Callback>, disk0: Disk, initial: seq<Record>, rules: seq<RuleState>,
                  news: seq<UploadError>)
      requires |initial| == |files|
      requires var run := SaveRun(initial, cb, uploadDirectory, rules, disk0);
        && (forall i :: 0 <= i < |files| ==> RecordOf(files[i]) == RecordAfter(initial[i], cb, run.outcomes[i]))
        && ReportsRun(news, files, initial, cb, run.outcomes, constraints)
      ensures SaveRun(initial, cb, uploadDirectory, rules, disk0).ok <==> forall i :: 0 <= i < |files| ==> files[i].isUploaded
      ensures ReportedFiles(news) == Filter(files, false)
    {
      var run := SaveRun(initial, cb, uploadDirectory, rules, disk0);
      SaveRunOutcomes(initial, cb, uploadDirectory, rules, disk0);
      assert forall i :: 0 <= i < |files| ==> files[i].isUploaded == run.outcomes[i].Moved?;
      ReportsRunFiles(news, files, initial, cb, run.outcomes, constraints);
      assert files[..|files|] == files;
    }

    /** Saves every file, going on after failures, and answers whether all
        of them were saved: the files are saved as `SaveRun` says, from
        their records and the rules' fields before saving, each file
        meeting the filesystem the one before it left. The new reports are
        those the run calls for, one for each file left unsaved, in
        order. */
    method Save(cb: Option<Callback>, disk: Disk) returns (ok: bool, disk': Disk)
      requires Valid()
      modifies files, this`errors
      ensures var run := SaveRun(old(Records(files)), cb, uploadDirectory, old(States(constraints)), disk);
        && ok == run.ok && disk' == run.disk
        && (forall i :: 0 <= i < |files| ==> RecordOf(files[i]) == RecordAfter(old(Records(files))[i], cb, run.outcomes[i]))
        && old(errors) <= errors
        && ReportsRun(errors[|old(errors)|..], files, old(Records(files)), cb, run.outcomes, constraints)
      ensures ok <==> forall i :: 0 <= i < |files| ==> files[i].isUploaded
      ensures ReportedFiles(errors[|old(errors)|..]) == Filter(files, false)
    {
      ghost var initial := Records(files);
      ghost var rules := States(constraints);
      SaveStart(cb, disk);
      ok, disk' := SaveAll(cb, disk, initial, rules, old(errors));
      SaveDone(cb, disk, initial, rules, old(errors), ok, disk');
      Unsaved(cb, disk, initial, rules, errors[|old(errors)|..]);
    }

    /** The loop of `Save`: one turn per file, in order. */
    method SaveAll(cb: Option<Callback>, disk: Disk, ghost initial: seq<Record>, ghost rules: seq<RuleState>,
                   ghost start: seq<UploadError>)
      returns (ok: bool, disk': Disk)
      requires SaveProgress(0, cb, disk, initial, rules, start, true, disk)
      modifies files, this`errors
      ensures SaveProgress(|files|, cb, disk, initial, rules, start, ok, disk')
    {
      ok := true;
      disk' := disk;
      var i := 0;
      while i < |files|
        invariant SaveProgress(i, cb, disk, initial, rules, start, ok, disk')
      {
        var saved;
        saved, disk' := SaveNext(i, cb, disk, initial, rules, start, ok, disk');
        ok := saved && ok;
        i := i + 1;
      }
    }

    method GetUploadedFiles() returns (r: seq<File>)
      ensures r == Filter(files, true)
    {
      r := [];
      var i := 0;
      while i < |files|
        invariant 0 <= i <= |files|
        invariant r == Filter(files[..i], true)
      {
        assert files[..i + 1][..i] == files[..i];
        if files[i].isUploaded {
          r := r + [files[i]];
        }
        i := i + 1;
      }
      assert files[..i] == files;
    }

    method GetNotUploadedFiles() returns (r: seq<File>)
      ensures r == Filter(files, false)
    {
      r := [];
      var i := 0;
      while i < |files|
        invariant 0 <= i <= |files|
        invariant r == Filter(files[..i], false)
      {
        assert files[..i + 1][..i] == files[..i];
        if !files[i].isUploaded {
          r := r + [files[i]];
        }
        i := i + 1;
      }
      assert files[..i] == files;
    }

    /** `getAggregatedFileSize` as written: the callback adds each size to
        its own copy of the sum (`use ($sum)` copies the value), so the sum
        the method returns stays 0. */
    method AggregatedFileSizeAsWritten() returns (sum: int)
      ensures sum == 0
    {
      sum := 0;
      var i := 0;
      while i < |files|
        invariant 0 <= i <= |files|
        invariant sum == 0
      {
        var captured := sum;
        captured := captured + files[i].size;
        i := i + 1;
      }
    }

    /** The sum of the sizes of all files, as the method evidently means. */
    method GetAggregatedFileSize() returns (sum: int)
      ensures sum == TotalSize(files)
    {
      sum := 0;
      var i := 0;
      while i < |files|
        invariant 0 <= i <= |files|
        invariant sum == TotalSize(files[..i])
      {
        assert files[..i + 1][..i] == files[..i];
        sum := sum + files[i].size;
        i := i + 1;
      }
      assert files[..i] == files;
    }
  }
}
