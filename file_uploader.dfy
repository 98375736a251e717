/** The second prototype of the uploader: rules are kept by name, and saving
    a file asks every rule and records on the file all that do not hold,
    not only the first. */
module FileUploaders {
  import opened Wrappers
  import FileUploads

  /** A rule as this prototype knows it: a name and a mode. What a rule
      checks is up to its class, so whether it holds for a file is a
      parameter `holds` of the operations that ask. */
  datatype Rule = Rule(name: string, mode: string)

  /** What a rule is shown of a file. */
  datatype Facts = Facts(name: string, temporaryName: string, fieldName: string, mimeType: string,
                         size: int, errorCode: int)

  /** The code PHP reports for an upload without error. */
  const UploadOk := 0

  // ----- the rules, keyed by name

  /** One entry of the rule array: its key and its rule. The array keeps
      its keys in the order they were first stored. */
  datatype Entry = Entry(key: string, rule: Rule)

  /** No key is stored twice, as in every PHP array. */
  predicate UniqueKeys(cs: seq<Entry>) {
    forall i, j :: 0 <= i < j < |cs| ==> cs[i].key != cs[j].key
  }

  function Keys(cs: seq<Entry>): (ks: seq<string>)
    ensures |ks| == |cs| && forall i :: 0 <= i < |cs| ==> ks[i] == cs[i].key
  {
    seq(|cs|, i requires 0 <= i < |cs| => cs[i].key)
  }

  /** The position of the entry with a key. */
  function Find(cs: seq<Entry>, key: string): (r: Option<nat>)
    ensures r.Some? ==> r.value < |cs| && cs[r.value].key == key
    ensures r.Some? ==> forall j :: 0 <= j < r.value ==> cs[j].key != key
    ensures r.None? <==> forall i :: 0 <= i < |cs| ==> cs[i].key != key
  {
    if cs == [] then None
    else if cs[0].key == key then Some(0)
    else match Find(cs[1..], key)
      case None => None
      case Some(k) => Some(k + 1)
  }

  /** The rules of the array, in order. */
  function Rules(cs: seq<Entry>): (rs: seq<Rule>)
    ensures |rs| == |cs| && forall i :: 0 <= i < |cs| ==> rs[i] == cs[i].rule
  {
    if cs == [] then [] else Rules(cs[..|cs| - 1]) + [cs[|cs| - 1].rule]
  }

  /** `$constraints[$key]`: the rule stored under a key, if any. */
  function Lookup(cs: seq<Entry>, key: string): (r: Option<Rule>)
    ensures r.None? <==> key !in Keys(cs)
    ensures r.Some? ==> Entry(key, r.value) in cs
  {
    match Find(cs, key)
    case None => None
    case Some(i) => Some(cs[i].rule)
  }

  /** `$constraints[$key] = $rule`: a key already stored keeps its place and
      takes the new rule; a new key goes last. */
  function Put(cs: seq<Entry>, key: string, rule: Rule): seq<Entry> {
    match Find(cs, key)
    case Some(i) => cs[i := Entry(key, rule)]
    case None => cs + [Entry(key, rule)]
  }

  /** `unset($constraints[$key])`: every entry but the one with the key. */
  function Delete(cs: seq<Entry>, key: string): (r: seq<Entry>)
    ensures |r| <= |cs|
    ensures forall i :: 0 <= i < |r| ==> r[i].key != key && r[i] in cs
    ensures forall i :: 0 <= i < |cs| && cs[i].key != key ==> cs[i] in r
  {
    if cs == [] then []
    else if cs[0].key == key then Delete(cs[1..], key)
    else [cs[0]] + Delete(cs[1..], key)
  }

  /** In an array without repeated keys, the entry a key is found at is the
      only one with that key. */
  lemma FindUnique(cs: seq<Entry>, key: string, i: int)
    requires UniqueKeys(cs) && 0 <= i < |cs| && cs[i].key == key
    ensures Find(cs, key) == Some(i)
  {
  }

  /** After storing a rule under a key, the key gives that rule and every
      other key what it gave before. */
  lemma LookupPut(cs: seq<Entry>, key: string, rule: Rule, k: string)
    requires UniqueKeys(cs)
    ensures UniqueKeys(Put(cs, key, rule))
    ensures Lookup(Put(cs, key, rule), k) == if k == key then Some(rule) else Lookup(cs, k)
  {
    var r := Put(cs, key, rule);
    assert forall i :: 0 <= i < |r| ==> r[i].key == (if i < |cs| then cs[i].key else key);
    if k == key {
      FindUnique(r, key, if Find(cs, key).Some? then Find(cs, key).value else |cs|);
    } else {
      match Find(cs, k)
      case None =>
        assert Find(r, k).None?;
      case Some(j) =>
        FindUnique(r, k, j);
    }
  }

  /** Storing a rule never reorders the keys: a stored key keeps its place
      and a new key goes last. */
  lemma KeysPut(cs: seq<Entry>, key: string, rule: Rule)
    ensures Keys(Put(cs, key, rule)) == if key in Keys(cs) then Keys(cs) else Keys(cs) + [key]
  {
    if key in Keys(cs) {
      var j :| 0 <= j < |cs| && Keys(cs)[j] == key;
      assert Find(cs, key).Some?;
    } else {
      assert Find(cs, key).None?;
    }
  }

  /** Removing a key leaves no key stored twice. */
  lemma {:induction false} DeleteUnique(cs: seq<Entry>, key: string)
    requires UniqueKeys(cs)
    ensures UniqueKeys(Delete(cs, key))
  {
    if cs != [] {
      DeleteUnique(cs[1..], key);
      var rest := Delete(cs[1..], key);
      if cs[0].key != key {
        forall j | 0 <= j < |rest|
          ensures cs[0].key != rest[j].key
        {
          var m :| 0 <= m < |cs[1..]| && cs[1..][m] == rest[j];
          assert cs[0].key != cs[m + 1].key;
        }
      }
    }
  }

  /** After removing a key, it gives nothing and every other key what it
      gave before. */
  lemma LookupDelete(cs: seq<Entry>, key: string, k: string)
    requires UniqueKeys(cs)
    ensures UniqueKeys(Delete(cs, key))
    ensures Lookup(Delete(cs, key), k) == if k == key then None else Lookup(cs, k)
  {
    DeleteUnique(cs, key);
    var r := Delete(cs, key);
    if k != key {
      match Find(cs, k)
      case None =>
        assert Find(r, k).None?;
      case Some(j) =>
        assert cs[j] in r;
        var m :| 0 <= m < |r| && r[m] == cs[j];
        FindUnique(r, k, m);
    }
  }

  /** `addConstraints`: every rule stored under its name, in order. */
  function PutAll(cs: seq<Entry>, rules: seq<Rule>): seq<Entry>
    decreases |rules|
  {
    if rules == [] then cs else PutAll(Put(cs, rules[0].name, rules[0]), rules[1..])
  }

  /** The rule at position `i` is the last with the name. */
  predicate IsLastNamed(rules: seq<Rule>, k: string, i: int) {
    0 <= i < |rules| && rules[i].name == k && forall j :: i < j < |rules| ==> rules[j].name != k
  }

  /** The last of some rules with a name. */
  function LastNamed(rules: seq<Rule>, k: string): (r: Option<Rule>)
    ensures r.None? <==> forall i :: 0 <= i < |rules| ==> rules[i].name != k
    ensures r.Some? ==> exists i :: IsLastNamed(rules, k, i) && rules[i] == r.value
  {
    if rules == [] then None
    else match LastNamed(rules[1..], k)
      case Some(c) =>
        var i :| IsLastNamed(rules[1..], k, i) && rules[1..][i] == c;
        assert IsLastNamed(rules, k, i + 1) && rules[i + 1] == c;
        Some(c)
      case None => if rules[0].name == k then (assert IsLastNamed(rules, k, 0); Some(rules[0])) else None
  }

  /** Storing rules in order: each name gives the last rule stored under it,
      and a name none of them has what it gave before. */
  lemma {:induction false} LookupPutAll(cs: seq<Entry>, rules: seq<Rule>, k: string)
    requires UniqueKeys(cs)
    ensures UniqueKeys(PutAll(cs, rules))
    ensures Lookup(PutAll(cs, rules), k) == if LastNamed(rules, k).Some? then LastNamed(rules, k) else Lookup(cs, k)
    decreases |rules|
  {
    if rules != [] {
      var c := rules[0];
      LookupPut(cs, c.name, c, k);
      LookupPutAll(Put(cs, c.name, c), rules[1..], k);
    }
  }

  /** The rules of the array that do not hold for a file, in the array's
      order. */
  function NotHolding(cs: seq<Entry>, holds: (Rule, Facts) -> bool, facts: Facts): (r: seq<Rule>)
  {
    if cs == [] then []
    else
      var init := NotHolding(cs[..|cs| - 1], holds, facts);
      var c := cs[|cs| - 1].rule;
      if holds(c, facts) then init else init + [c]
  }

  /** Every rule that does not hold is listed: all of them, not just the
      first. */
  lemma {:induction false} NotHoldingComplete(cs: seq<Entry>, holds: (Rule, Facts) -> bool, facts: Facts)
    ensures forall i :: 0 <= i < |cs| && !holds(cs[i].rule, facts) ==> cs[i].rule in NotHolding(cs, holds, facts)
  {
    if cs != [] {
      var init := cs[..|cs| - 1];
      var c := cs[|cs| - 1].rule;
      NotHoldingComplete(init, holds, facts);
      var r0 := NotHolding(init, holds, facts);
      var r := NotHolding(cs, holds, facts);
      assert r == if holds(c, facts) then r0 else r0 + [c];
      forall i | 0 <= i < |cs| && !holds(cs[i].rule, facts)
        ensures cs[i].rule in r
      {
        if i < |init| {
          assert init[i] == cs[i];
          assert cs[i].rule in r0;
        }
      }
    }
  }

  /** Only rules of the array that do not hold are listed. */
  lemma {:induction false} NotHoldingSound(cs: seq<Entry>, holds: (Rule, Facts) -> bool, facts: Facts)
    ensures forall k :: 0 <= k < |NotHolding(cs, holds, facts)| ==>
      !holds(NotHolding(cs, holds, facts)[k], facts) && NotHolding(cs, holds, facts)[k] in Rules(cs)
  {
    if cs != [] {
      var init := cs[..|cs| - 1];
      var c := cs[|cs| - 1].rule;
      NotHoldingSound(init, holds, facts);
      var r0 := NotHolding(init, holds, facts);
      var r := NotHolding(cs, holds, facts);
      assert r == if holds(c, facts) then r0 else r0 + [c];
      assert Rules(cs) == Rules(init) + [c];
      forall k | 0 <= k < |r|
        ensures !holds(r[k], facts) && r[k] in Rules(cs)
      {
        if k < |r0| {
          assert r[k] == r0[k];
        }
      }
    }
  }

  /** No rule is listed exactly when every rule holds. */
  lemma NotHoldingEmpty(cs: seq<Entry>, holds: (Rule, Facts) -> bool, facts: Facts)
    ensures NotHolding(cs, holds, facts) == [] <==> forall i :: 0 <= i < |cs| ==> holds(cs[i].rule, facts)
  {
    NotHoldingComplete(cs, holds, facts);
    NotHoldingSound(cs, holds, facts);
    if NotHolding(cs, holds, facts) != [] {
      var r := NotHolding(cs, holds, facts);
      assert !holds(r[0], facts) && r[0] in Rules(cs);
    }
  }

  // ----- the files

  /** One uploaded file. What PHP reported is fixed when the uploader reads
      it; saving names it, records its path, whether it is uploaded, and
      the rules it broke. A name PHP leaves null is "". */
  class LegacyFile {
    var name: string
    const originalName: string
    const temporaryName: string
    const fieldName: string
    const mimeType: string
    const size: int
    const errorCode: int
    var isUploaded: bool
    var filePath: Option<string>
    var brokenConstraints: seq<Rule>

    constructor (originalName: string, temporaryName: string, fieldName: string, mimeType: string,
                 size: int, errorCode: int)
      ensures this.originalName == originalName && this.temporaryName == temporaryName
      ensures this.fieldName == fieldName && this.mimeType == mimeType
      ensures this.size == size && this.errorCode == errorCode
      ensures name == "" && !isUploaded && filePath == None && brokenConstraints == []
    {
      this.originalName, this.temporaryName, this.fieldName := originalName, temporaryName, fieldName;
      this.mimeType, this.size, this.errorCode := mimeType, size, errorCode;
      name, isUploaded, filePath, brokenConstraints := "", false, None, [];
    }

    function FactsOf(): Facts
      reads this
    {
      Facts(name, temporaryName, fieldName, mimeType, size, errorCode)
    }

    /** What saving has recorded in the file. */
    function SavedOf(): Saved
      reads this
    {
      Saved(name, isUploaded, filePath, brokenConstraints)
    }
  }

  /** The facts of each file of a list, in order. */
  function FactsList(fs: seq<LegacyFile>): (r: seq<Facts>)
    reads fs
    ensures |r| == |fs| && forall j :: 0 <= j < |fs| ==> r[j] == fs[j].FactsOf()
  {
    if fs == [] then [] else [fs[0].FactsOf()] + FactsList(fs[1..])
  }

  /** What saving has recorded in each file of a list, in order. */
  function Snapshot(fs: seq<LegacyFile>): (r: seq<Saved>)
    reads fs
    ensures |r| == |fs| && forall j :: 0 <= j < |fs| ==> r[j] == fs[j].SavedOf()
  {
    if fs == [] then [] else [fs[0].SavedOf()] + Snapshot(fs[1..])
  }

  /** The files of a list whose upload reported an error (or none), in
      order. */
  function WithErrors(fs: seq<LegacyFile>, failed: bool): (r: seq<LegacyFile>)
    ensures |r| <= |fs|
  {
    if fs == [] then []
    else
      var init := WithErrors(fs[..|fs| - 1], failed);
      var f := fs[|fs| - 1];
      if (f.errorCode != UploadOk) == failed then init + [f] else init
  }

  /** A file is listed exactly when its error code says so. */
  lemma {:induction false} WithErrorsMembers(fs: seq<LegacyFile>, failed: bool)
    ensures forall k :: 0 <= k < |WithErrors(fs, failed)| ==>
      WithErrors(fs, failed)[k] in fs && (WithErrors(fs, failed)[k].errorCode != UploadOk) == failed
    ensures forall i :: 0 <= i < |fs| && (fs[i].errorCode != UploadOk) == failed ==> fs[i] in WithErrors(fs, failed)
  {
    if fs != [] {
      var init := fs[..|fs| - 1];
      WithErrorsMembers(init, failed);
      assert forall i :: 0 <= i < |init| ==> init[i] == fs[i];
    }
  }

  /** The files with and without errors are all files, each once. */
  lemma {:induction false} WithErrorsPartition(fs: seq<LegacyFile>)
    ensures multiset(WithErrors(fs, true)) + multiset(WithErrors(fs, false)) == multiset(fs)
  {
    if fs != [] {
      var init := fs[..|fs| - 1];
      WithErrorsPartition(init);
      assert fs == init + [fs[|fs| - 1]];
    }
  }

  // ----- saving

  const MultiUploadMessage := "This is a multi file upload. Files cannot be distinguished by their field name."

  /** How saving one file ends. */
  datatype Outcome =
    | UploadFailed                   // PHP reported an error
    | BadDirectory(message: string)  // the directory asked for failed its check
    | Broken(rules: seq<Rule>)       // these rules do not hold
    | NotMoved                       // the move failed
    | Moved(path: string)

  /** `saveFile`'s decision for a file with the given facts, the directory
      asked for (None for null), the current directory, the rules that do
      not hold for it and the disk: the upload error first, then the
      directory, then the rules, then the move. */
  function Decide(f: Facts, dir: Option<string>, current: string, broken: seq<Rule>,
                  disk: FileUploads.Disk): (o: Outcome)
    ensures o == UploadFailed <==> f.errorCode != UploadOk
    ensures o.BadDirectory? <==>
      f.errorCode == UploadOk && dir.Some? && FileUploads.CheckUploadDirectory(disk, dir.value).Failure?
    ensures o.BadDirectory? ==> o.message == FileUploads.CheckUploadDirectory(disk, dir.value).error
    ensures o.Broken? <==>
      f.errorCode == UploadOk && (dir.None? || FileUploads.CheckUploadDirectory(disk, dir.value).Success?)
      && broken != []
    ensures o.Broken? ==> o.rules == broken
    ensures o.Moved? <==>
      f.errorCode == UploadOk && (dir.None? || FileUploads.CheckUploadDirectory(disk, dir.value).Success?)
      && broken == [] && FileUploads.CanMove(disk, f.temporaryName, dir.GetOr(current))
    ensures o.Moved? ==> o.path == dir.GetOr(current) + "/" + f.name
  {
    if f.errorCode != UploadOk then UploadFailed
    else if dir.Some? && FileUploads.CheckUploadDirectory(disk, dir.value).Failure? then
      BadDirectory(FileUploads.CheckUploadDirectory(disk, dir.value).error)
    else if broken != [] then Broken(broken)
    else if FileUploads.CanMove(disk, f.temporaryName, dir.GetOr(current)) then
      Moved(dir.GetOr(current) + "/" + f.name)
    else NotMoved
  }

  /** What `saveFile` answers: an exception, or whether the file moved. */
  function Answer(o: Outcome): Result<bool, string> {
    match o
    case BadDirectory(m) => Failure(m)
    case Moved(_) => Success(true)
    case _ => Success(false)
  }

  /** A file is reported only once every rule was asked: the outcome of a
      file without upload error and with a valid directory names exactly
      the rules that do not hold. */
  lemma DecideNamesAllBroken(f: Facts, dir: Option<string>, current: string, cs: seq<Entry>,
                             holds: (Rule, Facts) -> bool, disk: FileUploads.Disk)
    requires f.errorCode == UploadOk
    requires dir.None? || FileUploads.CheckUploadDirectory(disk, dir.value).Success?
    ensures var o := Decide(f, dir, current, NotHolding(cs, holds, f), disk);
      (o.Broken? <==> exists i :: 0 <= i < |cs| && !holds(cs[i].rule, f))
      && (o.Broken? ==> forall i :: 0 <= i < |cs| && !holds(cs[i].rule, f) ==> cs[i].rule in o.rules)
  {
    NotHoldingEmpty(cs, holds, f);
    NotHoldingComplete(cs, holds, f);
  }

  /** The name `saveFiles` gives a file: the one the callable leaves, or the
      temporary name when there is no callable or it left the name empty. */
  function ChosenName(namer: Option<Facts -> string>, f: Facts): (n: string)
    ensures namer.None? ==> n == f.temporaryName
    ensures namer.Some? ==> n == if namer.value(f) == "" then f.temporaryName else namer.value(f)
  {
    if namer.None? || namer.value(f) == "" then f.temporaryName else namer.value(f)
  }

  /** A file's facts under the name `saveFiles` gives it before saving it. */
  function Named(namer: Option<Facts -> string>, f: Facts): Facts {
    f.(name := ChosenName(namer, f))
  }

  /** How `saveFiles` ends for one file: the file is named, then saved, the
      rules asked about it under its new name. */
  function OutcomeOf(f: Facts, namer: Option<Facts -> string>, dir: Option<string>, current: string,
                     cs: seq<Entry>, holds: (Rule, Facts) -> bool, disk: FileUploads.Disk): Outcome
  {
    var g := Named(namer, f);
    Decide(g, dir, current, NotHolding(cs, holds, g), disk)
  }

  /** The filesystem after one file's outcome: a moved upload leaves PHP's
      temporary area for its path. */
  function DiskAfter(disk: FileUploads.Disk, tmp: string, o: Outcome): FileUploads.Disk {
    if o.Moved? then FileUploads.AfterMove(disk, tmp, o.path) else disk
  }

  /** What saving records in a file. */
  datatype Saved = Saved(name: string, isUploaded: bool, filePath: Option<string>, broken: seq<Rule>)

  /** What a file records after `saveFiles` gave it outcome `o`: the chosen
      name; an exception leaves the rest; otherwise the file is uploaded
      exactly when it moved, a move records the path and rules that do not
      hold are recorded. */
  function SavedAfter(was: Saved, f: Facts, namer: Option<Facts -> string>, o: Outcome): Saved {
    Saved(ChosenName(namer, f),
          if o.BadDirectory? then was.isUploaded else o.Moved?,
          if o.Moved? then Some(o.path) else was.filePath,
          if o.Broken? then o.rules else was.broken)
  }

  /** How far `saveFiles` has got: its answer so far, the filesystem, and
      for each file attempted its outcome and the filesystem it met. */
  datatype Run = Run(answer: Result<bool, string>, disk: FileUploads.Disk, outcomes: seq<Outcome>,
                     met: seq<FileUploads.Disk>)

  /** `saveFiles` over files with facts `fs`, in order, starting on `disk`:
      each file meets the filesystem the one before left; an exception ends
      the run, the files before it saved; otherwise the answer is whether
      every file moved. */
  function SaveRun(fs: seq<Facts>, namer: Option<Facts -> string>, dir: Option<string>, current: string,
                   cs: seq<Entry>, holds: (Rule, Facts) -> bool, disk: FileUploads.Disk): (run: Run)
    ensures |run.outcomes| == |run.met| <= |fs|
    ensures run.answer.Success? ==> |run.outcomes| == |fs|
    decreases |fs|
  {
    if fs == [] then Run(Success(true), disk, [], [])
    else
      var n := |fs| - 1;
      var prev := SaveRun(fs[..n], namer, dir, current, cs, holds, disk);
      if prev.answer.Failure? then prev
      else
        var o := OutcomeOf(fs[n], namer, dir, current, cs, holds, prev.disk);
        var a := Answer(o);
        Run(if a.Failure? then a else Success(prev.answer.value && a.value),
            DiskAfter(prev.disk, fs[n].temporaryName, o), prev.outcomes + [o], prev.met + [prev.disk])
  }

  /** In a run each file attempted has the outcome `OutcomeOf` gives on the
      filesystem it met. */
  lemma {:induction false} SaveRunOutcomes(fs: seq<Facts>, namer: Option<Facts -> string>, dir: Option<string>,
                                           current: string, cs: seq<Entry>, holds: (Rule, Facts) -> bool,
                                           disk: FileUploads.Disk)
    ensures var run := SaveRun(fs, namer, dir, current, cs, holds, disk);
      forall j :: 0 <= j < |run.outcomes| ==>
        run.outcomes[j] == OutcomeOf(fs[j], namer, dir, current, cs, holds, run.met[j])
  {
    if fs != [] {
      var n := |fs| - 1;
      var prev := SaveRun(fs[..n], namer, dir, current, cs, holds, disk);
      SaveRunOutcomes(fs[..n], namer, dir, current, cs, holds, disk);
      var run := SaveRun(fs, namer, dir, current, cs, holds, disk);
      if prev.answer.Success? {
        var o := OutcomeOf(fs[n], namer, dir, current, cs, holds, prev.disk);
        assert run.outcomes == prev.outcomes + [o] && run.met == prev.met + [prev.disk];
        forall j | 0 <= j < |run.outcomes|
          ensures run.outcomes[j] == OutcomeOf(fs[j], namer, dir, current, cs, holds, run.met[j])
        {
          if j < n {
            assert fs[..n][j] == fs[j] && run.outcomes[j] == prev.outcomes[j] && run.met[j] == prev.met[j];
          }
        }
      } else {
        forall j | 0 <= j < |run.outcomes|
          ensures run.outcomes[j] == OutcomeOf(fs[j], namer, dir, current, cs, holds, run.met[j])
        {
          assert fs[..n][j] == fs[j];
        }
      }
    }
  }

  /** A run that is not ended by an exception attempted every file, none
      of them threw, and it answers whether all of them moved. */
  lemma {:induction false} SaveRunAnswer(fs: seq<Facts>, namer: Option<Facts -> string>, dir: Option<string>,
                                         current: string, cs: seq<Entry>, holds: (Rule, Facts) -> bool,
                                         disk: FileUploads.Disk)
    ensures var run := SaveRun(fs, namer, dir, current, cs, holds, disk);
      run.answer.Success? ==>
        (run.answer.value <==> forall j :: 0 <= j < |fs| ==> run.outcomes[j].Moved?)
        && forall j :: 0 <= j < |fs| ==> !run.outcomes[j].BadDirectory?
  {
    if fs != [] {
      var n := |fs| - 1;
      var prev := SaveRun(fs[..n], namer, dir, current, cs, holds, disk);
      var run := SaveRun(fs, namer, dir, current, cs, holds, disk);
      if run.answer.Success? && prev.answer.Success? {
        SaveRunAnswer(fs[..n], namer, dir, current, cs, holds, disk);
        var o := OutcomeOf(fs[n], namer, dir, current, cs, holds, prev.disk);
        assert run.outcomes == prev.outcomes + [o];
        assert forall j :: 0 <= j < n ==> run.outcomes[j] == prev.outcomes[j];
        assert run.outcomes[n] == o;
        assert (forall j :: 0 <= j < |fs| ==> run.outcomes[j].Moved?) <==>
          (forall j :: 0 <= j < n ==> prev.outcomes[j].Moved?) && o.Moved?;
      }
    }
  }

  /** A run ended by an exception ends with the file whose directory failed
      its check, and carries its message. */
  lemma {:induction false} SaveRunThrowsLast(fs: seq<Facts>, namer: Option<Facts -> string>, dir: Option<string>,
                                             current: string, cs: seq<Entry>, holds: (Rule, Facts) -> bool,
                                             disk: FileUploads.Disk)
    ensures var run := SaveRun(fs, namer, dir, current, cs, holds, disk);
      run.answer.Failure? ==>
        |run.outcomes| > 0 && run.outcomes[|run.outcomes| - 1].BadDirectory?
        && run.answer.error == run.outcomes[|run.outcomes| - 1].message
  {
    if fs != [] {
      SaveRunThrowsLast(fs[..|fs| - 1], namer, dir, current, cs, holds, disk);
    }
  }

  /** The first file of a run meets the filesystem the run started on, each
      later one the filesystem the one before left, and the run ends on the
      filesystem the last one left. */
  lemma {:induction false} SaveRunThreads(fs: seq<Facts>, namer: Option<Facts -> string>, dir: Option<string>,
                                          current: string, cs: seq<Entry>, holds: (Rule, Facts) -> bool,
                                          disk: FileUploads.Disk)
    ensures var run := SaveRun(fs, namer, dir, current, cs, holds, disk);
      var m := |run.outcomes|;
      && (m > 0 ==> run.met[0] == disk)
      && (forall j :: 0 <= j < m - 1 ==> run.met[j + 1] == DiskAfter(run.met[j], fs[j].temporaryName, run.outcomes[j]))
      && run.disk == if m == 0 then disk else DiskAfter(run.met[m - 1], fs[m - 1].temporaryName, run.outcomes[m - 1])
  {
    if fs != [] {
      var n := |fs| - 1;
      var prev := SaveRun(fs[..n], namer, dir, current, cs, holds, disk);
      SaveRunThreads(fs[..n], namer, dir, current, cs, holds, disk);
      var run := SaveRun(fs, namer, dir, current, cs, holds, disk);
      if prev.answer.Success? {
        var m := |prev.outcomes|;
        forall j | 0 <= j < m
          ensures run.met[j + 1] == DiskAfter(run.met[j], fs[j].temporaryName, run.outcomes[j])
        {
          assert fs[..n][j] == fs[j] && run.outcomes[j] == prev.outcomes[j] && run.met[j] == prev.met[j];
          if j + 1 < m {
            assert run.met[j + 1] == prev.met[j + 1];
          }
        }
      } else {
        forall j | 0 <= j < |run.outcomes|
          ensures fs[..n][j] == fs[j]
        {
        }
      }
    }
  }

  /** Saving one more file after a run that did not throw adds its outcome
      on the filesystem the files before it left. */
  lemma SaveRunStep(fs: seq<Facts>, namer: Option<Facts -> string>, dir: Option<string>, current: string,
                    cs: seq<Entry>, holds: (Rule, Facts) -> bool, disk: FileUploads.Disk, i: int)
    requires 0 <= i < |fs|
    requires SaveRun(fs[..i], namer, dir, current, cs, holds, disk).answer.Success?
    ensures var run := SaveRun(fs[..i], namer, dir, current, cs, holds, disk);
      var o := OutcomeOf(fs[i], namer, dir, current, cs, holds, run.disk);
      var a := Answer(o);
      SaveRun(fs[..i + 1], namer, dir, current, cs, holds, disk)
        == Run(if a.Failure? then a else Success(run.answer.value && a.value),
               DiskAfter(run.disk, fs[i].temporaryName, o), run.outcomes + [o], run.met + [run.disk])
  {
    assert fs[..i + 1][..i] == fs[..i];
  }

  /** An exception ends a run: the files after it change nothing. */
  lemma {:induction false} SaveRunStops(fs: seq<Facts>, namer: Option<Facts -> string>, dir: Option<string>,
                                        current: string, cs: seq<Entry>, holds: (Rule, Facts) -> bool,
                                        disk: FileUploads.Disk, i: int)
    requires 0 <= i <= |fs|
    requires SaveRun(fs[..i], namer, dir, current, cs, holds, disk).answer.Failure?
    ensures SaveRun(fs, namer, dir, current, cs, holds, disk) == SaveRun(fs[..i], namer, dir, current, cs, holds, disk)
    decreases |fs| - i
  {
    if i < |fs| {
      var n := |fs| - 1;
      assert fs[..n][..i] == fs[..i];
      SaveRunStops(fs[..n], namer, dir, current, cs, holds, disk, i);
      assert fs[..i] == fs[..n][..i];
    } else {
      assert fs[..i] == fs;
    }
  }

  /** Saving consumes uploads and creates files and nothing else: the
      directories and their permissions stay, no path disappears, and a run
      over files PHP reported errors for all leaves the filesystem as it
      was. */
  lemma {:induction false} SaveRunDisk(fs: seq<Facts>, namer: Option<Facts -> string>, dir: Option<string>,
                                       current: string, cs: seq<Entry>, holds: (Rule, Facts) -> bool,
                                       disk: FileUploads.Disk)
    ensures var run := SaveRun(fs, namer, dir, current, cs, holds, disk);
      && run.disk.directories == disk.directories && run.disk.writable == disk.writable
      && disk.existing <= run.disk.existing && run.disk.pending <= disk.pending
      && (!AnyOk(fs) ==> run.disk == disk)
  {
    if fs != [] {
      var n := |fs| - 1;
      SaveRunDisk(fs[..n], namer, dir, current, cs, holds, disk);
      AnyOkLast(fs);
    }
  }

  /** Whether PHP reported no upload error for some file. */
  predicate AnyOk(fs: seq<Facts>) {
    exists i :: 0 <= i < |fs| && fs[i].errorCode == UploadOk
  }

  /** Some file has no upload error when one of those before the last, or
      the last, has none. */
  lemma AnyOkLast(fs: seq<Facts>)
    requires fs != []
    ensures AnyOk(fs) <==> AnyOk(fs[..|fs| - 1]) || fs[|fs| - 1].errorCode == UploadOk
  {
    var n := |fs| - 1;
    if AnyOk(fs[..n]) {
      var i :| 0 <= i < n && fs[..n][i].errorCode == UploadOk;
      assert fs[i] == fs[..n][i];
    }
    if AnyOk(fs) {
      var i :| 0 <= i < |fs| && fs[i].errorCode == UploadOk;
      if i < n {
        assert fs[..n][i] == fs[i];
      }
    }
  }

  /** `saveFiles` throws exactly when a directory was asked for that fails
      its check and some file has no upload error: the first such file
      meets the filesystem unchanged, and a passing directory keeps passing
      as files are moved. */
  lemma {:induction false} SaveRunFails(fs: seq<Facts>, namer: Option<Facts -> string>, dir: Option<string>,
                                        current: string, cs: seq<Entry>, holds: (Rule, Facts) -> bool,
                                        disk: FileUploads.Disk)
    ensures SaveRun(fs, namer, dir, current, cs, holds, disk).answer.Failure? <==>
      dir.Some? && FileUploads.CheckUploadDirectory(disk, dir.value).Failure? && AnyOk(fs)
  {
    if fs != [] {
      var n := |fs| - 1;
      var prev := SaveRun(fs[..n], namer, dir, current, cs, holds, disk);
      SaveRunFails(fs[..n], namer, dir, current, cs, holds, disk);
      SaveRunDisk(fs[..n], namer, dir, current, cs, holds, disk);
      AnyOkLast(fs);
      if prev.answer.Success? && !AnyOk(fs[..n]) {
        assert prev.disk == disk;
      }
    }
  }

  /** A moved file had no upload error and every rule held for it under
      its chosen name; it lies under that name in the directory asked for,
      or the current one. */
  lemma MovedPassed(fs: seq<Facts>, namer: Option<Facts -> string>, dir: Option<string>, current: string,
                    cs: seq<Entry>, holds: (Rule, Facts) -> bool, disk: FileUploads.Disk, j: int)
    requires 0 <= j < |SaveRun(fs, namer, dir, current, cs, holds, disk).outcomes|
    ensures var o := SaveRun(fs, namer, dir, current, cs, holds, disk).outcomes[j];
      o.Moved? ==>
        fs[j].errorCode == UploadOk
        && (forall k :: 0 <= k < |cs| ==> holds(cs[k].rule, Named(namer, fs[j])))
        && o.path == dir.GetOr(current) + "/" + ChosenName(namer, fs[j])
  {
    SaveRunOutcomes(fs, namer, dir, current, cs, holds, disk);
    NotHoldingEmpty(cs, holds, Named(namer, fs[j]));
  }

  /** What each file records as a run goes on: a file attempted has what
      its outcome records, a file not attempted is as it was. */
  predicate Recorded(now: seq<Saved>, fs: seq<Facts>, namer: Option<Facts -> string>, outcomes: seq<Outcome>,
                     before: seq<Saved>)
  {
    |now| == |before| == |fs| && |outcomes| <= |fs|
    && forall j :: 0 <= j < |now| ==>
         now[j] == if j < |outcomes| then SavedAfter(before[j], fs[j], namer, outcomes[j]) else before[j]
  }

  /** One more file saved with outcome `o` changes that file's record
      only. */
  lemma RecordedStep(now: seq<Saved>, fs: seq<Facts>, namer: Option<Facts -> string>, outcomes: seq<Outcome>,
                     before: seq<Saved>, o: Outcome)
    requires Recorded(now, fs, namer, outcomes, before) && |outcomes| < |now|
    ensures var i := |outcomes|;
      Recorded(now[i := SavedAfter(now[i], fs[i], namer, o)], fs, namer, outcomes + [o], before)
  {
    var i := |outcomes|;
    var now' := now[i := SavedAfter(now[i], fs[i], namer, o)];
    forall j | 0 <= j < |now'|
      ensures now'[j] == if j < i + 1 then SavedAfter(before[j], fs[j], namer, (outcomes + [o])[j]) else before[j]
    {
      if j < i {
        assert (outcomes + [o])[j] == outcomes[j];
      }
    }
  }

  /** After a run that did not throw, each file is uploaded exactly when
      it moved, under its chosen name in the directory asked for or the
      current one, and the answer is whether all were uploaded. */
  lemma SettledRecords(now: seq<Saved>, fs: seq<Facts>, namer: Option<Facts -> string>, dir: Option<string>,
                       current: string, cs: seq<Entry>, holds: (Rule, Facts) -> bool, disk: FileUploads.Disk,
                       before: seq<Saved>)
    requires var run := SaveRun(fs, namer, dir, current, cs, holds, disk);
      run.answer.Success? && Recorded(now, fs, namer, run.outcomes, before)
    ensures var run := SaveRun(fs, namer, dir, current, cs, holds, disk);
      && (run.answer.value <==> forall j :: 0 <= j < |now| ==> now[j].isUploaded)
      && forall j :: 0 <= j < |now| ==>
           now[j].name == ChosenName(namer, fs[j])
           && (now[j].isUploaded ==> now[j].filePath == Some(dir.GetOr(current) + "/" + now[j].name))
  {
    var run := SaveRun(fs, namer, dir, current, cs, holds, disk);
    SaveRunAnswer(fs, namer, dir, current, cs, holds, disk);
    SaveRunOutcomes(fs, namer, dir, current, cs, holds, disk);
    assert forall j :: 0 <= j < |now| ==> now[j].isUploaded == run.outcomes[j].Moved?;
  }

  class FileUploader {
    /** The directory set by a passing check; "" while none is (PHP null). */
    var uploadDirectory: string
    /** The keys and the files of the files array, in order. */
    const fields: seq<string>
    const files: seq<LegacyFile>
    const isMultiFileUpload: bool
    var constraints: seq<Entry>

    ghost predicate Valid()
      reads this
    {
      |fields| == |files| && FileUploads.Distinct(files) && UniqueKeys(constraints)
    }

    /** An uploader over a directory, the rule array it is given and the
        files read from `$_FILES`. A directory that fails the check is an
        exception, so an uploader only exists over one that passes. */
    constructor (dir: string, disk: FileUploads.Disk, rules: seq<Entry>, fields: seq<string>,
                 files: seq<LegacyFile>, multi: bool)
      requires FileUploads.CheckUploadDirectory(disk, dir).Success?
      requires UniqueKeys(rules) && |fields| == |files| && FileUploads.Distinct(files)
      ensures Valid() && uploadDirectory == dir && constraints == rules
      ensures this.fields == fields && this.files == files && isMultiFileUpload == multi
    {
      uploadDirectory := dir;
      this.fields, this.files, isMultiFileUpload := fields, files, multi;
      constraints := rules;
    }

    /** Sets the directory when it passes the check; a failing check is an
        exception, the directory kept. */
    method SetUploadDirectory(dir: string, disk: FileUploads.Disk) returns (r: Result<(), string>)
      modifies this`uploadDirectory
      ensures r == FileUploads.CheckUploadDirectory(disk, dir)
      ensures uploadDirectory == if r.Success? then dir else old(uploadDirectory)
    {
      r := FileUploads.CheckUploadDirectory(disk, dir);
      if r.Success? {
        uploadDirectory := dir;
      }
    }

    /** The file read from a field; a multi-file upload refuses the question
        with an exception, and a field without a file gives null. */
    function GetFile(field: string): (r: Result<Option<LegacyFile>, string>)
      reads this
      requires Valid()
      ensures r.Failure? <==> isMultiFileUpload
      ensures r.Failure? ==> r.error == MultiUploadMessage
      ensures r.Success? ==> (r.value.Some? <==> field in fields)
      ensures r.Success? && r.value.Some? ==>
        exists i :: 0 <= i < |fields| && fields[i] == field && files[i] == r.value.value
    {
      if isMultiFileUpload then Failure(MultiUploadMessage)
      else match FileUploads.IndexOf(fields, field)
        case None => Success(None)
        case Some(i) => Success(Some(files[i]))
    }

    /** Stores a rule under its name, replacing one stored there before. */
    method AddConstraint(rule: Rule)
      requires Valid()
      modifies this`constraints
      ensures Valid() && constraints == Put(old(constraints), rule.name, rule)
    {
      LookupPut(constraints, rule.name, rule, rule.name);
      constraints := Put(constraints, rule.name, rule);
    }

    /** Stores each rule in order. */
    method AddConstraints(rules: seq<Rule>)
      requires Valid()
      modifies this`constraints
      ensures Valid() && constraints == PutAll(old(constraints), rules)
    {
      var i := 0;
      while i < |rules|
        invariant 0 <= i <= |rules| && Valid()
        invariant PutAll(old(constraints), rules) == PutAll(constraints, rules[i..])
      {
        assert rules[i..][1..] == rules[i + 1..];
        AddConstraint(rules[i]);
        i := i + 1;
      }
    }

    method RemoveAllConstraints()
      requires Valid()
      modifies this`constraints
      ensures Valid() && constraints == []
    {
      constraints := [];
    }

    /** Removes the rule stored under a name, if there is one. */
    method RemoveConstraint(name: string)
      requires Valid()
      modifies this`constraints
      ensures Valid() && constraints == Delete(old(constraints), name)
    {
      DeleteUnique(constraints, name);
      constraints := Delete(constraints, name);
    }

    /** Asks every rule, in order, and lists those that do not hold. */
    method GetConstraintsNotHolding(file: LegacyFile, holds: (Rule, Facts) -> bool) returns (r: seq<Rule>)
      ensures r == NotHolding(constraints, holds, file.FactsOf())
    {
      var facts := file.FactsOf();
      r := [];
      var i := 0;
      while i < |constraints|
        invariant 0 <= i <= |constraints|
        invariant r == NotHolding(constraints[..i], holds, facts)
      {
        assert constraints[..i + 1][..i] == constraints[..i];
        if !holds(constraints[i].rule, facts) {
          r := r + [constraints[i].rule];
        }
        i := i + 1;
      }
      assert constraints[..i] == constraints;
    }

    method GetFilesWithErrors() returns (r: seq<LegacyFile>)
      ensures r == WithErrors(files, true)
    {
      r := Select(true);
    }

    method GetFilesWithoutErrors() returns (r: seq<LegacyFile>)
      ensures r == WithErrors(files, false)
    {
      r := Select(false);
    }

    /** The loop both lists share. */
    method Select(failed: bool) returns (r: seq<LegacyFile>)
      ensures r == WithErrors(files, failed)
    {
      r := [];
      var i := 0;
      while i < |files|
        invariant 0 <= i <= |files|
        invariant r == WithErrors(files[..i], failed)
      {
        assert files[..i + 1][..i] == files[..i];
        if (files[i].errorCode != UploadOk) == failed {
          r := r + [files[i]];
        }
        i := i + 1;
      }
      assert files[..i] == files;
    }

    /** Saves one file: an upload error marks it not uploaded; a directory
        asked for that fails its check is an exception and changes nothing;
        any rule that does not hold marks it not uploaded with all such
        rules recorded, and nothing moves; otherwise it moves to the
        directory under its name, which records the path and marks it
        uploaded, or it is marked not uploaded when the move fails. */
    method SaveFile(file: LegacyFile, dir: Option<string>, holds: (Rule, Facts) -> bool, disk: FileUploads.Disk)
      returns (r: Result<bool, string>, disk': FileUploads.Disk)
      modifies file`isUploaded, file`filePath, file`brokenConstraints
      ensures var o := old(Decide(file.FactsOf(), dir, uploadDirectory,
                                  NotHolding(constraints, holds, file.FactsOf()), disk));
        r == Answer(o)
        && (if o.BadDirectory? then unchanged(file) else file.isUploaded == o.Moved?)
        && file.brokenConstraints == (if o.Broken? then o.rules else old(file.brokenConstraints))
        && file.filePath == (if o.Moved? then Some(o.path) else old(file.filePath))
        && disk' == (if o.Moved? then FileUploads.AfterMove(disk, file.temporaryName, o.path) else disk)
    {
      disk' := disk;
      if file.errorCode != UploadOk {
        file.isUploaded := false;
        return Success(false), disk;
      }
      var d := uploadDirectory;
      if dir.Some? {
        var check := FileUploads.CheckUploadDirectory(disk, dir.value);
        if check.Failure? {
          return Failure(check.error), disk;
        }
        d := dir.value;
      }
      var broken := GetConstraintsNotHolding(file, holds);
      if broken == [] {
        var path := d + "/" + file.name;
        if FileUploads.CanMove(disk, file.temporaryName, d) {
          disk' := FileUploads.AfterMove(disk, file.temporaryName, path);
          file.filePath := Some(path);
          file.isUploaded := true;
          r := Success(true);
        } else {
          file.isUploaded := false;
          r := Success(false);
        }
      } else {
        file.isUploaded := false;
        file.brokenConstraints := broken;
        r := Success(false);
      }
    }

    /** A file `saveFiles` is done with: it went through `SaveFile` under
        the name chosen for it, so it is uploaded exactly when it moved, to
        the directory under that name. */
    ghost predicate Settled(f: LegacyFile, d: string)
      reads f
    {
      f.isUploaded ==> f.filePath == Some(d + "/" + f.name)
    }

    /** Names file `i` and saves it: the answer, the filesystem and what the
        file records are as `OutcomeOf` says for its facts, and no other
        file changes. */
    method SaveNext(i: nat, namer: Option<Facts -> string>, dir: Option<string>, holds: (Rule, Facts) -> bool,
                    disk: FileUploads.Disk)
      returns (r: Result<bool, string>, disk': FileUploads.Disk)
      requires Valid() && i < |files|
      modifies files[i]
      ensures var f := old(files[i].FactsOf());
        var o := OutcomeOf(f, namer, dir, uploadDirectory, constraints, holds, disk);
        && r == Answer(o) && disk' == DiskAfter(disk, f.temporaryName, o)
        && Snapshot(files) == old(Snapshot(files))[i := SavedAfter(old(files[i].SavedOf()), f, namer, o)]
    {
      var f := files[i];
      ghost var facts := f.FactsOf();
      ghost var now := Snapshot(files);
      f.name := ChosenName(namer, f.FactsOf());
      assert f.FactsOf() == Named(namer, facts);
      r, disk' := SaveFile(f, dir, holds, disk);
      assert Snapshot(files) == now[i := f.SavedOf()] by {
        forall j | 0 <= j < |files| && j != i
          ensures Snapshot(files)[j] == now[j]
        {
          assert files[j] != f;
        }
      }
    }

    /** `facts` are the facts of the files with the names `before`
        records. */
    static predicate Known(fs: seq<LegacyFile>, facts: seq<Facts>, before: seq<Saved>) {
      |fs| == |facts| == |before|
      && forall j :: 0 <= j < |fs| ==>
           facts[j] == Facts(before[j].name, fs[j].temporaryName, fs[j].fieldName, fs[j].mimeType, fs[j].size,
                             fs[j].errorCode)
    }

    /** How far the loop of `saveFiles` has got: the first `i` files, whose
        facts were `facts`, were saved as the run over them from `disk0`
        says, with answer `r` and filesystem `disk`; the others are as they
        were. */
    ghost predicate SaveProgress(i: int, namer: Option<Facts -> string>, dir: Option<string>,
                                 holds: (Rule, Facts) -> bool, disk0: FileUploads.Disk, facts: seq<Facts>,
                                 before: seq<Saved>, r: Result<bool, string>, disk: FileUploads.Disk)
      reads this, files
    {
      Valid() && 0 <= i <= |files| == |facts| && Known(files, facts, before)
      && var run := SaveRun(facts[..i], namer, dir, uploadDirectory, constraints, holds, disk0);
         run.answer == r && run.disk == disk && Recorded(Snapshot(files), facts, namer, run.outcomes, before)
    }

    /** One turn of the loop of `saveFiles`. */
    method SaveTurn(i: nat, namer: Option<Facts -> string>, dir: Option<string>, holds: (Rule, Facts) -> bool,
                    ghost disk0: FileUploads.Disk, ghost facts: seq<Facts>, ghost before: seq<Saved>,
                    r0: Result<bool, string>, disk: FileUploads.Disk)
      returns (r: Result<bool, string>, disk': FileUploads.Disk)
      requires i < |files| && r0.Success?
      requires SaveProgress(i, namer, dir, holds, disk0, facts, before, r0, disk)
      modifies files
      ensures SaveProgress(i + 1, namer, dir, holds, disk0, facts, before, r, disk')
    {
      ghost var now := Snapshot(files);
      assert files[i].FactsOf() == facts[i] by {
        SaveRunAnswer(facts[..i], namer, dir, uploadDirectory, constraints, holds, disk0);
        assert now[i] == before[i];
      }
      var saved;
      saved, disk' := SaveNext(i, namer, dir, holds, disk);
      r := if saved.Failure? then saved else Success(r0.value && saved.value);
      NextProgress(i, namer, dir, holds, disk0, facts, before, r0, disk, now, saved, disk', r);
    }

    /** What `SaveNext` ensures about file `i`, after the first `i` files
        were saved, is the next step of the loop. */
    lemma NextProgress(i: nat, namer: Option<Facts -> string>, dir: Option<string>, holds: (Rule, Facts) -> bool,
                       disk0: FileUploads.Disk, facts: seq<Facts>, before: seq<Saved>, r0: Result<bool, string>,
                       disk: FileUploads.Disk, now: seq<Saved>, saved: Result<bool, string>,
                       disk': FileUploads.Disk, r: Result<bool, string>)
      requires Valid() && i < |files| == |facts| && Known(files, facts, before)
      requires var run := SaveRun(facts[..i], namer, dir, uploadDirectory, constraints, holds, disk0);
        run.answer == r0 && r0.Success? && run.disk == disk && Recorded(now, facts, namer, run.outcomes, before)
      requires var o := OutcomeOf(facts[i], namer, dir, uploadDirectory, constraints, holds, disk);
        saved == Answer(o) && disk' == DiskAfter(disk, facts[i].temporaryName, o)
        && Snapshot(files) == now[i := SavedAfter(now[i], facts[i], namer, o)]
      requires r == if saved.Failure? then saved else Success(r0.value && saved.value)
      ensures SaveProgress(i + 1, namer, dir, holds, disk0, facts, before, r, disk')
    {
      var run := SaveRun(facts[..i], namer, dir, uploadDirectory, constraints, holds, disk0);
      var o := OutcomeOf(facts[i], namer, dir, uploadDirectory, constraints, holds, disk);
      SaveRunAnswer(facts[..i], namer, dir, uploadDirectory, constraints, holds, disk0);
      SaveRunStep(facts, namer, dir, uploadDirectory, constraints, holds, disk0, i);
      RecordedStep(now, facts, namer, run.outcomes, before, o);
    }

    /** The loop of `saveFiles`: saves the files in order until one
        throws. */
    method SaveEach(namer: Option<Facts -> string>, dir: Option<string>, holds: (Rule, Facts) -> bool,
                    disk: FileUploads.Disk, ghost facts: seq<Facts>, ghost before: seq<Saved>)
      returns (r: Result<bool, string>, disk': FileUploads.Disk)
      requires Valid() && facts == FactsList(files) && before == Snapshot(files)
      modifies files
      ensures var run := SaveRun(facts, namer, dir, uploadDirectory, constraints, holds, disk);
        r == run.answer && disk' == run.disk && Recorded(Snapshot(files), facts, namer, run.outcomes, before)
    {
      r, disk' := Success(true), disk;
      var i := 0;
      EachStart(namer, dir, holds, disk, facts, before);
      while i < |files| && r.Success?
        invariant i <= |files| && SaveProgress(i, namer, dir, holds, disk, facts, before, r, disk')
      {
        r, disk' := SaveTurn(i, namer, dir, holds, disk, facts, before, r, disk');
        i := i + 1;
      }
      EachDone(i, namer, dir, holds, disk, facts, before, r, disk');
    }

    /** The loop of `saveFiles` starts with no file saved. */
    lemma EachStart(namer: Option<Facts -> string>, dir: Option<string>, holds: (Rule, Facts) -> bool,
                    disk: FileUploads.Disk, facts: seq<Facts>, before: seq<Saved>)
      requires Valid() && facts == FactsList(files) && before == Snapshot(files)
      ensures SaveProgress(0, namer, dir, holds, disk, facts, before, Success(true), disk)
    {
      assert facts[..0] == [];
    }

    /** The loop of `saveFiles` ends on the run over all the files: every
        file was saved, or an exception ended the run. */
    lemma EachDone(i: int, namer: Option<Facts -> string>, dir: Option<string>, holds: (Rule, Facts) -> bool,
                   disk0: FileUploads.Disk, facts: seq<Facts>, before: seq<Saved>, r: Result<bool, string>,
                   disk: FileUploads.Disk)
      requires SaveProgress(i, namer, dir, holds, disk0, facts, before, r, disk)
      requires i == |files| || r.Failure?
      ensures var run := SaveRun(facts, namer, dir, uploadDirectory, constraints, holds, disk0);
        r == run.answer && disk == run.disk && Recorded(Snapshot(files), facts, namer, run.outcomes, before)
    {
      if i == |files| {
        assert facts[..i] == facts;
      } else {
        SaveRunStops(facts, namer, dir, uploadDirectory, constraints, holds, disk0, i);
      }
    }

    /** What the files record after the run over them: the run throws
        exactly when a directory was asked for that fails its check and
        some file has no upload error; otherwise each file is uploaded
        exactly when it moved, under its chosen name in the directory asked
        for or the current one, and the answer is whether all were
        uploaded. */
    lemma FilesSaved(namer: Option<Facts -> string>, dir: Option<string>, holds: (Rule, Facts) -> bool,
                     disk: FileUploads.Disk, facts: seq<Facts>, before: seq<Saved>, r: Result<bool, string>)
      requires Known(files, facts, before)
      requires var run := SaveRun(facts, namer, dir, uploadDirectory, constraints, holds, disk);
        r == run.answer && Recorded(Snapshot(files), facts, namer, run.outcomes, before)
      ensures r.Failure? <==>
        dir.Some? && FileUploads.CheckUploadDirectory(disk, dir.value).Failure?
        && exists i :: 0 <= i < |files| && files[i].errorCode == UploadOk
      ensures r.Success? ==> (r.value <==> forall i :: 0 <= i < |files| ==> files[i].isUploaded)
      ensures r.Success? ==> forall i :: 0 <= i < |files| ==>
        files[i].name == ChosenName(namer, facts[i]) && Settled(files[i], dir.GetOr(uploadDirectory))
    {
      SaveRunFails(facts, namer, dir, uploadDirectory, constraints, holds, disk);
      assert AnyOk(facts) <==> exists i :: 0 <= i < |files| && files[i].errorCode == UploadOk by {
        assert forall j :: 0 <= j < |files| ==> facts[j].errorCode == files[j].errorCode;
      }
      if r.Success? {
        SettledRecords(Snapshot(files), facts, namer, dir, uploadDirectory, constraints, holds, disk, before);
      }
    }

    /** Names and saves every file, in order, going on after a file that
        fails, as `SaveRun` says: the answer is whether all were saved, or
        the exception of a directory that fails its check, which ends it
        with the files before it saved. */
    method SaveFiles(namer: Option<Facts -> string>, dir: Option<string>, holds: (Rule, Facts) -> bool,
                     disk: FileUploads.Disk)
      returns (r: Result<bool, string>, disk': FileUploads.Disk)
      requires Valid()
      modifies files
      ensures var run := SaveRun(old(FactsList(files)), namer, dir, uploadDirectory, constraints, holds, disk);
        r == run.answer && disk' == run.disk
        && Recorded(Snapshot(files), old(FactsList(files)), namer, run.outcomes, old(Snapshot(files)))
      ensures r.Failure? <==>
        dir.Some? && FileUploads.CheckUploadDirectory(disk, dir.value).Failure?
        && exists i :: 0 <= i < |files| && files[i].errorCode == UploadOk
      ensures r.Success? ==> (r.value <==> forall i :: 0 <= i < |files| ==> files[i].isUploaded)
      ensures r.Success? ==> forall i :: 0 <= i < |files| ==>
        files[i].name == ChosenName(namer, old(files[i].FactsOf())) && Settled(files[i], dir.GetOr(uploadDirectory))
    {
      ghost var facts := FactsList(files);
      ghost var before := Snapshot(files);
      r, disk' := SaveEach(namer, dir, holds, disk, facts, before);
      FilesSaved(namer, dir, holds, disk, facts, before, r);
    }
  }
}
