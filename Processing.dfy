/**
 * Validating and copying scenario files (`process_file`, `process_directory`,
 * `process_all_directories`). The target side of the filesystem is a `FileSystem`
 * object: the set of paths that exist there, and the directories and targets where
 * creating a directory or copying a file fails. Each method is proved against a
 * specification function over those sets, and the lemmas are about the functions.
 * Line numbers in this module refer to data_utils/post_processing.py.
 */
module Processing {
  import opened Options
  import opened JsonValues
  import opened Validator
  import opened Selection

  /** What `process_file` does: return `(str(source_path), is_valid)`, or let the validator's exception escape. */
  datatype FileResult = Returned(path: string, valid: bool) | Raised

  /** What `process_directory` does: return the valid and invalid counts, or abort with an escaping exception. */
  datatype DirResult = Counted(valid: nat, invalid: nat) | Aborted

  /** `Path(target_dir) / source_path.name`. */
  function TargetOf(targetDir: Path, src: SourceFile): Path {
    targetDir + [Name(src.path)]
  }

  /** A target has the source's name and lies directly inside the target directory. */
  lemma TargetOfShape(targetDir: Path, src: SourceFile)
    ensures var t := TargetOf(targetDir, src);
      |t| == |targetDir| + 1 && Name(t) == Name(src.path) && t[..|targetDir|] == targetDir
  {
  }

  /**
   * One call of `process_file` on a filesystem whose existing target-side paths are
   * `files`: the result and the paths that exist afterwards.
   */
  function FileStep(files: set<Path>, mkdirFails: set<Path>, copyFails: set<Path>,
                    src: SourceFile, targetDir: Option<Path>, shouldCopy: bool): (FileResult, set<Path>)
  {
    var verdict := Check(src.content);
    var path := Join(src.path);
    if verdict == Raises then (Raised, files)
    else if verdict == Invalid then (Returned(path, false), files)
    else if shouldCopy && targetDir.Some? then
      var target := TargetOf(targetDir.value, src);
      if targetDir.value in mkdirFails then (Returned(path, false), files)
      else if target in files then (Returned(path, true), files)
      else if target in copyFails then (Returned(path, false), files)
      else (Returned(path, true), files + {target})
    else (Returned(path, true), files)
  }

  /** What one call of `process_file` guarantees. */
  lemma FileStepFacts(files: set<Path>, mkdirFails: set<Path>, copyFails: set<Path>,
                      src: SourceFile, targetDir: Option<Path>, shouldCopy: bool)
    ensures var out := FileStep(files, mkdirFails, copyFails, src, targetDir, shouldCopy);
      // the validator's uncaught exception is the only way out without a result, and it changes nothing
      && (out.0.Raised? <==> Check(src.content) == Raises)
      && (out.0.Raised? ==> out.1 == files)
      && (out.0.Returned? ==> out.0.path == Join(src.path))
      // an invalid file is reported False and never copied
      && (Check(src.content) == Invalid ==> out == (Returned(Join(src.path), false), files))
      && (out.0.Returned? && out.0.valid ==> Check(src.content) == Valid)
      // the only possible change is the creation of this file's target
      && (files <= out.1)
      && (out.1 != files ==> targetDir.Some? && out.1 == files + {TargetOf(targetDir.value, src)})
      // a copy happens exactly for a valid file with copying requested, a creatable
      // directory and a target that is absent and writable
      && (out.1 != files <==>
            Check(src.content) == Valid && shouldCopy && targetDir.Some? && targetDir.value !in mkdirFails &&
            TargetOf(targetDir.value, src) !in files && TargetOf(targetDir.value, src) !in copyFails)
      // with copying requested, True means the target exists afterwards
      && (shouldCopy && targetDir.Some? && out.0.Returned? && out.0.valid ==> TargetOf(targetDir.value, src) in out.1)
      // a valid file is reported False only when creating the directory or copying fails
      && (Check(src.content) == Valid && out.0 == Returned(Join(src.path), false) ==>
            shouldCopy && targetDir.Some? &&
            (targetDir.value in mkdirFails ||
             (TargetOf(targetDir.value, src) !in files && TargetOf(targetDir.value, src) in copyFails)))
      // an existing target is left as it is and the file still counts as valid
      && ((Check(src.content) == Valid && targetDir.Some? && TargetOf(targetDir.value, src) in files &&
           targetDir.value !in mkdirFails) ==> out == (Returned(Join(src.path), true), files))
      // a directory that cannot be created makes a valid file False, whether or not its target exists
      && ((Check(src.content) == Valid && shouldCopy && targetDir.Some? && targetDir.value in mkdirFails) ==>
            out == (Returned(Join(src.path), false), files))
  {
  }

  /**
   * The queue `srcs` processed in order with `should_copy` set and target directory
   * `targetDir`: the list of result tuples, or None once a file raises (which ends
   * the run), and the paths that exist afterwards.
   */
  function RunFiles(files: set<Path>, mkdirFails: set<Path>, copyFails: set<Path>,
                    srcs: seq<SourceFile>, targetDir: Path): (out: (Option<seq<(string, bool)>>, set<Path>))
  {
    if srcs == [] then (Some([]), files)
    else
      var init := srcs[..|srcs| - 1];
      var src := srcs[|srcs| - 1];
      var (rs, f) := RunFiles(files, mkdirFails, copyFails, init, targetDir);
      if rs.None? then (None, f)
      else
        var (r, f') := FileStep(f, mkdirFails, copyFails, src, Some(targetDir), true);
        if r.Raised? then (None, f') else (Some(rs.value + [(r.path, r.valid)]), f')
  }

  /** A run over a queue aborts exactly when some queued file makes the validator raise. */
  lemma {:induction false} RunFilesAborts(files: set<Path>, mkdirFails: set<Path>, copyFails: set<Path>,
                                          srcs: seq<SourceFile>, targetDir: Path)
    ensures RunFiles(files, mkdirFails, copyFails, srcs, targetDir).0.None? <==>
      exists k :: 0 <= k < |srcs| && Check(srcs[k].content) == Raises
  {
    if srcs != [] {
      var init := srcs[..|srcs| - 1];
      RunFilesAborts(files, mkdirFails, copyFails, init, targetDir);
      assert forall k :: 0 <= k < |init| ==> init[k] == srcs[k];
      var f := RunFiles(files, mkdirFails, copyFails, init, targetDir).1;
      FileStepFacts(f, mkdirFails, copyFails, srcs[|srcs| - 1], Some(targetDir), true);
    }
  }

  /**
   * A run that does not abort yields one result per queued file, in queue order:
   * the file's path and a flag that is True only for a valid file and always
   * False for an invalid one. The flag is decided by the filesystem before the
   * run: a valid file gets True exactly when its directory can be created and its
   * target either existed already or can be written. That holds because no path a
   * run creates is one that cannot be written.
   */
  lemma {:induction false} RunFilesResults(files: set<Path>, mkdirFails: set<Path>, copyFails: set<Path>,
                                           srcs: seq<SourceFile>, targetDir: Path)
    ensures var out := RunFiles(files, mkdirFails, copyFails, srcs, targetDir);
      && (forall p :: p in out.1 && p !in files ==> p !in copyFails)
      && (out.0.Some? ==>
        && |out.0.value| == |srcs|
        && forall k :: 0 <= k < |srcs| ==>
             && out.0.value[k].0 == Join(srcs[k].path)
             && (out.0.value[k].1 ==> Check(srcs[k].content) == Valid)
             && (Check(srcs[k].content) == Invalid ==> !out.0.value[k].1)
             && (out.0.value[k].1 <==>
                   Check(srcs[k].content) == Valid && targetDir !in mkdirFails &&
                   (TargetOf(targetDir, srcs[k]) in files || TargetOf(targetDir, srcs[k]) !in copyFails)))
  {
    if srcs != [] {
      var init := srcs[..|srcs| - 1];
      var src := srcs[|srcs| - 1];
      RunFilesResults(files, mkdirFails, copyFails, init, targetDir);
      RunFilesGrows(files, mkdirFails, copyFails, init, targetDir);
      assert forall k :: 0 <= k < |init| ==> init[k] == srcs[k];
      var (rs, f) := RunFiles(files, mkdirFails, copyFails, init, targetDir);
      FileStepFacts(f, mkdirFails, copyFails, src, Some(targetDir), true);
      var t := TargetOf(targetDir, src);
      assert t in f <==> t in files || (t in f && t !in files);
      if rs.Some? {
        var (r, f') := FileStep(f, mkdirFails, copyFails, src, Some(targetDir), true);
        if r.Returned? {
          var rs' := rs.value + [(r.path, r.valid)];
          assert forall k :: 0 <= k < |init| ==> rs'[k] == rs.value[k];
        }
      }
    }
  }

  /** A run removes nothing, and every path it creates is the target of a queued file. */
  lemma {:induction false} RunFilesGrows(files: set<Path>, mkdirFails: set<Path>, copyFails: set<Path>,
                                         srcs: seq<SourceFile>, targetDir: Path)
    ensures var after := RunFiles(files, mkdirFails, copyFails, srcs, targetDir).1;
      && files <= after
      && forall p :: p in after && p !in files ==> exists k :: 0 <= k < |srcs| && p == TargetOf(targetDir, srcs[k])
  {
    if srcs != [] {
      var init := srcs[..|srcs| - 1];
      RunFilesGrows(files, mkdirFails, copyFails, init, targetDir);
      assert forall k :: 0 <= k < |init| ==> init[k] == srcs[k];
      var f := RunFiles(files, mkdirFails, copyFails, init, targetDir).1;
      FileStepFacts(f, mkdirFails, copyFails, srcs[|srcs| - 1], Some(targetDir), true);
    }
  }

  /** One more queued file: the run so far, then that file on the resulting filesystem. */
  lemma RunFilesSnoc(files: set<Path>, mkdirFails: set<Path>, copyFails: set<Path>,
                     srcs: seq<SourceFile>, src: SourceFile, targetDir: Path,
                     results: seq<(string, bool)>, r: FileResult, f': set<Path>)
    requires RunFiles(files, mkdirFails, copyFails, srcs, targetDir).0 == Some(results)
    requires (r, f') == FileStep(RunFiles(files, mkdirFails, copyFails, srcs, targetDir).1, mkdirFails, copyFails, src, Some(targetDir), true)
    ensures RunFiles(files, mkdirFails, copyFails, srcs + [src], targetDir) ==
      if r.Raised? then (None, f') else (Some(results + [(r.path, r.valid)]), f')
  {
    assert (srcs + [src])[..|srcs|] == srcs;
  }

  /** How many of the result tuples carry `flag`. */
  function CountFlag(results: seq<(string, bool)>, flag: bool): nat {
    if results == [] then 0
    else CountFlag(results[..|results| - 1], flag) + (if results[|results| - 1].1 == flag then 1 else 0)
  }

  /**
   * `Path(target_base_dir) / dataset_path.name`, or the dataset directory itself
   * without a target base. A dataset path with no name (`Path("")`) leaves the
   * target base as it is.
   */
  function TargetDirFor(dataset: Path, targetBase: Option<Path>): (r: Path)
    ensures targetBase.None? ==> r == dataset
    ensures targetBase.Some? && dataset == [] ==> r == targetBase.value
    ensures targetBase.Some? && dataset != [] ==>
      |r| == |targetBase.value| + 1 && Name(r) == Name(dataset) && r[..|r| - 1] == targetBase.value
  {
    match targetBase
    case None => dataset
    case Some(base) => if dataset == [] then base else base + [Name(dataset)]
  }

  /**
   * When the target directory is the dataset itself (no target base, or a target
   * base equal to the source base), a main-directory file is its own target. When
   * the target side records the dataset's own entries, and the dataset directory
   * can be "created" (it exists), `exists()` holds: the file keeps its verdict as
   * the result and nothing is copied.
   */
  lemma InPlaceMainFileKept(files: set<Path>, mkdirFails: set<Path>, copyFails: set<Path>,
                            dataset: Path, targetBase: Option<Path>, src: SourceFile)
    requires TargetDirFor(dataset, targetBase) == dataset
    requires |src.path| == |dataset| + 1 && src.path[..|dataset|] == dataset
    requires src.path in files
    requires dataset !in mkdirFails
    requires Check(src.content) != Raises
    ensures FileStep(files, mkdirFails, copyFails, src, Some(TargetDirFor(dataset, targetBase)), true) ==
      (Returned(Join(src.path), Check(src.content) == Valid), files)
  {
    assert src.path == dataset + [Name(src.path)];
  }

  /** A target base equal to the source base makes a split directory its own target directory. */
  lemma SourceBaseAsTarget(base: Path, split: string)
    ensures TargetDirFor(base + [split], Some(base)) == base + [split]
  {
  }

  /** How many files a run over `dataset` queues: none when it is not a directory. */
  function SelectedCount(root: seq<Node>, dataset: Path): nat {
    match Lookup(root, dataset)
    case None => 0
    case Some(children) => |Selected(dataset, children)|
  }

  /**
   * One call of `process_directory` for the directory `dataset` of the source tree
   * `root`: the counts, or Aborted, and the target-side paths that exist afterwards.
   */
  function DirectoryStep(files: set<Path>, mkdirFails: set<Path>, copyFails: set<Path>,
                         root: seq<Node>, dataset: Path, targetBase: Option<Path>): (out: (DirResult, set<Path>))
  {
    match Lookup(root, dataset)
    case None => (Counted(0, 0), files)
    case Some(children) =>
      var srcs := Selected(dataset, children);
      var td := TargetDirFor(dataset, targetBase);
      var (rs, f) := RunFiles(files, mkdirFails, copyFails, srcs, td);
      if rs.None? then (Aborted, f)
      else
        (Counted(CountFlag(rs.value, true), CountFlag(rs.value, false)), f)
  }

  /** `DirectoryStep` on an existing directory, in terms of the run over its queue. */
  lemma DirectoryStepOf(files: set<Path>, mkdirFails: set<Path>, copyFails: set<Path>,
                        root: seq<Node>, dataset: Path, targetBase: Option<Path>, children: seq<Node>)
    requires Lookup(root, dataset) == Some(children)
    ensures
      var run := RunFiles(files, mkdirFails, copyFails, Selected(dataset, children), TargetDirFor(dataset, targetBase));
      DirectoryStep(files, mkdirFails, copyFails, root, dataset, targetBase) ==
        if run.0.None? then (Aborted, run.1)
        else (Counted(CountFlag(run.0.value, true), CountFlag(run.0.value, false)), run.1)
  {
  }

  /**
   * What one directory run guarantees: a missing directory gives (0, 0) and
   * touches nothing; every queued file is counted exactly once; nothing is removed,
   * and whatever is created lies directly in the target directory.
   */
  lemma DirectoryStepFacts(files: set<Path>, mkdirFails: set<Path>, copyFails: set<Path>,
                           root: seq<Node>, dataset: Path, targetBase: Option<Path>)
    ensures var out := DirectoryStep(files, mkdirFails, copyFails, root, dataset, targetBase);
      && (Lookup(root, dataset).None? ==> out == (Counted(0, 0), files))
      && (out.0.Counted? ==> out.0.valid + out.0.invalid == SelectedCount(root, dataset))
      && files <= out.1
      && forall p :: p in out.1 && p !in files ==>
           var td := TargetDirFor(dataset, targetBase);
           |p| == |td| + 1 && p[..|td|] == td
  {
    var listing := Lookup(root, dataset);
    if listing.Some? {
      var srcs := Selected(dataset, listing.value);
      var td := TargetDirFor(dataset, targetBase);
      RunFilesResults(files, mkdirFails, copyFails, srcs, td);
      RunFilesGrows(files, mkdirFails, copyFails, srcs, td);
      var (rs, f) := RunFiles(files, mkdirFails, copyFails, srcs, td);
      assert forall k :: 0 <= k < |srcs| ==> |TargetOf(td, srcs[k])| == |td| + 1 && TargetOf(td, srcs[k])[..|td|] == td;
      if rs.Some? {
        FlagCount(rs.value);
      }
    }
  }

  /** Every result tuple carries one of the two flags, so the two counts add up to the length. */
  lemma {:induction false} FlagCount(results: seq<(string, bool)>)
    ensures CountFlag(results, true) + CountFlag(results, false) == |results|
  {
    if results != [] {
      FlagCount(results[..|results| - 1]);
    }
  }

  /** Counting distributes over concatenation. */
  lemma {:induction false} CountFlagConcat(a: seq<(string, bool)>, b: seq<(string, bool)>, flag: bool)
    ensures CountFlag(a + b, flag) == CountFlag(a, flag) + CountFlag(b, flag)
    decreases |b|
  {
    if b == [] {
      assert a + b == a;
    } else {
      var b' := b[..|b| - 1];
      assert (a + b)[..|a + b| - 1] == a + b';
      CountFlagConcat(a, b', flag);
    }
  }

  /** Taking the `j`-th result out of a list lowers its count by one exactly when that result carries `flag`. */
  lemma CountFlagRemove(b: seq<(string, bool)>, j: nat, flag: bool)
    requires j < |b|
    ensures CountFlag(b, flag) == CountFlag(b[..j] + b[j + 1..], flag) + (if b[j].1 == flag then 1 else 0)
  {
    assert b == b[..j] + [b[j]] + b[j + 1..];
    CountFlagConcat(b[..j] + [b[j]], b[j + 1..], flag);
    CountFlagConcat(b[..j], [b[j]], flag);
    CountFlagConcat(b[..j], b[j + 1..], flag);
    assert [b[j]][..0] == [];
  }

  /**
   * The counts of a list of results depend only on its multiset of tuples, so any
   * completion order of the workers gives the same totals.
   */
  lemma {:induction false} CountFlagOrderFree(a: seq<(string, bool)>, b: seq<(string, bool)>, flag: bool)
    requires multiset(a) == multiset(b)
    ensures CountFlag(a, flag) == CountFlag(b, flag)
    decreases |a|
  {
    if a == [] {
      assert |b| == |multiset(b)| == 0;
    } else {
      var x := a[|a| - 1];
      var a' := a[..|a| - 1];
      assert a == a' + [x];
      assert x in multiset(b);
      var j :| 0 <= j < |b| && b[j] == x;
      var b' := b[..j] + b[j + 1..];
      assert b == b[..j] + [x] + b[j + 1..];
      assert multiset(b') == multiset(b) - multiset{x};
      CountFlagOrderFree(a', b', flag);
      CountFlagRemove(b, j, flag);
    }
  }

  /**
   * The result tuple a queued file gets in a run that does not abort, judged on
   * the filesystem before the run (see `RunFilesResults`).
   */
  function Outcome(files: set<Path>, mkdirFails: set<Path>, copyFails: set<Path>,
                   targetDir: Path, src: SourceFile): (string, bool) {
    (Join(src.path), Check(src.content) == Valid && targetDir !in mkdirFails &&
       (TargetOf(targetDir, src) in files || TargetOf(targetDir, src) !in copyFails))
  }

  /** `Outcome` of every file of a queue, in queue order. */
  function Outcomes(files: set<Path>, mkdirFails: set<Path>, copyFails: set<Path>,
                    targetDir: Path, srcs: seq<SourceFile>): seq<(string, bool)> {
    MapFiles(src => Outcome(files, mkdirFails, copyFails, targetDir, src), srcs)
  }

  /** `f` applied to every element of `s`, in order. */
  function MapFiles(f: SourceFile -> (string, bool), s: seq<SourceFile>): seq<(string, bool)> {
    seq(|s|, k requires 0 <= k < |s| => f(s[k]))
  }

  /** Mapping distributes over concatenation. */
  lemma MapFilesConcat(f: SourceFile -> (string, bool), a: seq<SourceFile>, b: seq<SourceFile>)
    ensures MapFiles(f, a + b) == MapFiles(f, a) + MapFiles(f, b)
  {
  }

  /** Queues with the same files have the same multiset of images. */
  lemma {:induction false} MapFilesPermute(f: SourceFile -> (string, bool), a: seq<SourceFile>, b: seq<SourceFile>)
    requires multiset(a) == multiset(b)
    ensures multiset(MapFiles(f, a)) == multiset(MapFiles(f, b))
    decreases |a|
  {
    if a == [] {
      assert |b| == |multiset(b)| == 0;
    } else {
      var x := a[|a| - 1];
      var a' := a[..|a| - 1];
      assert a == a' + [x];
      assert x in multiset(b);
      var j :| 0 <= j < |b| && b[j] == x;
      var b1, b2 := b[..j], b[j + 1..];
      assert b == b1 + ([x] + b2);
      assert multiset(b1 + b2) == multiset(b) - multiset{x};
      MapFilesPermute(f, a', b1 + b2);
      MapFilesConcat(f, a', [x]);
      MapFilesConcat(f, b1, [x] + b2);
      MapFilesConcat(f, [x], b2);
      MapFilesConcat(f, b1, b2);
      assert MapFiles(f, [x]) == [f(x)];
    }
  }

  /**
   * Processing the same files in another order (the worker pool's scheduling, or
   * `sorted(group_dirs)` in place of the listing order) aborts exactly when the
   * original order does, and otherwise gives the same multiset of result tuples
   * and so the same counts.
   */
  lemma RunFilesOrderFree(files: set<Path>, mkdirFails: set<Path>, copyFails: set<Path>,
                          srcs: seq<SourceFile>, srcs': seq<SourceFile>, targetDir: Path)
    requires multiset(srcs) == multiset(srcs')
    ensures var rs := RunFiles(files, mkdirFails, copyFails, srcs, targetDir).0;
      var rs' := RunFiles(files, mkdirFails, copyFails, srcs', targetDir).0;
      && (rs.None? <==> rs'.None?)
      && (rs.Some? ==>
            && multiset(rs.value) == multiset(rs'.value)
            && CountFlag(rs.value, true) == CountFlag(rs'.value, true)
            && CountFlag(rs.value, false) == CountFlag(rs'.value, false))
  {
    var rs := RunFiles(files, mkdirFails, copyFails, srcs, targetDir).0;
    var rs' := RunFiles(files, mkdirFails, copyFails, srcs', targetDir).0;
    RunFilesAborts(files, mkdirFails, copyFails, srcs, targetDir);
    RunFilesAborts(files, mkdirFails, copyFails, srcs', targetDir);
    forall k | 0 <= k < |srcs| && Check(srcs[k].content) == Raises
      ensures exists j :: 0 <= j < |srcs'| && Check(srcs'[j].content) == Raises
    {
      assert srcs[k] in multiset(srcs');
      var j :| 0 <= j < |srcs'| && srcs'[j] == srcs[k];
    }
    forall j | 0 <= j < |srcs'| && Check(srcs'[j].content) == Raises
      ensures exists k :: 0 <= k < |srcs| && Check(srcs[k].content) == Raises
    {
      assert srcs'[j] in multiset(srcs);
      var k :| 0 <= k < |srcs| && srcs[k] == srcs'[j];
    }
    if rs.Some? {
      RunFilesResults(files, mkdirFails, copyFails, srcs, targetDir);
      RunFilesResults(files, mkdirFails, copyFails, srcs', targetDir);
      assert rs.value == Outcomes(files, mkdirFails, copyFails, targetDir, srcs);
      assert rs'.value == Outcomes(files, mkdirFails, copyFails, targetDir, srcs');
      MapFilesPermute(src => Outcome(files, mkdirFails, copyFails, targetDir, src), srcs, srcs');
      CountFlagOrderFree(rs.value, rs'.value, true);
      CountFlagOrderFree(rs.value, rs'.value, false);
    }
  }

  /** The split directories `process_all_directories` visits, in order. */
  const Splits: seq<string> := ["training", "testing", "validation"]

  /** `f"{source_base_dir}/training"` and its two siblings. */
  function SplitDirs(base: Path): (r: seq<Path>)
    ensures |r| == |Splits| && forall i :: 0 <= i < |Splits| ==> r[i] == base + [Splits[i]]
  {
    [base + [Splits[0]], base + [Splits[1]], base + [Splits[2]]]
  }

  /** How many files the runs over `dirs` queue in all. */
  function TotalSelected(root: seq<Node>, dirs: seq<Path>): nat {
    if dirs == [] then 0
    else TotalSelected(root, dirs[..|dirs| - 1]) + SelectedCount(root, dirs[|dirs| - 1])
  }

  /** One pass of the directory loop: a directory's result and the filesystem after it. */
  type DirRun = (set<Path>, Path) -> (DirResult, set<Path>)

  /** `process_directory` with the target base and the fixed parts of the filesystem bound. */
  function DirectoryRun(mkdirFails: set<Path>, copyFails: set<Path>, root: seq<Node>, targetBase: Option<Path>): DirRun {
    (f: set<Path>, dir: Path) => DirectoryStep(f, mkdirFails, copyFails, root, dir, targetBase)
  }

  /**
   * The directories `dirs` run in order by `step`, summing the per-directory
   * counts; the first aborted directory ends the loop.
   */
  function FoldDirs(files: set<Path>, dirs: seq<Path>, step: DirRun): (DirResult, set<Path>) {
    if dirs == [] then (Counted(0, 0), files)
    else
      var (acc, f) := FoldDirs(files, dirs[..|dirs| - 1], step);
      if acc.Aborted? then (Aborted, f)
      else
        var (d, f') := step(f, dirs[|dirs| - 1]);
        if d.Aborted? then (Aborted, f')
        else (Counted(acc.valid + d.valid, acc.invalid + d.invalid), f')
  }

  /** The directories `dirs` processed in order by `process_directory`. */
  function RunDirs(files: set<Path>, mkdirFails: set<Path>, copyFails: set<Path>,
                   root: seq<Node>, dirs: seq<Path>, targetBase: Option<Path>): (DirResult, set<Path>) {
    FoldDirs(files, dirs, DirectoryRun(mkdirFails, copyFails, root, targetBase))
  }

  /**
   * The overall totals count every file queued in every directory exactly once,
   * and no run removes anything.
   */
  lemma {:induction false} RunDirsTotals(files: set<Path>, mkdirFails: set<Path>, copyFails: set<Path>,
                                         root: seq<Node>, dirs: seq<Path>, targetBase: Option<Path>)
    ensures var out := RunDirs(files, mkdirFails, copyFails, root, dirs, targetBase);
      && (out.0.Counted? ==> out.0.valid + out.0.invalid == TotalSelected(root, dirs))
      && files <= out.1
  {
    if dirs != [] {
      var init := dirs[..|dirs| - 1];
      RunDirsTotals(files, mkdirFails, copyFails, root, init, targetBase);
      var (acc, f) := RunDirs(files, mkdirFails, copyFails, root, init, targetBase);
      if acc.Counted? {
        DirectoryStepFacts(f, mkdirFails, copyFails, root, dirs[|dirs| - 1], targetBase);
      }
    }
  }

  /**
   * Every file of `srcs` that a run would copy (valid, its directory creatable, its
   * target writable) already has its target in `files`.
   */
  ghost predicate Settled(files: set<Path>, mkdirFails: set<Path>, copyFails: set<Path>,
                          srcs: seq<SourceFile>, targetDir: Path) {
    forall k ::
      (0 <= k < |srcs| && Check(srcs[k].content) == Valid && targetDir !in mkdirFails &&
       TargetOf(targetDir, srcs[k]) !in copyFails) ==> TargetOf(targetDir, srcs[k]) in files
  }

  /** A run that does not abort leaves the filesystem settled for its queue. */
  lemma {:induction false} RunSettles(files: set<Path>, mkdirFails: set<Path>, copyFails: set<Path>,
                                      srcs: seq<SourceFile>, targetDir: Path)
    requires RunFiles(files, mkdirFails, copyFails, srcs, targetDir).0.Some?
    ensures Settled(RunFiles(files, mkdirFails, copyFails, srcs, targetDir).1, mkdirFails, copyFails, srcs, targetDir)
  {
    if srcs != [] {
      var init := srcs[..|srcs| - 1];
      assert forall k :: 0 <= k < |init| ==> init[k] == srcs[k];
      RunSettles(files, mkdirFails, copyFails, init, targetDir);
      FileStepFacts(RunFiles(files, mkdirFails, copyFails, init, targetDir).1, mkdirFails, copyFails,
                    srcs[|srcs| - 1], Some(targetDir), true);
    }
  }

  /** On a settled filesystem a run copies nothing. */
  lemma {:induction false} SettledRunIsNoOp(files: set<Path>, mkdirFails: set<Path>, copyFails: set<Path>,
                                            srcs: seq<SourceFile>, targetDir: Path)
    requires Settled(files, mkdirFails, copyFails, srcs, targetDir)
    ensures RunFiles(files, mkdirFails, copyFails, srcs, targetDir).1 == files
  {
    if srcs != [] {
      var init := srcs[..|srcs| - 1];
      assert forall k :: 0 <= k < |init| ==> init[k] == srcs[k];
      SettledRunIsNoOp(files, mkdirFails, copyFails, init, targetDir);
      FileStepFacts(files, mkdirFails, copyFails, srcs[|srcs| - 1], Some(targetDir), true);
    }
  }

  /**
   * Running `process_directory` again on what a complete run left behind copies
   * nothing more: the filesystem is a fixed point.
   */
  lemma RerunCopiesNothing(files: set<Path>, mkdirFails: set<Path>, copyFails: set<Path>,
                           root: seq<Node>, dataset: Path, targetBase: Option<Path>)
    requires DirectoryStep(files, mkdirFails, copyFails, root, dataset, targetBase).0.Counted?
    ensures var after := DirectoryStep(files, mkdirFails, copyFails, root, dataset, targetBase).1;
      DirectoryStep(after, mkdirFails, copyFails, root, dataset, targetBase).1 == after
  {
    var listing := Lookup(root, dataset);
    if listing.Some? {
      var srcs := Selected(dataset, listing.value);
      var td := TargetDirFor(dataset, targetBase);
      RunSettles(files, mkdirFails, copyFails, srcs, td);
      var after := RunFiles(files, mkdirFails, copyFails, srcs, td).1;
      SettledRunIsNoOp(after, mkdirFails, copyFails, srcs, td);
    }
  }

  /**
   * The target side of the filesystem, which the runs update in place.
   */
  class FileSystem {
    /** The paths that exist on the target side. */
    var files: set<Path>
    /** Directories that `mkdir(parents=True, exist_ok=True)` cannot create. */
    const mkdirFails: set<Path>
    /** Targets that `shutil.copy2` cannot write. */
    const copyFails: set<Path>

    constructor (existing: set<Path>, mkdirFailures: set<Path>, copyFailures: set<Path>)
      ensures files == existing && mkdirFails == mkdirFailures && copyFails == copyFailures
    {
      files := existing;
      mkdirFails := mkdirFailures;
      copyFails := copyFailures;
    }

    /** `process_file((source_path, target_dir, should_copy))`. */
    method ProcessFile(src: SourceFile, targetDir: Option<Path>, shouldCopy: bool) returns (r: FileResult)
      modifies this
      ensures (r, files) == FileStep(old(files), mkdirFails, copyFails, src, targetDir, shouldCopy)
    {
      var verdict := Check(src.content);
      if verdict == Raises {
        return Raised;
      }
      if verdict == Invalid {
        return Returned(Join(src.path), false);
      }
      if shouldCopy && targetDir.Some? {
        var targetPath := targetDir.value + [Name(src.path)];
        if targetDir.value in mkdirFails {
          return Returned(Join(src.path), false);
        }
        if targetPath in files {
          return Returned(Join(src.path), true);
        }
        if targetPath in copyFails {
          return Returned(Join(src.path), false);
        }
        files := files + {targetPath};
      }
      return Returned(Join(src.path), true);
    }
  }

  /** Once a prefix of the queue has aborted, the rest of the queue is never processed. */
  lemma {:induction false} AbortIsFinal(files: set<Path>, mkdirFails: set<Path>, copyFails: set<Path>,
                                        srcs: seq<SourceFile>, targetDir: Path, i: nat)
    requires i <= |srcs|
    requires RunFiles(files, mkdirFails, copyFails, srcs[..i], targetDir).0.None?
    ensures RunFiles(files, mkdirFails, copyFails, srcs, targetDir) == RunFiles(files, mkdirFails, copyFails, srcs[..i], targetDir)
    decreases |srcs| - i
  {
    if i < |srcs| {
      var init := srcs[..|srcs| - 1];
      assert init[..i] == srcs[..i];
      AbortIsFinal(files, mkdirFails, copyFails, init, targetDir, i);
    } else {
      assert srcs[..i] == srcs;
    }
  }

  /**
   * The worker pool of lines 146-152, taken one file at a time in queue order:
   * `process_file` on each queued file with copying requested; the first escaping
   * exception ends the run.
   */
  method ProcessQueue(fs: FileSystem, allFiles: seq<SourceFile>, targetDir: Path) returns (results: Option<seq<(string, bool)>>)
    modifies fs
    ensures (results, fs.files) == RunFiles(old(fs.files), fs.mkdirFails, fs.copyFails, allFiles, targetDir)
  {
    ghost var files0 := fs.files;
    var done: seq<(string, bool)> := [];
    for i := 0 to |allFiles|
      invariant RunFiles(files0, fs.mkdirFails, fs.copyFails, allFiles[..i], targetDir) == (Some(done), fs.files)
    {
      var res := fs.ProcessFile(allFiles[i], Some(targetDir), true);
      RunFilesSnoc(files0, fs.mkdirFails, fs.copyFails, allFiles[..i], allFiles[i], targetDir, done, res, fs.files);
      assert allFiles[..i + 1] == allFiles[..i] + [allFiles[i]];
      if res.Raised? {
        AbortIsFinal(files0, fs.mkdirFails, fs.copyFails, allFiles, targetDir, i + 1);
        return None;
      }
      done := done + [(res.path, res.valid)];
    }
    assert allFiles[..|allFiles|] == allFiles;
    results := Some(done);
  }

  /** `process_directory(dataset_dir, target_base_dir)`. */
  method ProcessDirectory(fs: FileSystem, root: seq<Node>, dataset: Path, targetBase: Option<Path>) returns (r: DirResult)
    modifies fs
    ensures (r, fs.files) == DirectoryStep(old(fs.files), fs.mkdirFails, fs.copyFails, root, dataset, targetBase)
  {
    var listing := Lookup(root, dataset);
    if listing.None? {
      return Counted(0, 0);
    }
    var targetDir := TargetDirFor(dataset, targetBase);
    var allFiles := CollectFiles(dataset, listing.value);
    if |allFiles| == 0 {
      return Counted(0, 0);
    }
    ghost var files0 := fs.files;
    var results := ProcessQueue(fs, allFiles, targetDir);
    DirectoryStepOf(files0, fs.mkdirFails, fs.copyFails, root, dataset, targetBase, listing.value);
    if results.None? {
      return Aborted;
    }
    var valid, invalid := Tally(results.value);
    r := Counted(valid, invalid);
  }

  /**
   * The counting loop of lines 155-159: each result is counted once, as valid or
   * as invalid (by `CountFlagOrderFree`, in any completion order).
   */
  method Tally(results: seq<(string, bool)>) returns (valid: nat, invalid: nat)
    ensures valid == CountFlag(results, true)
    ensures invalid == CountFlag(results, false)
    ensures valid + invalid == |results|
  {
    valid, invalid := 0, 0;
    for i := 0 to |results|
      invariant valid == CountFlag(results[..i], true)
      invariant invalid == CountFlag(results[..i], false)
      invariant valid + invalid == i
    {
      assert results[..i + 1][..i] == results[..i];
      if results[i].1 {
        valid := valid + 1;
      } else {
        invalid := invalid + 1;
      }
    }
    assert results[..|results|] == results;
  }

  /** One more directory: the directories so far, then the next one on the resulting filesystem. */
  lemma FoldDirsNext(files: set<Path>, dirs: seq<Path>, i: nat, step: DirRun,
                     valid: nat, invalid: nat, d: DirResult, f': set<Path>)
    requires i < |dirs|
    requires FoldDirs(files, dirs[..i], step).0 == Counted(valid, invalid)
    requires (d, f') == step(FoldDirs(files, dirs[..i], step).1, dirs[i])
    ensures FoldDirs(files, dirs[..i + 1], step) ==
      if d.Aborted? then (Aborted, f') else (Counted(valid + d.valid, invalid + d.invalid), f')
  {
    assert dirs[..i + 1][..i] == dirs[..i];
  }

  /** `FoldDirsNext` for the directory loop of `process_all_directories`. */
  lemma RunDirsNext(files: set<Path>, mkdirFails: set<Path>, copyFails: set<Path>, root: seq<Node>,
                    dirs: seq<Path>, i: nat, targetBase: Option<Path>,
                    valid: nat, invalid: nat, d: DirResult, f': set<Path>)
    requires i < |dirs|
    requires RunDirs(files, mkdirFails, copyFails, root, dirs[..i], targetBase).0 == Counted(valid, invalid)
    requires (d, f') == DirectoryStep(RunDirs(files, mkdirFails, copyFails, root, dirs[..i], targetBase).1,
                                      mkdirFails, copyFails, root, dirs[i], targetBase)
    ensures RunDirs(files, mkdirFails, copyFails, root, dirs[..i + 1], targetBase) ==
      if d.Aborted? then (Aborted, f') else (Counted(valid + d.valid, invalid + d.invalid), f')
  {
    FoldDirsNext(files, dirs, i, DirectoryRun(mkdirFails, copyFails, root, targetBase), valid, invalid, d, f');
  }

  /** Once a directory has aborted, the remaining directories are never processed. */
  lemma {:induction false} DirAbortIsFinal(files: set<Path>, dirs: seq<Path>, step: DirRun, i: nat)
    requires i <= |dirs|
    requires FoldDirs(files, dirs[..i], step).0.Aborted?
    ensures FoldDirs(files, dirs, step) == FoldDirs(files, dirs[..i], step)
    decreases |dirs| - i
  {
    if i < |dirs| {
      var init := dirs[..|dirs| - 1];
      assert init[..i] == dirs[..i];
      DirAbortIsFinal(files, init, step, i);
    } else {
      assert dirs[..i] == dirs;
    }
  }

  /**
   * The loop of lines 178-182: `process_directory` on each directory in turn,
   * adding its counts to the totals; an escaping exception ends the loop.
   */
  method ProcessDirectories(fs: FileSystem, root: seq<Node>, directories: seq<Path>, targetBase: Option<Path>) returns (r: DirResult)
    modifies fs
    ensures (r, fs.files) == RunDirs(old(fs.files), fs.mkdirFails, fs.copyFails, root, directories, targetBase)
  {
    var totalValid: nat, totalInvalid: nat := 0, 0;
    ghost var files0 := fs.files;
    for i := 0 to |directories|
      invariant RunDirs(files0, fs.mkdirFails, fs.copyFails, root, directories[..i], targetBase) == (Counted(totalValid, totalInvalid), fs.files)
    {
      var counts := ProcessDirectory(fs, root, directories[i], targetBase);
      RunDirsNext(files0, fs.mkdirFails, fs.copyFails, root, directories, i, targetBase, totalValid, totalInvalid, counts, fs.files);
      if counts.Aborted? {
        DirAbortIsFinal(files0, directories, DirectoryRun(fs.mkdirFails, fs.copyFails, root, targetBase), i + 1);
        return Aborted;
      }
      totalValid := totalValid + counts.valid;
      totalInvalid := totalInvalid + counts.invalid;
    }
    assert directories[..|directories|] == directories;
    r := Counted(totalValid, totalInvalid);
  }

  /** `process_all_directories(source_base_dir, target_base_dir)`; the model returns the totals it prints. */
  method ProcessAllDirectories(fs: FileSystem, root: seq<Node>, base: Path, targetBase: Option<Path>) returns (r: DirResult)
    modifies fs
    ensures (r, fs.files) == RunDirs(old(fs.files), fs.mkdirFails, fs.copyFails, root, SplitDirs(base), targetBase)
  {
    var directories := SplitDirs(base);
    r := ProcessDirectories(fs, root, directories, targetBase);
  }
}
