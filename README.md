# Scenario post-processing, modelled in Dafny

`data_utils/post_processing.py` filters a dataset of traffic-scenario JSON files.
Each file must have a certain structure. Valid files are copied into a target tree
and invalid ones are skipped. The script works in three layers:

- `is_valid_json_structure` checks one file. It needs the top-level keys `name`,
  `objects`, `roads` and `tl_states`. `objects` must be a list of dicts, each with
  `position` and `type`. `roads` must be a list of dicts, each with `geometry`.
  Every geometry must be a list of points, each a dict with `x` and `y`. An empty
  string or an empty dict also passes, because the point loop then has nothing to
  test.
- `process_file` validates one file. If the file is valid and copying is
  requested, it copies the file into the target directory, unless a file of that
  name is already there. It reports `(path, flag)`. The flag is False for an
  invalid file, and also for a valid file whose target directory cannot be
  created or whose copy fails.
- `process_directory` queues the `*.json` files of every `group_*` sub-directory.
  It also queues the directory's own `*.json` files, but only those whose path
  string contains no group name. It runs `process_file` on the queue and counts
  the valid and invalid results. `process_all_directories` does this for
  `training`, `testing` and `validation` and adds up the totals.

The model has five modules:

- `Options` holds an `Option` type.
- `JsonValues` holds the JSON value type and Python's substring test.
- `Validator` models the check. Its result has three outcomes, `Valid`, `Invalid`
  and `Raises`. `Raises` is an exception that the check's handler does not catch.
  It is a TypeError in four cases:
  - a top level that `in` cannot search (null, a boolean or a number);
  - a list top level holding all four names, which is then indexed by a string;
  - a string top level containing all four names, which is then indexed by a string;
  - a geometry that cannot be iterated (null, a boolean or a number).

  It is a RecursionError when the decoder meets a too deeply nested document.
- `Selection` holds an immutable snapshot of the source tree and computes the
  queue of files.
- `Processing` changes the target side of the filesystem. That is a `FileSystem`
  object holding three sets:
  - the set of paths that exist;
  - the directories that cannot be created;
  - the targets that cannot be written.

Each method is proved equal to a specification function:
- `ProcessFile` to `FileStep`;
- `ProcessQueue` to `RunFiles`;
- `ProcessDirectory` to `DirectoryStep`;
- `ProcessDirectories` and `ProcessAllDirectories` to `RunDirs`, which is
  `FoldDirs`, a fold over the directories whose step is `process_directory`;
- `Tally` to `CountFlag`;
- `CollectFiles` to `Selected`.

Lemmas then prove properties of those functions.

## Model

| member | source | states |
|---|---|---|
| JsonValues.IsSubstringIff | data_utils/post_processing.py:15 | Python's `key in s` on a string holds exactly when `key` occurs at some offset of `s`. |
| Validator.HasKey | data_utils/post_processing.py:15 | `key in data` fails with a TypeError exactly when `data` is neither a list, a dict nor a string. |
| Validator.AllKeysPresent | data_utils/post_processing.py:15-16 | The key test raises exactly when there are keys to test and `data` cannot be searched. It succeeds exactly when every key tests present. |
| Validator.ScanGeometry | data_utils/post_processing.py:33-38 | The road loop accepts exactly when every road's geometry (missing counts as `[]`) is accepted. It raises exactly when the first geometry that is not accepted cannot be iterated. |
| Validator.GeometryCheck | data_utils/post_processing.py:34-37 | The point test on one geometry raises exactly when the geometry cannot be iterated (null, a boolean or a number). It passes exactly for a list of `x`/`y` points, an empty string or an empty dict. |
| Validator.Check | data_utils/post_processing.py:8-42 | A file that cannot be read or parsed is reported invalid, never raised. A file nested too deeply for the decoder raises. |
| Validator.CheckValidIff | data_utils/post_processing.py:8-40 | A file is accepted exactly when it parses to a dict that has all four keys and whose `objects` and `roads` entries are well formed, with every geometry a list of `x`/`y` points (or an empty string or dict). |
| Validator.CheckRaisesIff | data_utils/post_processing.py:10-42 | The check raises exactly on a too deeply nested file, a scalar top level, a string or list that "contains" all four keys, or a well-formed dict whose first rejected geometry cannot be iterated. |
| Validator.ExtraKeysIgnored | data_utils/post_processing.py:15-30 | Adding a key other than the required ones, or changing the value of `name`, `tl_states` or any other non-structural key, does not change the verdict. |
| Validator.MinimalDocumentValid | data_utils/post_processing.py:15-40 | A document with the four keys, empty `objects` and empty `roads` is accepted, whatever `name` and `tl_states` hold. |
| Validator.RoadOrderDecides | data_utils/post_processing.py:33-38 | Roads are tested in order. A rejected geometry before a null one gives False. The reverse order raises. |
| Selection.JoinEndsWithName | data_utils/post_processing.py:125 | `str(f)` ends with the file's name, after its parent's string and a `/` when it has parent components. |
| Selection.LookupSnoc | data_utils/post_processing.py:97 | `is_dir()` holds for a path exactly when its parent is a directory that holds a directory entry of that name. |
| Selection.GlobbedIff | data_utils/post_processing.py:120 | `glob("*.json")` yields exactly the entries whose names end in `.json`, each under its directory's path. |
| Selection.GroupDirs | data_utils/post_processing.py:110-111 | Every element of the comprehension is a directory whose name starts with `group_`. |
| Selection.GroupDirsIff | data_utils/post_processing.py:110-111 | The group directories are exactly the sub-directories whose names start with `group_`. |
| Selection.FilterOutIff | data_utils/post_processing.py:124-125 | The filter keeps exactly the files whose path string contains no group name. |
| Selection.MainFilesIff | data_utils/post_processing.py:124-125 | The main-directory files are exactly the directory's own `*.json` entries whose path string contains no group name. |
| Selection.GroupFilesIff | data_utils/post_processing.py:119-121 | A file is among the group files exactly when one of the group directories globs it. |
| Selection.SelectedIff | data_utils/post_processing.py:109-126 | A file is queued exactly when a group directory globs it, or the directory itself globs it and no group name occurs in its path. |
| Selection.CollectFiles | data_utils/post_processing.py:114-126 | The collecting loop builds exactly the queue `Selected` describes, with group files first. |
| Selection.MainFileNamedLikeGroupSkipped | data_utils/post_processing.py:124-125 | A main-directory entry whose name contains a group directory's name is never queued. |
| Processing.FileStepFacts | data_utils/post_processing.py:56-82 | See the list below the table. |
| Processing.TargetOfShape | data_utils/post_processing.py:66 | A target has the source file's name and lies directly inside the target directory. |
| Processing.InPlaceMainFileKept | data_utils/post_processing.py:64-73 | When the target directory is the dataset itself (lines 101-107), a main-directory file is its own target. When that file exists on the target side and its directory can be created, the file keeps its verdict as the result and nothing is copied. |
| Processing.SourceBaseAsTarget | data_utils/post_processing.py:101-107 | A target base equal to the source base makes each split directory its own target directory. |
| Processing.FileSystem.ProcessFile | data_utils/post_processing.py:44-82 | One call returns the result of `FileStep` and leaves exactly the set of paths `FileStep` gives. |
| Processing.RunFilesAborts | data_utils/post_processing.py:146-152 | A run over the queue aborts exactly when some queued file makes the check raise. |
| Processing.RunFilesResults | data_utils/post_processing.py:146-152 | A run that does not abort yields one result per file, in order, with that file's path. A file gets True exactly when it is valid, its target directory can be created, and its target either existed before the run or can be written. No path a run creates is one that cannot be written. |
| Processing.RunFilesOrderFree | data_utils/post_processing.py:111-152 | Running the same files in another order aborts exactly when the original order does. Otherwise it gives the same multiset of result tuples and the same counts. |
| Processing.MapFilesPermute | data_utils/post_processing.py:146-152 | Two queues holding the same files give the same multiset of per-file results. |
| Processing.RunFilesGrows | data_utils/post_processing.py:146-152 | A run removes nothing, and every path it creates is the target of a queued file. |
| Processing.ProcessQueue | data_utils/post_processing.py:146-152 | Processing the queue file by file yields exactly the results and the filesystem of `RunFiles`. |
| Processing.AbortIsFinal | data_utils/post_processing.py:146-152 | In the in-order model of the pool, nothing after the first file whose check raises is processed. |
| Processing.TargetDirFor | data_utils/post_processing.py:101-107 | Without a target base, the target directory is the dataset directory. With one, it is the dataset's name directly inside the base, or the base itself when the dataset path has no name. |
| Processing.DirectoryStepFacts | data_utils/post_processing.py:95-131 | A missing directory gives (0, 0) and changes nothing. A completed run counts every queued file exactly once. Nothing is removed. Every new path lies directly in the target directory. |
| Processing.ProcessDirectory | data_utils/post_processing.py:84-165 | One directory run yields exactly the counts, or the abort, and the filesystem of `DirectoryStep`. |
| Processing.Tally | data_utils/post_processing.py:154-159 | The counting loop counts the True and the False results. The two counts add up to the number of results. |
| Processing.FlagCount | data_utils/post_processing.py:155-159 | Every result is counted as valid or as invalid, never both. |
| Processing.CountFlagConcat | data_utils/post_processing.py:155-159 | Counting splits over a concatenation of result lists. |
| Processing.CountFlagRemove | data_utils/post_processing.py:155-159 | Taking one result out of a list lowers the count of its flag by one and leaves the other count unchanged. |
| Processing.CountFlagOrderFree | data_utils/post_processing.py:148-159 | The counts depend only on the multiset of results. Any completion order of the unordered worker pool gives the same totals. |
| Processing.RerunCopiesNothing | data_utils/post_processing.py:63-80 | A second `process_directory` after a complete run copies nothing. The existing-target test makes the run idempotent. |
| Processing.SplitDirs | data_utils/post_processing.py:169-173 | The visited directories are `training`, `testing` and `validation` under the source base, in that order. |
| Processing.RunDirsTotals | data_utils/post_processing.py:175-182 | The overall totals of a complete run count every file queued in any of the directories exactly once. Nothing is removed. |
| Processing.DirAbortIsFinal | data_utils/post_processing.py:178-182 | Once one directory aborts, no later directory is processed. |
| Processing.ProcessDirectories | data_utils/post_processing.py:175-182 | The loop over the directories yields exactly the totals, or the abort, and the filesystem of `RunDirs`. |
| Processing.ProcessAllDirectories | data_utils/post_processing.py:167-187 | Processing `training`, `testing` and `validation` under the source base yields exactly the totals, or the abort, and the filesystem of `RunDirs` over those three directories. |

`Processing.FileStepFacts` states these properties of one call of `process_file`:

- The only escape is the check's TypeError, and it changes nothing.
- An invalid file is reported False and is not copied.
- A True result means the file is valid.
- The only possible change is the creation of that file's target.
- That change happens exactly when all of these hold:
  - the file is valid;
  - copying is requested;
  - the target directory can be created;
  - the target is absent;
  - the target can be written.
- With copying requested, True means the target exists afterwards.
- A valid file is reported False only when creating the directory or copying fails.
- A target directory that cannot be created makes a valid file False, even when its target exists.
- An existing target is kept, and the file still counts as valid.

## Left out

- Reading a file and `json.load` are abstracted. A file's content is one of three things: a parsed JSON value; `Unreadable`, which covers a read, decode or value error; or `TooDeep`, a nesting beyond the recursion limit. JSON numbers are `real`.
- `mkdir`, `shutil.copy2`, `exists`, `iterdir` and `glob` are abstracted. The model uses a snapshot of the source tree and a set of target-side paths. Failures are given as fixed sets of directories that cannot be created and targets that cannot be written. Directories created by `mkdir` are not recorded.
- A `copy2` that fails after writing part of the target is modelled as writing nothing.
- The multiprocessing pool is modelled as the queue processed in order, one file at a time. The model does not capture these effects of concurrency:
  - workers racing on the same target name;
  - copies that other workers finish after one of them has raised;
  - files queued before the raising one that the pool's `terminate()` interrupts. Such files can stay uncopied or be left half-written, and a half-written target then counts as existing on a rerun.

  `RunFilesOrderFree` shows that, apart from these effects, the order of the queue does not change whether the run aborts, the multiset of results or the counts. The model records which paths exist, not their contents, so it does not say which of two files with the same name ends up at a shared target.
- `sorted(group_dirs)` is not modelled: group directories are taken in listing order. Sorting only reorders the queue, and `RunFilesOrderFree` shows that the abort, the results as a multiset and the counts do not depend on that order.
- Progress bars (`tqdm`), the printed messages, `num_workers` and `cpu_count` are left out. `main` and the argument parsing are left out.
- The target base is an `Option`. An empty string, which Python treats as false, corresponds to `None`.
- Paths are sequences of components. Normalisation, `..`, symbolic links and the difference between absolute and relative paths are not modelled.
- Without a target base, or with a target base equal to the source base (`SourceBaseAsTarget`), the target directory is the dataset directory itself. Group files are then copied into it, and a main-directory file is its own target. The model keeps the source snapshot and the set of target-side paths apart. The caller must make that set list the dataset's own entries and keep the dataset out of the directories that cannot be created: `mkdir(exist_ok=True)` on an existing directory cannot fail. Under those conditions `InPlaceMainFileKept` shows that a main-directory file is never copied and keeps its verdict as the result. Without them the model would copy such a file onto itself. Copies into the dataset directory do not change the source snapshot. A target directory elsewhere inside the source tree, such as a base inside a split directory, is not covered: copies there never show up in the snapshot, so a later directory's listing does not see them.
- Processing.ProcessAllDirectories: the source returns None after printing the totals. The model returns the printed totals instead.
- Processing.RerunCopiesNothing: this is stated only for a first run that did not abort. After an abort, files later in the queue may still be uncopied.
- tests/test_ipykernel.py is not part of this model. It tests another component.
