/**
 * Which files one run over a dataset directory processes (`process_directory`,
 * lines 109-126): every `*.json` entry of each `group_` sub-directory, then every
 * `*.json` entry of the directory itself whose path string contains no group
 * directory's name. Line numbers in this module refer to
 * data_utils/post_processing.py.
 */
module Selection {
  import opened Options
  import opened JsonValues

  /** A path as its components; its string form joins them with `/`. */
  type Path = seq<string>

  /** `str(path)`. */
  function Join(p: Path): string {
    if p == [] then ""
    else if |p| == 1 then p[0]
    else Join(p[..|p| - 1]) + "/" + p[|p| - 1]
  }

  /** `path.name`: the last component. */
  function Name(p: Path): string {
    if p == [] then "" else p[|p| - 1]
  }

  /**
   * A snapshot of the source tree: a file with what opening and parsing it yields,
   * or a directory with its entries in listing order.
   */
  datatype Node = File(name: string, content: Parsed) | Dir(name: string, children: seq<Node>)

  /** A file queued for processing: its path and what reading it yields. */
  datatype SourceFile = SourceFile(path: Path, content: Parsed)

  /** The entries of the directory named `name` among `children`, or None if that entry is missing or not a directory. */
  function FindDir(children: seq<Node>, name: string): (r: Option<seq<Node>>)
    ensures r.Some? ==> Dir(name, r.value) in children
  {
    if children == [] then None
    else if children[0].name == name then
      (if children[0].Dir? then Some(children[0].children) else None)
    else FindDir(children[1..], name)
  }

  /** The entries of the directory at `p` below a tree whose root holds `root`; None when `p.is_dir()` is false. */
  function Lookup(root: seq<Node>, p: Path): Option<seq<Node>>
    decreases |p|
  {
    if p == [] then Some(root)
    else match FindDir(root, p[0])
      case None => None
      case Some(children) => Lookup(children, p[1..])
  }

  /** `str(path)` ends with the path's name, after a `/` when there are parent components. */
  lemma {:induction false} JoinEndsWithName(p: Path)
    ensures var s := Join(p);
      |Name(p)| <= |s| && s[|s| - |Name(p)|..] == Name(p) &&
      (|p| > 1 ==> s == Join(p[..|p| - 1]) + "/" + Name(p))
  {
  }

  /** A path is a directory exactly when its parent is one and holds a directory entry of that name. */
  lemma {:induction false} LookupSnoc(root: seq<Node>, p: Path, name: string)
    ensures Lookup(root, p + [name]) ==
      match Lookup(root, p)
      case None => None
      case Some(children) => FindDir(children, name)
    decreases |p|
  {
    if p == [] {
      assert [name][1..] == [];
    } else {
      assert (p + [name])[1..] == p[1..] + [name];
      match FindDir(root, p[0])
      case None =>
      case Some(children) => LookupSnoc(children, p[1..], name);
    }
  }

  /** The glob pattern `*.json`: any name ending in `.json`, hidden names and directories included. */
  predicate MatchesJson(name: string) {
    |name| >= 5 && name[|name| - 5..] == ".json"
  }

  /** The group-directory test of line 111. */
  predicate IsGroupDir(n: Node) {
    n.Dir? && "group_" <= n.name
  }

  /** Opening a directory fails with an IOError, which the validator treats like a parse error. */
  function ContentOf(n: Node): Parsed {
    if n.File? then n.content else Unreadable
  }

  /** `dir.glob("*.json")` over the entries `children` of `dir`, in listing order. */
  function Globbed(dir: Path, children: seq<Node>): seq<SourceFile> {
    if children == [] then []
    else
      var n := children[|children| - 1];
      var last := if MatchesJson(n.name) then [SourceFile(dir + [n.name], ContentOf(n))] else [];
      Globbed(dir, children[..|children| - 1]) + last
  }

  /** The comprehension of lines 110-111. */
  function GroupDirs(children: seq<Node>): (r: seq<Node>)
    ensures forall i :: 0 <= i < |r| ==> IsGroupDir(r[i])
  {
    if children == [] then []
    else
      var n := children[|children| - 1];
      GroupDirs(children[..|children| - 1]) + (if IsGroupDir(n) then [n] else [])
  }

  /** The files of the group directories `groups`, group by group (line 121). */
  function GroupFiles(dataset: Path, groups: seq<Node>): seq<SourceFile>
    requires forall i :: 0 <= i < |groups| ==> groups[i].Dir?
  {
    if groups == [] then []
    else
      var g := groups[|groups| - 1];
      GroupFiles(dataset, groups[..|groups| - 1]) + Globbed(dataset + [g.name], g.children)
  }

  /** Some group's name occurs in the path string of `f` (the test of line 125). */
  predicate InAnyGroup(f: SourceFile, groups: seq<Node>) {
    exists i :: 0 <= i < |groups| && IsSubstring(groups[i].name, Join(f.path))
  }

  /** The main-directory files kept by lines 124-125. */
  function MainFiles(dataset: Path, children: seq<Node>, groups: seq<Node>): seq<SourceFile> {
    FilterOut(Globbed(dataset, children), groups)
  }

  /** The elements of `fs` that no group name excludes, in order. */
  function FilterOut(fs: seq<SourceFile>, groups: seq<Node>): seq<SourceFile> {
    if fs == [] then []
    else
      var f := fs[|fs| - 1];
      FilterOut(fs[..|fs| - 1], groups) + (if InAnyGroup(f, groups) then [] else [f])
  }

  /** `glob("*.json")` yields exactly the entries whose names end in `.json`, each under `dir`. */
  lemma {:induction false} GlobbedIff(dir: Path, children: seq<Node>, f: SourceFile)
    ensures f in Globbed(dir, children) <==>
      exists n :: n in children && MatchesJson(n.name) && f == SourceFile(dir + [n.name], ContentOf(n))
  {
    if children != [] {
      var init := children[..|children| - 1];
      GlobbedIff(dir, init, f);
      assert forall n :: n in children <==> n in init || n == children[|children| - 1];
    }
  }

  /** The group directories are exactly the entries that are directories named `group_…`. */
  lemma {:induction false} GroupDirsIff(children: seq<Node>, n: Node)
    ensures n in GroupDirs(children) <==> n in children && IsGroupDir(n)
  {
    if children != [] {
      var init := children[..|children| - 1];
      GroupDirsIff(init, n);
      assert forall m :: m in children <==> m in init || m == children[|children| - 1];
    }
  }

  /** Filtering keeps exactly the files in which no group name occurs. */
  lemma {:induction false} FilterOutIff(fs: seq<SourceFile>, groups: seq<Node>, f: SourceFile)
    ensures f in FilterOut(fs, groups) <==> f in fs && !InAnyGroup(f, groups)
  {
    if fs != [] {
      var init := fs[..|fs| - 1];
      FilterOutIff(init, groups, f);
      assert forall g :: g in fs <==> g in init || g == fs[|fs| - 1];
    }
  }

  /** The main-directory files are the globbed files whose path contains no group name. */
  lemma MainFilesIff(dataset: Path, children: seq<Node>, groups: seq<Node>, f: SourceFile)
    ensures f in MainFiles(dataset, children, groups) <==>
      (exists n :: n in children && MatchesJson(n.name) && f == SourceFile(dataset + [n.name], ContentOf(n))) &&
      !InAnyGroup(f, groups)
  {
    FilterOutIff(Globbed(dataset, children), groups, f);
    GlobbedIff(dataset, children, f);
  }

  /** Everything one run over the directory `dataset` with entries `children` queues, in queue order. */
  function Selected(dataset: Path, children: seq<Node>): seq<SourceFile> {
    var groups := GroupDirs(children);
    assert forall i :: 0 <= i < |groups| ==> groups[i] in groups;
    GroupFiles(dataset, groups) + MainFiles(dataset, children, groups)
  }

  /**
   * A queued file comes from a `group_` sub-directory or, when no group name
   * occurs in its path string, from the directory itself; and every such file is queued.
   */
  lemma {:induction false} SelectedIff(dataset: Path, children: seq<Node>, f: SourceFile)
    ensures f in Selected(dataset, children) <==>
      || (exists g :: g in children && IsGroupDir(g) && f in Globbed(dataset + [g.name], g.children))
      || (f in Globbed(dataset, children) && !InAnyGroup(f, GroupDirs(children)))
  {
    var groups := GroupDirs(children);
    assert forall i :: 0 <= i < |groups| ==> groups[i] in groups;
    GroupFilesIff(dataset, groups, f);
    FilterOutIff(Globbed(dataset, children), groups, f);
    forall g
      ensures g in groups <==> g in children && IsGroupDir(g)
    {
      GroupDirsIff(children, g);
    }
  }

  /** A file belongs to the group files exactly when one of the groups globs it. */
  lemma {:induction false} GroupFilesIff(dataset: Path, groups: seq<Node>, f: SourceFile)
    requires forall i :: 0 <= i < |groups| ==> groups[i].Dir?
    ensures f in GroupFiles(dataset, groups) <==>
      exists g :: g in groups && f in Globbed(dataset + [g.name], g.children)
  {
    if groups != [] {
      var init := groups[..|groups| - 1];
      GroupFilesIff(dataset, init, f);
      assert forall g :: g in groups <==> g in init || g == groups[|groups| - 1];
    }
  }

  /**
   * Collects the queue as lines 114-126 do: extend with each group directory's
   * files, then with the main directory's remaining files.
   */
  method CollectFiles(dataset: Path, children: seq<Node>) returns (all: seq<SourceFile>)
    ensures all == Selected(dataset, children)
  {
    var groupDirs := GroupDirs(children);
    assert forall i :: 0 <= i < |groupDirs| ==> groupDirs[i] in groupDirs;
    all := [];
    for i := 0 to |groupDirs|
      invariant all == GroupFiles(dataset, groupDirs[..i])
    {
      var g := groupDirs[i];
      assert groupDirs[..i + 1][..i] == groupDirs[..i];
      all := all + Globbed(dataset + [g.name], g.children);
    }
    assert groupDirs[..|groupDirs|] == groupDirs;
    var mainDirFiles := MainFiles(dataset, children, groupDirs);
    all := all + mainDirFiles;
  }

  /** A substring of a string's tail is a substring of the whole string. */
  lemma {:induction false} SubstringOfSuffix(t: string, a: string, b: string)
    requires IsSubstring(t, b)
    ensures IsSubstring(t, a + b)
    decreases |a|
  {
    if a != [] {
      assert (a + b)[1..] == a[1..] + b;
      SubstringOfSuffix(t, a[1..], b);
    } else {
      assert a + b == b;
    }
  }

  /**
   * The exclusion is a substring test on the whole path string, not a containment
   * test: a main-directory entry whose own name contains a group directory's name
   * (`group_10.json` beside `group_1`) is never processed, although glob is not
   * recursive and no group directory holds it.
   */
  lemma MainFileNamedLikeGroupSkipped(dataset: Path, children: seq<Node>, g: Node, n: Node)
    requires g in children && IsGroupDir(g)
    requires n in children && IsSubstring(g.name, n.name)
    ensures SourceFile(dataset + [n.name], ContentOf(n)) !in Selected(dataset, children)
  {
    var f := SourceFile(dataset + [n.name], ContentOf(n));
    var groups := GroupDirs(children);
    assert forall i :: 0 <= i < |groups| ==> groups[i] in groups;
    if dataset == [] {
      assert Join(f.path) == n.name;
    } else {
      assert (dataset + [n.name])[..|dataset|] == dataset;
      SubstringOfSuffix(g.name, Join(dataset) + "/", n.name);
      assert Join(f.path) == Join(dataset) + "/" + n.name;
      assert Join(dataset) + "/" + n.name == (Join(dataset) + "/") + n.name;
    }
    GroupDirsIff(children, g);
    var k :| 0 <= k < |groups| && groups[k] == g;
    assert InAnyGroup(f, groups);
    FilterOutIff(Globbed(dataset, children), groups, f);
    GroupFilesIff(dataset, groups, f);
    forall h | h in groups
      ensures f !in Globbed(dataset + [h.name], h.children)
    {
      GlobbedIff(dataset + [h.name], h.children, f);
    }
  }
}
