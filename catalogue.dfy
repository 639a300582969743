/** The Markdown catalogue served by the documentation viewer: how a path is
    classified, which line of a file is shown as its preview, and how the
    list of Markdown paths is filtered, put into three fixed categories and
    sorted by file name. The file system is an input: the list of paths the
    glob found and, for each path that can be read, its lines. */
module Catalogue {
  import opened Wrappers
  import opened PyText

  // ---------------------------------------------------------------- file type

  const RolesFile := "AI-Roles.md"
  const CommandsDir := ".claude/commands/"
  const ProjectNames := ["project-brief.md", "mvp-requirements.md", "architecture.md", "pseudo-code.md", "evidence-tests.md"]

  /** The four file types, shown as "roles", "command", "project" and "doc". */
  datatype FileKind = RolesKind | CommandKind | ProjectKind | DocKind

  function Label(k: FileKind): string
  {
    match k
    case RolesKind => "roles"
    case CommandKind => "command"
    case ProjectKind => "project"
    case DocKind => "doc"
  }

  /** `get_file_type`. */
  function FileTypeOf(path: string): FileKind
  {
    if Contains(path, RolesFile) then RolesKind
    else if StartsWith(path, CommandsDir) then CommandKind
    else if path in ProjectNames then ProjectKind
    else DocKind
  }

  /** The first matching rule wins, so the roles document is "roles"
      wherever it lives, a command file is "command", and only the five
      exact top-level artefact names are "project". */
  lemma FileTypeRules(path: string)
    ensures FileTypeOf(path) == RolesKind <==> Contains(path, RolesFile)
    ensures FileTypeOf(path) == CommandKind <==> !Contains(path, RolesFile) && StartsWith(path, CommandsDir)
    ensures FileTypeOf(path) == ProjectKind <==>
              !Contains(path, RolesFile) && !StartsWith(path, CommandsDir) && path in ProjectNames
    ensures FileTypeOf(path) == DocKind <==>
              !Contains(path, RolesFile) && !StartsWith(path, CommandsDir) && path !in ProjectNames
  {
  }

  /** The roles document is typed "roles" in whatever folder it lies. */
  lemma RolesFileAnywhere(dir: string)
    ensures FileTypeOf(dir + RolesFile) == RolesKind
  {
    ContainsMiddle(dir, RolesFile, "");
    assert dir + RolesFile + "" == dir + RolesFile;
  }

  /** Inside the commands folder too: the "roles" rule comes first, although
      the path also starts with the commands folder. */
  lemma RolesFileUnderCommands()
    ensures StartsWith(CommandsDir + RolesFile, CommandsDir)
    ensures FileTypeOf(CommandsDir + RolesFile) == RolesKind
  {
    RolesFileAnywhere(CommandsDir);
    assert (CommandsDir + RolesFile)[..|CommandsDir|] == CommandsDir;
  }

  /** A command file whose name has no capital `A` is typed "command". */
  lemma CommandFileType(name: string)
    requires 'A' !in name
    ensures FileTypeOf(CommandsDir + name) == CommandKind
  {
    var p := CommandsDir + name;
    assert 'A' !in CommandsDir;
    assert 'A' !in p;
    CharAbsent(p, RolesFile, 0);
    assert p[..|CommandsDir|] == CommandsDir;
  }

  /** A path inside any folder is never a "project" file: the five artefact
      names match only at the top level. */
  lemma NestedNotProject(path: string)
    requires '/' in path
    ensures FileTypeOf(path) != ProjectKind
  {
    forall n | n in ProjectNames ensures '/' !in n {
    }
  }

  // ------------------------------------------------------------------ preview

  const PreviewWindow := 10
  const PreviewWidth := 80
  const NoPreviewLine := "Markdown documentation file"
  const PreviewUnavailable := "File preview not available"

  /** A stripped line good enough for a preview: non-empty, not a heading and
      longer than 20 characters. */
  predicate Qualifies(line: string)
  {
    line != [] && !StartsWith(line, "#") && |line| > 20
  }

  /** The first line of `lines` that qualifies once stripped, stripped. */
  function Candidate(lines: seq<string>): Option<string>
  {
    if lines == [] then None
    else if Qualifies(Strip(lines[0])) then Some(Strip(lines[0]))
    else Candidate(lines[1..])
  }

  /** The first qualifying line is the candidate. */
  lemma {:induction false} CandidateAt(lines: seq<string>, i: nat)
    requires i < |lines| && Qualifies(Strip(lines[i]))
    requires forall j :: 0 <= j < i ==> !Qualifies(Strip(lines[j]))
    ensures Candidate(lines) == Some(Strip(lines[i]))
  {
    if i > 0 {
      assert !Qualifies(Strip(lines[0]));
      forall j | 0 <= j < i - 1 ensures !Qualifies(Strip(lines[1..][j])) {
        assert lines[1..][j] == lines[j + 1];
      }
      CandidateAt(lines[1..], i - 1);
    }
  }

  /** With no qualifying line there is no candidate, and a candidate is
      always one of the lines, stripped, and qualifies. */
  lemma {:induction false} CandidateFound(lines: seq<string>)
    ensures Candidate(lines).None? <==> forall i :: 0 <= i < |lines| ==> !Qualifies(Strip(lines[i]))
    ensures Candidate(lines).Some? ==> exists i :: 0 <= i < |lines| && Candidate(lines).value == Strip(lines[i])
    ensures Candidate(lines).Some? ==> Qualifies(Candidate(lines).value)
  {
    if lines != [] && !Qualifies(Strip(lines[0])) {
      CandidateFound(lines[1..]);
      assert forall i :: 1 <= i < |lines| ==> lines[i] == lines[1..][i - 1];
      if Candidate(lines).Some? {
        var i :| 0 <= i < |lines[1..]| && Candidate(lines).value == Strip(lines[1..][i]);
        assert lines[1..][i] == lines[i + 1];
      }
    }
  }

  /** A long line cut to its first 80 characters and marked with "...". */
  function Shorten(line: string): string
  {
    if |line| > PreviewWidth then line[..PreviewWidth] + "..." else line
  }

  /** What `get_file_preview` returns for a file: `None` stands for a file
      that cannot be read. Only the first ten lines are looked at. */
  function PreviewOf(file: Option<seq<string>>): string
  {
    match file
    case None => PreviewUnavailable
    case Some(lines) =>
      var window := if |lines| <= PreviewWindow then lines else lines[..PreviewWindow];
      match Candidate(window)
      case Some(line) => Shorten(line)
      case None => NoPreviewLine
  }

  /** `get_file_preview`, over the file's lines. */
  method GetFilePreview(file: Option<seq<string>>) returns (preview: string)
    ensures preview == PreviewOf(file)
  {
    if file.None? {
      return PreviewUnavailable;
    }
    var lines := file.value;
    var window := if |lines| <= PreviewWindow then lines else lines[..PreviewWindow];
    var i := 0;
    while i < |window|
      invariant 0 <= i <= |window|
      invariant Candidate(window) == Candidate(window[i..])
    {
      var line := Strip(window[i]);
      if line != [] && !StartsWith(line, "#") && |line| > 20 {
        return if |line| > PreviewWidth then line[..PreviewWidth] + "..." else line;
      }
      assert window[i..][1..] == window[i + 1..];
      i := i + 1;
    }
    return NoPreviewLine;
  }

  /** Every preview is between 21 and 83 characters long: a qualifying line
      is longer than 20, a cut one is 80 plus the ellipsis, and both
      fallbacks are longer than 20. */
  lemma PreviewLength(file: Option<seq<string>>)
    ensures 20 < |PreviewOf(file)| <= PreviewWidth + 3
  {
    if file.Some? {
      var lines := file.value;
      CandidateFound(if |lines| <= PreviewWindow then lines else lines[..PreviewWindow]);
    }
  }

  /** The preview is the first qualifying line among the first ten, whole
      when it has at most 80 characters and cut to 80 plus "..." otherwise;
      with no such line it is the fixed fallback. */
  lemma PreviewIsFirstGoodLine(lines: seq<string>, i: nat)
    requires i < |lines| && i < PreviewWindow
    requires Qualifies(Strip(lines[i]))
    requires forall j :: 0 <= j < i ==> !Qualifies(Strip(lines[j]))
    ensures |Strip(lines[i])| <= PreviewWidth ==> PreviewOf(Some(lines)) == Strip(lines[i])
    ensures |Strip(lines[i])| > PreviewWidth ==> PreviewOf(Some(lines)) == Strip(lines[i])[..PreviewWidth] + "..."
  {
    var window := if |lines| <= PreviewWindow then lines else lines[..PreviewWindow];
    assert forall j :: 0 <= j <= i ==> window[j] == lines[j];
    CandidateAt(window, i);
  }

  /** When none of the first ten lines qualifies the preview is the fixed
      fallback, whatever the later lines hold. */
  lemma PreviewFallback(lines: seq<string>)
    requires forall j :: 0 <= j < |lines| && j < PreviewWindow ==> !Qualifies(Strip(lines[j]))
    ensures PreviewOf(Some(lines)) == NoPreviewLine
  {
    var window := if |lines| <= PreviewWindow then lines else lines[..PreviewWindow];
    assert forall j :: 0 <= j < |window| ==> window[j] == lines[j];
    CandidateFound(window);
  }

  // -------------------------------------------------------------- the catalogue

  /** `os.path.basename`: what follows the last '/'. */
  function Basename(path: string): (name: string)
    ensures '/' !in name && EndsWith(path, name)
    ensures |name| < |path| ==> path[|path| - |name| - 1] == '/'
  {
    if path == [] || path[|path| - 1] == '/' then []
    else
      var front := path[..|path| - 1];
      var init := Basename(front);
      EndsWithSnoc(path, init);
      assert |init| < |front| ==> front[|front| - |init| - 1] == path[|path| - |init| - 2];
      init + [path[|path| - 1]]
  }

  /** One entry of the catalogue. */
  datatype FileInfo = FileInfo(name: string, path: string, fileType: string, preview: string)

  /** One category of the catalogue with its files. */
  datatype Group = Group(category: string, files: seq<FileInfo>)

  /** The three categories, in the order of the `categories` dictionary. */
  datatype Bucket = CoreDocumentation | ProjectFiles | RoleCommands

  const Buckets := [CoreDocumentation, ProjectFiles, RoleCommands]

  function Title(b: Bucket): string
  {
    match b
    case CoreDocumentation => "Core Documentation"
    case ProjectFiles => "Project Files"
    case RoleCommands => "Role Commands"
  }

  const CoreNames := ["README.md", "CLAUDE.md", "AI-Roles.md", "core-principles.md", "CHANGELOG.md"]

  /** The category rule of `get_all_md_files`. */
  function BucketOf(path: string): Bucket
  {
    if StartsWith(path, CommandsDir) then RoleCommands
    else if path in CoreNames then CoreDocumentation
    else ProjectFiles
  }

  /** The commands folder is checked first, then the five core documents by
      exact path; everything else is a project file. */
  lemma BucketRules(path: string)
    ensures BucketOf(path) == RoleCommands <==> StartsWith(path, CommandsDir)
    ensures BucketOf(path) == CoreDocumentation <==> !StartsWith(path, CommandsDir) && path in CoreNames
    ensures BucketOf(path) == ProjectFiles <==> !StartsWith(path, CommandsDir) && path !in CoreNames
  {
  }

  /** A path that is catalogued: the ones under `node_modules` are skipped. */
  predicate Listed(path: string)
  {
    !Contains(path, "node_modules")
  }

  /** The lines of `path`, or `None` when it cannot be read. */
  function ReadLines(files: map<string, seq<string>>, path: string): Option<seq<string>>
  {
    if path in files then Some(files[path]) else None
  }

  /** The entry built for `path`. */
  function InfoOf(path: string, files: map<string, seq<string>>): FileInfo
  {
    FileInfo(Basename(path), "/" + path, Label(FileTypeOf(path)), PreviewOf(ReadLines(files, path)))
  }

  /** The entries that land in `b`, in the order of `paths`. */
  function BucketFiles(paths: seq<string>, files: map<string, seq<string>>, b: Bucket): (r: seq<FileInfo>)
    ensures |r| <= |paths|
  {
    if paths == [] then []
    else
      var p := paths[|paths| - 1];
      BucketFiles(paths[..|paths| - 1], files, b)
      + (if Listed(p) && BucketOf(p) == b then [InfoOf(p, files)] else [])
  }

  /** Python's `a < b` on strings. */
  predicate StrLt(a: string, b: string)
  {
    !StrLe(b, a)
  }

  predicate SortedByName(s: seq<FileInfo>)
  {
    forall i, j :: 0 <= i < j < |s| ==> StrLe(s[i].name, s[j].name)
  }

  /** Places `f` after every entry whose name is not greater than its own. */
  function InsertByName(f: FileInfo, s: seq<FileInfo>): (r: seq<FileInfo>)
    ensures multiset(r) == multiset(s) + multiset{f}
  {
    if s == [] then [f]
    else if StrLt(f.name, s[0].name) then [f] + s
    else
      assert s == [s[0]] + s[1..];
      [s[0]] + InsertByName(f, s[1..])
  }

  /** `sorted(files, key=lambda x: x['name'])`: a stable insertion sort. */
  function SortByName(s: seq<FileInfo>): (r: seq<FileInfo>)
    ensures multiset(r) == multiset(s)
  {
    if s == [] then []
    else
      assert s == s[..|s| - 1] + [s[|s| - 1]];
      InsertByName(s[|s| - 1], SortByName(s[..|s| - 1]))
  }

  lemma {:induction false} InsertSorted(f: FileInfo, s: seq<FileInfo>)
    requires SortedByName(s)
    ensures SortedByName(InsertByName(f, s))
  {
    if s == [] {
    } else if StrLt(f.name, s[0].name) {
      StrLeTotal(f.name, s[0].name);
      forall y | y in s ensures StrLe(f.name, y.name) {
        var j :| 0 <= j < |s| && s[j] == y;
        if j > 0 {
          StrLeTrans(f.name, s[0].name, s[j].name);
        }
      }
      SortedCons(f, s);
    } else {
      var t := InsertByName(f, s[1..]);
      InsertSorted(f, s[1..]);
      forall y | y in t ensures StrLe(s[0].name, y.name) {
        assert y in multiset(t);
        if y != f {
          assert y in multiset(s[1..]);
          var j :| 0 <= j < |s[1..]| && s[1..][j] == y;
          assert s[j + 1] == y;
        }
      }
      SortedCons(s[0], t);
    }
  }

  /** A name no greater than every name of a sorted list can go in front. */
  lemma SortedCons(x: FileInfo, s: seq<FileInfo>)
    requires SortedByName(s) && forall y :: y in s ==> StrLe(x.name, y.name)
    ensures SortedByName([x] + s)
  {
    var r := [x] + s;
    forall i, j | 0 <= i < j < |r| ensures StrLe(r[i].name, r[j].name) {
      assert r[j] == s[j - 1];
      if i > 0 {
        assert r[i] == s[i - 1];
      }
    }
  }

  lemma {:induction false} SortSorted(s: seq<FileInfo>)
    ensures SortedByName(SortByName(s))
  {
    if s != [] {
      SortSorted(s[..|s| - 1]);
      InsertSorted(s[|s| - 1], SortByName(s[..|s| - 1]));
    }
  }

  /** The groups for the categories `bs`, skipping empty ones. */
  function GroupsOf(paths: seq<string>, files: map<string, seq<string>>, bs: seq<Bucket>): seq<Group>
  {
    if bs == [] then []
    else
      GroupsOf(paths, files, bs[..|bs| - 1]) + GroupOf(paths, files, bs[|bs| - 1])
  }

  /** One more bucket converted. */
  lemma GroupsStep(paths: seq<string>, files: map<string, seq<string>>, j: nat)
    requires j < |Buckets|
    ensures GroupsOf(paths, files, Buckets[..j + 1]) == GroupsOf(paths, files, Buckets[..j]) + GroupOf(paths, files, Buckets[j])
  {
    assert Buckets[..j + 1] == Buckets[..j] + [Buckets[j]];
    GroupsSnoc(paths, files, Buckets[..j], Buckets[j]);
  }

  lemma GroupsSnoc(paths: seq<string>, files: map<string, seq<string>>, bs: seq<Bucket>, b: Bucket)
    ensures GroupsOf(paths, files, bs + [b]) == GroupsOf(paths, files, bs) + GroupOf(paths, files, b)
  {
    assert (bs + [b])[..|bs|] == bs;
  }

  /** The group of category `b`, or nothing when `b` is empty. */
  function GroupOf(paths: seq<string>, files: map<string, seq<string>>, b: Bucket): seq<Group>
  {
    var inB := BucketFiles(paths, files, b);
    if inB == [] then [] else [Group(Title(b), SortByName(inB))]
  }

  /** What `get_all_md_files` returns for the globbed `paths`. */
  function CatalogueOf(paths: seq<string>, files: map<string, seq<string>>): seq<Group>
  {
    GroupsOf(paths, files, Buckets)
  }

  /** `get_all_md_files`, over the globbed paths and the readable files. */
  method GetAllMdFiles(paths: seq<string>, files: map<string, seq<string>>) returns (result: seq<Group>)
    ensures result == CatalogueOf(paths, files)
  {
    var core, project, commands := Categorize(paths, files);
    var categories := [(CoreDocumentation, core), (ProjectFiles, project), (RoleCommands, commands)];
    result := [];
    var j := 0;
    while j < |categories|
      invariant 0 <= j <= |categories|
      invariant result == GroupsOf(paths, files, Buckets[..j])
    {
      var (category, categoryFiles) := categories[j];
      GroupsStep(paths, files, j);
      assert category == Buckets[j] && categoryFiles == BucketFiles(paths, files, category);
      if categoryFiles != [] {
        result := result + [Group(Title(category), SortByName(categoryFiles))];
      }
      j := j + 1;
    }
    assert Buckets[..j] == Buckets;
  }

  /** The first loop of `get_all_md_files`: fills the lists of the
      `categories` dictionary, in the order of `paths`. */
  method Categorize(paths: seq<string>, files: map<string, seq<string>>)
    returns (core: seq<FileInfo>, project: seq<FileInfo>, commands: seq<FileInfo>)
    ensures core == BucketFiles(paths, files, CoreDocumentation)
    ensures project == BucketFiles(paths, files, ProjectFiles)
    ensures commands == BucketFiles(paths, files, RoleCommands)
  {
    core, project, commands := [], [], [];
    var i := 0;
    while i < |paths|
      invariant 0 <= i <= |paths|
      invariant core == BucketFiles(paths[..i], files, CoreDocumentation)
      invariant project == BucketFiles(paths[..i], files, ProjectFiles)
      invariant commands == BucketFiles(paths[..i], files, RoleCommands)
    {
      var filePath := paths[i];
      BucketFilesStep(paths, files, i);
      if !Contains(filePath, "node_modules") {
        var preview := GetFilePreview(ReadLines(files, filePath));
        var fileInfo := FileInfo(Basename(filePath), "/" + filePath, Label(FileTypeOf(filePath)), preview);
        if StartsWith(filePath, CommandsDir) {
          commands := commands + [fileInfo];
        } else if filePath in CoreNames {
          core := core + [fileInfo];
        } else {
          project := project + [fileInfo];
        }
      }
      i := i + 1;
    }
    assert paths[..i] == paths;
  }

  // ------------------------------------------------------- catalogue properties

  /** One more path visited, branch by branch as the loop of
      `get_all_md_files` takes them. */
  lemma BucketFilesStep(paths: seq<string>, files: map<string, seq<string>>, i: nat)
    requires i < |paths|
    ensures var p, pre, post := paths[i], paths[..i], paths[..i + 1];
      if !Listed(p) then
        forall b :: BucketFiles(post, files, b) == BucketFiles(pre, files, b)
      else if StartsWith(p, CommandsDir) then
        BucketFiles(post, files, RoleCommands) == BucketFiles(pre, files, RoleCommands) + [InfoOf(p, files)]
        && BucketFiles(post, files, CoreDocumentation) == BucketFiles(pre, files, CoreDocumentation)
        && BucketFiles(post, files, ProjectFiles) == BucketFiles(pre, files, ProjectFiles)
      else if p in CoreNames then
        BucketFiles(post, files, CoreDocumentation) == BucketFiles(pre, files, CoreDocumentation) + [InfoOf(p, files)]
        && BucketFiles(post, files, RoleCommands) == BucketFiles(pre, files, RoleCommands)
        && BucketFiles(post, files, ProjectFiles) == BucketFiles(pre, files, ProjectFiles)
      else
        BucketFiles(post, files, ProjectFiles) == BucketFiles(pre, files, ProjectFiles) + [InfoOf(p, files)]
        && BucketFiles(post, files, CoreDocumentation) == BucketFiles(pre, files, CoreDocumentation)
        && BucketFiles(post, files, RoleCommands) == BucketFiles(pre, files, RoleCommands)
  {
    assert paths[..i + 1][..i] == paths[..i];
  }

  /** Every entry of a category comes from a catalogued path of that category
      and is built from it. */
  lemma {:induction false} BucketFilesFrom(paths: seq<string>, files: map<string, seq<string>>, b: Bucket)
    ensures forall f :: f in BucketFiles(paths, files, b) ==>
              exists i :: 0 <= i < |paths| && Listed(paths[i]) && BucketOf(paths[i]) == b && f == InfoOf(paths[i], files)
  {
    if paths != [] {
      var init := paths[..|paths| - 1];
      BucketFilesFrom(init, files, b);
      forall f | f in BucketFiles(paths, files, b)
        ensures exists i :: 0 <= i < |paths| && Listed(paths[i]) && BucketOf(paths[i]) == b && f == InfoOf(paths[i], files)
      {
        if f in BucketFiles(init, files, b) {
          var i :| 0 <= i < |init| && Listed(init[i]) && BucketOf(init[i]) == b && f == InfoOf(init[i], files);
          assert paths[i] == init[i];
        } else {
          assert f == InfoOf(paths[|paths| - 1], files);
        }
      }
    }
  }

  /** Every catalogued path has its entry in its own category. */
  lemma {:induction false} BucketFilesHas(paths: seq<string>, files: map<string, seq<string>>, i: nat)
    requires i < |paths| && Listed(paths[i])
    ensures InfoOf(paths[i], files) in BucketFiles(paths, files, BucketOf(paths[i]))
  {
    var init := paths[..|paths| - 1];
    if i < |paths| - 1 {
      assert init[i] == paths[i];
      BucketFilesHas(init, files, i);
    }
  }

  /** The number of catalogued paths. */
  function ListedCount(paths: seq<string>): (n: nat)
    ensures n <= |paths|
  {
    if paths == [] then 0
    else ListedCount(paths[..|paths| - 1]) + (if Listed(paths[|paths| - 1]) then 1 else 0)
  }

  /** Each catalogued path lands in exactly one category: the three
      categories together hold as many entries as there are catalogued
      paths. */
  lemma {:induction false} OneBucketEach(paths: seq<string>, files: map<string, seq<string>>)
    ensures |BucketFiles(paths, files, CoreDocumentation)| + |BucketFiles(paths, files, ProjectFiles)|
            + |BucketFiles(paths, files, RoleCommands)| == ListedCount(paths)
  {
    if paths != [] {
      OneBucketEach(paths[..|paths| - 1], files);
    }
  }

  /** A category's group, when present, carries its title and holds that
      category's entries sorted by name. */
  lemma GroupShape(paths: seq<string>, files: map<string, seq<string>>, b: Bucket)
    ensures |GroupOf(paths, files, b)| == (if BucketFiles(paths, files, b) == [] then 0 else 1)
    ensures forall g :: g in GroupOf(paths, files, b) ==>
              g.category == Title(b) && g.files != [] && SortedByName(g.files)
              && multiset(g.files) == multiset(BucketFiles(paths, files, b))
  {
    SortSorted(BucketFiles(paths, files, b));
  }

  /** The catalogue is the Core Documentation group, then the Project Files
      group, then the Role Commands group, each present exactly when its
      category has an entry. */
  lemma CatalogueLayout(paths: seq<string>, files: map<string, seq<string>>)
    ensures CatalogueOf(paths, files) ==
      GroupOf(paths, files, CoreDocumentation) + GroupOf(paths, files, ProjectFiles) + GroupOf(paths, files, RoleCommands)
  {
    var bs2 := [CoreDocumentation, ProjectFiles];
    assert Buckets[..2] == bs2;
    assert bs2[..1] == [CoreDocumentation];
    assert [CoreDocumentation][..0] == [];
    assert GroupsOf(paths, files, [CoreDocumentation]) == GroupOf(paths, files, CoreDocumentation);
    assert GroupsOf(paths, files, bs2) == GroupsOf(paths, files, [CoreDocumentation]) + GroupOf(paths, files, ProjectFiles);
  }
}
