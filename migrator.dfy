/** The migration driver: the object that holds the migration report, and
    its passes over the role document, the per-role command files and the
    documentation registry.  The file system is a parameter: the contents
    read come in as arguments and the contents written go out as results. */
module Migrator {
  import opened Wrappers
  import opened PyText
  import opened RolePatterns
  import opened Roles
  import opened Sections

  const BasePath := "/opt/1000-AI-Roles"

  // ---------------------------------------------------------------------
  // Backups
  // ---------------------------------------------------------------------

  /** Where a role's command file lives, relative to the base path. */
  function CommandPath(key: string): (p: string)
    ensures StartsWith(p, ".claude/commands/") && EndsWith(p, ".md")
  {
    ".claude/commands/" + key + ".md"
  }

  /** The three main files backed up before the command files. */
  const MainFiles: seq<string> := ["AI-Roles.md", "CLAUDE.md", ".claude/commands/roles.md"]

  /** The command file of each of the first `k` roles, in table order. */
  function CommandPaths(roles: seq<Role>, k: nat): (ps: seq<string>)
    requires k <= |roles|
    ensures |ps| == k
    ensures forall i :: 0 <= i < k ==> ps[i] == CommandPath(roles[i].key)
  {
    if k == 0 then [] else CommandPaths(roles, k - 1) + [CommandPath(roles[k - 1].key)]
  }

  /** Every file `backup_files` considers, in the order it visits them. */
  function BackupList(roles: seq<Role>): seq<string>
  {
    MainFiles + CommandPaths(roles, |roles|)
  }

  /** The paths of `paths` that exist, in order. */
  function Existing(paths: seq<string>, existing: set<string>): (kept: seq<string>)
    ensures forall p :: p in kept <==> p in paths && p in existing
    ensures |kept| <= |paths|
  {
    if paths == [] then []
    else if paths[|paths| - 1] in existing then Existing(paths[..|paths| - 1], existing) + [paths[|paths| - 1]]
    else Existing(paths[..|paths| - 1], existing)
  }

  /** The backup list covers the three main files and every role's command
      file, and nothing else. */
  lemma BackupCovers(roles: seq<Role>, key: string)
    ensures Find(roles, key).Some? ==> CommandPath(key) in BackupList(roles)
    ensures |BackupList(roles)| == 3 + |roles|
    ensures forall p :: p in MainFiles ==> p in BackupList(roles)
  {
    if Find(roles, key).Some? {
      var i :| 0 <= i < |roles| && roles[i] == Find(roles, key).value;
      assert BackupList(roles)[3 + i] == CommandPath(key);
    }
    forall p | p in MainFiles ensures p in BackupList(roles) {
      var i :| 0 <= i < 3 && MainFiles[i] == p;
      assert BackupList(roles)[i] == p;
    }
  }

  // ---------------------------------------------------------------------
  // Command files
  // ---------------------------------------------------------------------

  const QaFrameworkMarker := "## Interactive Q&A Framework"
  const QuestionMarker := "## Question"
  const ResponsibilitiesAnchor := "## Key Responsibilities"

  /** A command file that already has its interaction section. */
  predicate HasQuestions(content: string)
  {
    Contains(content, QaFrameworkMarker) || Contains(content, QuestionMarker)
  }

  /** The command-file patch with the section to insert as a parameter:
      before the responsibilities heading when there is one, else at the
      end, and only when the file has no interaction section yet. */
  function PatchWith(content: string, section: string): string
  {
    if HasQuestions(content) then content
    else if Contains(content, ResponsibilitiesAnchor) then
      ReplaceAll(content, ResponsibilitiesAnchor, section + "\n\n" + ResponsibilitiesAnchor)
    else
      content + "\n" + section
  }

  /** The patch leaves a file that has its interaction section alone, and
      gives every other file one. */
  lemma PatchGivesQuestions(content: string, section: string)
    requires Contains(section, QuestionMarker)
    ensures HasQuestions(PatchWith(content, section))
    ensures HasQuestions(content) ==> PatchWith(content, section) == content
    ensures !HasQuestions(content) && !Contains(content, ResponsibilitiesAnchor) ==>
      PatchWith(content, section) == content + "\n" + section
  {
    if !HasQuestions(content) {
      if Contains(content, ResponsibilitiesAnchor) {
        var q := section + "\n\n" + ResponsibilitiesAnchor;
        ReplaceAllInserts(content, ResponsibilitiesAnchor, q);
        ContainsLeft(section, "\n\n", QuestionMarker);
        ContainsLeft(section + "\n\n", ResponsibilitiesAnchor, QuestionMarker);
        ContainsWithin(PatchWith(content, section), q, QuestionMarker);
      } else {
        ContainsRight(content + "\n", section, QuestionMarker);
      }
    }
  }

  /** Where the patch puts the section: in front of the first
      `## Key Responsibilities`, with the file before it kept and the rest of
      the file rewritten the same way.  When that heading occurs once, the
      file is kept whole around the inserted section. */
  lemma PatchBeforeResponsibilities(content: string, section: string, i: int)
    requires !HasQuestions(content) && FirstAt(content, ResponsibilitiesAnchor, i)
    ensures PatchWith(content, section) == content[..i] + (section + "\n\n") + ResponsibilitiesAnchor
      + ReplaceAll(content[i + |ResponsibilitiesAnchor|..], ResponsibilitiesAnchor, section + "\n\n" + ResponsibilitiesAnchor)
    ensures (forall j :: OccursAt(content, ResponsibilitiesAnchor, j) ==> j == i) ==>
      PatchWith(content, section) == content[..i] + (section + "\n\n") + content[i..]
  {
    assert Contains(content, ResponsibilitiesAnchor);
    ReplaceAllBefore(content, ResponsibilitiesAnchor, section + "\n\n", i);
  }

  /** Patching twice is patching once. */
  lemma PatchIdempotent(content: string, section: string)
    requires Contains(section, QuestionMarker)
    ensures PatchWith(PatchWith(content, section), section) == PatchWith(content, section)
  {
    PatchGivesQuestions(content, section);
    PatchGivesQuestions(PatchWith(content, section), section);
  }

  /** The opening of the interaction section, up to the question heading. */
  const SectionOpening := "\n## Structured Interaction Pattern\n\n#"

  /** The fixed middle of the interaction section. */
  const SectionGuide :=
    " Overview\nPresent all questions upfront with hierarchical numbering (1, 1.1, 1.1.a)\n\n"
    + "### Interactive Questioning\n- Ask ONE question at a time\n"
    + "- Wait for user response before proceeding\n"
    + "- Allow 'skip', 'back', and 'overview' navigation\n\n"
    + "### Progress Tracking\nShow progress: [Question X of Y] or "
    + "[\U{25A0}\U{25A0}\U{25A0}\U{25A1}\U{25A1}\U{25A1}\U{25A1}\U{25A1}\U{25A1}\U{25A1}] 30% complete\n\n"
    + "### Summary & Confirmation\nAfter all questions, provide summary and allow revisions\n\n"

  /** The role display closing the interaction section. */
  function RoleDisplay(role: Role): string
  {
    "## Role Display\n\U{1F3AD} **Current Role**: " + role.name + " - " + role.definition
    + "\n\U{27A1}\U{FE0F} **Next Suggested Role**: " + role.nextRole + " - Continue with next phase"
  }

  /** The interaction section written into a role's command file. */
  function CommandSection(role: Role): (s: string)
    ensures Contains(s, QuestionMarker)
  {
    ContainsMiddle(SectionOpening, QuestionMarker, SectionGuide + RoleDisplay(role));
    SectionOpening + QuestionMarker + (SectionGuide + RoleDisplay(role))
  }

  /** One command file after `migrate_command_files`. */
  function PatchCommand(content: string, role: Role): string
  {
    PatchWith(content, CommandSection(role))
  }

  /** The command files after the first `k` roles of `roles` are visited:
      an existing file is patched, a missing one stays missing. */
  function PatchedUpto(files: map<string, string>, roles: seq<Role>, k: nat): (r: map<string, string>)
    requires k <= |roles|
    ensures r.Keys == files.Keys
  {
    if k == 0 then files
    else
      var r := PatchedUpto(files, roles, k - 1);
      var path := CommandPath(roles[k - 1].key);
      if path in r then r[path := PatchCommand(r[path], roles[k - 1])] else r
  }

  /** The report lines of the first `k` visited roles. */
  function CommandReportUpto(files: map<string, string>, roles: seq<Role>, k: nat): (lines: seq<string>)
    requires k <= |roles|
    ensures |lines| <= k
  {
    if k == 0 then []
    else if CommandPath(roles[k - 1].key) in files then
      CommandReportUpto(files, roles, k - 1) + ["Updated command file: " + roles[k - 1].key + ".md"]
    else CommandReportUpto(files, roles, k - 1)
  }

  /** One more role visited by the command pass. */
  lemma CommandStep(files: map<string, string>, roles: seq<Role>, i: nat)
    requires i < |roles|
    ensures var cur := PatchedUpto(files, roles, i);
      var path := CommandPath(roles[i].key);
      && (path in cur <==> path in files)
      && PatchedUpto(files, roles, i + 1) == (if path in cur then cur[path := PatchCommand(cur[path], roles[i])] else cur)
      && CommandReportUpto(files, roles, i + 1) == CommandReportUpto(files, roles, i)
        + (if path in files then ["Updated command file: " + roles[i].key + ".md"] else [])
  {
  }

  /** After the pass, every command file of a visited role has its
      interaction section, and every other file is as it was. */
  lemma {:induction false} PatchedFiles(files: map<string, string>, roles: seq<Role>, k: nat)
    requires k <= |roles|
    ensures forall i :: 0 <= i < k && CommandPath(roles[i].key) in files ==>
      HasQuestions(PatchedUpto(files, roles, k)[CommandPath(roles[i].key)])
    ensures forall p :: p in files && (forall i :: 0 <= i < k ==> p != CommandPath(roles[i].key)) ==>
      PatchedUpto(files, roles, k)[p] == files[p]
  {
    if k > 0 {
      PatchedFiles(files, roles, k - 1);
      var role := roles[k - 1];
      var path := CommandPath(role.key);
      var r := PatchedUpto(files, roles, k - 1);
      if path in r {
        PatchGivesQuestions(r[path], CommandSection(role));
      }
    }
  }

  /** A file that has its interaction section is not touched again. */
  lemma {:induction false} PatchedUptoKeeps(files: map<string, string>, roles: seq<Role>, k: nat)
    requires k <= |roles|
    requires forall i :: 0 <= i < k && CommandPath(roles[i].key) in files ==>
      HasQuestions(files[CommandPath(roles[i].key)])
    ensures PatchedUpto(files, roles, k) == files
  {
    if k > 0 {
      PatchedUptoKeeps(files, roles, k - 1);
      var role := roles[k - 1];
      var path := CommandPath(role.key);
      if path in files {
        PatchGivesQuestions(files[path], CommandSection(role));
      }
    }
  }

  /** Running the command-file pass a second time changes no file. */
  lemma CommandPassIdempotent(files: map<string, string>, roles: seq<Role>)
    ensures PatchedUpto(PatchedUpto(files, roles, |roles|), roles, |roles|) == PatchedUpto(files, roles, |roles|)
  {
    PatchedFiles(files, roles, |roles|);
    PatchedUptoKeeps(PatchedUpto(files, roles, |roles|), roles, |roles|);
  }

  // ---------------------------------------------------------------------
  // The documentation registry
  // ---------------------------------------------------------------------

  const TemplateMarker := "role-template.md"
  const VersionAnchor := "| VERSION | Current version"
  const HistoryMarker := "## Version History"
  const RemindersAnchor := "# important-instruction-reminders"

  /** The registry row for the template, dated `date`. */
  function MigrationNote(date: string): string
  {
    "\n| " + TemplateMarker + " | Standardized template for all roles with interaction patterns | 1.0 | " + date + " |"
  }

  /** The version history section, dated `date`. */
  function VersionSection(date: string): string
  {
    "\n" + HistoryMarker + "\n- v1.3 (" + date
    + "): Migrated all roles to standardized template with hierarchical interaction patterns"
  }

  /** The first half of the registry update: the row goes in front of the
      version row, unless the template is already registered. */
  function RegisterNote(content: string, note: string): string
  {
    if Contains(content, TemplateMarker) then content
    else ReplaceAll(content, VersionAnchor, note + "\n" + VersionAnchor)
  }

  /** The second half: the section goes in front of the reminders heading,
      unless there is a version history already. */
  function AddHistory(content: string, section: string): string
  {
    if Contains(content, HistoryMarker) then content
    else ReplaceAll(content, RemindersAnchor, section + "\n\n" + RemindersAnchor)
  }

  /** The registry update with the row and the section as parameters. */
  function UpdateRegistry(content: string, note: string, section: string): string
  {
    AddHistory(RegisterNote(content, note), section)
  }

  /** `update_claude_md`, the date a parameter. */
  function UpdatedClaudeMd(content: string, date: string): string
  {
    UpdateRegistry(content, MigrationNote(date), VersionSection(date))
  }

  // The anchors and markers of the registry cannot overlap one another.

  lemma VersionAnchorApart()
    ensures CannotOverlap(VersionAnchor, RemindersAnchor)
    ensures CannotOverlap(VersionAnchor, HistoryMarker)
  {
  }

  lemma RemindersAnchorApart()
    ensures CannotOverlap(RemindersAnchor, TemplateMarker)
  {
  }

  /** With the version row or the template registered, and the reminders
      heading or a version history present, the update registers the
      template and adds a version history. */
  lemma RegistryUpdated(content: string, note: string, section: string)
    requires Contains(note, TemplateMarker) && Contains(section, HistoryMarker)
    requires Contains(content, TemplateMarker) || Contains(content, VersionAnchor)
    requires Contains(content, HistoryMarker) || Contains(content, RemindersAnchor)
    ensures Contains(UpdateRegistry(content, note, section), TemplateMarker)
    ensures Contains(UpdateRegistry(content, note, section), HistoryMarker)
  {
    VersionAnchorApart();
    RemindersAnchorApart();
    var c1 := if Contains(content, TemplateMarker) then content
              else ReplaceAll(content, VersionAnchor, note + "\n" + VersionAnchor);
    if !Contains(content, TemplateMarker) {
      ReplaceAllInserts(content, VersionAnchor, note + "\n" + VersionAnchor);
      ContainsLeft(note, "\n" + VersionAnchor, TemplateMarker);
      assert note + "\n" + VersionAnchor == note + ("\n" + VersionAnchor);
      ContainsWithin(c1, note + "\n" + VersionAnchor, TemplateMarker);
      if Contains(content, HistoryMarker) {
        ReplaceAllKeeps(content, VersionAnchor, note + "\n" + VersionAnchor, HistoryMarker);
      } else {
        ReplaceAllKeeps(content, VersionAnchor, note + "\n" + VersionAnchor, RemindersAnchor);
      }
    }
    if !Contains(c1, HistoryMarker) {
      var q := section + "\n\n" + RemindersAnchor;
      ReplaceAllInserts(c1, RemindersAnchor, q);
      ContainsLeft(section, "\n\n", HistoryMarker);
      ContainsLeft(section + "\n\n", RemindersAnchor, HistoryMarker);
      ContainsWithin(UpdateRegistry(content, note, section), q, HistoryMarker);
      ReplaceAllKeeps(c1, RemindersAnchor, q, TemplateMarker);
    }
  }

  /** Each half of the update is a silent no-op when its anchor is
      missing: without the version row the note is not added and the
      history step still runs; without the reminders heading the section is
      not added.  With neither step able to take effect, the registry is
      untouched. */
  lemma RegistryUntouched(content: string, note: string, section: string)
    ensures !Contains(content, VersionAnchor) ==>
      UpdateRegistry(content, note, section) == AddHistory(content, section)
    ensures !Contains(RegisterNote(content, note), RemindersAnchor) ==>
      UpdateRegistry(content, note, section) == RegisterNote(content, note)
    ensures (Contains(content, TemplateMarker) || !Contains(content, VersionAnchor)) &&
            (Contains(content, HistoryMarker) || !Contains(content, RemindersAnchor)) ==>
      UpdateRegistry(content, note, section) == content
  {
    if !Contains(content, VersionAnchor) {
      ReplaceAllAbsent(content, VersionAnchor, note + "\n" + VersionAnchor);
    }
    var c1 := RegisterNote(content, note);
    if !Contains(c1, RemindersAnchor) {
      ReplaceAllAbsent(c1, RemindersAnchor, section + "\n\n" + RemindersAnchor);
    }
  }

  /** Where the note goes: in front of the first version row, with the
      registry before it kept.  With a single version row, the registry is
      kept whole around the note. */
  lemma NoteBeforeVersionRow(content: string, note: string, i: int)
    requires !Contains(content, TemplateMarker) && FirstAt(content, VersionAnchor, i)
    ensures RegisterNote(content, note) == content[..i] + (note + "\n") + VersionAnchor
      + ReplaceAll(content[i + |VersionAnchor|..], VersionAnchor, note + "\n" + VersionAnchor)
    ensures (forall j :: OccursAt(content, VersionAnchor, j) ==> j == i) ==>
      RegisterNote(content, note) == content[..i] + (note + "\n") + content[i..]
  {
    ReplaceAllBefore(content, VersionAnchor, note + "\n", i);
  }

  /** Where the section goes: in front of the first reminders heading, with
      the registry before it kept.  With a single reminders heading, the
      registry is kept whole around the section. */
  lemma HistoryBeforeReminders(content: string, section: string, i: int)
    requires !Contains(content, HistoryMarker) && FirstAt(content, RemindersAnchor, i)
    ensures AddHistory(content, section) == content[..i] + (section + "\n\n") + RemindersAnchor
      + ReplaceAll(content[i + |RemindersAnchor|..], RemindersAnchor, section + "\n\n" + RemindersAnchor)
    ensures (forall j :: OccursAt(content, RemindersAnchor, j) ==> j == i) ==>
      AddHistory(content, section) == content[..i] + (section + "\n\n") + content[i..]
  {
    ReplaceAllBefore(content, RemindersAnchor, section + "\n\n", i);
  }

  /** Where the update can take effect, updating twice is updating once. */
  lemma RegistryIdempotent(content: string, note: string, section: string)
    requires Contains(note, TemplateMarker) && Contains(section, HistoryMarker)
    requires Contains(content, TemplateMarker) || Contains(content, VersionAnchor)
    requires Contains(content, HistoryMarker) || Contains(content, RemindersAnchor)
    ensures UpdateRegistry(UpdateRegistry(content, note, section), note, section)
      == UpdateRegistry(content, note, section)
  {
    RegistryUpdated(content, note, section);
  }

  /** The dated row and section carry the marker they are checked by. */
  lemma DatedTextsMarked(date: string)
    ensures Contains(MigrationNote(date), TemplateMarker)
    ensures Contains(VersionSection(date), HistoryMarker)
  {
    ContainsMiddle("\n| ", TemplateMarker,
      " | Standardized template for all roles with interaction patterns | 1.0 | " + date + " |");
    assert MigrationNote(date) == "\n| " + TemplateMarker
      + (" | Standardized template for all roles with interaction patterns | 1.0 | " + date + " |");
    ContainsMiddle("\n", HistoryMarker, "\n- v1.3 (" + date
      + "): Migrated all roles to standardized template with hierarchical interaction patterns");
    assert VersionSection(date) == "\n" + HistoryMarker + ("\n- v1.3 (" + date
      + "): Migrated all roles to standardized template with hierarchical interaction patterns");
  }

  /** `update_claude_md` registers the template and adds the history
      whenever its anchors allow, and running it again on the same day
      changes nothing more. */
  lemma ClaudeMdUpdate(content: string, date: string)
    requires Contains(content, TemplateMarker) || Contains(content, VersionAnchor)
    requires Contains(content, HistoryMarker) || Contains(content, RemindersAnchor)
    ensures Contains(UpdatedClaudeMd(content, date), TemplateMarker)
    ensures Contains(UpdatedClaudeMd(content, date), HistoryMarker)
    ensures UpdatedClaudeMd(UpdatedClaudeMd(content, date), date) == UpdatedClaudeMd(content, date)
  {
    DatedTextsMarked(date);
    RegistryUpdated(content, MigrationNote(date), VersionSection(date));
    RegistryIdempotent(content, MigrationNote(date), VersionSection(date));
  }

  // ---------------------------------------------------------------------
  // The role document
  // ---------------------------------------------------------------------

  /** The names of the recorded elements, in order. */
  function Names(added: seq<Enhancement>): (names: seq<string>)
    ensures |names| == |added|
    ensures forall i :: 0 <= i < |added| ==> names[i] == added[i].Name()
  {
    if added == [] then [] else [added[0].Name()] + Names(added[1..])
  }

  /** The role name a heading `### @name` carries: what follows its
      five-character lead. */
  function HeadingName(heading: string): string
  {
    if |heading| < 5 then heading else heading[5..]
  }

  /** On a heading, the name is what `re.search(r'@([\w-]+)', ...)` finds. */
  lemma HeadingNameSearched(heading: string)
    requires IsHeading(heading)
    ensures SearchRoleName(heading) == Some(HeadingName(heading))
  {
    HeadingRoleName(heading);
  }

  /** The per-role enhancement `add_missing_elements` performs, given as a
      parameter so that the document pass can be reasoned about on its own. */
  type Enhancer = (string, string) -> Enhanced

  /** The document after the preamble and the first `k` role sections are
      migrated: each heading is kept and its body enhanced. */
  function MigratedUpto(parts: seq<string>, k: nat, enhance: Enhancer): string
    requires 2 * k < |parts|
  {
    if k == 0 then parts[0]
    else
      MigratedUpto(parts, k - 1, enhance) + parts[2 * k - 1]
      + enhance(parts[2 * k], HeadingName(parts[2 * k - 1])).content
  }

  /** The report line for one role section, if anything was recorded. */
  function RoleReport(heading: string, body: string, enhance: Enhancer): (lines: seq<string>)
    ensures |lines| <= 1
    ensures lines == [] <==> enhance(body, HeadingName(heading)).added == []
  {
    var names := Names(enhance(body, HeadingName(heading)).added);
    if names == [] then [] else ["Enhanced " + HeadingName(heading) + ": " + Join(names, ", ")]
  }

  /** The report lines of the first `k` role sections. */
  function DocumentReportUpto(parts: seq<string>, k: nat, enhance: Enhancer): seq<string>
    requires 2 * k < |parts|
  {
    if k == 0 then []
    else DocumentReportUpto(parts, k - 1, enhance) + RoleReport(parts[2 * k - 1], parts[2 * k], enhance)
  }

  /** `migrate_ai_roles_file` on the document `content`. */
  function MigrateDocument(content: string): string
  {
    var parts := SplitRoleSections(content);
    MigratedUpto(parts, |parts| / 2, EnsureSections)
  }

  /** The report lines `migrate_ai_roles_file` adds. */
  function DocumentReport(content: string): seq<string>
  {
    var parts := SplitRoleSections(content);
    DocumentReportUpto(parts, |parts| / 2, EnsureSections)
  }

  /** The shape of a split the document loop relies on: odd length, and
      headings at the odd entries. */
  ghost predicate Headed(parts: seq<string>)
  {
    |parts| % 2 == 1 && forall i :: 0 <= i < |parts| && i % 2 == 1 ==> IsHeading(parts[i])
  }

  /** `re.search(r'@([\w-]+)', role_header).group(1)` on a heading: the
      name after its lead. */
  method RoleNameOf(roleHeader: string) returns (roleName: string)
    requires IsHeading(roleHeader)
    ensures roleName == HeadingName(roleHeader)
  {
    HeadingNameSearched(roleHeader);
    roleName := SearchRoleName(roleHeader).value;
  }

  /** One more role section migrated, in the terms the document loop uses. */
  lemma SectionStep(parts: seq<string>, k: nat, enhance: Enhancer)
    requires 2 * k + 2 < |parts|
    ensures MigratedUpto(parts, k + 1, enhance) ==
      MigratedUpto(parts, k, enhance) + parts[2 * k + 1] + enhance(parts[2 * k + 2], HeadingName(parts[2 * k + 1])).content
    ensures var names := Names(enhance(parts[2 * k + 2], HeadingName(parts[2 * k + 1])).added);
      DocumentReportUpto(parts, k + 1, enhance) == DocumentReportUpto(parts, k, enhance)
        + if names == [] then [] else ["Enhanced " + HeadingName(parts[2 * k + 1]) + ": " + Join(names, ", ")]
  {
  }

  /** Every role section already complete: enhancing leaves it as it is. */
  ghost predicate AllComplete(parts: seq<string>, enhance: Enhancer)
  {
    forall k :: 1 <= k && 2 * k < |parts| ==>
      enhance(parts[2 * k], HeadingName(parts[2 * k - 1])).content == parts[2 * k]
  }

  /** Without any enhancement to make, the migrated prefix is the text. */
  lemma {:induction false} MigratedUptoUnchanged(parts: seq<string>, k: nat, enhance: Enhancer)
    requires |parts| % 2 == 1 && 2 * k < |parts| && AllComplete(parts, enhance)
    ensures MigratedUpto(parts, k, enhance) == Concat(parts[..2 * k + 1])
  {
    if k == 0 {
      ConcatFirst(parts);
    } else {
      MigratedUptoUnchanged(parts, k - 1, enhance);
      ConcatTwoMore(parts, 2 * k - 1);
      assert enhance(parts[2 * k], HeadingName(parts[2 * k - 1])).content == parts[2 * k];
    }
  }

  /** Joining the first entry alone. */
  lemma ConcatFirst(parts: seq<string>)
    requires |parts| > 0
    ensures Concat(parts[..1]) == parts[0]
  {
    assert parts[..1] == [parts[0]];
    assert Concat([parts[0]]) == parts[0] + Concat([]);
  }

  /** Joining two more entries of a list. */
  lemma ConcatTwoMore(parts: seq<string>, i: nat)
    requires i + 2 <= |parts|
    ensures Concat(parts[..i + 2]) == Concat(parts[..i]) + parts[i] + parts[i + 1]
  {
    assert parts[..i + 2] == parts[..i] + [parts[i], parts[i + 1]];
    ConcatAppend(parts[..i], [parts[i], parts[i + 1]]);
    assert [parts[i], parts[i + 1]][1..] == [parts[i + 1]];
    assert Concat([parts[i + 1]]) == parts[i + 1] + Concat([]);
  }

  /** A document whose role sections are all complete is written back as
      it was read. */
  lemma CompleteDocumentUnchanged(content: string)
    requires AllComplete(SplitRoleSections(content), EnsureSections)
    ensures MigrateDocument(content) == content
  {
    var parts := SplitRoleSections(content);
    MigratedUptoUnchanged(parts, |parts| / 2, EnsureSections);
    assert parts[..2 * (|parts| / 2) + 1] == parts;
  }

  /** A report line is added for a role only when an element was recorded
      for it, so the report never has more lines than roles. */
  lemma {:induction false} DocumentReportBound(parts: seq<string>, k: nat, enhance: Enhancer)
    requires 2 * k < |parts|
    ensures |DocumentReportUpto(parts, k, enhance)| <= k
  {
    if k > 0 {
      DocumentReportBound(parts, k - 1, enhance);
    }
  }

  /** When no role section gets an element, the report stays empty. */
  lemma {:induction false} DocumentReportEmpty(parts: seq<string>, k: nat, enhance: Enhancer)
    requires 2 * k < |parts|
    requires forall j :: 1 <= j <= k ==> enhance(parts[2 * j], HeadingName(parts[2 * j - 1])).added == []
    ensures DocumentReportUpto(parts, k, enhance) == []
  {
    if k > 0 {
      DocumentReportEmpty(parts, k - 1, enhance);
      assert enhance(parts[2 * k], HeadingName(parts[2 * k - 1])).added == [];
    }
  }

  // ---------------------------------------------------------------------
  // The migrator
  // ---------------------------------------------------------------------

  /** `RoleMigrator`: the backup directory fixed at construction and the
      report the passes append to. */
  class RoleMigrator {
    const backupDir: string
    const roles: seq<Role>
    var migrationReport: seq<string>

    /** `__init__`, the clock reading a parameter. */
    constructor (timestamp: string)
      ensures backupDir == BasePath + "/backup_" + timestamp
      ensures roles == RoleTable
      ensures migrationReport == []
    {
      backupDir := BasePath + "/backup_" + timestamp;
      roles := RoleTable;
      migrationReport := [];
    }

    /** `backup_files`: builds the list of files to back up, copies those
        that exist (returned in the order they are copied) and records the
        backup directory. */
    method BackupFiles(existing: set<string>) returns (copied: seq<string>)
      modifies this
      ensures copied == Existing(BackupList(roles), existing)
      ensures migrationReport == old(migrationReport) + ["Backup created: " + backupDir]
    {
      var files := MainFiles;
      var i := 0;
      while i < |roles|
        invariant 0 <= i <= |roles|
        invariant files == MainFiles + CommandPaths(roles, i)
      {
        files := files + [CommandPath(roles[i].key)];
        i := i + 1;
      }
      copied := [];
      var j := 0;
      while j < |files|
        invariant 0 <= j <= |files|
        invariant copied == Existing(files[..j], existing)
      {
        assert files[..j + 1][..j] == files[..j];
        if files[j] in existing {
          copied := copied + [files[j]];
        }
        j := j + 1;
      }
      assert files[..|files|] == files;
      migrationReport := migrationReport + ["Backup created: " + backupDir];
    }

    /** `migrate_ai_roles_file`: splits the document at its role headings,
        keeps the preamble, and writes each heading followed by its body as
        `add_missing_elements` leaves it, recording a report line per
        enhanced role. */
    method MigrateAiRolesFile(content: string) returns (migrated: string)
      modifies this
      ensures migrated == MigrateDocument(content)
      ensures migrationReport == old(migrationReport) + DocumentReport(content)
    {
      var roleSections := SplitRoleSections(content);
      migrated := MigrateRoleSections(roleSections, EnsureSections);
    }

    /** The loop of `migrate_ai_roles_file`, with `add_missing_elements`
        as the parameter `addMissingElements`. */
    method MigrateRoleSections(roleSections: seq<string>, addMissingElements: Enhancer) returns (migrated: string)
      requires Headed(roleSections)
      modifies this
      ensures migrated == MigratedUpto(roleSections, |roleSections| / 2, addMissingElements)
      ensures migrationReport == old(migrationReport) + DocumentReportUpto(roleSections, |roleSections| / 2, addMissingElements)
    {
      migrated := roleSections[0];
      var report := [];
      for k := 0 to |roleSections| / 2
        invariant migrated == MigratedUpto(roleSections, k, addMissingElements)
        invariant report == DocumentReportUpto(roleSections, k, addMissingElements)
        invariant migrationReport == old(migrationReport)
      {
        var roleHeader := roleSections[2 * k + 1];
        var roleContent := roleSections[2 * k + 2];
        SectionStep(roleSections, k, addMissingElements);
        var roleName := RoleNameOf(roleHeader);
        var result := addMissingElements(roleContent, roleName);
        migrated := migrated + roleHeader + result.content;
        var enhancements := Names(result.added);
        if enhancements != [] {
          report := report + ["Enhanced " + roleName + ": " + Join(enhancements, ", ")];
        }
      }
      migrationReport := migrationReport + report;
    }

    /** `migrate_command_files`: visits the roles in table order and patches
        each command file that exists, recording it in the report. */
    method MigrateCommandFiles(files: map<string, string>) returns (updated: map<string, string>)
      modifies this
      ensures updated == PatchedUpto(files, roles, |roles|)
      ensures migrationReport == old(migrationReport) + CommandReportUpto(files, roles, |roles|)
    {
      updated := files;
      var i := 0;
      while i < |roles|
        invariant 0 <= i <= |roles|
        invariant updated == PatchedUpto(files, roles, i)
        invariant migrationReport == old(migrationReport) + CommandReportUpto(files, roles, i)
      {
        var roleKey := roles[i].key;
        var filePath := CommandPath(roleKey);
        CommandStep(files, roles, i);
        if filePath in updated {
          var content := updated[filePath];
          if !Contains(content, QaFrameworkMarker) && !Contains(content, QuestionMarker) {
            var interactionSection := CommandSection(roles[i]);
            if Contains(content, ResponsibilitiesAnchor) {
              content := ReplaceAll(content, ResponsibilitiesAnchor, interactionSection + "\n\n" + ResponsibilitiesAnchor);
            } else {
              content := content + "\n" + interactionSection;
            }
          }
          assert content == PatchCommand(updated[filePath], roles[i]);
          updated := updated[filePath := content];
          migrationReport := migrationReport + ["Updated command file: " + roleKey + ".md"];
        }
        i := i + 1;
      }
    }

    /** `update_claude_md`, the date a parameter. */
    method UpdateClaudeMd(claudeMd: string, date: string) returns (content: string)
      ensures content == UpdatedClaudeMd(claudeMd, date)
    {
      content := claudeMd;
      var migrationNote := MigrationNote(date);
      if !Contains(content, TemplateMarker) {
        content := ReplaceAll(content, VersionAnchor, migrationNote + "\n" + VersionAnchor);
      }
      if !Contains(content, HistoryMarker) {
        var versionSection := VersionSection(date);
        content := ReplaceAll(content, RemindersAnchor, versionSection + "\n\n" + RemindersAnchor);
      }
    }
  }
}
