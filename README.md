# 1000-AI-Roles migrator and Markdown catalogue, in Dafny

This project models two Python programs of the 1000-AI-Roles repository.

**The role migrator** (`RoleMigrator` in `migrate-roles-to-template.py`) brings the role document `AI-Roles.md`, the per-role command files and the registry in `CLAUDE.md` up to the standard role template.
- It splits the role document at its `### @name` headings.
- It completes each role body with the five standard elements, each only when missing:
  - interaction pattern;
  - standard operating procedures;
  - example usage;
  - summary and confirmation;
  - instrumentation.
- It adds an interaction section to every command file that lacks one.
- It registers the template and a version history in the registry.
- It lists the files to back up.
- It keeps a `migration_report` of what it did.

**The documentation viewer's catalogue** (`FileServerHandler` in `server.py`) does three things:
- classifies a Markdown path;
- picks a preview line from a file;
- groups the globbed paths into three categories, each sorted by file name.

Modules:

| module | file | contents |
|---|---|---|
| `Wrappers` | `wrappers.dfy` | `Option` |
| `PyText` | `text.dfy` | `in`, `startswith`, `replace`, `strip`, `join` and string `<=` on `seq<char>` |
| `RolePatterns` | `patterns.dfy` | the two regular expressions the migrator uses, written out by hand |
| `Roles` | `roles.dfy` | the table of ten roles and dictionary lookup |
| `Sections` | `sections.dfy` | the templates, the three `add_*` helpers, and `add_missing_elements` |
| `Migrator` | `migrator.dfy` | the backup list, the command-file and registry passes, the role-document pass, and the class `RoleMigrator` |
| `Catalogue` | `catalogue.dfy` | `get_file_type`, `get_file_preview` and `get_all_md_files` |

How the model represents the program:
- **Files.** File contents come in as arguments and go out as results.
  - A set of paths says which files exist.
  - A map from path to contents or lines says what can be read.
- **Clock.** The clock is a parameter: the constructor takes the timestamp and `UpdateClaudeMd` takes the date.
- **`add_missing_elements`.** This is the function `Sections.EnsureSections`. It is a chain of five guarded steps in the source's order, returning the new body and the elements added.
- **The role-document loop.** The loop of `migrate_ai_roles_file` is `Migrator.RoleMigrator.MigrateRoleSections`. It takes the per-role enhancement as a parameter, and `MigrateAiRolesFile` passes it `EnsureSections`. With the enhancement as a parameter, the loop proof does not have to expand the templates.
- **Character classes.** `\w` and `str.strip` use ASCII classes:
  - word characters are `[A-Za-z0-9_]`;
  - whitespace is what `str.isspace` accepts below code point 128.

## Model

| member | source | states |
|---|---|---|
| `Roles.Find` | migrate-roles-to-template.py:19-80 | dictionary lookup finds an entry with the key, or reports that no entry has it |
| `Roles.LookupTable` | migrate-roles-to-template.py:19-80 | each of the ten roles is found under its own key (no key is shadowed) |
| `Roles.NextRoleOfTable` | migrate-roles-to-template.py:249 | for each of the ten roles of the table, the suggested successor is that entry's own `next_role` |
| `Roles.NextRoleOfUnknown` | migrate-roles-to-template.py:249 | a key that is not one of the table's keys gets "next appropriate role" |
| `RolePatterns.SplitRoleSections` | migrate-roles-to-template.py:334 | the split alternates heading-free text and `### @name` headings, and has odd length, so the `i+1 < len` guard never drops a heading. Each heading takes the longest name run. Concatenating the parts gives back the document exactly |
| `RolePatterns.HeadingRoleName` | migrate-roles-to-template.py:344 | on a heading, the search for `@([\w-]+)` finds exactly the name after `### @` |
| `RolePatterns.SubInstrumentation` | migrate-roles-to-template.py:320 | with no `8.` followed by whitespace the text is unchanged; with one, the replacement is in the result |
| `RolePatterns.SubAtFirstMatch` | migrate-roles-to-template.py:320 | the text before the first match is kept, the match (`8.`, the whitespace run, the rest of its line) becomes the replacement, and substitution goes on after the match. With no later match, the text after the match is kept as it is |
| `RolePatterns.EightSpaceMatches` | migrate-roles-to-template.py:318-320 | when the guard's `"8. "` occurs, the pattern matches and the replacement is written |
| `RolePatterns.SubSwallowsNextLine` | migrate-roles-to-template.py:320 | `\s+` crosses a line break: an empty item eight is replaced together with the whole next line |
| `Sections.AddInteractionPattern` | migrate-roles-to-template.py:109-219 | the body is a strict prefix of the result, and the interaction heading follows it after a blank line |
| `Sections.AddStandardOperatingProcedures` | migrate-roles-to-template.py:221-251 | the body is a strict prefix, the procedures heading follows it, and the result ends by suggesting the role's successor |
| `Sections.AddExampleUsage` | migrate-roles-to-template.py:253-280 | the body is a strict prefix, the example heading follows it, and the result shows the role's invocation |
| `Sections.ConfirmationRule` | migrate-roles-to-template.py:303-315 | with `13. WORKFLOW EVALUATION`, the result holds the block directly in front of it, and the summary. With a differently numbered workflow evaluation, the body is unchanged. With none, the block is appended after the body |
| `Sections.ConfirmationAtAnchor` | migrate-roles-to-template.py:311-312 | the text before the first `13. WORKFLOW EVALUATION` is kept, the block and a line break go in front of it, and every later occurrence is rewritten the same way. With a single occurrence, the result is the body with the block inserted in front of the anchor and nothing else changed |
| `Sections.InstrumentationRule` | migrate-roles-to-template.py:318-321 | after the rewrite of a body with an item eight, the instrumentation marker is present |
| `Sections.TextsMarked` | migrate-roles-to-template.py:304-319 | the confirmation block names the summary and the replacement line names the instrumentation |
| `Sections.EnhancementsListed` | migrate-roles-to-template.py:285-323 | the list records each element at most once, in the fixed order, and exactly those whose check passed when their step came |
| `Sections.PresentNotAdded` | migrate-roles-to-template.py:288-321 | an element whose marker the body already holds is never recorded |
| `Sections.CompleteUnchanged` | migrate-roles-to-template.py:288-323 | with the first four markers present, and either the instrumentation marker present or no item eight, the body comes back unchanged with an empty list |
| `Sections.SectionsThere` | migrate-roles-to-template.py:288-300 | after the first four steps (all but the instrumentation rewrite) the three appended sections are all present |
| `Sections.IdempotentWithoutInstrumentation` | migrate-roles-to-template.py:282-323 | if the instrumentation rewrite did not run, a second pass leaves the body as it is. It records nothing when the summary is in the body. Otherwise it records only the summary, and then the body has a workflow evaluation but no `13. WORKFLOW EVALUATION` |
| `Sections.InstrumentationOnce` | migrate-roles-to-template.py:318-321 | once the rewrite ran, its marker is in the body and a second pass does not run it again |
| `Sections.InstrumentationErasesSummary` | migrate-roles-to-template.py:303-321 | on a body whose empty item eight is followed by the summary line, the first pass only rewrites and so erases the summary. The second pass then appends the summary, so the element pass is not idempotent |
| `Migrator.CommandPath` | migrate-roles-to-template.py:97 | a command file lies under `.claude/commands/` and ends in `.md` |
| `Migrator.Existing` | migrate-roles-to-template.py:99-101 | a path is copied exactly when it is listed and exists |
| `Migrator.BackupCovers` | migrate-roles-to-template.py:89-97 | the list holds the three main files and one command file per role, three plus the number of roles in all |
| `Migrator.RoleMigrator.constructor` | migrate-roles-to-template.py:16-81 | the backup directory is `backup_<timestamp>` under the base path, the role table is the fixed one and the report is empty |
| `Migrator.RoleMigrator.BackupFiles` | migrate-roles-to-template.py:83-107 | copies exactly the existing files of the backup list, in list order, and appends the backup line to the report |
| `Migrator.CommandSection` | migrate-roles-to-template.py:381-400 | the inserted section contains `## Question`, the text the pass checks for |
| `Migrator.PatchGivesQuestions` | migrate-roles-to-template.py:377-406 | a patched file has an interaction section. A file that had one is untouched. Without the responsibilities anchor, the section is appended |
| `Migrator.PatchBeforeResponsibilities` | migrate-roles-to-template.py:403-404 | the text before the first `## Key Responsibilities` is kept and the section, with a blank line, goes in front of it; later occurrences are rewritten the same way. With a single occurrence, nothing else changes |
| `Migrator.PatchIdempotent` | migrate-roles-to-template.py:377-406 | patching a command file twice is patching it once |
| `Migrator.PatchedUpto` | migrate-roles-to-template.py:367-410 | the pass creates and deletes no file |
| `Migrator.CommandReportUpto` | migrate-roles-to-template.py:412 | at most one report line per role visited |
| `Migrator.PatchedFiles` | migrate-roles-to-template.py:367-410 | after the pass every existing command file of a role has an interaction section, and every other file is as it was |
| `Migrator.CommandPassIdempotent` | migrate-roles-to-template.py:361-412 | running the command-file pass a second time changes no file |
| `Migrator.RoleMigrator.MigrateCommandFiles` | migrate-roles-to-template.py:361-412 | the files after the loop are the pass's result, and one report line is added per existing command file |
| `Migrator.RegistryUpdated` | migrate-roles-to-template.py:424-436 | when the version row or the template is present, and the reminders heading or a history is present, the template ends up registered and a version history exists |
| `Migrator.RegistryUntouched` | migrate-roles-to-template.py:426-436 | without the version row the note is a no-op and only the history step acts; without the reminders heading the history is a no-op and only the note acts; when each step is either already done or lacks its anchor, the registry is unchanged |
| `Migrator.NoteBeforeVersionRow` | migrate-roles-to-template.py:426-427 | without the template registered, the dated row and a line break go in front of the first version row, with the text before it kept; with a single version row nothing else changes |
| `Migrator.HistoryBeforeReminders` | migrate-roles-to-template.py:432-436 | without a version history, the history section and a blank line go in front of the first reminders heading, with the text before it kept; with a single heading nothing else changes |
| `Migrator.RegistryIdempotent` | migrate-roles-to-template.py:424-436 | where the update takes effect, updating twice is updating once |
| `Migrator.DatedTextsMarked` | migrate-roles-to-template.py:424-433 | the dated registry row and the version section carry the markers their insertion is guarded by |
| `Migrator.ClaudeMdUpdate` | migrate-roles-to-template.py:414-441 | for any date, the update registers the template and the history where the anchors allow it, and a second run on the same day changes nothing |
| `Migrator.RoleMigrator.UpdateClaudeMd` | migrate-roles-to-template.py:414-441 | the written registry is the update of the read one |
| `Migrator.Names` | migrate-roles-to-template.py:290-321 | the recorded names are the elements' names, in order |
| `Migrator.HeadingNameSearched` | migrate-roles-to-template.py:344 | the role name taken from a heading is what the regex search returns |
| `Migrator.RoleNameOf` | migrate-roles-to-template.py:344 | on a heading, `.group(1)` of the search succeeds and yields the name after `### @` |
| `Migrator.RoleReport` | migrate-roles-to-template.py:352-353 | a role gets a report line exactly when an element was recorded for it |
| `Migrator.DocumentReportBound` | migrate-roles-to-template.py:338-353 | the report has no more lines than roles |
| `Migrator.DocumentReportEmpty` | migrate-roles-to-template.py:338-353 | when no role section gets an element, the report stays empty |
| `Migrator.CompleteDocumentUnchanged` | migrate-roles-to-template.py:334-350 | a document whose role bodies are all complete is written back exactly as read |
| `Migrator.RoleMigrator.MigrateRoleSections` | migrate-roles-to-template.py:334-353 | on parts shaped as the split returns them (an odd count, headings at the odd positions), the loop output is the preamble followed by each heading and its enhanced body. The report gains one line per enhanced role, for any per-role enhancement |
| `Migrator.RoleMigrator.MigrateAiRolesFile` | migrate-roles-to-template.py:325-357 | the document written and the report lines added are those of the role-document pass with `add_missing_elements` |
| `Catalogue.FileTypeRules` | server.py:115-123 | "roles" iff the path contains `AI-Roles.md`. "command" iff not, and it starts with `.claude/commands/`. "project" iff neither, and it is one of the five names. "doc" otherwise |
| `Catalogue.RolesFileAnywhere` | server.py:116-117 | `AI-Roles.md` is "roles" in any folder |
| `Catalogue.RolesFileUnderCommands` | server.py:116-119 | inside the commands folder too: that path starts with the commands folder, but the "roles" rule comes first |
| `Catalogue.CommandFileType` | server.py:116-119 | a command file whose name has no capital A is "command" |
| `Catalogue.NestedNotProject` | server.py:120-121 | a path inside a folder is never "project" |
| `Catalogue.CandidateAt` | server.py:130-133 | the first line that qualifies after stripping is the one chosen |
| `Catalogue.CandidateFound` | server.py:130-134 | no line is chosen iff none qualifies; a chosen line is a stripped input line that qualifies |
| `Catalogue.GetFilePreview` | server.py:125-136 | the loop returns the preview of the file's first ten lines |
| `Catalogue.PreviewLength` | server.py:130-136 | every preview, both fallbacks included, has 21 to 83 characters |
| `Catalogue.PreviewIsFirstGoodLine` | server.py:130-133 | the preview is the first qualifying line among the first ten, cut to 80 characters plus "..." when longer |
| `Catalogue.PreviewFallback` | server.py:134 | with no qualifying line among the first ten, the preview is "Markdown documentation file" |
| `Catalogue.Basename` | server.py:90 | the name is the part of the path after its last slash |
| `Catalogue.BucketRules` | server.py:97-102 | the commands prefix goes to Role Commands first, then the five core names to Core Documentation, and the rest to Project Files |
| `Catalogue.Categorize` | server.py:85-102 | each category list is the entries of that category's unskipped paths, in path order |
| `Catalogue.BucketFilesFrom` | server.py:85-102 | every entry of a category is built from an unskipped path of that category |
| `Catalogue.BucketFilesHas` | server.py:85-102 | every path without `node_modules` has its entry in its own category |
| `Catalogue.OneBucketEach` | server.py:85-102 | the three categories together hold exactly as many entries as there are unskipped paths |
| `Catalogue.InsertByName` | server.py:110 | insertion adds exactly the one entry |
| `Catalogue.SortByName` | server.py:110 | the sorted list is a permutation of the input |
| `Catalogue.SortSorted` | server.py:110 | the sorted list is in name order |
| `Catalogue.GroupShape` | server.py:105-111 | a category appears only when non-empty, with its title and its entries sorted by name and permuted |
| `Catalogue.CatalogueLayout` | server.py:105-111 | the result is Core Documentation, then Project Files, then Role Commands, each present iff its category has an entry |
| `Catalogue.GetAllMdFiles` | server.py:75-113 | the method returns the catalogue of the given paths |

## Left out

- Reading, writing and copying files, `os.makedirs` and `os.path.exists`. Existence is a set of paths and contents are maps, so `BackupFiles` returns the paths it would copy.
- `Migrator.RoleMigrator.BackupFiles`: the destination of each copy, `backup_dir/file_path` (line 102), and the creation of its directory are not stated; the method gives only the source paths.
- `datetime.now()`: the backup timestamp and the registry date are parameters. The two calls of the registry update (lines 424 and 433) are one date here, so a run that crosses midnight, giving the row and the history different dates, is not modelled.
- `print` output, `generate_report`, `run_migration` and the script entry point. The report body is a fixed template over `migration_report`.
- The HTTP layer of `server.py`: request handling, JSON encoding and the TCP server.
- `glob.glob('**/*.md', recursive=True)`: the path list is an input. The model accepts any list.
  - Python's glob skips names that start with a dot, so in the original, paths under `.claude/commands/` never reach the catalogue and Role Commands stays empty.
- `get_file_preview`: the file's lines, as `readlines` returns them, are an input, and a file that cannot be read or decoded is `None`. Other exceptions are not distinguished.
- Unicode: `\w`, `str.strip` and `str.isspace` are modelled on ASCII, and strings are sequences of code points.
- General regular expressions: only the two patterns the migrator uses are written out.
- `Migrator.RoleMigrator.MigrateRoleSections`: it takes `add_missing_elements` as a parameter, and `MigrateAiRolesFile` supplies `EnsureSections`.
- `Sections.EnsureSections`: `add_missing_elements` has no loop and is a function here. The step-by-step reassignment of `role_content` is the chain of guarded steps `Upto`.
- `Catalogue.SortSorted`: the sort is a stable insertion sort, like `sorted`. Sortedness and permutation are proved; keeping the input order of equal names is not stated.
- `Sections.SectionsThere`: stated after the first four steps, not after the whole pass. The rewrite of `8\.\s+.*` can erase a section heading when the line after an empty item eight is that heading, as `Sections.InstrumentationErasesSummary` shows for the summary.
- `Migrator.CompleteDocumentUnchanged`: idempotence of the whole role-document pass is not stated. Element by element it fails, as `Sections.InstrumentationErasesSummary` shows.
