/** The fixed table of the ten roles the migrator knows, in the order of
    its dictionary (which is the order the command files and backups are
    visited in). */
module Roles {
  import opened Wrappers

  /** One entry of the role table: the dictionary key, the `@`-name shown to
      the user, the one-line definition, the artefact it produces and the
      role it hands over to. */
  datatype Role = Role(key: string, name: string, definition: string, output: string, nextRole: string)

  const RoleTable: seq<Role> := [
    Role("project-initiator", "@project-initiator",
      "Project Discovery Specialist who transforms vague ideas into actionable project briefs",
      "project-brief.md", "@requirements-collector"),
    Role("requirements-collector", "@requirements-collector",
      "Requirements Collection Specialist who gathers comprehensive, clear, and actionable requirements",
      "user-stories.md", "@mvp-specialist"),
    Role("mvp-specialist", "@mvp-specialist",
      "MVP Strategy & Refinement Specialist who identifies minimum viable products",
      "mvp-requirements.md", "@architect"),
    Role("architect", "@architect",
      "Solution Architect (Archie) who designs technology solutions using TOGAF principles",
      "architecture.md", "@planner"),
    Role("planner", "@planner",
      "Task Planning Specialist who creates hierarchical task structures",
      "task-list.json", "@pseudo-coder"),
    Role("pseudo-coder", "@pseudo-coder",
      "Logic Designer who translates implementation tasks into clear pseudo code",
      "pseudo-code.md", "@tdd-evidence-specialist"),
    Role("tdd-evidence-specialist", "@tdd-evidence-specialist",
      "TDD Evidence Specialist who proves systems work through comprehensive tests",
      "evidence-tests.md", "@coder"),
    Role("coder", "@coder",
      "Code Implementation Specialist who writes clean, efficient, modular code",
      "working code files", "@documentation-writer"),
    Role("documentation-writer", "@documentation-writer",
      "Evidence-Based Documentation Specialist who creates measurable, effective documentation",
      "user guides, API docs", "@git-mate"),
    Role("git-mate", "@git-mate",
      "Git Workflow and Versioning Specialist (GitMate) who manages version control",
      "commits, tags, changelog", "deployment")
  ]

  /** The keys of `roles`, in order. */
  function Keys(roles: seq<Role>): (ks: seq<string>)
    ensures |ks| == |roles|
    ensures forall i :: 0 <= i < |roles| ==> ks[i] == roles[i].key
  {
    if roles == [] then [] else [roles[0].key] + Keys(roles[1..])
  }

  /** Dictionary lookup `roles.get(key)`: the entry whose key is `key`. */
  function Find(roles: seq<Role>, key: string): (r: Option<Role>)
    ensures r.Some? ==> r.value in roles && r.value.key == key
    ensures r.None? ==> forall i :: 0 <= i < |roles| ==> roles[i].key != key
  {
    if roles == [] then None
    else if roles[0].key == key then Some(roles[0])
    else Find(roles[1..], key)
  }

  /** `self.roles.get(key)`. */
  function Lookup(key: string): Option<Role>
  {
    Find(RoleTable, key)
  }

  /** Every role of the table is found under its own key: no key is shadowed
      by an earlier entry with the same key. */
  lemma LookupTable(i: nat)
    requires i < |RoleTable|
    ensures Lookup(RoleTable[i].key) == Some(RoleTable[i])
  {
    // The ten keys have ten different lengths.
    var lengths := [17, 22, 14, 9, 7, 12, 23, 5, 20, 8];
    assert forall j :: 0 <= j < |RoleTable| ==> |RoleTable[j].key| == lengths[j];
    FindFirst(RoleTable, i);
  }

  /** `Find` returns the first entry with the key. */
  lemma {:induction false} FindFirst(roles: seq<Role>, i: nat)
    requires i < |roles|
    requires forall j :: 0 <= j < i ==> roles[j].key != roles[i].key
    ensures Find(roles, roles[i].key) == Some(roles[i])
  {
    if i > 0 {
      assert roles[1..][i - 1] == roles[i];
      FindFirst(roles[1..], i - 1);
    }
  }

  /** `self.roles.get(key, {}).get('next_role', 'next appropriate role')`. */
  function NextRoleOf(key: string): (n: string)
    ensures Lookup(key).Some? ==> n == Lookup(key).value.nextRole
    ensures Lookup(key).None? ==> n == "next appropriate role"
  {
    match Lookup(key)
    case Some(r) => r.nextRole
    case None => "next appropriate role"
  }

  /** A role of the table hands over to its own `next_role`. */
  lemma NextRoleOfTable(i: nat)
    requires i < |RoleTable|
    ensures NextRoleOf(RoleTable[i].key) == RoleTable[i].nextRole
  {
    LookupTable(i);
  }

  /** A key that is not in the table gets "next appropriate role". */
  lemma NextRoleOfUnknown(key: string)
    requires key !in Keys(RoleTable)
    ensures NextRoleOf(key) == "next appropriate role"
  {
    FindMissing(RoleTable, key);
  }

  /** Lookup of a key that no entry has finds nothing. */
  lemma FindMissing(roles: seq<Role>, key: string)
    requires key !in Keys(roles)
    ensures Find(roles, key) == None
  {
  }
}
