/** The five standard elements the migrator adds to a role body, the
    templates it adds them from, and `add_missing_elements` as a pure
    specification: a chain of five guarded steps in a fixed order. */
module Sections {
  import opened Wrappers
  import opened PyText
  import opened RolePatterns
  import opened Roles

  // ---------------------------------------------------------------------
  // Markers whose presence the migrator tests
  // ---------------------------------------------------------------------

  const InteractionMarker := "## Interactive Session Structure"
  const ProceduresMarker := "## Standard Operating Procedures"
  const ExampleMarker := "## Example Usage"
  const SummaryMarker := "SUMMARY & CONFIRMATION"
  const InstrumentationMarker := "INSTRUMENTATION"
  /** An eighth list item: the instrumentation rewrite runs only if one occurs. */
  const ItemEight := "8. "
  const WorkflowMarker := "WORKFLOW EVALUATION"
  /** The anchor the confirmation block is put in front of. */
  const WorkflowAnchor := "13. " + WorkflowMarker

  // ---------------------------------------------------------------------
  // Templates (add_interaction_pattern, add_standard_operating_procedures,
  // add_example_usage)
  // ---------------------------------------------------------------------

  /** The four-phase outline every interaction pattern starts with. */
  const PhaseOutline :=
    "\n- Phase 1: Overview & Context Setting" +
    "\n- Phase 2: Hierarchical Question Gathering (1, 1.1, 1.1.a format)" +
    "\n- Phase 3: Summary & Confirmation" +
    "\n- Phase 4: Output Generation & Validation" +
    "\n" +
    "\n## Question Hierarchy Pattern"

  /** The question outline after the phases: one of three role-specific
      overviews, or the generic numbering scheme for every other role. */
  function QuestionOutline(roleName: string): string
  {
    if roleName == "project-initiator" then
      "\n" +
      "\n### Discovery Phase Overview" +
      "\nI'll guide you through 4 main areas with approximately 15 total questions:" +
      "\n" +
      "\n1. Problem Definition (4-5 questions)" +
      "\n   1.1. Problem metrics and measurement" +
      "\n   1.2. Impact analysis" +
      "\n2. Validation & Evidence (3-4 questions)" +
      "\n   2.1. Existing solutions evaluation" +
      "\n   2.2. Evidence of problem severity" +
      "\n3. Constraints & Resources (3-4 questions)" +
      "\n   3.1. Technical constraints" +
      "\n   3.2. Resource limitations" +
      "\n4. Success Vision (2-3 questions)" +
      "\n   4.1. Success metrics" +
      "\n   4.2. Timeline expectations" +
      "\n" +
      "\nTotal estimated questions: 15" +
      "\nEstimated time: 10-15 minutes" +
      "\n" +
      "\nNavigation: Type 'skip' to move forward, 'back' to revisit, 'overview' to see all questions"
    else if roleName == "requirements-collector" then
      "\n" +
      "\n### Requirements Gathering Overview" +
      "\nI'll guide you through 4 main areas with approximately 20 questions:" +
      "\n" +
      "\n1. Functional Requirements (6-7 questions)" +
      "\n   1.1. Core features" +
      "\n       1.1.a. Feature priorities" +
      "\n       1.1.b. Feature dependencies" +
      "\n   1.2. User workflows" +
      "\n2. Non-Functional Requirements (5-6 questions)" +
      "\n   2.1. Performance requirements" +
      "\n   2.2. Security requirements" +
      "\n3. User Experience (4-5 questions)" +
      "\n   3.1. User personas" +
      "\n   3.2. Accessibility needs" +
      "\n4. Integration & Data (3-4 questions)" +
      "\n   4.1. External systems" +
      "\n   4.2. Data requirements" +
      "\n" +
      "\nTotal estimated questions: 20" +
      "\nEstimated time: 15-20 minutes"
    else if roleName == "mvp-specialist" then
      "\n" +
      "\n### MVP Definition Overview" +
      "\nI'll guide you through 3 main areas with approximately 12 questions:" +
      "\n" +
      "\n1. Core Value Proposition (4-5 questions)" +
      "\n   1.1. Primary user need" +
      "\n       1.1.a. Evidence of need" +
      "\n       1.1.b. Alternative solutions" +
      "\n   1.2. Unique value delivery" +
      "\n2. Feature Prioritization (4-5 questions)" +
      "\n   2.1. Must-have features" +
      "\n   2.2. Should-have features" +
      "\n   2.3. Could-have features" +
      "\n3. Success Metrics (3-4 questions)" +
      "\n   3.1. Validation criteria" +
      "\n   3.2. Learning objectives" +
      "\n" +
      "\nTotal estimated questions: 12" +
      "\nEstimated time: 10-12 minutes"
    else
      "\nQuestions will follow hierarchical numbering:" +
      "\n1. Main topic" +
      "\n   1.1. Clarifying question" +
      "\n       1.1.a. Specific detail" +
      "\n   1.2. Related aspect" +
      "\n2. Next main topic"
  }

  /** A block as the helpers append it: a line break, the heading, the text. */
  function Block(heading: string, text: string): string
  {
    "\n" + heading + text
  }

  /** The interaction-pattern block after its heading: the phases, then the
      questions. */
  function InteractionText(roleName: string): string
  {
    PhaseOutline + QuestionOutline(roleName)
  }

  /** The four sessions of the standard operating procedures, up to the
      last step of the handoff. */
  const ProceduresSessions :=
    "\n" +
    "\n### Initial Session" +
    "\n1. Display role header with current and next suggested role" +
    "\n2. Present question overview with time estimate" +
    "\n3. Confirm user readiness to proceed" +
    "\n4. Begin hierarchical questioning" +
    "\n" +
    "\n### Working Sessions" +
    "\n1. Follow UNDERSTAND \U{2192} DESIGN \U{2192} STRUCTURE \U{2192} VALIDATE approach" +
    "\n2. Update task status in real-time" +
    "\n3. Maintain version history in output files" +
    "\n4. Regular progress checkpoints with user" +
    "\n" +
    "\n### Validation Session" +
    "\n1. Present completed work summary" +
    "\n2. Request user validation" +
    "\n3. Address any concerns or gaps" +
    "\n4. Confirm readiness for handoff" +
    "\n" +
    "\n### Handoff Session" +
    "\n1. Summarize deliverables created" +
    "\n2. Highlight key decisions and rationale" +
    "\n3. Prepare handoff artifacts for next role"

  /** The handoff step naming the role's successor. */
  function SuggestNext(roleName: string): string
  {
    "\n4. Suggest next role: " + NextRoleOf(roleName)
  }

  /** The procedures block after its heading, ending with the role's
      successor, or "next appropriate role" for a role the table does not
      know. */
  function ProceduresText(roleName: string): string
  {
    ProceduresSessions + SuggestNext(roleName)
  }

  /** How the user invokes the role: its `@`-name or the slash command named
      after the key. */
  function Invocation(roleName: string): string
  {
    var name := match Lookup(roleName) case Some(r) => r.name case None => "@role-name";
    "User: " + name + " or /" + roleName
  }

  /** The example-usage block after its heading: a recommendation, the
      invocation, the role display and the opening of a question session.
      Each field falls back to its own placeholder when the role is not in
      the table. */
  function ExampleText(roleName: string): string
  {
    ExampleOpening(roleName) + Invocation(roleName) + ExampleSession(roleName)
  }

  /** The recommendation line of the example. */
  function ExampleOpening(roleName: string): string
  {
    var info := Lookup(roleName);
    var name := match info case Some(r) => r.name case None => "@role-name";
    var task := match info case Some(r) => r.definition case None => "perform this task";
    "\n" +
    "\n```" +
    "\nClaude: \"Based on your request, I recommend using " + name + " to " + task + "\"" +
    "\n"
  }

  /** The role display and the opening of the question session. */
  function ExampleSession(roleName: string): string
  {
    var info := Lookup(roleName);
    var display := match info case Some(r) => r.name case None => "Role";
    var current := match info case Some(r) => r.name case None => "Role Name";
    var description := match info case Some(r) => r.definition case None => "Role description";
    var next := match info case Some(r) => r.nextRole case None => "Next Role";
    "\n" +
    "\n" + display + ": \U{1F3AD} **Current Role**: " + current + " - " + description +
    "\n\U{27A1}\U{FE0F} **Next Suggested Role**: " + next + " - Continue with next phase" +
    "\n" +
    "\nI'll now begin the interactive session to gather the necessary information." +
    "\n" +
    "\n## Question Overview" +
    "\n[Presents hierarchical question structure]" +
    "\n" +
    "\nLet's begin:" +
    "\n" +
    "\n**[1/N] First Topic Area**" +
    "\n" +
    "\n1. [First main question]?" +
    "\n   > [Waits for user response]" +
    "\n```"
  }

  /** The shape the three helpers share: the body, a line break, then the
      block.  The body is kept as a strict prefix and the block's heading
      follows it after a blank line. */
  function AppendSection(content: string, heading: string, text: string): (r: string)
    ensures |r| > |content| && r[..|content|] == content
    ensures OccursAt(r, "\n\n" + heading, |content|)
    ensures Contains(r, heading)
  {
    var r := content + "\n" + Block(heading, text);
    assert r == content + "\n\n" + heading + text;
    assert r[|content|..|content| + 2 + |heading|] == "\n\n" + heading;
    assert r[|content| + 2..|content| + 2 + |heading|] == heading;
    assert OccursAt(r, heading, |content| + 2);
    r
  }

  /** `add_interaction_pattern`. */
  function AddInteractionPattern(content: string, roleName: string): (r: string)
    ensures |r| > |content| && r[..|content|] == content
    ensures OccursAt(r, "\n\n" + InteractionMarker, |content|)
    ensures Contains(r, InteractionMarker)
  {
    AppendSection(content, InteractionMarker, InteractionText(roleName))
  }

  /** `add_standard_operating_procedures`: the block ends by suggesting the
      role's successor. */
  function AddStandardOperatingProcedures(content: string, roleName: string): (r: string)
    ensures |r| > |content| && r[..|content|] == content
    ensures OccursAt(r, "\n\n" + ProceduresMarker, |content|)
    ensures Contains(r, ProceduresMarker)
    ensures EndsWith(r, "\n4. Suggest next role: " + NextRoleOf(roleName))
  {
    SectionEndsWith(content, ProceduresMarker, ProceduresSessions, SuggestNext(roleName));
    AppendSection(content, ProceduresMarker, ProceduresText(roleName))
  }

  /** `add_example_usage`: the block shows how the role is invoked, by its
      slash command among others. */
  function AddExampleUsage(content: string, roleName: string): (r: string)
    ensures |r| > |content| && r[..|content|] == content
    ensures OccursAt(r, "\n\n" + ExampleMarker, |content|)
    ensures Contains(r, ExampleMarker)
    ensures Contains(r, Invocation(roleName))
  {
    BlockShows(content, ExampleMarker, ExampleOpening(roleName), Invocation(roleName), ExampleSession(roleName));
    AppendSection(content, ExampleMarker, ExampleText(roleName))
  }

  /** Whatever a block's text holds, the body with the block appended holds. */
  lemma BlockShows(content: string, heading: string, x: string, m: string, y: string)
    ensures Contains(content + "\n" + Block(heading, x + m + y), m)
  {
    assert content + "\n" + Block(heading, x + m + y) == (content + "\n\n" + heading + x) + m + y;
    ContainsMiddle(content + "\n\n" + heading + x, m, y);
  }

  /** A body with a block appended ends the way the block's text ends. */
  lemma SectionEndsWith(content: string, heading: string, x: string, y: string)
    ensures EndsWith(content + "\n" + Block(heading, x + y), y)
  {
    assert content + "\n" + Block(heading, x + y) == (content + "\n\n" + heading + x) + y;
    EndsWithAppended(content + "\n\n" + heading + x, y);
  }

  lemma EndsWithAppended(a: string, b: string)
    ensures EndsWith(a + b, b)
  {
    assert (a + b)[|a|..] == b;
  }

  // ---------------------------------------------------------------------
  // The summary and instrumentation steps
  // ---------------------------------------------------------------------

  /** The twelfth item the summary step adds. */
  const ConfirmationBlock := "\n12. **" + SummaryMarker + ConfirmationSteps

  const ConfirmationSteps :=
    "**:" +
    "\n    - After all questions, provide complete summary" +
    "\n    - Allow user to revise any answer" +
    "\n    - Confirm understanding before proceeding"

  /** The summary step: with a workflow evaluation in the body, the block
      and a line break go in front of every `13. WORKFLOW EVALUATION`;
      without one, a line break and the block are appended. */
  function InsertConfirmation(content: string, block: string): string
  {
    if Contains(content, WorkflowMarker) then
      ReplaceAll(content, WorkflowAnchor, block + "\n" + WorkflowAnchor)
    else
      content + "\n" + block
  }

  /** The anchor holds the marker, so a body with the anchor has the marker. */
  lemma AnchorHasMarker(content: string)
    requires Contains(content, WorkflowAnchor)
    ensures Contains(content, WorkflowMarker)
  {
    ContainsMiddle("13. ", WorkflowMarker, "");
    assert "13. " + WorkflowMarker + "" == WorkflowAnchor;
    ContainsWithin(content, WorkflowAnchor, WorkflowMarker);
  }

  /** The three cases of the summary step, for a block that names the
      summary.  With `13. WORKFLOW EVALUATION` present, the block lands in
      front of it and the summary marker is there afterwards.  With a
      workflow evaluation numbered otherwise, the body is left as it is, so
      the marker is still missing.  With no workflow evaluation at all, the
      block is appended: the body stays a strict prefix and the result ends
      with the block. */
  lemma ConfirmationRule(content: string, block: string)
    requires Contains(block, SummaryMarker)
    ensures Contains(content, WorkflowAnchor) ==>
      Contains(InsertConfirmation(content, block), block + "\n" + WorkflowAnchor) &&
      Contains(InsertConfirmation(content, block), SummaryMarker)
    ensures Contains(content, WorkflowMarker) && !Contains(content, WorkflowAnchor) ==>
      InsertConfirmation(content, block) == content
    ensures !Contains(content, WorkflowMarker) ==>
      var r := InsertConfirmation(content, block);
      |r| > |content| && r[..|content|] == content && EndsWith(r, block) && Contains(r, SummaryMarker)
  {
    var anchored := block + "\n" + WorkflowAnchor;
    if Contains(content, WorkflowAnchor) {
      AnchorHasMarker(content);
      ContainsLeft(block, "\n" + WorkflowAnchor, SummaryMarker);
      assert anchored == block + ("\n" + WorkflowAnchor);
      ReplaceAllInserts(content, WorkflowAnchor, anchored);
      ContainsWithin(InsertConfirmation(content, block), anchored, SummaryMarker);
    } else if Contains(content, WorkflowMarker) {
      ReplaceAllAbsent(content, WorkflowAnchor, anchored);
    } else {
      EndsWithAppended(content + "\n", block);
      ContainsRight(content + "\n", block, SummaryMarker);
    }
  }

  /** Where the summary step puts the block: in front of the first
      `13. WORKFLOW EVALUATION`, with the body before it kept and the rest
      of the body rewritten the same way.  When that is the only one, the
      body is kept whole around the inserted block. */
  lemma ConfirmationAtAnchor(content: string, block: string, i: int)
    requires FirstAt(content, WorkflowAnchor, i)
    ensures InsertConfirmation(content, block) == content[..i] + (block + "\n") + WorkflowAnchor
      + ReplaceAll(content[i + |WorkflowAnchor|..], WorkflowAnchor, block + "\n" + WorkflowAnchor)
    ensures (forall j :: OccursAt(content, WorkflowAnchor, j) ==> j == i) ==>
      InsertConfirmation(content, block) == content[..i] + (block + "\n") + content[i..]
  {
    AnchorHasMarker(content);
    ReplaceAllBefore(content, WorkflowAnchor, block + "\n", i);
  }

  /** The line the instrumentation step writes in place of item eight. */
  const InstrumentationLine :=
    "8. **" + InstrumentationMarker + "**: Logging, metrics, " + "monitoring requirements " + "for production validation"

  /** The instrumentation step replaces every match with this. */
  const Renumbering := InstrumentationLine + "\n9. "

  /** With an eighth item present, the instrumentation step writes a
      replacement that names the instrumentation, so its marker is there
      afterwards. */
  lemma InstrumentationRule(content: string, repl: string)
    requires Contains(repl, InstrumentationMarker)
    ensures Contains(content, ItemEight) ==> Contains(SubInstrumentation(content, repl), InstrumentationMarker)
  {
    if Contains(content, ItemEight) {
      EightSpaceMatches(content, repl);
      ContainsWithin(SubInstrumentation(content, repl), repl, InstrumentationMarker);
    }
  }

  /** The texts a role's body is completed with. */
  datatype Texts = Texts(
    interaction: string,
    procedures: string,
    example: string,
    confirmation: string,
    renumbering: string)

  function TextsFor(roleName: string): Texts
  {
    Texts(InteractionText(roleName), ProceduresText(roleName), ExampleText(roleName), ConfirmationBlock, Renumbering)
  }

  /** The summary block names the summary and the renumbering names the
      instrumentation: what lets a second pass see them. */
  predicate Marked(texts: Texts)
  {
    Contains(texts.confirmation, SummaryMarker) && Contains(texts.renumbering, InstrumentationMarker)
  }

  lemma TextsMarked(roleName: string)
    ensures Marked(TextsFor(roleName))
  {
    ContainsMiddle("\n12. **", SummaryMarker, ConfirmationSteps);
    ContainsMiddle("8. **", InstrumentationMarker, Renumbering[5 + |InstrumentationMarker|..]);
    assert Renumbering == "8. **" + InstrumentationMarker + Renumbering[5 + |InstrumentationMarker|..];
  }

  // ---------------------------------------------------------------------
  // add_missing_elements
  // ---------------------------------------------------------------------

  /** The five elements, in the order their checks run. */
  datatype Enhancement =
    | InteractionPattern
    | StandardOperatingProcedures
    | ExampleUsage
    | SummaryConfirmation
    | Instrumentation
  {
    /** The name recorded in the enhancements list. */
    function Name(): string
    {
      match this
      case InteractionPattern => "interaction_pattern"
      case StandardOperatingProcedures => "standard_operating_procedures"
      case ExampleUsage => "example_usage"
      case SummaryConfirmation => "summary_confirmation"
      case Instrumentation => "instrumentation"
    }

    /** Position of the element's check in the fixed order. */
    function Rank(): nat
    {
      match this
      case InteractionPattern => 0
      case StandardOperatingProcedures => 1
      case ExampleUsage => 2
      case SummaryConfirmation => 3
      case Instrumentation => 4
    }

    /** The text whose presence means the element is there. */
    function Marker(): string
    {
      match this
      case InteractionPattern => InteractionMarker
      case StandardOperatingProcedures => ProceduresMarker
      case ExampleUsage => ExampleMarker
      case SummaryConfirmation => SummaryMarker
      case Instrumentation => InstrumentationMarker
    }
  }

  const Order: seq<Enhancement> :=
    [InteractionPattern, StandardOperatingProcedures, ExampleUsage, SummaryConfirmation, Instrumentation]

  /** The guard in front of each step: its marker is absent, and for the
      instrumentation step an eighth item exists. */
  predicate Needed(e: Enhancement, content: string)
  {
    !Contains(content, e.Marker()) && (e == Instrumentation ==> Contains(content, ItemEight))
  }

  /** What each step does to the body once its check passes. */
  function Insert(e: Enhancement, content: string, texts: Texts): string
  {
    match e
    case InteractionPattern => AppendSection(content, InteractionMarker, texts.interaction)
    case StandardOperatingProcedures => AppendSection(content, ProceduresMarker, texts.procedures)
    case ExampleUsage => AppendSection(content, ExampleMarker, texts.example)
    case SummaryConfirmation => InsertConfirmation(content, texts.confirmation)
    case Instrumentation => SubInstrumentation(content, texts.renumbering)
  }

  /** The body as it is rewritten, and the enhancements recorded so far. */
  datatype Enhanced = Enhanced(content: string, added: seq<Enhancement>)

  /** One guarded step. */
  function Step(e: Enhancement, m: Enhanced, texts: Texts): Enhanced
  {
    if Needed(e, m.content) then Enhanced(Insert(e, m.content, texts), m.added + [e]) else m
  }

  /** The state after the first `k` steps, the blocks taken from `texts`. */
  function Upto(k: nat, content: string, texts: Texts): Enhanced
    requires k <= |Order|
  {
    if k == 0 then Enhanced(content, []) else Step(Order[k - 1], Upto(k - 1, content, texts), texts)
  }

  /** All five steps, the blocks taken from `texts`. */
  function RunSteps(content: string, texts: Texts): Enhanced
  {
    Upto(|Order|, content, texts)
  }

  /** `add_missing_elements(content, role_name)`: all five steps, with the
      role's own blocks. */
  function EnsureSections(content: string, roleName: string): Enhanced
  {
    RunSteps(content, TextsFor(roleName))
  }

  /** The elements in rank order. */
  predicate InRankOrder(added: seq<Enhancement>)
  {
    forall i, j :: 0 <= i < j < |added| ==> added[i].Rank() < added[j].Rank()
  }

  lemma OrderRank(e: Enhancement)
    ensures e.Rank() < |Order| && Order[e.Rank()] == e
  {
  }

  /** What one step does to the list. */
  lemma StepAdded(e: Enhancement, m: Enhanced, texts: Texts)
    ensures Step(e, m, texts).added == if Needed(e, m.content) then m.added + [e] else m.added
  {
  }

  lemma {:induction false} AddedOrdered(k: nat, content: string, texts: Texts)
    requires k <= |Order|
    ensures InRankOrder(Upto(k, content, texts).added)
    ensures forall e :: e in Upto(k, content, texts).added ==> e.Rank() < k
  {
    if k > 0 {
      AddedOrdered(k - 1, content, texts);
      assert Order[k - 1].Rank() == k - 1;
      StepKeepsOrder(Order[k - 1], Upto(k - 1, content, texts), texts);
    }
  }

  /** A step whose element ranks after every listed one keeps the list in
      order. */
  lemma StepKeepsOrder(x: Enhancement, m: Enhanced, texts: Texts)
    requires InRankOrder(m.added) && forall e :: e in m.added ==> e.Rank() < x.Rank()
    ensures InRankOrder(Step(x, m, texts).added)
    ensures forall e :: e in Step(x, m, texts).added ==> e.Rank() <= x.Rank()
  {
    if Needed(x, m.content) {
      AppendInOrder(m.added, x);
    }
  }

  /** Appending an element ranked after all the listed ones keeps the order. */
  lemma AppendInOrder(added: seq<Enhancement>, e: Enhancement)
    requires InRankOrder(added) && forall x :: x in added ==> x.Rank() < e.Rank()
    ensures InRankOrder(added + [e])
    ensures forall x :: x in added + [e] ==> x.Rank() <= e.Rank()
  {
    var r := added + [e];
    forall i, j | 0 <= i < j < |r| ensures r[i].Rank() < r[j].Rank() {
      if j == |added| {
        assert r[i] in added;
      } else {
        assert r[i] == added[i] && r[j] == added[j];
      }
    }
  }

  /** After `k` steps the list holds exactly those of the first `k`
      elements whose check passed when their step came. */
  lemma AddedExactly(k: nat, content: string, texts: Texts)
    requires k <= |Order|
    ensures forall e: Enhancement :: e.Rank() < k ==>
      (e in Upto(k, content, texts).added <==> Needed(e, Upto(e.Rank(), content, texts).content))
  {
    forall e: Enhancement | e.Rank() < k
      ensures e in Upto(k, content, texts).added <==> Needed(e, Upto(e.Rank(), content, texts).content)
    {
      AddedAt(k, content, texts, e);
    }
  }

  /** The same, for one element. */
  lemma {:induction false} AddedAt(k: nat, content: string, texts: Texts, e: Enhancement)
    requires e.Rank() < k <= |Order|
    ensures e in Upto(k, content, texts).added <==> Needed(e, Upto(e.Rank(), content, texts).content)
  {
    if e.Rank() == k - 1 {
      AddedByOwnStep(e, content, texts);
    } else {
      AddedAt(k - 1, content, texts, e);
      AddedKept(k, content, texts, e);
    }
  }

  /** An element's own step records it exactly when its check passes. */
  lemma AddedByOwnStep(e: Enhancement, content: string, texts: Texts)
    ensures e in Upto(e.Rank() + 1, content, texts).added <==> Needed(e, Upto(e.Rank(), content, texts).content)
  {
    var prev := Upto(e.Rank(), content, texts);
    OrderRank(e);
    StepAdded(e, prev, texts);
    AddedOrdered(e.Rank(), content, texts);
    assert e !in prev.added;
  }

  /** A later step does not change whether an element is recorded. */
  lemma AddedKept(k: nat, content: string, texts: Texts, e: Enhancement)
    requires e.Rank() < k - 1 && k <= |Order|
    ensures e in Upto(k, content, texts).added <==> e in Upto(k - 1, content, texts).added
  {
    assert Order[k - 1].Rank() == k - 1;
    StepKeepsOthers(Order[k - 1], Upto(k - 1, content, texts), texts, e);
  }

  /** A step records its own element and no other. */
  lemma StepKeepsOthers(x: Enhancement, m: Enhanced, texts: Texts, e: Enhancement)
    requires e != x
    ensures e in Step(x, m, texts).added <==> e in m.added
  {
  }

  /** `add_missing_elements` records each element at most once, in the fixed
      order, and records exactly the elements whose check passed when their
      step came. */
  lemma EnhancementsListed(content: string, texts: Texts)
    ensures InRankOrder(RunSteps(content, texts).added)
    ensures forall e: Enhancement :: e in RunSteps(content, texts).added <==> Needed(e, Upto(e.Rank(), content, texts).content)
  {
    AddedExactly(|Order|, content, texts);
    AddedOrdered(|Order|, content, texts);
    forall e: Enhancement ensures e.Rank() < |Order| { OrderRank(e); }
  }

  /** No marker the pass looks for can overlap the workflow anchor the
      summary step rewrites. */
  lemma MarkersApart(e: Enhancement)
    ensures CannotOverlap(WorkflowAnchor, e.Marker())
  {
  }

  /** What one step does to the body. */
  lemma StepContent(e: Enhancement, m: Enhanced, texts: Texts)
    ensures Step(e, m, texts).content == if Needed(e, m.content) then Insert(e, m.content, texts) else m.content
  {
  }

  /** Every step but the instrumentation rewrite keeps a marker that cannot
      overlap the workflow anchor. */
  lemma InsertKeeps(e: Enhancement, content: string, texts: Texts, marker: string)
    requires e != Instrumentation && CannotOverlap(WorkflowAnchor, marker) && Contains(content, marker)
    ensures Contains(Insert(e, content, texts), marker)
  {
    if e == SummaryConfirmation {
      if Contains(content, WorkflowMarker) {
        ReplaceAllKeeps(content, WorkflowAnchor, texts.confirmation + "\n" + WorkflowAnchor, marker);
      } else {
        ContainsLeft(content, "\n" + texts.confirmation, marker);
        assert content + "\n" + texts.confirmation == content + ("\n" + texts.confirmation);
      }
    } else {
      var next := Insert(e, content, texts);
      assert next == content + next[|content|..];
      ContainsLeft(content, next[|content|..], marker);
    }
  }

  /** The first four steps keep every marker the body already holds. */
  lemma {:induction false} MarkerKept(i: nat, j: nat, content: string, texts: Texts, marker: string)
    requires i <= j <= 4
    requires CannotOverlap(WorkflowAnchor, marker)
    requires Contains(Upto(i, content, texts).content, marker)
    ensures Contains(Upto(j, content, texts).content, marker)
  {
    if i < j {
      MarkerKept(i, j - 1, content, texts, marker);
      UptoKeepsMarker(j, content, texts, marker);
    }
  }

  /** Each of the first four steps keeps such a marker. */
  lemma UptoKeepsMarker(j: nat, content: string, texts: Texts, marker: string)
    requires 0 < j <= 4 && CannotOverlap(WorkflowAnchor, marker)
    requires Contains(Upto(j - 1, content, texts).content, marker)
    ensures Contains(Upto(j, content, texts).content, marker)
  {
    assert Order[j - 1] != Instrumentation;
    StepKeepsMarker(Order[j - 1], Upto(j - 1, content, texts), texts, marker);
  }

  /** A step other than the instrumentation rewrite keeps such a marker. */
  lemma StepKeepsMarker(x: Enhancement, m: Enhanced, texts: Texts, marker: string)
    requires x != Instrumentation && CannotOverlap(WorkflowAnchor, marker) && Contains(m.content, marker)
    ensures Contains(Step(x, m, texts).content, marker)
  {
    if Needed(x, m.content) {
      InsertKeeps(x, m.content, texts, marker);
    }
  }

  /** A section whose marker the body holds is never added again. */
  lemma PresentNotAdded(content: string, texts: Texts, e: Enhancement)
    requires Contains(content, e.Marker())
    ensures e !in RunSteps(content, texts).added
  {
    EnhancementsListed(content, texts);
    MarkersApart(e);
    MarkerKept(0, e.Rank(), content, texts, e.Marker());
  }

  /** Steps whose checks all fail leave the body and the list alone. */
  lemma {:induction false} NothingNeeded(k: nat, content: string, texts: Texts)
    requires k <= |Order|
    requires forall i :: 0 <= i < k ==> !Needed(Order[i], content)
    ensures Upto(k, content, texts) == Enhanced(content, [])
  {
    if k > 0 {
      NothingNeeded(k - 1, content, texts);
    }
  }

  /** A body with the first four markers, and with the instrumentation
      marker or without an eighth item, comes back unchanged with an empty
      list. */
  lemma CompleteUnchanged(content: string, texts: Texts)
    requires forall e: Enhancement :: e != Instrumentation ==> Contains(content, e.Marker())
    requires Contains(content, InstrumentationMarker) || !Contains(content, ItemEight)
    ensures RunSteps(content, texts) == Enhanced(content, [])
  {
    forall i | 0 <= i < |Order| ensures !Needed(Order[i], content) {
      assert Order[i].Rank() == i;
    }
    NothingNeeded(|Order|, content, texts);
  }

  /** After its own step, each of the three appended sections is there:
      it was there already, or its block was just appended. */
  lemma AppendedMarkerThere(e: Enhancement, content: string, texts: Texts)
    requires e.Rank() < 3
    ensures Contains(Upto(e.Rank() + 1, content, texts).content, e.Marker())
  {
    OrderRank(e);
    StepContent(e, Upto(e.Rank(), content, texts), texts);
  }

  /** After a pass, the three appended sections are all there. */
  lemma SectionsThere(content: string, texts: Texts)
    ensures forall e: Enhancement :: e.Rank() < 3 ==> Contains(Upto(4, content, texts).content, e.Marker())
  {
    forall e: Enhancement | e.Rank() < 3
      ensures Contains(Upto(4, content, texts).content, e.Marker())
    {
      AppendedMarkerThere(e, content, texts);
      MarkersApart(e);
      MarkerKept(e.Rank() + 1, 4, content, texts, e.Marker());
    }
  }

  /** Unless the instrumentation rewrite ran, a second pass leaves the body
      as the first pass left it.  It records nothing when the summary is in
      the body.  Otherwise it records the summary again, which happens only
      when the body has a workflow evaluation numbered other than 13: the
      first pass recorded the summary without inserting it. */
  lemma IdempotentWithoutInstrumentation(content: string, texts: Texts)
    requires Marked(texts)
    requires Instrumentation !in RunSteps(content, texts).added
    ensures RunSteps(RunSteps(content, texts).content, texts).content == RunSteps(content, texts).content
    ensures Contains(RunSteps(content, texts).content, SummaryMarker) ==>
      RunSteps(RunSteps(content, texts).content, texts).added == []
    ensures !Contains(RunSteps(content, texts).content, SummaryMarker) ==>
      RunSteps(RunSteps(content, texts).content, texts).added == [SummaryConfirmation]
      && Contains(RunSteps(content, texts).content, WorkflowMarker)
      && !Contains(RunSteps(content, texts).content, WorkflowAnchor)
  {
    var t := Upto(3, content, texts).content;
    var s := RunSteps(content, texts).content;
    EnhancementsListed(content, texts);
    StepContent(Instrumentation, Upto(4, content, texts), texts);
    assert s == Upto(4, content, texts).content;
    StepContent(SummaryConfirmation, Upto(3, content, texts), texts);
    SectionsThere(content, texts);
    FirstThreePresent(s);
    NothingNeeded(3, s, texts);
    if Contains(s, SummaryMarker) {
      assert Order[3].Rank() == 3;
      NothingNeeded(|Order|, s, texts);
    } else {
      ConfirmationRule(t, texts.confirmation);
      assert s == t;
      assert Contains(s, WorkflowMarker) && !Contains(s, WorkflowAnchor);
      ConfirmationRule(s, texts.confirmation);
      StepContent(SummaryConfirmation, Upto(3, s, texts), texts);
      StepAdded(SummaryConfirmation, Upto(3, s, texts), texts);
      assert Upto(4, s, texts) == Enhanced(s, [SummaryConfirmation]);
    }
  }

  /** A body holding the three appended sections' markers needs none of
      the first three steps. */
  lemma FirstThreePresent(s: string)
    requires forall e: Enhancement :: e.Rank() < 3 ==> Contains(s, e.Marker())
    ensures forall i :: 0 <= i < 3 ==> !Needed(Order[i], s)
  {
    assert InteractionPattern.Rank() < 3 && StandardOperatingProcedures.Rank() < 3 && ExampleUsage.Rank() < 3;
  }

  /** Once the instrumentation rewrite has run, its marker is in the body,
      so a second pass never runs it again. */
  lemma InstrumentationOnce(content: string, texts: Texts)
    requires Marked(texts)
    requires Instrumentation in RunSteps(content, texts).added
    ensures Contains(RunSteps(content, texts).content, InstrumentationMarker)
    ensures Instrumentation !in RunSteps(RunSteps(content, texts).content, texts).added
  {
    EnhancementsListed(content, texts);
    StepContent(Instrumentation, Upto(4, content, texts), texts);
    InstrumentationRule(Upto(4, content, texts).content, texts.renumbering);
    PresentNotAdded(RunSteps(content, texts).content, texts, Instrumentation);
  }

  // ---------------------------------------------------------------------
  // The instrumentation rewrite can erase a section
  // ---------------------------------------------------------------------

  /** A role body whose item eight is empty and ends its line, followed by
      the four markers the first steps look for, one per line. */
  const ErasureExample := "8. \n" + SummaryMarker + ErasureTail

  /** The lines after the summary marker in the example. */
  const ErasureTail := "\n" + InteractionMarker + "\n" + ProceduresMarker + "\n" + ExampleMarker

  /** Three lines appended below `head` can each be found, and a one-line
      marker that is in none of them nor in `head` is not found. */
  lemma BelowHead(head: string, t: string, a: string, b: string, c: string, m: string)
    requires t == "\n" + a + "\n" + b + "\n" + c
    ensures Contains(head + t, a) && Contains(head + t, b) && Contains(head + t, c)
    ensures '\n' !in m && !Contains(head, m) && !Contains(a, m) && !Contains(b, m) && !Contains(c, m)
      ==> !Contains(head + t, m)
  {
    var l1 := head + "\n" + a;
    var l2 := l1 + "\n" + b;
    assert head + t == l2 + "\n" + c;
    ContainsMiddle(head + "\n", a, "\n" + b + "\n" + c);
    assert head + t == head + "\n" + a + ("\n" + b + "\n" + c);
    ContainsMiddle(l1 + "\n", b, "\n" + c);
    assert head + t == l1 + "\n" + b + ("\n" + c);
    ContainsMiddle(l2 + "\n", c, []);
    assert head + t == l2 + "\n" + c + [];
    if '\n' !in m && !Contains(head, m) && !Contains(a, m) && !Contains(b, m) && !Contains(c, m) {
      AbsentAroundNewline(head, a, m);
      AbsentAroundNewline(l1, b, m);
      AbsentAroundNewline(l2, c, m);
    }
  }

  // Literal facts for the erasure example above.  Each lemma from here to
  // `TailLacksW` names one character that a marker or a line of
  // the example lacks, one fact per lemma so that each literal is inspected
  // on its own.  They are helpers of `InstrumentationErasesSummary` and say
  // nothing about the migrator by themselves.

  lemma SummaryLineLacksE()
    ensures InstrumentationMarker[7] !in "8. \n" + SummaryMarker
  {
  }

  lemma InteractionLacksN()
    ensures InstrumentationMarker[1] !in InteractionMarker
  {
  }

  lemma ProceduresLacksI()
    ensures InstrumentationMarker[0] !in ProceduresMarker
  {
  }

  lemma ExampleLacksI()
    ensures InstrumentationMarker[0] !in ExampleMarker
  {
  }

  lemma InstrumentationOneLine()
    ensures '\n' !in InstrumentationMarker
  {
  }

  /** Characters missing from each of the three lines of the tail. */
  lemma InteractionLacks()
    ensures '8' !in InteractionMarker && '&' !in InteractionMarker && 'W' !in InteractionMarker
  {
    InteractionLacksEight();
    InteractionLacksAmpersand();
  }

  lemma InteractionLacksEight()
    ensures '8' !in InteractionMarker
  {
  }

  lemma InteractionLacksAmpersand()
    ensures '&' !in InteractionMarker
  {
  }

  lemma ProceduresLacks()
    ensures '8' !in ProceduresMarker && '&' !in ProceduresMarker && 'W' !in ProceduresMarker
  {
    ProceduresLacksEight();
    ProceduresLacksAmpersand();
  }

  lemma ProceduresLacksEight()
    ensures '8' !in ProceduresMarker
  {
  }

  lemma ProceduresLacksAmpersand()
    ensures '&' !in ProceduresMarker
  {
  }

  lemma ExampleLacks()
    ensures '8' !in ExampleMarker && '&' !in ExampleMarker && 'W' !in ExampleMarker
  {
  }

  /** A character other than a newline that none of the three lines holds
      is not in the tail. */
  lemma TailLacks(c: char)
    requires c != '\n' && c !in InteractionMarker && c !in ProceduresMarker && c !in ExampleMarker
    ensures c !in ErasureTail
  {
  }

  lemma TailLacksEight()
    ensures '8' !in ErasureTail
  {
    InteractionLacks();
    ProceduresLacks();
    ExampleLacks();
    TailLacks('8');
  }

  lemma TailLacksAmpersand()
    ensures SummaryMarker[8] == '&' && '&' !in ErasureTail
  {
    InteractionLacks();
    ProceduresLacks();
    ExampleLacks();
    TailLacks('&');
  }

  lemma TailLacksW()
    ensures WorkflowMarker[0] == 'W' && 'W' !in ErasureTail
  {
    InteractionLacks();
    ProceduresLacks();
    ExampleLacks();
    TailLacks('W');
  }

  /** What the example holds: the four markers the first steps look for,
      an item eight, and no instrumentation marker. */
  lemma ExampleMarkers()
    ensures Contains(ErasureExample, SummaryMarker)
    ensures Contains(ErasureExample, InteractionMarker)
    ensures Contains(ErasureExample, ProceduresMarker)
    ensures Contains(ErasureExample, ExampleMarker)
    ensures Contains(ErasureExample, ItemEight)
    ensures !Contains(ErasureExample, InstrumentationMarker)
  {
    SummaryLineLacksE();
    InteractionLacksN();
    ProceduresLacksI();
    ExampleLacksI();
    InstrumentationOneLine();
    ContainsMiddle("8. \n", SummaryMarker, ErasureTail);
    CharAbsent("8. \n" + SummaryMarker, InstrumentationMarker, 7);
    CharAbsent(InteractionMarker, InstrumentationMarker, 1);
    CharAbsent(ProceduresMarker, InstrumentationMarker, 0);
    CharAbsent(ExampleMarker, InstrumentationMarker, 0);
    BelowHead("8. \n" + SummaryMarker, ErasureTail, InteractionMarker, ProceduresMarker, ExampleMarker,
      InstrumentationMarker);
    assert OccursAt(ErasureExample, ItemEight, 0);
  }

  /** After the rewrite, the body keeps the three appended sections but
      holds neither the summary marker nor a workflow evaluation. */
  lemma RewrittenMarkers(repl: string)
    requires '&' !in repl && 'W' !in repl
    ensures Contains(repl + ErasureTail, InteractionMarker)
    ensures Contains(repl + ErasureTail, ProceduresMarker)
    ensures Contains(repl + ErasureTail, ExampleMarker)
    ensures !Contains(repl + ErasureTail, SummaryMarker)
    ensures !Contains(repl + ErasureTail, WorkflowMarker)
  {
    TailLacksAmpersand();
    TailLacksW();
    CharAbsent(repl + ErasureTail, SummaryMarker, 8);
    CharAbsent(repl + ErasureTail, WorkflowMarker, 0);
    BelowHead(repl, ErasureTail, InteractionMarker, ProceduresMarker, ExampleMarker, InstrumentationMarker);
  }

  /** A body holding the four first markers and an item eight, but no
      instrumentation marker, gets the instrumentation rewrite alone. */
  lemma OnlyInstrumentation(c: string, texts: Texts)
    requires forall e: Enhancement :: e.Rank() < 4 ==> Contains(c, e.Marker())
    requires Contains(c, ItemEight) && !Contains(c, InstrumentationMarker)
    ensures RunSteps(c, texts) == Enhanced(SubInstrumentation(c, texts.renumbering), [Instrumentation])
  {
    forall i | 0 <= i < 4 ensures !Needed(Order[i], c) {
      assert Order[i].Rank() == i;
    }
    NothingNeeded(4, c, texts);
    StepContent(Instrumentation, Upto(4, c, texts), texts);
    StepAdded(Instrumentation, Upto(4, c, texts), texts);
  }

  /** A body holding the three appended sections and the instrumentation
      marker, but neither the summary marker nor a workflow evaluation, gets
      the summary block appended and nothing else. */
  lemma OnlySummaryAppended(r: string, texts: Texts)
    requires forall e: Enhancement :: e.Rank() < 3 ==> Contains(r, e.Marker())
    requires !Contains(r, SummaryMarker) && !Contains(r, WorkflowMarker)
    requires Contains(r, InstrumentationMarker)
    ensures RunSteps(r, texts) == Enhanced(r + "\n" + texts.confirmation, [SummaryConfirmation])
  {
    SummaryAppended(r, texts);
    var r2 := r + "\n" + texts.confirmation;
    ContainsLeft(r, "\n" + texts.confirmation, InstrumentationMarker);
    assert r2 == r + ("\n" + texts.confirmation);
    assert !Needed(Instrumentation, r2);
  }

  /** The first four steps of `OnlySummaryAppended`. */
  lemma SummaryAppended(r: string, texts: Texts)
    requires forall e: Enhancement :: e.Rank() < 3 ==> Contains(r, e.Marker())
    requires !Contains(r, SummaryMarker) && !Contains(r, WorkflowMarker)
    ensures Upto(4, r, texts) == Enhanced(r + "\n" + texts.confirmation, [SummaryConfirmation])
  {
    forall i | 0 <= i < 3 ensures !Needed(Order[i], r) {
      assert Order[i].Rank() == i;
    }
    NothingNeeded(3, r, texts);
    assert Needed(SummaryConfirmation, r);
  }

  /** The summary line is one non-blank line. */
  lemma SummaryLineShape()
    ensures |SummaryMarker| > 0 && !IsSpace(SummaryMarker[0]) && '\n' !in SummaryMarker
  {
  }

  /** On the example, the rewrite replaces item eight and the summary line. */
  lemma ExampleRewrite(repl: string)
    ensures SubInstrumentation(ErasureExample, repl) == repl + ErasureTail
  {
    SummaryLineShape();
    TailLacksEight();
    SubSwallowsNextLine(SummaryMarker, ErasureTail, repl);
  }

  /** The example with any templates whose replacement line is marked and
      holds neither an ampersand nor a capital W. */
  lemma ErasureWithTexts(texts: Texts)
    requires Marked(texts)
    requires '&' !in texts.renumbering && 'W' !in texts.renumbering
    ensures RunSteps(ErasureExample, texts) == Enhanced(texts.renumbering + ErasureTail, [Instrumentation])
    ensures !Contains(texts.renumbering + ErasureTail, SummaryMarker)
    ensures RunSteps(texts.renumbering + ErasureTail, texts)
      == Enhanced(texts.renumbering + ErasureTail + "\n" + texts.confirmation, [SummaryConfirmation])
  {
    ErasureFirstPass(texts);
    RewrittenMarkers(texts.renumbering);
    ContainsLeft(texts.renumbering, ErasureTail, InstrumentationMarker);
    OnlySummaryAppended(texts.renumbering + ErasureTail, texts);
  }

  /** The first pass over the example. */
  lemma ErasureFirstPass(texts: Texts)
    ensures RunSteps(ErasureExample, texts) == Enhanced(texts.renumbering + ErasureTail, [Instrumentation])
  {
    ExampleMarkers();
    OnlyInstrumentation(ErasureExample, texts);
    ExampleRewrite(texts.renumbering);
  }

  /** The rewrite takes the empty item eight together with the next line,
      so the summary marker is gone: only the instrumentation runs on the
      example, yet a second pass finds the summary missing and appends it.
      `add_missing_elements` is therefore not idempotent. */
  lemma InstrumentationErasesSummary(roleName: string)
    ensures EnsureSections(ErasureExample, roleName).added == [Instrumentation]
    ensures !Contains(EnsureSections(ErasureExample, roleName).content, SummaryMarker)
    ensures EnsureSections(EnsureSections(ErasureExample, roleName).content, roleName).added == [SummaryConfirmation]
    ensures EnsureSections(EnsureSections(ErasureExample, roleName).content, roleName).content
      != EnsureSections(ErasureExample, roleName).content
  {
    var texts := TextsFor(roleName);
    TextsMarked(roleName);
    RenumberingLetters();
    ErasureWithTexts(texts);
    var r1 := texts.renumbering + ErasureTail;
    assert |r1 + "\n" + texts.confirmation| > |r1|;
  }

  /** The replacement the migrator writes holds neither an ampersand nor a
      capital W, so the example above applies to every role. */
  lemma RenumberingLetters()
    ensures '&' !in Renumbering && 'W' !in Renumbering
  {
    LineLacksAmpersand();
    LineLacksW();
    assert Renumbering == InstrumentationLine + "\n9. ";
  }

  lemma LineLacksAmpersand()
    ensures '&' !in InstrumentationLine
  {
    assert '&' !in InstrumentationMarker;
    assert '&' !in "**: Logging, metrics, " && '&' !in "monitoring requirements ";
    assert '&' !in "for production validation";
  }

  lemma LineLacksW()
    ensures 'W' !in InstrumentationLine
  {
    assert 'W' !in InstrumentationMarker;
    assert 'W' !in "**: Logging, metrics, " && 'W' !in "monitoring requirements ";
    assert 'W' !in "for production validation";
  }
}
