/** What every error of the coverage validator (src/agent-discovery-catalog.ts) means: an error is
    reported exactly when the input has the defect that it names. */
module CoverageDefects {
  import opened Lists
  import opened Options
  import opened Strings
  import opened Coverage

  // --- The defects ---

  /** `d` is one of the ids that the group joins with bars. */
  ghost predicate IsAlternative(group: string, d: string) {
    '|' !in d && exists x, y :: IsBetweenBars(group, x, d, y)
  }

  ghost predicate IsBetweenBars(group: string, x: string, d: string, y: string) {
    group == x + d + y && (x == "" || x[|x|-1] == '|') && (y == "" || y[0] == '|')
  }

  /** A command that is only tried out. */
  ghost predicate IsTrial(s: Step) {
    s.operation.Cli? && exists i :: 0 <= i < |s.requiredArguments| && s.requiredArguments[i] == "--dry-run"
  }

  /** How safe the step is on its binding: a trial only reads. */
  ghost predicate ActsAs(s: Step, b: Binding, safety: Safety) {
    safety == if IsTrial(s) then Read else b.safety
  }

  ghost predicate ClaimsToRepeat(tool: Tool) {
    tool.annotations.Some? && tool.annotations.value.idempotentHint == Some(true)
  }

  ghost predicate IsReviewed(n: RetryNames, name: string) {
    name in n.keyIdempotent + n.naturalIdempotent + n.externalProvider
  }

  ghost predicate BaselineDefect(c: Input, e: CoverageError) {
    match e
    case NotInBaseline(id) => c.expectedOperationIds.Some? && id in c.LiveIds() && id !in c.expectedOperationIds.value
    case NotLive(id) => c.expectedOperationIds.Some? && id in c.expectedOperationIds.value && id !in c.LiveIds()
    case SurfaceChanged(s) => c.expectedOperationIds.None? && !c.SurfaceHolds(s)
    case _ => false
  }

  ghost predicate BindingDefect(c: Input, id: string, e: CoverageError) {
    match e
    case NoBinding(other) => other == id && c.BindingFor(id).None?
    case UnknownCapability(other, capabilityId) =>
      other == id && c.BindingFor(id).Some? && capabilityId in c.BindingFor(id).value.capabilityIds
      && forall x :: x in c.capabilities ==> x.id != capabilityId
    case _ => false
  }

  ghost predicate HintDefect(c: Input, tool: Tool, b: Binding, e: CoverageError) {
    match e
    case HintWithoutContract(id) => id == "mcp:" + tool.name && ClaimsToRepeat(tool) && !IsReviewed(c.retryNames, tool.name)
    case NaturalWithoutHint(id) => id == "mcp:" + tool.name && b.retryClass.NaturalIdempotent? && !ClaimsToRepeat(tool)
    case KeyedWithHint(id) => id == "mcp:" + tool.name && b.retryClass.KeyIdempotent? && ClaimsToRepeat(tool)
    case _ => false
  }

  /** Only bound tools that write can have one. */
  ghost predicate ToolDefect(c: Input, tool: Tool, e: CoverageError) {
    var b := c.Bound(McpId(tool.name));
    b.Some? && !b.value.safety.Read? && HintDefect(c, tool, b.value, e)
  }

  ghost predicate CapabilityDefect(bindings: seq<Binding>, workflows: seq<Workflow>, capability: Capability, e: CoverageError) {
    match e
    case NoWorkflowLinked(id) => id == capability.id && capability.workflowIds == []
    case UnknownWorkflow(id, workflowId) => id == capability.id && workflowId in capability.workflowIds
      && forall w :: w in workflows ==> w.id != workflowId
    case NothingDiscoverable(id) => id == capability.id
      && forall b :: b in bindings ==> capability.id !in b.capabilityIds
    case _ => false
  }

  /** The first capability of that id. */
  ghost predicate IsFirstCapability(c: Input, id: string, k: int) {
    0 <= k < |c.capabilities| && c.capabilities[k].id == id && forall j :: 0 <= j < k ==> c.capabilities[j].id != id
  }

  ghost predicate LinkDefect(c: Input, w: Workflow, e: CoverageError) {
    match e
    case WorkflowWithoutCapability(id, capabilityId) => id == w.id && capabilityId == w.capabilityId
      && forall x :: x in c.capabilities ==> x.id != w.capabilityId
    case ReverseLinkMissing(id, capabilityId) => id == w.id && capabilityId == w.capabilityId
      && forall k :: IsFirstCapability(c, w.capabilityId, k) ==> w.id !in c.capabilities[k].workflowIds
    case _ => false
  }

  ghost predicate AccessDefect(w: Workflow, s: Step, b: Binding, e: CoverageError) {
    || (!s.operation.Http? && b.requiresActor != s.requiresActor && e == ActorContradicted(w.id, s.id))
    || (!s.operation.Http? && b.requiresConfirmation != s.requiresConfirmation && e == ConfirmationContradicted(w.id, s.id))
  }

  ghost predicate RetryDefect(w: Workflow, s: Step, b: Binding, e: CoverageError) {
    || (!IsTrial(s) && s.retryClass != b.retryClass && e == RetryContradicted(w.id, s.id))
    || (ActsAs(s, b, Read) && !s.retryClass.SafeRead? && e == ReadNotSafeRead(w.id, s.id))
    || (ActsAs(s, b, Destructive) && !s.retryClass.UnsafeReadBack? && e == DestructiveNotReadBack(w.id, s.id))
  }

  ghost predicate ClaimDefect(w: Workflow, s: Step, b: Binding, e: CoverageError) {
    || (!ActsAs(s, b, s.expectedSafety) && e == SafetyContradicted(w.id, s.id))
    || (s.operation.Mcp? && b.idempotent != Some(s.expectedIdempotent) && e == IdempotencyContradicted(w.id, s.id))
    || AccessDefect(w, s, b, e)
    || RetryDefect(w, s, b, e)
  }

  /** How an operation is written. */
  ghost predicate Spells(op: Operation, id: string) {
    match op
    case Mcp(name) => id == "mcp:" + name
    case Cli(key) => id == "cli:" + key
    case Http(verb, pattern) => id == "http:" + verb + " " + pattern
  }

  ghost predicate OperationDefect(w: Workflow, s: Step, b: Option<Binding>, e: CoverageError) {
    if b.None? then e.StepNotBound? && e.workflowId == w.id && e.stepId == s.id && Spells(s.operation, e.id)
    else ClaimDefect(w, s, b.value, e)
  }

  ghost predicate DanglingDefect(w: Workflow, s: Step, e: CoverageError) {
    && e.DanglingDependency? && e.workflowId == w.id && e.stepId == s.id
    && (forall x :: x in w.steps ==> x.id != e.dependency)
    && exists group :: group in s.dependsOn && IsAlternative(group, e.dependency)
  }

  ghost predicate StepDefect(bound: Lookup, w: Workflow, s: Step, e: CoverageError) {
    DanglingDefect(w, s, e) || OperationDefect(w, s, bound(OperationId(s.operation)), e)
  }

  ghost predicate WorkflowDefect(c: Input, w: Workflow, e: CoverageError) {
    LinkDefect(c, w, e) || exists s :: s in w.steps && StepDefect(c.Bound, w, s, e)
  }

  ghost predicate IsDefect(c: Input, e: CoverageError) {
    || BaselineDefect(c, e)
    || (e == StandaloneNotAccepted(c.standaloneOperationIds) && c.standaloneOperationIds != [])
    || (exists id :: id in c.LiveIds() && BindingDefect(c, id, e))
    || (exists tool :: tool in c.tools && ToolDefect(c, tool, e))
    || (exists capability :: capability in c.capabilities && CapabilityDefect(c.Bindings(), c.workflows, capability, e))
    || (exists w :: w in c.workflows && WorkflowDefect(c, w, e))
  }

  // --- What the checks look at ---

  lemma BarAfterHead(group: string, x: string, d: string, y: string)
    requires IsBetweenBars(group, x, d, y) && x != ""
    ensures var head := Before(group, '|');
      |head| < |x| && x[|head|] == '|' && IsBetweenBars(group[|head| + 1..], x[|head| + 1..], d, y)
  {
    var head := Before(group, '|');
    assert group[|x| - 1] == '|';
    assert |head| < |x| by {
      assert forall i :: 0 <= i < |head| ==> group[i] == head[i] && head[i] in head;
    }
    assert x[|head|] == group[|head|];
    assert group[|head| + 1..] == x[|head| + 1..] + d + y;
  }

  lemma FirstAlternative(group: string, d: string, y: string)
    requires IsBetweenBars(group, "", d, y) && '|' !in d
    ensures Before(group, '|') == d
  {
    if y == "" {
      assert group == d;
      BeforeNone(d, '|');
    } else {
      assert group == d + ['|'] + y[1..];
      BeforeFirst(d, '|', y[1..]);
    }
  }

  lemma LaterAlternative(group: string, x: string, d: string, y: string)
    requires |Before(group, '|')| < |group| && IsBetweenBars(group[|Before(group, '|')| + 1..], x, d, y)
    ensures IsBetweenBars(group, Before(group, '|') + "|" + x, d, y)
  {
    var head := Before(group, '|');
    var tail := group[|head| + 1..];
    assert group == head + "|" + tail;
    Regroup(head + "|", x + d, y);
    Regroup(head + "|", x, d);
    assert x != "" ==> (head + "|" + x)[|head + "|" + x|-1] == x[|x|-1];
  }

  lemma LaterIsAlternative(group: string, d: string)
    requires |Before(group, '|')| < |group| && IsAlternative(group[|Before(group, '|')| + 1..], d)
    ensures IsAlternative(group, d)
  {
    var x, y :| IsBetweenBars(group[|Before(group, '|')| + 1..], x, d, y);
    LaterAlternative(group, x, d, y);
  }

  lemma AlternativesUnfold(group: string)
    ensures var head := Before(group, '|');
      if |head| == |group| then group == head && Alternatives(group) == [head]
      else Alternatives(group) == [head] + Alternatives(group[|head| + 1..])
  {
    var head := Before(group, '|');
    assert group[..|head|] == head;
  }

  lemma HeadIsBetween(group: string)
    ensures IsAlternative(group, Before(group, '|'))
  {
    var head := Before(group, '|');
    assert group == "" + head + group[|head|..];
    assert IsBetweenBars(group, "", head, group[|head|..]);
  }

  lemma {:induction false} AlternativeIsBetween(group: string, d: string)
    requires d in Alternatives(group)
    ensures IsAlternative(group, d)
    decreases |group|
  {
    var head := Before(group, '|');
    AlternativesUnfold(group);
    if d == head {
      HeadIsBetween(group);
    } else {
      var tail := group[|head| + 1..];
      AlternativeIsBetween(tail, d);
      LaterIsAlternative(group, d);
    }
  }

  lemma {:induction false} BetweenIsAlternative(group: string, x: string, d: string, y: string)
    requires IsBetweenBars(group, x, d, y) && '|' !in d
    ensures d in Alternatives(group)
    decreases |group|
  {
    AlternativesUnfold(group);
    if x == "" {
      FirstAlternative(group, d, y);
    } else {
      var head := Before(group, '|');
      BarAfterHead(group, x, d, y);
      BetweenIsAlternative(group[|head| + 1..], x[|head| + 1..], d, y);
    }
  }

  /** Splitting at the bars gives what stands between them. */
  lemma AlternativesMean(group: string, d: string)
    ensures d in Alternatives(group) <==> IsAlternative(group, d)
  {
    if d in Alternatives(group) {
      AlternativeIsBetween(group, d);
    }
    if IsAlternative(group, d) {
      var x, y :| IsBetweenBars(group, x, d, y);
      BetweenIsAlternative(group, x, d, y);
    }
  }

  function JoinBars(ids: seq<string>): string
    requires ids != []
  {
    if |ids| == 1 then ids[0] else ids[0] + "|" + JoinBars(ids[1..])
  }

  /** Ids joined with bars are split back, in their order. */
  lemma {:induction false} AlternativesUndoJoin(ids: seq<string>)
    requires ids != [] && forall i :: 0 <= i < |ids| ==> '|' !in ids[i]
    ensures Alternatives(JoinBars(ids)) == ids
  {
    if |ids| == 1 {
      BeforeNone(ids[0], '|');
    } else {
      var group, tail := JoinBars(ids), JoinBars(ids[1..]);
      AlternativesUndoJoin(ids[1..]);
      BeforeFirst(ids[0], '|', tail);
      assert group[|ids[0]| + 1..] == tail;
      assert ids == [ids[0]] + ids[1..];
    }
  }

  lemma TrialMeans(s: Step)
    ensures IsDryRun(s) <==> IsTrial(s)
  {
    if "--dry-run" in s.requiredArguments {
      var i :| 0 <= i < |s.requiredArguments| && s.requiredArguments[i] == "--dry-run";
    }
  }

  lemma {:induction false} FirstCapability(capabilities: seq<Capability>, id: string) returns (k: int)
    ensures FindCapability(capabilities, id).None? <==> forall x :: x in capabilities ==> x.id != id
    ensures FindCapability(capabilities, id).Some? ==>
      && 0 <= k < |capabilities| && capabilities[k].id == id && FindCapability(capabilities, id) == Some(capabilities[k])
      && forall j :: 0 <= j < k ==> capabilities[j].id != id
  {
    k := 0;
    if capabilities != [] {
      assert capabilities == [capabilities[0]] + capabilities[1..];
      if capabilities[0].id != id {
        k := FirstCapability(capabilities[1..], id);
        k := k + 1;
      }
    }
  }

  lemma LinkedBackMeans(c: Input, w: Workflow)
    ensures c.IsLinkedBack(w) <==>
      !forall k :: IsFirstCapability(c, w.capabilityId, k) ==> w.id !in c.capabilities[k].workflowIds
  {
    var k := FirstCapability(c.capabilities, w.capabilityId);
    if FindCapability(c.capabilities, w.capabilityId).Some? {
      assert IsFirstCapability(c, w.capabilityId, k);
      assert forall j :: IsFirstCapability(c, w.capabilityId, j) ==> j == k;
    } else {
      forall j ensures !IsFirstCapability(c, w.capabilityId, j) {
        if 0 <= j < |c.capabilities| {
          assert c.capabilities[j] in c.capabilities;
        }
      }
    }
  }

  // --- The checks report them ---

  lemma {:induction false} InUnexpected(live: seq<string>, expected: seq<string>, e: CoverageError)
    ensures e in Unexpected(live, expected) <==> e.NotInBaseline? && e.id in live && e.id !in expected
  {
    if live != [] {
      InUnexpected(live[..|live|-1], expected, e);
      assert forall id :: id in live <==> id in live[..|live|-1] || id == live[|live|-1];
    }
  }

  lemma {:induction false} InMissing(expected: seq<string>, live: seq<string>, e: CoverageError)
    ensures e in Missing(expected, live) <==> e.NotLive? && e.id in expected && e.id !in live
  {
    if expected != [] {
      InMissing(expected[..|expected|-1], live, e);
      assert forall id :: id in expected <==> id in expected[..|expected|-1] || id == expected[|expected|-1];
    }
  }

  lemma InSurfaceErrors(c: Input, s: Surface, e: CoverageError)
    ensures e in c.SurfaceErrors(s) <==> e == SurfaceChanged(s) && !c.SurfaceHolds(s)
  {
  }

  lemma InExpectedErrors(live: seq<string>, expected: seq<string>, e: CoverageError)
    ensures e in Unexpected(live, expected) + Missing(Distinct(expected), live) <==>
      || (e.NotInBaseline? && e.id in live && e.id !in expected)
      || (e.NotLive? && e.id in expected && e.id !in live)
  {
    InUnexpected(live, expected, e);
    InMissing(Distinct(expected), live, e);
  }

  lemma InAnySurface(errors: Surface -> seq<CoverageError>, holds: Surface -> bool, e: CoverageError)
    requires forall s: Surface :: e in errors(s) <==> e == SurfaceChanged(s) && !holds(s)
    ensures e in errors(McpSurface) + errors(CliSurface) + errors(HttpSurface) <==> e.SurfaceChanged? && !holds(e.surface)
  {
    if e.SurfaceChanged? {
      assert e.surface == McpSurface || e.surface == CliSurface || e.surface == HttpSurface;
    }
  }

  lemma InAnySurfaceErrors(c: Input, e: CoverageError)
    ensures e in c.SurfaceErrors(McpSurface) + c.SurfaceErrors(CliSurface) + c.SurfaceErrors(HttpSurface) <==>
      e.SurfaceChanged? && !c.SurfaceHolds(e.surface)
  {
    forall s: Surface ensures e in c.SurfaceErrors(s) <==> e == SurfaceChanged(s) && !c.SurfaceHolds(s) {
      InSurfaceErrors(c, s, e);
    }
    InAnySurface(c.SurfaceErrors, c.SurfaceHolds, e);
  }

  lemma InBaselineErrors(c: Input, e: CoverageError)
    ensures e in c.BaselineErrors() <==> BaselineDefect(c, e)
  {
    if c.expectedOperationIds.Some? {
      InExpectedErrors(c.LiveIds(), c.expectedOperationIds.value, e);
    } else {
      InAnySurfaceErrors(c, e);
    }
  }

  lemma {:induction false} InUnknownCapabilities(c: Input, id: string, ids: seq<string>, e: CoverageError)
    ensures e in c.UnknownCapabilities(id, ids) <==>
      e.UnknownCapability? && e.id == id && e.capabilityId in ids && !c.HasCapability(e.capabilityId)
  {
    if ids != [] {
      InUnknownCapabilities(c, id, ids[..|ids|-1], e);
      assert forall x :: x in ids <==> x in ids[..|ids|-1] || x == ids[|ids|-1];
    }
  }

  lemma {:induction false} InUnknownWorkflows(c: Input, id: string, ids: seq<string>, e: CoverageError)
    ensures e in c.UnknownWorkflows(id, ids) <==>
      e.UnknownWorkflow? && e.capabilityId == id && e.workflowId in ids && !c.HasWorkflow(e.workflowId)
  {
    if ids != [] {
      InUnknownWorkflows(c, id, ids[..|ids|-1], e);
      assert forall x :: x in ids <==> x in ids[..|ids|-1] || x == ids[|ids|-1];
    }
  }

  lemma {:induction false} InDangling(w: Workflow, s: Step, ids: seq<string>, e: CoverageError)
    ensures e in Dangling(w, s, ids) <==>
      e.DanglingDependency? && e.workflowId == w.id && e.stepId == s.id && e.dependency in ids && !HasStep(w, e.dependency)
  {
    if ids != [] {
      InDangling(w, s, ids[..|ids|-1], e);
      assert forall x :: x in ids <==> x in ids[..|ids|-1] || x == ids[|ids|-1];
    }
  }

  lemma InBindingErrors(c: Input, id: string, e: CoverageError)
    ensures e in c.BindingErrors(id) <==> BindingDefect(c, id, e)
  {
    if c.BindingFor(id).Some? {
      InUnknownCapabilities(c, id, c.BindingFor(id).value.capabilityIds, e);
    }
  }

  lemma InHintErrors(c: Input, tool: Tool, b: Binding, e: CoverageError)
    ensures e in c.HintErrors(tool, b) <==> HintDefect(c, tool, b, e)
  {
  }

  lemma InToolErrors(c: Input, tool: Tool, e: CoverageError)
    ensures e in c.ToolErrors(tool) <==> ToolDefect(c, tool, e)
  {
    var b := c.Bound(McpId(tool.name));
    if b.Some? {
      InHintErrors(c, tool, b.value, e);
    }
  }

  lemma InCapabilityErrors(c: Input, capability: Capability, e: CoverageError)
    ensures e in c.CapabilityErrors(capability) <==> CapabilityDefect(c.Bindings(), c.workflows, capability, e)
  {
    InUnknownWorkflows(c, capability.id, capability.workflowIds, e);
  }

  lemma InLinkErrors(c: Input, w: Workflow, e: CoverageError)
    ensures e in c.LinkErrors(w) <==> LinkDefect(c, w, e)
  {
    LinkedBackMeans(c, w);
  }

  lemma InAccessErrors(w: Workflow, s: Step, b: Binding, e: CoverageError)
    ensures e in AccessErrors(w, s, b) <==> AccessDefect(w, s, b, e)
  {
  }

  lemma InRetryErrors(w: Workflow, s: Step, b: Binding, e: CoverageError)
    ensures e in RetryErrors(w, s, b) <==> RetryDefect(w, s, b, e)
  {
    TrialMeans(s);
  }

  lemma InClaimErrors(w: Workflow, s: Step, b: Binding, e: CoverageError)
    ensures e in ClaimErrors(w, s, b) <==> ClaimDefect(w, s, b, e)
  {
    TrialMeans(s);
    InAccessErrors(w, s, b, e);
    InRetryErrors(w, s, b, e);
  }

  lemma InGroups(s: Step, d: string)
    ensures d in FlatMap(Alternatives, s.dependsOn) <==> exists group :: group in s.dependsOn && IsAlternative(group, d)
  {
    InFlatMap(Alternatives, s.dependsOn, d);
    forall group ensures d in Alternatives(group) <==> IsAlternative(group, d) {
      AlternativesMean(group, d);
    }
  }

  lemma InDependencies(w: Workflow, s: Step, e: CoverageError)
    ensures e in Dangling(w, s, FlatMap(Alternatives, s.dependsOn)) <==> DanglingDefect(w, s, e)
  {
    InDangling(w, s, FlatMap(Alternatives, s.dependsOn), e);
    if e.DanglingDependency? {
      InGroups(s, e.dependency);
    }
  }

  lemma InOperationErrors(w: Workflow, s: Step, b: Option<Binding>, e: CoverageError)
    ensures e in OperationErrors(w, s, b) <==> OperationDefect(w, s, b, e)
  {
    if b.Some? {
      InClaimErrors(w, s, b.value, e);
    }
  }

  lemma InStepErrors(bound: Lookup, w: Workflow, s: Step, e: CoverageError)
    ensures e in StepErrors(bound, w, s) <==> StepDefect(bound, w, s, e)
  {
    InDependencies(w, s, e);
    InOperationErrors(w, s, bound(OperationId(s.operation)), e);
  }

  lemma {:induction false} InAllStepErrors(bound: Lookup, w: Workflow, steps: seq<Step>, e: CoverageError)
    ensures e in AllStepErrors(bound, w, steps) <==> exists s :: s in steps && StepDefect(bound, w, s, e)
  {
    if steps != [] {
      var front, last := steps[..|steps|-1], steps[|steps|-1];
      InAllStepErrors(bound, w, front, e);
      InStepErrors(bound, w, last, e);
      assert forall s :: s in steps <==> s in front || s == last;
    }
  }

  lemma InWorkflowErrors(c: Input, w: Workflow, e: CoverageError)
    ensures e in c.WorkflowErrors(w) <==> WorkflowDefect(c, w, e)
  {
    InLinkErrors(c, w, e);
    InAllStepErrors(c.Bound, w, w.steps, e);
  }

  lemma InPhases(c: Input, e: CoverageError)
    ensures e in c.AllErrors() <==>
      || e in c.BaselineErrors()
      || e in c.StandaloneErrors()
      || (exists id :: id in c.LiveIds() && e in c.BindingErrors(id))
      || (exists tool :: tool in c.tools && e in c.ToolErrors(tool))
      || (exists capability :: capability in c.capabilities && e in c.CapabilityErrors(capability))
      || (exists w :: w in c.workflows && e in c.WorkflowErrors(w))
  {
    InFlatMap(c.BindingErrors, c.LiveIds(), e);
    InFlatMap(c.ToolErrors, c.tools, e);
    InFlatMap(c.CapabilityErrors, c.capabilities, e);
    InFlatMap(c.WorkflowErrors, c.workflows, e);
  }

  /** The validator reports every defect of the input, and nothing else. */
  lemma ReportsExactlyTheDefects(c: Input, e: CoverageError)
    ensures e in c.AllErrors() <==> IsDefect(c, e)
  {
    InPhases(c, e);
    InBaselineErrors(c, e);
    forall id ensures e in c.BindingErrors(id) <==> BindingDefect(c, id, e) { InBindingErrors(c, id, e); }
    forall tool ensures e in c.ToolErrors(tool) <==> ToolDefect(c, tool, e) { InToolErrors(c, tool, e); }
    forall x ensures e in c.CapabilityErrors(x) <==> CapabilityDefect(c.Bindings(), c.workflows, x, e) { InCapabilityErrors(c, x, e); }
    forall w ensures e in c.WorkflowErrors(w) <==> WorkflowDefect(c, w, e) { InWorkflowErrors(c, w, e); }
  }

  /** No entry has a defect. */
  ghost predicate Holds(c: Input) {
    forall e :: !IsDefect(c, e)
  }

  /** The validator reports nothing exactly when no surface, binding, tool, capability, workflow,
      dependency or claim has a defect. */
  lemma SilentExactlyWhenHolds(c: Input)
    ensures c.AllErrors() == [] <==> Holds(c)
  {
    forall e ensures e in c.AllErrors() <==> IsDefect(c, e) { ReportsExactlyTheDefects(c, e); }
    if c.AllErrors() != [] {
      assert c.AllErrors()[0] in c.AllErrors();
    }
  }

  // --- The order of the report ---

  /** Surfaces first, then bindings, tools, capabilities and workflows. */
  function Phase(e: CoverageError): int {
    match e
    case NotInBaseline(_) => 0
    case NotLive(_) => 1
    case SurfaceChanged(_) => 1
    case StandaloneNotAccepted(_) => 2
    case NoBinding(_) => 3
    case UnknownCapability(_, _) => 3
    case HintWithoutContract(_) => 4
    case NaturalWithoutHint(_) => 4
    case KeyedWithHint(_) => 4
    case NoWorkflowLinked(_) => 5
    case UnknownWorkflow(_, _) => 5
    case NothingDiscoverable(_) => 5
    case _ => 6
  }

  ghost predicate IsPhased(errors: seq<CoverageError>, first: int, last: int) {
    && (forall e :: e in errors ==> first <= Phase(e) <= last)
    && (forall i, j :: 0 <= i < j < |errors| ==> Phase(errors[i]) <= Phase(errors[j]))
  }

  lemma PhasesJoin(a: seq<CoverageError>, b: seq<CoverageError>, first: int, middle: int, next: int, last: int)
    requires IsPhased(a, first, middle) && IsPhased(b, next, last) && first <= middle <= next <= last
    ensures IsPhased(a + b, first, last)
  {
    var s := a + b;
    forall i, j | 0 <= i < j < |s| ensures Phase(s[i]) <= Phase(s[j]) {
      if i < |a| <= j {
        assert s[i] in a && s[j] in b;
      }
    }
  }

  lemma OnePhase(errors: seq<CoverageError>, phase: int)
    requires forall e :: e in errors ==> Phase(e) == phase
    ensures IsPhased(errors, phase, phase)
  {
    assert forall i :: 0 <= i < |errors| ==> errors[i] in errors;
  }

  lemma BaselineIsPhased(c: Input)
    ensures IsPhased(c.BaselineErrors(), 0, 1)
  {
    match c.expectedOperationIds
    case Some(expected) =>
      var a, b := Unexpected(c.LiveIds(), expected), Missing(Distinct(expected), c.LiveIds());
      forall e ensures e in a ==> Phase(e) == 0 { InUnexpected(c.LiveIds(), expected, e); }
      forall e ensures e in b ==> Phase(e) == 1 { InMissing(Distinct(expected), c.LiveIds(), e); }
      OnePhase(a, 0);
      OnePhase(b, 1);
      PhasesJoin(a, b, 0, 0, 1, 1);
    case None =>
      forall e ensures e in c.BaselineErrors() ==> Phase(e) == 1 { InAnySurfaceErrors(c, e); }
      OnePhase(c.BaselineErrors(), 1);
  }

  lemma StandaloneIsPhased(c: Input)
    ensures IsPhased(c.StandaloneErrors(), 2, 2)
  {
    OnePhase(c.StandaloneErrors(), 2);
  }

  lemma SurfacesArePhased(c: Input)
    ensures IsPhased(c.BaselineErrors() + c.StandaloneErrors(), 0, 2)
  {
    BaselineIsPhased(c);
    StandaloneIsPhased(c);
    PhasesJoin(c.BaselineErrors(), c.StandaloneErrors(), 0, 1, 2, 2);
  }

  lemma OperationsArePhased(c: Input)
    ensures IsPhased(c.BaselineErrors() + c.StandaloneErrors() + FlatMap(c.BindingErrors, c.LiveIds()), 0, 3)
  {
    SurfacesArePhased(c);
    BindingsArePhased(c);
    PhasesJoin(c.BaselineErrors() + c.StandaloneErrors(), FlatMap(c.BindingErrors, c.LiveIds()), 0, 2, 3, 3);
  }

  lemma LastThreePhased(a: seq<CoverageError>, q: seq<CoverageError>, r: seq<CoverageError>, s: seq<CoverageError>)
    requires IsPhased(a, 0, 3) && IsPhased(q, 4, 4) && IsPhased(r, 5, 5) && IsPhased(s, 6, 6)
    ensures IsPhased(a + q + r + s, 0, 6)
  {
    PhasesJoin(a, q, 0, 3, 4, 4);
    PhasesJoin(a + q, r, 0, 4, 5, 5);
    PhasesJoin(a + q + r, s, 0, 5, 6, 6);
  }

  /** The errors come in the order of the checks. */
  lemma ReportIsPhased(c: Input)
    ensures IsPhased(c.AllErrors(), 0, 6)
  {
    OperationsArePhased(c);
    ToolsArePhased(c);
    CapabilitiesArePhased(c);
    WorkflowsArePhased(c);
    LastThreePhased(c.BaselineErrors() + c.StandaloneErrors() + FlatMap(c.BindingErrors, c.LiveIds()),
      FlatMap(c.ToolErrors, c.tools), FlatMap(c.CapabilityErrors, c.capabilities), FlatMap(c.WorkflowErrors, c.workflows));
  }

  lemma BindingsArePhased(c: Input)
    ensures IsPhased(FlatMap(c.BindingErrors, c.LiveIds()), 3, 3)
  {
    forall e ensures e in FlatMap(c.BindingErrors, c.LiveIds()) ==> Phase(e) == 3 {
      InFlatMap(c.BindingErrors, c.LiveIds(), e);
      forall id ensures e in c.BindingErrors(id) ==> Phase(e) == 3 { InBindingErrors(c, id, e); }
    }
    OnePhase(FlatMap(c.BindingErrors, c.LiveIds()), 3);
  }

  lemma ToolsArePhased(c: Input)
    ensures IsPhased(FlatMap(c.ToolErrors, c.tools), 4, 4)
  {
    forall e ensures e in FlatMap(c.ToolErrors, c.tools) ==> Phase(e) == 4 {
      InFlatMap(c.ToolErrors, c.tools, e);
      forall tool ensures e in c.ToolErrors(tool) ==> Phase(e) == 4 { InToolErrors(c, tool, e); }
    }
    OnePhase(FlatMap(c.ToolErrors, c.tools), 4);
  }

  lemma CapabilitiesArePhased(c: Input)
    ensures IsPhased(FlatMap(c.CapabilityErrors, c.capabilities), 5, 5)
  {
    forall e ensures e in FlatMap(c.CapabilityErrors, c.capabilities) ==> Phase(e) == 5 {
      InFlatMap(c.CapabilityErrors, c.capabilities, e);
      forall x ensures e in c.CapabilityErrors(x) ==> Phase(e) == 5 { InCapabilityErrors(c, x, e); }
    }
    OnePhase(FlatMap(c.CapabilityErrors, c.capabilities), 5);
  }

  lemma StepPhase(bound: Lookup, w: Workflow, s: Step, e: CoverageError)
    ensures StepDefect(bound, w, s, e) ==> Phase(e) == 6
  {
  }

  lemma WorkflowPhase(c: Input, w: Workflow, e: CoverageError)
    ensures e in c.WorkflowErrors(w) ==> Phase(e) == 6
  {
    InWorkflowErrors(c, w, e);
    forall s ensures StepDefect(c.Bound, w, s, e) ==> Phase(e) == 6 { StepPhase(c.Bound, w, s, e); }
  }

  lemma WorkflowsArePhased(c: Input)
    ensures IsPhased(FlatMap(c.WorkflowErrors, c.workflows), 6, 6)
  {
    forall e ensures e in FlatMap(c.WorkflowErrors, c.workflows) ==> Phase(e) == 6 {
      InFlatMap(c.WorkflowErrors, c.workflows, e);
      forall w ensures e in c.WorkflowErrors(w) ==> Phase(e) == 6 { WorkflowPhase(c, w, e); }
    }
    OnePhase(FlatMap(c.WorkflowErrors, c.workflows), 6);
  }
}
