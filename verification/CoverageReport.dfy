/** The coverage report (src/agent-discovery-catalog.ts): the validator's loops, what an `ok`
    report guarantees, and what its hash identifies. */
module CoverageReport {
  import opened Lists
  import opened Options
  import opened Sorting
  import opened Coverage
  import opened CoverageDefects
  import opened Strings
  import CJ = CanonicalJson

  datatype Report = Report(ok: bool, coverageHash: string, bindings: seq<Binding>, errors: seq<CoverageError>)

  /** What the report depends on besides the input: the platform's string collation, and the hash
      of the sorted bindings and the workflow ids. */
  datatype Platform = Platform(collation: (string, string) -> bool, coverageHash: (seq<Binding>, seq<string>) -> string)

  // --- The canonical form of a report ---

  function SafetyName(s: Safety): string {
    match s
    case Read => "read"
    case Write => "write"
    case Destructive => "destructive"
  }

  function RetryName(r: RetryClass): string {
    match r
    case SafeRead => "safe-read"
    case KeyIdempotent => "key-idempotent"
    case NaturalIdempotent => "natural-idempotent"
    case ExternalProviderReconciled => "external-provider-reconciled"
    case UnsafeReadBack => "unsafe-read-back"
  }

  function StringJson(s: string): CJ.Json { CJ.String(s) }

  function IdempotentJson(b: Option<bool>): CJ.Json {
    match b
    case None => CJ.Null
    case Some(v) => CJ.Bool(v)
  }

  function BindingJson(b: Binding): CJ.Json {
    CJ.Object([
      CJ.Member("id", CJ.String(b.id)),
      CJ.Member("capabilityIds", CJ.Array(Map(StringJson, b.capabilityIds))),
      CJ.Member("safety", CJ.String(SafetyName(b.safety))),
      CJ.Member("idempotent", IdempotentJson(b.idempotent)),
      CJ.Member("requiresActor", CJ.Bool(b.requiresActor)),
      CJ.Member("requiresConfirmation", CJ.Bool(b.requiresConfirmation)),
      CJ.Member("retryClass", CJ.String(RetryName(b.retryClass)))])
  }

  function WorkflowId(w: Workflow): string { w.id }

  /** The identities of the catalogue and of the baselines, and the hash function. */
  datatype Catalogue = Catalogue(catalogueHash: string, baselines: CJ.Json, sha256: string -> string) {
    function ReportJson(bindings: seq<Binding>, workflowIds: seq<string>): CJ.Json {
      CJ.Object([
        CJ.Member("catalogueHash", CJ.String(catalogueHash)),
        CJ.Member("baselines", baselines),
        CJ.Member("bindings", CJ.Array(Map(BindingJson, bindings))),
        CJ.Member("workflows", CJ.Array(Map(StringJson, workflowIds)))])
    }

    function Hash(bindings: seq<Binding>, workflowIds: seq<string>): string {
      sha256(CJ.Text(ReportJson(bindings, workflowIds)))
    }
  }

  function PlatformFor(collation: (string, string) -> bool, catalogue: Catalogue): Platform {
    Platform(collation, catalogue.Hash)
  }

  function BindingId(b: Binding): string { b.id }

  function SortBindings(p: Platform, bindings: seq<Binding>): seq<Binding> {
    Sort(bindings, BindingId, p.collation)
  }

  // --- The loops ---

  lemma {:induction false} FindInTwo(a: seq<Binding>, b: seq<Binding>, id: string)
    ensures FindBinding(a + b, id) == if FindBinding(a, id).Some? then FindBinding(a, id) else FindBinding(b, id)
  {
    if a == [] {
      assert a + b == b;
    } else {
      assert (a + b)[1..] == a[1..] + b;
      FindInTwo(a[1..], b, id);
    }
  }

  lemma BindingCarriesItsId(c: Input, id: string)
    ensures c.BindingFor(id).Some? ==> c.BindingFor(id).value.id == id
  {
  }

  lemma {:induction false} FoundAmong(c: Input, ids: seq<string>, id: string)
    ensures FindBinding(FlatMap(c.BindingsOf, ids), id) == if id in ids then c.BindingFor(id) else None
  {
    if ids != [] {
      var front, last := ids[..|ids|-1], ids[|ids|-1];
      FoundAmong(c, front, id);
      BindingCarriesItsId(c, last);
      FindInTwo(FlatMap(c.BindingsOf, front), c.BindingsOf(last), id);
      assert id in ids <==> id in front || id == last;
    }
  }

  lemma BoundIsFound(c: Input, bindings: seq<Binding>, id: string)
    requires bindings == c.Bindings()
    ensures FindBinding(bindings, id) == c.Bound(id)
  {
    FoundAmong(c, c.LiveIds(), id);
  }

  method CheckBinding(c: Input, id: string) returns (bindings: seq<Binding>, errors: seq<CoverageError>)
    ensures bindings == c.BindingsOf(id) && errors == c.BindingErrors(id)
  {
    bindings, errors := [], [];
    var binding := c.BindingFor(id);
    if binding.None? {
      errors := [NoBinding(id)];
      return;
    }
    var capabilityIds := binding.value.capabilityIds;
    for k := 0 to |capabilityIds|
      invariant errors == c.UnknownCapabilities(id, capabilityIds[..k])
    {
      Prefix(capabilityIds, k);
      if !c.HasCapability(capabilityIds[k]) {
        errors := errors + [UnknownCapability(id, capabilityIds[k])];
      }
    }
    Whole(capabilityIds);
    bindings := [binding.value];
  }

  method CheckBindings(c: Input, ids: seq<string>) returns (bindings: seq<Binding>, errors: seq<CoverageError>)
    ensures bindings == FlatMap(c.BindingsOf, ids) && errors == FlatMap(c.BindingErrors, ids)
  {
    bindings, errors := [], [];
    for k := 0 to |ids|
      invariant bindings == FlatMap(c.BindingsOf, ids[..k]) && errors == FlatMap(c.BindingErrors, ids[..k])
    {
      Prefix(ids, k);
      var found, more := CheckBinding(c, ids[k]);
      bindings, errors := bindings + found, errors + more;
    }
    Whole(ids);
  }

  method CheckTool(c: Input, tool: Tool, binding: Option<Binding>) returns (errors: seq<CoverageError>)
    ensures errors == c.ToolErrorsFor(tool, binding)
  {
    errors := [];
    if binding.None? || binding.value.safety.Read? {
      return;
    }
    var id := McpId(tool.name);
    var hint := tool.annotations.Some? && tool.annotations.value.idempotentHint == Some(true);
    if hint && !c.HasRetryContract(tool.name) {
      errors := errors + [HintWithoutContract(id)];
    }
    if binding.value.retryClass.NaturalIdempotent? && !hint {
      errors := errors + [NaturalWithoutHint(id)];
    }
    if binding.value.retryClass.KeyIdempotent? && hint {
      errors := errors + [KeyedWithHint(id)];
    }
  }

  method CheckLiveTool(c: Input, tool: Tool, bindings: seq<Binding>) returns (errors: seq<CoverageError>)
    requires bindings == c.Bindings()
    ensures errors == c.ToolErrors(tool)
  {
    BoundIsFound(c, bindings, McpId(tool.name));
    errors := CheckTool(c, tool, FindBinding(bindings, McpId(tool.name)));
  }

  method CheckTools(c: Input, bindings: seq<Binding>) returns (errors: seq<CoverageError>)
    requires bindings == c.Bindings()
    ensures errors == FlatMap(c.ToolErrors, c.tools)
  {
    errors := [];
    for k := 0 to |c.tools|
      invariant errors == FlatMap(c.ToolErrors, c.tools[..k])
    {
      Prefix(c.tools, k);
      var more := CheckLiveTool(c, c.tools[k], bindings);
      errors := errors + more;
    }
    Whole(c.tools);
  }

  method CheckWorkflowIds(c: Input, id: string, workflowIds: seq<string>) returns (errors: seq<CoverageError>)
    ensures errors == c.UnknownWorkflows(id, workflowIds)
  {
    errors := [];
    for k := 0 to |workflowIds|
      invariant errors == c.UnknownWorkflows(id, workflowIds[..k])
    {
      Prefix(workflowIds, k);
      if !c.HasWorkflow(workflowIds[k]) {
        errors := errors + [UnknownWorkflow(id, workflowIds[k])];
      }
    }
    Whole(workflowIds);
  }

  method CheckDiscoverable(c: Input, id: string, bindings: seq<Binding>) returns (discoverable: bool)
    requires bindings == c.Bindings()
    ensures discoverable <==> c.IsDiscoverable(id)
  {
    discoverable := exists b :: b in bindings && id in b.capabilityIds;
  }

  method CheckCapability(c: Input, capability: Capability, bindings: seq<Binding>) returns (errors: seq<CoverageError>)
    requires bindings == c.Bindings()
    ensures errors == c.CapabilityErrors(capability)
  {
    errors := [];
    if capability.workflowIds == [] {
      errors := [NoWorkflowLinked(capability.id)];
    }
    var unknown := CheckWorkflowIds(c, capability.id, capability.workflowIds);
    errors := errors + unknown;
    var discoverable := CheckDiscoverable(c, capability.id, bindings);
    if !discoverable {
      errors := errors + [NothingDiscoverable(capability.id)];
    }
  }

  method CheckCapabilities(c: Input, bindings: seq<Binding>) returns (errors: seq<CoverageError>)
    requires bindings == c.Bindings()
    ensures errors == FlatMap(c.CapabilityErrors, c.capabilities)
  {
    errors := [];
    for k := 0 to |c.capabilities|
      invariant errors == FlatMap(c.CapabilityErrors, c.capabilities[..k])
    {
      Prefix(c.capabilities, k);
      var more := CheckCapability(c, c.capabilities[k], bindings);
      errors := errors + more;
    }
    Whole(c.capabilities);
  }

  method CheckRetry(w: Workflow, s: Step, b: Binding, actual: Safety, dryRun: bool) returns (errors: seq<CoverageError>)
    requires actual == ActualSafety(s, b) && dryRun == IsDryRun(s)
    ensures errors == RetryErrors(w, s, b)
  {
    errors := [];
    if !dryRun && s.retryClass != b.retryClass {
      errors := errors + [RetryContradicted(w.id, s.id)];
    }
    if actual.Read? && !s.retryClass.SafeRead? {
      errors := errors + [ReadNotSafeRead(w.id, s.id)];
    }
    if actual.Destructive? && !s.retryClass.UnsafeReadBack? {
      errors := errors + [DestructiveNotReadBack(w.id, s.id)];
    }
  }

  method CheckAccess(w: Workflow, s: Step, b: Binding) returns (errors: seq<CoverageError>)
    ensures errors == AccessErrors(w, s, b)
  {
    errors := [];
    if !s.operation.Http? && b.requiresActor != s.requiresActor {
      errors := errors + [ActorContradicted(w.id, s.id)];
    }
    if !s.operation.Http? && b.requiresConfirmation != s.requiresConfirmation {
      errors := errors + [ConfirmationContradicted(w.id, s.id)];
    }
  }

  method CheckClaims(w: Workflow, s: Step, b: Binding) returns (errors: seq<CoverageError>)
    ensures errors == ClaimErrors(w, s, b)
  {
    errors := [];
    var dryRun := s.operation.Cli? && "--dry-run" in s.requiredArguments;
    var actual := if dryRun then Read else b.safety;
    if actual != s.expectedSafety {
      errors := errors + [SafetyContradicted(w.id, s.id)];
    }
    if s.operation.Mcp? && b.idempotent != Some(s.expectedIdempotent) {
      errors := errors + [IdempotencyContradicted(w.id, s.id)];
    }
    var access := CheckAccess(w, s, b);
    var retry := CheckRetry(w, s, b, actual, dryRun);
    errors := errors + access + retry;
  }

  method CheckDependencies(w: Workflow, s: Step) returns (errors: seq<CoverageError>)
    ensures errors == Dangling(w, s, FlatMap(Alternatives, s.dependsOn))
  {
    errors := [];
    var dependencies := FlatMap(Alternatives, s.dependsOn);
    for k := 0 to |dependencies|
      invariant errors == Dangling(w, s, dependencies[..k])
    {
      Prefix(dependencies, k);
      if !HasStep(w, dependencies[k]) {
        errors := errors + [DanglingDependency(w.id, s.id, dependencies[k])];
      }
    }
    Whole(dependencies);
  }

  method CheckStep(ghost bound: Lookup, w: Workflow, s: Step, binding: Option<Binding>) returns (errors: seq<CoverageError>)
    requires binding == bound(OperationId(s.operation))
    ensures errors == StepErrors(bound, w, s)
  {
    errors := CheckDependencies(w, s);
    if binding.None? {
      errors := errors + [StepNotBound(w.id, s.id, OperationId(s.operation))];
      return;
    }
    var claims := CheckClaims(w, s, binding.value);
    errors := errors + claims;
  }

  method CheckSteps(ghost bound: Lookup, w: Workflow, bindings: seq<Binding>) returns (errors: seq<CoverageError>)
    requires forall id :: FindBinding(bindings, id) == bound(id)
    ensures errors == AllStepErrors(bound, w, w.steps)
  {
    errors := [];
    for k := 0 to |w.steps|
      invariant errors == AllStepErrors(bound, w, w.steps[..k])
    {
      Prefix(w.steps, k);
      var binding := FindBinding(bindings, OperationId(w.steps[k].operation));
      var more := CheckStep(bound, w, w.steps[k], binding);
      errors := errors + more;
    }
    Whole(w.steps);
  }

  method CheckLinks(c: Input, w: Workflow) returns (errors: seq<CoverageError>)
    ensures errors == c.LinkErrors(w)
  {
    errors := [];
    if !c.HasCapability(w.capabilityId) {
      errors := errors + [WorkflowWithoutCapability(w.id, w.capabilityId)];
    }
    var capability := FindCapability(c.capabilities, w.capabilityId);
    if capability.None? || w.id !in capability.value.workflowIds {
      errors := errors + [ReverseLinkMissing(w.id, w.capabilityId)];
    }
  }

  method CheckWorkflow(c: Input, w: Workflow, bindings: seq<Binding>) returns (errors: seq<CoverageError>)
    requires bindings == c.Bindings()
    ensures errors == c.WorkflowErrors(w)
  {
    var links := CheckLinks(c, w);
    forall id ensures FindBinding(bindings, id) == c.Bound(id) { BoundIsFound(c, bindings, id); }
    var steps := CheckSteps(c.Bound, w, bindings);
    errors := links + steps;
  }

  method CheckWorkflows(c: Input, bindings: seq<Binding>) returns (errors: seq<CoverageError>)
    requires bindings == c.Bindings()
    ensures errors == FlatMap(c.WorkflowErrors, c.workflows)
  {
    errors := [];
    for k := 0 to |c.workflows|
      invariant errors == FlatMap(c.WorkflowErrors, c.workflows[..k])
    {
      Prefix(c.workflows, k);
      var more := CheckWorkflow(c, c.workflows[k], bindings);
      errors := errors + more;
    }
    Whole(c.workflows);
  }

  method CheckExpected(live: seq<string>, expected: seq<string>) returns (errors: seq<CoverageError>)
    ensures errors == Unexpected(live, expected) + Missing(expected, live)
  {
    errors := [];
    for k := 0 to |live|
      invariant errors == Unexpected(live[..k], expected)
    {
      Prefix(live, k);
      if live[k] !in expected {
        errors := errors + [NotInBaseline(live[k])];
      }
    }
    Whole(live);
    ghost var unexpected := errors;
    for k := 0 to |expected|
      invariant errors == unexpected + Missing(expected[..k], live)
    {
      Prefix(expected, k);
      if expected[k] !in live {
        errors := errors + [NotLive(expected[k])];
      }
    }
    Whole(expected);
  }

  lemma DistinctExpects(live: seq<string>, expected: seq<string>)
    ensures Unexpected(live, Distinct(expected)) == Unexpected(live, expected)
  {
    if live != [] {
      DistinctExpects(live[..|live|-1], expected);
    }
  }

  method CheckBaseline(c: Input, live: seq<string>) returns (errors: seq<CoverageError>)
    requires live == c.LiveIds()
    ensures errors == c.BaselineErrors()
  {
    match c.expectedOperationIds {
      case Some(expected) =>
        DistinctExpects(live, expected);
        errors := CheckExpected(live, Distinct(expected));
      case None =>
        errors := c.SurfaceErrors(McpSurface) + c.SurfaceErrors(CliSurface) + c.SurfaceErrors(HttpSurface);
    }
  }

  method CheckAll(c: Input) returns (bindings: seq<Binding>, errors: seq<CoverageError>)
    ensures bindings == c.Bindings() && errors == c.AllErrors()
  {
    var live := c.LiveIds();
    errors := CheckBaseline(c, live);
    errors := errors + c.StandaloneErrors();
    var bindingErrors;
    bindings, bindingErrors := CheckBindings(c, live);
    var toolErrors := CheckTools(c, bindings);
    var capabilityErrors := CheckCapabilities(c, bindings);
    var workflowErrors := CheckWorkflows(c, bindings);
    errors := errors + bindingErrors + toolErrors + capabilityErrors + workflowErrors;
  }

  /** The report on an input: every error in the order of the checks, `ok` exactly when everything
      that is checked holds, and the sorted bindings under their hash. */
  ghost predicate IsReport(c: Input, p: Platform, report: Report) {
    && report.errors == c.AllErrors()
    && (report.ok <==> Holds(c))
    && report.bindings == SortBindings(p, c.Bindings())
    && report.coverageHash == p.coverageHash(report.bindings, Map(WorkflowId, c.workflows))
  }

  /** Runs every check, one after the other, and sorts the bindings. */
  method Validate(c: Input, p: Platform) returns (report: Report)
    ensures IsReport(c, p, report)
  {
    var bindings, errors := CheckAll(c);
    SilentExactlyWhenHolds(c);
    bindings := SortBindings(p, bindings);
    report := Report(errors == [], p.coverageHash(bindings, Map(WorkflowId, c.workflows)), bindings, errors);
  }

  // --- Retry claims are sound ---

  /** The live tool of that name writes without destroying, and its hint is as told. */
  ghost predicate IsWriteTool(tool: Tool, name: string, hint: bool) {
    && tool.name == name
    && tool.annotations.Some? && tool.annotations.value.readOnlyHint == Some(false)
    && tool.annotations.value.destructiveHint != Some(true)
    && (tool.annotations.value.idempotentHint == Some(true) <==> hint)
  }

  lemma {:induction false} FoundToolIsThere(tools: seq<Tool>, name: string)
    ensures FindTool(tools, name).Some? ==> FindTool(tools, name).value in tools && FindTool(tools, name).value.name == name
    ensures FindTool(tools, name).None? ==> forall t :: t in tools ==> t.name != name
  {
    if tools != [] && tools[0].name != name {
      FoundToolIsThere(tools[1..], name);
    }
  }

  lemma McpIdSplits(name: string)
    ensures StartsWith(McpId(name), "mcp:") && McpId(name)[4..] == name
  {
  }

  /** The binding's claims are those of the tool's annotations. */
  ghost predicate BindingOfTool(b: Binding, a: Annotations) {
    && (b.safety.Read? <==> a.readOnlyHint == Some(true))
    && a.readOnlyHint.Some?
    && (b.safety.Destructive? <==> a.readOnlyHint == Some(false) && a.destructiveHint == Some(true))
    && b.idempotent == Some(a.idempotentHint == Some(true))
  }

  lemma McpBindingIsTheTool(c: Input, name: string) returns (tool: Tool)
    requires c.Bound(McpId(name)).Some?
    ensures tool in c.tools && tool.name == name && tool.annotations.Some? && tool.annotations.value.readOnlyHint.Some?
    ensures BindingOfTool(c.Bound(McpId(name)).value, tool.annotations.value)
  {
    McpIdSplits(name);
    FoundToolIsThere(c.tools, name);
    tool := FindTool(c.tools, name).value;
  }

  lemma ReadsAreSafe(n: RetryNames, id: string, safety: Safety, external: bool)
    ensures RetryClassOf(n, id, safety, external).SafeRead? <==> safety.Read?
  {
  }

  /** A binding claims safe reads exactly when its operation reads. */
  ghost predicate ClaimsSafeReads(b: Option<Binding>) {
    b.Some? ==> (b.value.retryClass.SafeRead? <==> b.value.safety.Read?)
  }

  lemma McpClaims(c: Input, id: string)
    ensures ClaimsSafeReads(c.McpBinding(id))
  {
    if b: Binding :| c.McpBinding(id) == Some(b) {
      ReadsAreSafe(c.retryNames, id, b.safety, false);
    }
  }

  lemma CliClaims(c: Input, id: string)
    ensures ClaimsSafeReads(c.CliBinding(id))
  {
    if b: Binding :| c.CliBinding(id) == Some(b) {
      ReadsAreSafe(c.retryNames, id, b.safety, false);
    }
  }

  lemma HttpClaims(c: Input, id: string)
    ensures ClaimsSafeReads(c.HttpBinding(id))
  {
    if b: Binding :| c.HttpBinding(id) == Some(b) {
      ReadsAreSafe(c.retryNames, id, b.safety, true);
      ReadsAreSafe(c.retryNames, id, b.safety, false);
    }
  }

  lemma SafeReadMeansRead(c: Input, id: string)
    ensures ClaimsSafeReads(c.Bound(id))
  {
    McpClaims(c, id);
    CliClaims(c, id);
    HttpClaims(c, id);
  }

  lemma StepRetryIsSound(w: Workflow, s: Step, b: Binding)
    requires ClaimsSafeReads(Some(b)) && forall e :: !ClaimDefect(w, s, b, e)
    ensures s.retryClass.SafeRead? <==> s.expectedSafety.Read?
    ensures s.expectedSafety.Destructive? ==> s.retryClass.UnsafeReadBack?
    ensures s.operation.Mcp? && (s.retryClass.NaturalIdempotent? || s.retryClass.KeyIdempotent?) ==>
      s.expectedSafety.Write? && b.safety.Write? && b.retryClass == s.retryClass
  {
    assert !ClaimDefect(w, s, b, SafetyContradicted(w.id, s.id));
    assert !ClaimDefect(w, s, b, RetryContradicted(w.id, s.id));
    assert !ClaimDefect(w, s, b, ReadNotSafeRead(w.id, s.id));
    assert !ClaimDefect(w, s, b, DestructiveNotReadBack(w.id, s.id));
  }

  /** Under `ok` a step's operation is live and bound, and no claim about it is contradicted. */
  lemma StepIsBound(c: Input, w: Workflow, s: Step) returns (b: Binding)
    requires Holds(c) && w in c.workflows && s in w.steps
    ensures c.Bound(OperationId(s.operation)) == Some(b) && forall e :: !ClaimDefect(w, s, b, e)
  {
    var bound := c.Bound(OperationId(s.operation));
    forall e ensures !OperationDefect(w, s, bound, e) {
      assert !IsDefect(c, e);
      assert StepDefect(c.Bound, w, s, e) ==> WorkflowDefect(c, w, e);
    }
    assert !OperationDefect(w, s, bound, StepNotBound(w.id, s.id, OperationId(s.operation)));
    b := bound.value;
    forall e ensures !ClaimDefect(w, s, b, e) {
      assert !OperationDefect(w, s, bound, e);
    }
  }

  /** When the validator says `ok`, the retry claims of every step are sound: a step claims safe
      reads exactly when it is expected to read; a destructive step must be read back; a step that
      claims natural idempotency for a tool names a live tool that writes without destroying and
      hints idempotency, and one that claims a caller key names one that writes without the hint. */
  lemma RetryClaimsAreSound(c: Input, w: Workflow, s: Step)
    requires Holds(c) && w in c.workflows && s in w.steps
    ensures s.retryClass.SafeRead? <==> s.expectedSafety.Read?
    ensures s.expectedSafety.Destructive? ==> s.retryClass.UnsafeReadBack?
    ensures s.operation.Mcp? && s.retryClass.NaturalIdempotent? ==>
      s.expectedSafety.Write? && exists tool :: tool in c.tools && IsWriteTool(tool, s.operation.name, true)
    ensures s.operation.Mcp? && s.retryClass.KeyIdempotent? ==>
      s.expectedSafety.Write? && exists tool :: tool in c.tools && IsWriteTool(tool, s.operation.name, false)
  {
    var b := StepIsBound(c, w, s);
    SafeReadMeansRead(c, OperationId(s.operation));
    StepRetryIsSound(w, s, b);
    if s.operation.Mcp? && (s.retryClass.NaturalIdempotent? || s.retryClass.KeyIdempotent?) {
      var tool := WriteToolOf(c, s.operation.name, b);
    }
  }

  lemma HintOfWrite(c: Input, tool: Tool, b: Binding)
    requires tool.annotations.Some? && tool.annotations.value.readOnlyHint.Some?
    requires BindingOfTool(b, tool.annotations.value) && forall e :: !HintDefect(c, tool, b, e)
    requires b.safety.Write? && (b.retryClass.NaturalIdempotent? || b.retryClass.KeyIdempotent?)
    ensures IsWriteTool(tool, tool.name, b.retryClass.NaturalIdempotent?)
  {
    assert !HintDefect(c, tool, b, NaturalWithoutHint(McpId(tool.name)));
    assert !HintDefect(c, tool, b, KeyedWithHint(McpId(tool.name)));
    assert !tool.annotations.value.readOnlyHint.value;
  }

  lemma NoHintDefect(c: Input, tool: Tool, b: Binding, e: CoverageError)
    requires Holds(c) && tool in c.tools && c.Bound(McpId(tool.name)) == Some(b) && b.safety.Write?
    ensures !HintDefect(c, tool, b, e)
  {
    assert !IsDefect(c, e);
    assert !ToolDefect(c, tool, e);
  }

  lemma WriteToolOf(c: Input, name: string, b: Binding) returns (tool: Tool)
    requires Holds(c) && c.Bound(McpId(name)) == Some(b) && b.safety.Write?
    requires b.retryClass.NaturalIdempotent? || b.retryClass.KeyIdempotent?
    ensures tool in c.tools && IsWriteTool(tool, name, b.retryClass.NaturalIdempotent?)
  {
    tool := McpBindingIsTheTool(c, name);
    forall e ensures !HintDefect(c, tool, b, e) { NoHintDefect(c, tool, b, e); }
    HintOfWrite(c, tool, b);
  }

  // --- The order of the surfaces does not matter ---

  lemma SameNames<T>(f: T -> string, s: seq<T>, t: seq<T>)
    requires multiset(s) == multiset(t) && NoDuplicates(Map(f, s)) && NoDuplicates(Map(f, t))
    ensures SortStrings(Map(f, s)) == SortStrings(Map(f, t))
  {
    forall y ensures y in Map(f, s) <==> y in Map(f, t) {
      InMap(f, s, y);
      InMap(f, t, y);
      forall x ensures x in s <==> x in t { SameElements(s, t, x); }
    }
    DistinctSameElements(Map(f, s), Map(f, t));
    SortStringsForgetsOrder(Map(f, s), Map(f, t));
  }

  /** The elements of a list are identified by their names. */
  lemma NamesIdentify<T>(f: T -> string, s: seq<T>, x: T, y: T)
    requires NoDuplicates(Map(f, s)) && x in s && y in s && f(x) == f(y)
    ensures x == y
  {
    var i :| 0 <= i < |s| && s[i] == x;
    var j :| 0 <= j < |s| && s[j] == y;
    assert Map(f, s)[i] == Map(f, s)[j];
  }

  /** The operations of every surface have names of their own. */
  ghost predicate UniquelyNamed(c: Input) {
    NoDuplicates(Map(ToolName, c.tools)) && NoDuplicates(Map(CommandKey, c.commands)) && NoDuplicates(Map(RouteName, c.routes))
  }

  /** The same input with its tools, commands and routes in another order. */
  ghost predicate IsReordering(c: Input, d: Input) {
    && d == c.(tools := d.tools, commands := d.commands, routes := d.routes)
    && multiset(c.tools) == multiset(d.tools)
    && multiset(c.commands) == multiset(d.commands)
    && multiset(c.routes) == multiset(d.routes)
  }

  lemma SameTool(c: Input, d: Input, name: string)
    requires IsReordering(c, d) && UniquelyNamed(c) && UniquelyNamed(d)
    ensures FindTool(c.tools, name) == FindTool(d.tools, name)
  {
    FoundToolIsThere(c.tools, name);
    FoundToolIsThere(d.tools, name);
    forall x ensures x in c.tools <==> x in d.tools { SameElements(c.tools, d.tools, x); }
    if FindTool(c.tools, name).Some? && FindTool(d.tools, name).Some? {
      NamesIdentify(ToolName, c.tools, FindTool(c.tools, name).value, FindTool(d.tools, name).value);
    }
  }

  lemma {:induction false} FoundCommandIsThere(commands: seq<Command>, key: string)
    ensures FindCommand(commands, key).Some? ==> FindCommand(commands, key).value in commands && FindCommand(commands, key).value.key == key
    ensures FindCommand(commands, key).None? ==> forall x :: x in commands ==> x.key != key
  {
    if commands != [] && commands[0].key != key {
      FoundCommandIsThere(commands[1..], key);
    }
  }

  lemma SameCommand(c: Input, d: Input, key: string)
    requires IsReordering(c, d) && UniquelyNamed(c) && UniquelyNamed(d)
    ensures FindCommand(c.commands, key) == FindCommand(d.commands, key)
  {
    FoundCommandIsThere(c.commands, key);
    FoundCommandIsThere(d.commands, key);
    forall x ensures x in c.commands <==> x in d.commands { SameElements(c.commands, d.commands, x); }
    if FindCommand(c.commands, key).Some? && FindCommand(d.commands, key).Some? {
      NamesIdentify(CommandKey, c.commands, FindCommand(c.commands, key).value, FindCommand(d.commands, key).value);
    }
  }

  lemma {:induction false} FoundRouteIsThere(routes: seq<Route>, verb: string, pattern: string)
    ensures FindRoute(routes, verb, pattern).Some? ==>
      var r := FindRoute(routes, verb, pattern).value; r in routes && r.verb == verb && r.pattern == pattern
    ensures FindRoute(routes, verb, pattern).None? ==> forall x :: x in routes ==> !(x.verb == verb && x.pattern == pattern)
  {
    if routes != [] && !(routes[0].verb == verb && routes[0].pattern == pattern) {
      FoundRouteIsThere(routes[1..], verb, pattern);
    }
  }

  lemma SameRoute(c: Input, d: Input, verb: string, pattern: string)
    requires IsReordering(c, d) && UniquelyNamed(c) && UniquelyNamed(d)
    ensures FindRoute(c.routes, verb, pattern) == FindRoute(d.routes, verb, pattern)
  {
    FoundRouteIsThere(c.routes, verb, pattern);
    FoundRouteIsThere(d.routes, verb, pattern);
    forall x ensures x in c.routes <==> x in d.routes { SameElements(c.routes, d.routes, x); }
    if FindRoute(c.routes, verb, pattern).Some? && FindRoute(d.routes, verb, pattern).Some? {
      NamesIdentify(RouteName, c.routes, FindRoute(c.routes, verb, pattern).value, FindRoute(d.routes, verb, pattern).value);
    }
  }

  lemma SameMcpBinding(c: Input, d: Input, id: string)
    requires IsReordering(c, d) && UniquelyNamed(c) && UniquelyNamed(d)
    ensures c.McpBinding(id) == d.McpBinding(id)
  {
    SameTool(c, d, id[if |id| < 4 then |id| else 4..]);
  }

  lemma SameCliBinding(c: Input, d: Input, id: string)
    requires IsReordering(c, d) && UniquelyNamed(c) && UniquelyNamed(d)
    ensures c.CliBinding(id) == d.CliBinding(id)
  {
    SameCommand(c, d, id[if |id| < 4 then |id| else 4..]);
  }

  lemma SameHttpBinding(c: Input, d: Input, id: string)
    requires IsReordering(c, d) && UniquelyNamed(c) && UniquelyNamed(d)
    ensures c.HttpBinding(id) == d.HttpBinding(id)
  {
    var routeId := id[if |id| < 5 then |id| else 5..];
    var verb := Before(routeId, ' ');
    SameRoute(c, d, verb, routeId[if |verb| < |routeId| then |verb| + 1 else |routeId|..]);
  }

  lemma SameBindingFor(c: Input, d: Input, id: string)
    requires IsReordering(c, d) && UniquelyNamed(c) && UniquelyNamed(d)
    ensures c.BindingFor(id) == d.BindingFor(id)
  {
    SameMcpBinding(c, d, id);
    SameCliBinding(c, d, id);
    SameHttpBinding(c, d, id);
  }

  lemma SameSurfaces(c: Input, d: Input, s: Surface)
    requires IsReordering(c, d) && UniquelyNamed(c) && UniquelyNamed(d)
    ensures c.Names(s) == d.Names(s)
  {
    match s
    case McpSurface => SameNames(ToolName, c.tools, d.tools);
    case CliSurface => SameNames(CommandKey, c.commands, d.commands);
    case HttpSurface => SameNames(RouteName, c.routes, d.routes);
  }

  /** Nothing the checks look at tells the two inputs apart. */
  ghost predicate LookAlike(c: Input, d: Input) {
    && IsReordering(c, d)
    && (forall s: Surface :: c.Names(s) == d.Names(s))
    && c.LiveIds() == d.LiveIds()
    && (forall id :: c.BindingFor(id) == d.BindingFor(id))
  }

  lemma ReorderingsLookAlike(c: Input, d: Input)
    requires IsReordering(c, d) && UniquelyNamed(c) && UniquelyNamed(d)
    ensures LookAlike(c, d)
  {
    forall s: Surface ensures c.Names(s) == d.Names(s) {
      SameSurfaces(c, d, s);
    }
    forall id ensures c.BindingFor(id) == d.BindingFor(id) {
      SameBindingFor(c, d, id);
    }
  }

  lemma SameBindings(c: Input, d: Input)
    requires LookAlike(c, d)
    ensures c.Bindings() == d.Bindings()
  {
    SameFlatMap(c.BindingsOf, d.BindingsOf, c.LiveIds());
  }

  lemma SameBound(c: Input, d: Input, id: string)
    requires LookAlike(c, d)
    ensures c.Bound(id) == d.Bound(id)
  {
  }

  lemma SurfaceForReordering(c: Input, d: Input, s: Surface)
    requires LookAlike(c, d)
    ensures c.SurfaceHolds(s) <==> d.SurfaceHolds(s)
  {
  }

  lemma SameBaseline(c: Input, d: Input, e: CoverageError)
    requires c.expectedOperationIds == d.expectedOperationIds && c.LiveIds() == d.LiveIds()
    requires e.SurfaceChanged? ==> (c.SurfaceHolds(e.surface) <==> d.SurfaceHolds(e.surface))
    ensures BaselineDefect(c, e) <==> BaselineDefect(d, e)
  {
  }

  lemma BaselineForReordering(c: Input, d: Input, e: CoverageError)
    requires LookAlike(c, d)
    ensures BaselineDefect(c, e) <==> BaselineDefect(d, e)
  {
    if e.SurfaceChanged? {
      SurfaceForReordering(c, d, e.surface);
    }
    SameBaseline(c, d, e);
  }

  lemma BindingForReordering(c: Input, d: Input, id: string, e: CoverageError)
    requires LookAlike(c, d)
    ensures BindingDefect(c, id, e) <==> BindingDefect(d, id, e)
  {
    SameBindingDefect(c, d, id, e);
  }

  lemma SameBindingDefect(c: Input, d: Input, id: string, e: CoverageError)
    requires c.BindingFor(id) == d.BindingFor(id) && c.capabilities == d.capabilities
    ensures BindingDefect(c, id, e) <==> BindingDefect(d, id, e)
  {
  }

  lemma ToolForReordering(c: Input, d: Input, tool: Tool, e: CoverageError)
    requires LookAlike(c, d)
    ensures ToolDefect(c, tool, e) <==> ToolDefect(d, tool, e)
  {
    SameBound(c, d, McpId(tool.name));
  }

  lemma CapabilityForReordering(c: Input, d: Input, capability: Capability, e: CoverageError)
    requires LookAlike(c, d)
    ensures CapabilityDefect(c.Bindings(), c.workflows, capability, e) <==> CapabilityDefect(d.Bindings(), d.workflows, capability, e)
  {
    SameBindings(c, d);
  }

  lemma StepForReordering(c: Input, d: Input, w: Workflow, s: Step, e: CoverageError)
    requires LookAlike(c, d)
    ensures StepDefect(c.Bound, w, s, e) <==> StepDefect(d.Bound, w, s, e)
  {
    SameBound(c, d, OperationId(s.operation));
  }

  lemma WorkflowForReordering(c: Input, d: Input, w: Workflow, e: CoverageError)
    requires LookAlike(c, d)
    ensures WorkflowDefect(c, w, e) <==> WorkflowDefect(d, w, e)
  {
    forall s ensures StepDefect(c.Bound, w, s, e) <==> StepDefect(d.Bound, w, s, e) { StepForReordering(c, d, w, s, e); }
    SameLinkDefect(c, d, w, e);
  }

  lemma SameLinkDefect(c: Input, d: Input, w: Workflow, e: CoverageError)
    requires c.capabilities == d.capabilities
    ensures LinkDefect(c, w, e) <==> LinkDefect(d, w, e)
  {
  }

  lemma DefectForReordering(c: Input, d: Input, e: CoverageError)
    requires LookAlike(c, d)
    ensures IsDefect(c, e) <==> IsDefect(d, e)
  {
    BaselineForReordering(c, d, e);
    forall id ensures BindingDefect(c, id, e) <==> BindingDefect(d, id, e) { BindingForReordering(c, d, id, e); }
    forall tool ensures ToolDefect(c, tool, e) <==> ToolDefect(d, tool, e) { ToolForReordering(c, d, tool, e); }
    forall tool ensures tool in c.tools <==> tool in d.tools { SameElements(c.tools, d.tools, tool); }
    forall x ensures CapabilityDefect(c.Bindings(), c.workflows, x, e) <==> CapabilityDefect(d.Bindings(), d.workflows, x, e) { CapabilityForReordering(c, d, x, e); }
    forall w ensures WorkflowDefect(c, w, e) <==> WorkflowDefect(d, w, e) { WorkflowForReordering(c, d, w, e); }
  }

  lemma HoldsForReordering(c: Input, d: Input)
    requires LookAlike(c, d)
    ensures Holds(c) <==> Holds(d)
  {
    forall e ensures IsDefect(c, e) <==> IsDefect(d, e) { DefectForReordering(c, d, e); }
  }

  /** Reordering uniquely named tools, commands and routes changes neither `ok`, nor the sorted
      bindings, nor the coverage hash. */
  lemma ReportForgetsOrder(c: Input, d: Input, p: Platform, r: Report, q: Report)
    requires IsReordering(c, d) && UniquelyNamed(c) && UniquelyNamed(d)
    requires IsReport(c, p, r) && IsReport(d, p, q)
    ensures r.ok == q.ok && r.bindings == q.bindings && r.coverageHash == q.coverageHash
  {
    ReorderingsLookAlike(c, d);
    SameBindings(c, d);
    HoldsForReordering(c, d);
  }
}
