/** The discovery-coverage validator (src/agent-discovery-catalog.ts): are all public operations
    classified, and do the published workflows agree with the live surfaces? */
module Coverage {
  import opened Lists
  import opened Options
  import opened Sorting
  import opened Strings

  datatype Safety = Read | Write | Destructive
  datatype RetryClass = SafeRead | KeyIdempotent | NaturalIdempotent | ExternalProviderReconciled | UnsafeReadBack
  datatype Surface = McpSurface | CliSurface | HttpSurface

  datatype Operation = Mcp(name: string) | Cli(key: string) | Http(verb: string, pattern: string)

  datatype Annotations = Annotations(readOnlyHint: Option<bool>, destructiveHint: Option<bool>, idempotentHint: Option<bool>)
  datatype Tool = Tool(name: string, annotations: Option<Annotations>)
  datatype Command = Command(key: string, mutating: bool, sideEffecting: bool, allowedFlags: seq<string>)
  datatype Route = Route(verb: string, pattern: string, effect: Option<string>)

  datatype Step = Step(
    id: string, dependsOn: seq<string>, operation: Operation, expectedSafety: Safety, expectedIdempotent: bool,
    requiresActor: bool, requiresConfirmation: bool, requiredArguments: seq<string>, retryClass: RetryClass)
  datatype Workflow = Workflow(id: string, capabilityId: string, steps: seq<Step>)
  datatype Capability = Capability(id: string, workflowIds: seq<string>)

  datatype Binding = Binding(
    id: string, capabilityIds: seq<string>, safety: Safety, idempotent: Option<bool>,
    requiresActor: bool, requiresConfirmation: bool, retryClass: RetryClass)

  datatype CoverageError =
    | NotInBaseline(id: string)
    | NotLive(id: string)
    | SurfaceChanged(surface: Surface)
    | StandaloneNotAccepted(ids: seq<string>)
    | NoBinding(id: string)
    | UnknownCapability(id: string, capabilityId: string)
    | HintWithoutContract(id: string)
    | NaturalWithoutHint(id: string)
    | KeyedWithHint(id: string)
    | NoWorkflowLinked(capabilityId: string)
    | UnknownWorkflow(capabilityId: string, workflowId: string)
    | NothingDiscoverable(capabilityId: string)
    | WorkflowWithoutCapability(workflowId: string, capabilityId: string)
    | ReverseLinkMissing(workflowId: string, capabilityId: string)
    | DanglingDependency(workflowId: string, stepId: string, dependency: string)
    | StepNotBound(workflowId: string, stepId: string, id: string)
    | SafetyContradicted(workflowId: string, stepId: string)
    | IdempotencyContradicted(workflowId: string, stepId: string)
    | ActorContradicted(workflowId: string, stepId: string)
    | ConfirmationContradicted(workflowId: string, stepId: string)
    | RetryContradicted(workflowId: string, stepId: string)
    | ReadNotSafeRead(workflowId: string, stepId: string)
    | DestructiveNotReadBack(workflowId: string, stepId: string)

  // --- Identifiers ---

  function McpId(name: string): string { "mcp:" + name }
  function CliId(key: string): string { "cli:" + key }
  function HttpId(verb: string, pattern: string): string { "http:" + verb + " " + pattern }

  function OperationId(op: Operation): string {
    match op
    case Mcp(name) => McpId(name)
    case Cli(key) => CliId(key)
    case Http(verb, pattern) => HttpId(verb, pattern)
  }

  function ToolName(t: Tool): string { t.name }
  function CommandKey(c: Command): string { c.key }
  function RouteName(r: Route): string { r.verb + " " + r.pattern }
  function ToHttpId(name: string): string { "http:" + name }

  /** `split("|")` */
  function Alternatives(group: string): (r: seq<string>)
    ensures r != []
    decreases |group|
  {
    var head := Before(group, '|');
    if |head| == |group| then [group] else [head] + Alternatives(group[|head| + 1..])
  }

  function FindTool(tools: seq<Tool>, name: string): Option<Tool> {
    if tools == [] then None else if tools[0].name == name then Some(tools[0]) else FindTool(tools[1..], name)
  }

  function FindCommand(commands: seq<Command>, key: string): Option<Command> {
    if commands == [] then None else if commands[0].key == key then Some(commands[0]) else FindCommand(commands[1..], key)
  }

  function FindRoute(routes: seq<Route>, verb: string, pattern: string): Option<Route> {
    if routes == [] then None
    else if routes[0].verb == verb && routes[0].pattern == pattern then Some(routes[0])
    else FindRoute(routes[1..], verb, pattern)
  }

  function FindCapability(capabilities: seq<Capability>, id: string): Option<Capability> {
    if capabilities == [] then None
    else if capabilities[0].id == id then Some(capabilities[0])
    else FindCapability(capabilities[1..], id)
  }

  function FindBinding(bindings: seq<Binding>, id: string): Option<Binding> {
    if bindings == [] then None else if bindings[0].id == id then Some(bindings[0]) else FindBinding(bindings[1..], id)
  }

  // --- Lists of errors ---

  function When(condition: bool, e: CoverageError): seq<CoverageError> {
    if condition then [e] else []
  }

  /** The live operations that are not expected. */
  function Unexpected(live: seq<string>, expected: seq<string>): seq<CoverageError> {
    if live == [] then []
    else Unexpected(live[..|live|-1], expected) + When(live[|live|-1] !in expected, NotInBaseline(live[|live|-1]))
  }

  /** The expected operations that are not live. */
  function Missing(expected: seq<string>, live: seq<string>): seq<CoverageError> {
    if expected == [] then []
    else Missing(expected[..|expected|-1], live) + When(expected[|expected|-1] !in live, NotLive(expected[|expected|-1]))
  }

  // --- Retry classes ---

  /** The reviewed retry contracts, by operation name. */
  datatype RetryNames = RetryNames(keyIdempotent: set<string>, naturalIdempotent: set<string>, externalProvider: set<string>, naturalIdempotentCli: set<string>)

  function RetryClassOf(n: RetryNames, id: string, safety: Safety, external: bool): RetryClass {
    var isMcp, isCli := StartsWith(id, "mcp:"), StartsWith(id, "cli:");
    if safety.Read? then SafeRead
    else if external || (isMcp && id[4..] in n.externalProvider) then ExternalProviderReconciled
    else if isMcp && id[4..] in n.keyIdempotent then KeyIdempotent
    else if (isMcp && id[4..] in n.naturalIdempotent) || (isCli && id[4..] in n.naturalIdempotentCli) then NaturalIdempotent
    else UnsafeReadBack
  }

  // --- The claims of one step ---

  predicate HasHint(tool: Tool) {
    tool.annotations.Some? && tool.annotations.value.idempotentHint == Some(true)
  }

  predicate HasStep(w: Workflow, id: string) {
    exists s :: s in w.steps && s.id == id
  }

  function Dangling(w: Workflow, s: Step, dependencies: seq<string>): seq<CoverageError> {
    if dependencies == [] then []
    else
      Dangling(w, s, dependencies[..|dependencies|-1]) +
      (if HasStep(w, dependencies[|dependencies|-1]) then [] else [DanglingDependency(w.id, s.id, dependencies[|dependencies|-1])])
  }

  predicate IsDryRun(s: Step) {
    s.operation.Cli? && "--dry-run" in s.requiredArguments
  }

  function ActualSafety(s: Step, b: Binding): Safety {
    if IsDryRun(s) then Read else b.safety
  }

  function ClaimErrors(w: Workflow, s: Step, b: Binding): seq<CoverageError> {
    When(ActualSafety(s, b) != s.expectedSafety, SafetyContradicted(w.id, s.id))
    + When(s.operation.Mcp? && b.idempotent != Some(s.expectedIdempotent), IdempotencyContradicted(w.id, s.id))
    + AccessErrors(w, s, b)
    + RetryErrors(w, s, b)
  }

  function AccessErrors(w: Workflow, s: Step, b: Binding): seq<CoverageError> {
    When(!s.operation.Http? && b.requiresActor != s.requiresActor, ActorContradicted(w.id, s.id))
    + When(!s.operation.Http? && b.requiresConfirmation != s.requiresConfirmation, ConfirmationContradicted(w.id, s.id))
  }

  function RetryErrors(w: Workflow, s: Step, b: Binding): seq<CoverageError> {
    When(!IsDryRun(s) && s.retryClass != b.retryClass, RetryContradicted(w.id, s.id))
    + When(ActualSafety(s, b).Read? && !s.retryClass.SafeRead?, ReadNotSafeRead(w.id, s.id))
    + When(ActualSafety(s, b).Destructive? && !s.retryClass.UnsafeReadBack?, DestructiveNotReadBack(w.id, s.id))
  }

  function OperationErrors(w: Workflow, s: Step, b: Option<Binding>): seq<CoverageError> {
    match b
    case None => [StepNotBound(w.id, s.id, OperationId(s.operation))]
    case Some(v) => ClaimErrors(w, s, v)
  }

  /** The binding of an operation id, if it is live and bound. */
  type Lookup = string -> Option<Binding>

  function StepErrors(bound: Lookup, w: Workflow, s: Step): seq<CoverageError> {
    Dangling(w, s, FlatMap(Alternatives, s.dependsOn)) + OperationErrors(w, s, bound(OperationId(s.operation)))
  }

  function AllStepErrors(bound: Lookup, w: Workflow, steps: seq<Step>): seq<CoverageError> {
    if steps == [] then [] else AllStepErrors(bound, w, steps[..|steps|-1]) + StepErrors(bound, w, steps[|steps|-1])
  }

  // --- The input and its bindings ---

  /** The live surfaces, the published catalogue, and what they are held against: the expected
      operation ids, or the reviewed count and hash of each surface when there are none. */
  datatype Input = Input(
    tools: seq<Tool>, commands: seq<Command>, routes: seq<Route>,
    workflows: seq<Workflow>, capabilities: seq<Capability>,
    expectedOperationIds: Option<seq<string>>, standaloneOperationIds: seq<string>,
    classify: string -> seq<string>, retryNames: RetryNames,
    surfaceHash: seq<string> -> string, baselineCount: Surface -> int, baselineHash: Surface -> string)
  {
    function Names(s: Surface): seq<string> {
      match s
      case McpSurface => SortStrings(Map(ToolName, tools))
      case CliSurface => SortStrings(Map(CommandKey, commands))
      case HttpSurface => SortStrings(Map(RouteName, routes))
    }

    function LiveIds(): seq<string> {
      SortStrings(Map(McpId, Names(McpSurface)) + Map(CliId, Names(CliSurface)) + Map(ToHttpId, Names(HttpSurface)))
    }

    function McpBinding(id: string): Option<Binding> {
      match FindTool(tools, id[if |id| < 4 then |id| else 4..])
      case None => None
      case Some(tool) =>
        if tool.annotations.None? || tool.annotations.value.readOnlyHint.None? then None
        else
          var a := tool.annotations.value;
          var safety := if a.readOnlyHint.value then Read else if a.destructiveHint == Some(true) then Destructive else Write;
          Some(Binding(id, classify(id), safety, Some(a.idempotentHint == Some(true)), !safety.Read?, !safety.Read?,
            RetryClassOf(retryNames, id, safety, false)))
    }

    function CliBinding(id: string): Option<Binding> {
      match FindCommand(commands, id[if |id| < 4 then |id| else 4..])
      case None => None
      case Some(command) =>
        var safety := if command.mutating || command.sideEffecting then Write else Read;
        Some(Binding(id, classify(id), safety, if safety.Read? then Some(true) else None,
          command.mutating, "--confirm" in command.allowedFlags, RetryClassOf(retryNames, id, safety, false)))
    }

    function HttpBinding(id: string): Option<Binding> {
      var routeId := id[if |id| < 5 then |id| else 5..];
      var verb := Before(routeId, ' ');
      match FindRoute(routes, verb, routeId[if |verb| < |routeId| then |verb| + 1 else |routeId|..])
      case None => None
      case Some(route) =>
        var safety := if route.effect == Some("read") then Read else Write;
        Some(Binding(id, classify(id), safety, if safety.Read? then Some(true) else None, false, false,
          RetryClassOf(retryNames, id, safety, route.effect == Some("external"))))
    }

    function BindingFor(id: string): Option<Binding> {
      if classify(id) == [] then None
      else if StartsWith(id, "mcp:") then McpBinding(id)
      else if StartsWith(id, "cli:") then CliBinding(id)
      else HttpBinding(id)
    }

    function BindingsOf(id: string): seq<Binding> {
      match BindingFor(id)
      case None => []
      case Some(b) => [b]
    }

    function Bindings(): seq<Binding> {
      FlatMap(BindingsOf, LiveIds())
    }

    /** The binding of a live operation. */
    function Bound(id: string): Option<Binding> {
      if id in LiveIds() then BindingFor(id) else None
    }

    // --- The errors, in the order of the checks ---

    predicate SurfaceHolds(s: Surface) {
      |Names(s)| == baselineCount(s) && surfaceHash(Names(s)) == baselineHash(s)
    }

    function SurfaceErrors(s: Surface): seq<CoverageError> {
      When(!SurfaceHolds(s), SurfaceChanged(s))
    }

    function BaselineErrors(): seq<CoverageError> {
      match expectedOperationIds
      case Some(expected) => Unexpected(LiveIds(), expected) + Missing(Distinct(expected), LiveIds())
      case None => SurfaceErrors(McpSurface) + SurfaceErrors(CliSurface) + SurfaceErrors(HttpSurface)
    }

    function StandaloneErrors(): seq<CoverageError> {
      if standaloneOperationIds != [] then [StandaloneNotAccepted(standaloneOperationIds)] else []
    }

    predicate HasCapability(id: string) {
      exists c :: c in capabilities && c.id == id
    }

    predicate HasWorkflow(id: string) {
      exists w :: w in workflows && w.id == id
    }

    function UnknownCapabilities(id: string, capabilityIds: seq<string>): seq<CoverageError> {
      if capabilityIds == [] then []
      else
        UnknownCapabilities(id, capabilityIds[..|capabilityIds|-1]) +
        (if HasCapability(capabilityIds[|capabilityIds|-1]) then [] else [UnknownCapability(id, capabilityIds[|capabilityIds|-1])])
    }

    function BindingErrors(id: string): seq<CoverageError> {
      match BindingFor(id)
      case None => [NoBinding(id)]
      case Some(b) => UnknownCapabilities(id, b.capabilityIds)
    }

    predicate HasRetryContract(name: string) {
      name in retryNames.keyIdempotent || name in retryNames.naturalIdempotent || name in retryNames.externalProvider
    }

    function HintErrors(tool: Tool, b: Binding): seq<CoverageError> {
      When(HasHint(tool) && !HasRetryContract(tool.name), HintWithoutContract(McpId(tool.name)))
      + When(b.retryClass.NaturalIdempotent? && !HasHint(tool), NaturalWithoutHint(McpId(tool.name)))
      + When(b.retryClass.KeyIdempotent? && HasHint(tool), KeyedWithHint(McpId(tool.name)))
    }

    function ToolErrorsFor(tool: Tool, b: Option<Binding>): seq<CoverageError> {
      if b.None? || b.value.safety.Read? then [] else HintErrors(tool, b.value)
    }

    function ToolErrors(tool: Tool): seq<CoverageError> {
      ToolErrorsFor(tool, Bound(McpId(tool.name)))
    }

    function UnknownWorkflows(id: string, workflowIds: seq<string>): seq<CoverageError> {
      if workflowIds == [] then []
      else
        UnknownWorkflows(id, workflowIds[..|workflowIds|-1]) +
        (if HasWorkflow(workflowIds[|workflowIds|-1]) then [] else [UnknownWorkflow(id, workflowIds[|workflowIds|-1])])
    }

    predicate IsDiscoverable(capabilityId: string) {
      exists b :: b in Bindings() && capabilityId in b.capabilityIds
    }

    function CapabilityErrors(c: Capability): seq<CoverageError> {
      (if c.workflowIds == [] then [NoWorkflowLinked(c.id)] else [])
      + UnknownWorkflows(c.id, c.workflowIds)
      + (if IsDiscoverable(c.id) then [] else [NothingDiscoverable(c.id)])
    }

    predicate IsLinkedBack(w: Workflow) {
      var c := FindCapability(capabilities, w.capabilityId);
      c.Some? && w.id in c.value.workflowIds
    }

    function LinkErrors(w: Workflow): seq<CoverageError> {
      When(!HasCapability(w.capabilityId), WorkflowWithoutCapability(w.id, w.capabilityId))
      + When(!IsLinkedBack(w), ReverseLinkMissing(w.id, w.capabilityId))
    }

    function WorkflowErrors(w: Workflow): seq<CoverageError> {
      LinkErrors(w) + AllStepErrors(Bound, w, w.steps)
    }

    function AllErrors(): seq<CoverageError> {
      BaselineErrors() + StandaloneErrors()
      + FlatMap(BindingErrors, LiveIds())
      + FlatMap(ToolErrors, tools)
      + FlatMap(CapabilityErrors, capabilities)
      + FlatMap(WorkflowErrors, workflows)
    }

  }
}
