/** What an `ok` coverage report (src/agent-discovery-catalog.ts) says of the live operations: every
    tool, command and route has its binding, with the claims of its own registration. */
module CoverageBindings {
  import opened Lists
  import opened Options
  import opened Sorting
  import opened Strings
  import opened Utf16
  import opened Coverage
  import opened CoverageDefects
  import opened CoverageReport

  // --- Every operation is live ---

  lemma InSorted(s: seq<string>, x: string)
    ensures x in SortStrings(s) <==> x in s
  {
    assert x in multiset(SortStrings(s)) <==> x in multiset(s);
  }

  lemma IsNamed<T>(name: T -> string, s: seq<T>, x: T)
    requires x in s
    ensures name(x) in SortStrings(Map(name, s))
  {
    InMap(name, s, name(x));
    InSorted(Map(name, s), name(x));
  }

  lemma IsLive(c: Input, id: string)
    ensures id in c.LiveIds() <==>
      id in Map(McpId, c.Names(McpSurface)) || id in Map(CliId, c.Names(CliSurface)) || id in Map(ToHttpId, c.Names(HttpSurface))
  {
    InSorted(Map(McpId, c.Names(McpSurface)) + Map(CliId, c.Names(CliSurface)) + Map(ToHttpId, c.Names(HttpSurface)), id);
  }

  lemma ToolIsLive(c: Input, tool: Tool)
    requires tool in c.tools
    ensures McpId(tool.name) in c.LiveIds()
  {
    IsNamed(ToolName, c.tools, tool);
    InMap(McpId, c.Names(McpSurface), McpId(tool.name));
    IsLive(c, McpId(tool.name));
  }

  lemma CommandIsLive(c: Input, command: Command)
    requires command in c.commands
    ensures CliId(command.key) in c.LiveIds()
  {
    IsNamed(CommandKey, c.commands, command);
    InMap(CliId, c.Names(CliSurface), CliId(command.key));
    IsLive(c, CliId(command.key));
  }

  lemma RouteIsLive(c: Input, route: Route)
    requires route in c.routes
    ensures HttpId(route.verb, route.pattern) in c.LiveIds()
  {
    IsNamed(RouteName, c.routes, route);
    InMap(ToHttpId, c.Names(HttpSurface), ToHttpId(RouteName(route)));
    IsLive(c, ToHttpId(RouteName(route)));
    Regroup("http:", route.verb + " ", route.pattern);
    Regroup("http:", route.verb, " ");
  }

  lemma IsNameOf<T>(name: T -> string, s: seq<T>, x: string)
    ensures x in SortStrings(Map(name, s)) <==> exists y :: y in s && name(y) == x
  {
    InSorted(Map(name, s), x);
    InMap(name, s, x);
  }

  ghost predicate Ascend(ids: seq<string>) {
    forall i, j :: 0 <= i < j < |ids| ==> ComesFirst(Units(ids[i]), Units(ids[j]))
  }

  lemma SortedStringsAscend(s: seq<string>)
    ensures Ascend(SortStrings(s)) && |SortStrings(s)| == |s| && multiset(SortStrings(s)) == multiset(s)
  {
    StringLeIsTotal();
    SortIsSorted(s, Self<string>, StringLe);
    var r := SortStrings(s);
    assert |multiset(r)| == |r| && |multiset(s)| == |s|;
    forall i, j | 0 <= i < j < |r| ensures ComesFirst(Units(r[i]), Units(r[j])) {
      assert StringLe(Self(r[i]), Self(r[j]));
      StringLeExactlyWhen(r[i], r[j]);
    }
  }

  lemma ToolIds(c: Input, id: string)
    ensures id in Map(McpId, c.Names(McpSurface)) <==> exists tool :: tool in c.tools && id == "mcp:" + tool.name
  {
    InMap(McpId, c.Names(McpSurface), id);
    forall x ensures x in c.Names(McpSurface) <==> exists tool :: tool in c.tools && ToolName(tool) == x { IsNameOf(ToolName, c.tools, x); }
    if x :| x in c.Names(McpSurface) && McpId(x) == id {
      var tool :| tool in c.tools && ToolName(tool) == x;
    }
    if tool :| tool in c.tools && id == "mcp:" + tool.name {
      assert ToolName(tool) in c.Names(McpSurface) && McpId(ToolName(tool)) == id;
    }
  }

  lemma CommandIds(c: Input, id: string)
    ensures id in Map(CliId, c.Names(CliSurface)) <==> exists command :: command in c.commands && id == "cli:" + command.key
  {
    InMap(CliId, c.Names(CliSurface), id);
    forall x ensures x in c.Names(CliSurface) <==> exists command :: command in c.commands && CommandKey(command) == x { IsNameOf(CommandKey, c.commands, x); }
    if x :| x in c.Names(CliSurface) && CliId(x) == id {
      var command :| command in c.commands && CommandKey(command) == x;
    }
    if command :| command in c.commands && id == "cli:" + command.key {
      assert CommandKey(command) in c.Names(CliSurface) && CliId(CommandKey(command)) == id;
    }
  }

  lemma RouteIds(c: Input, id: string)
    ensures id in Map(ToHttpId, c.Names(HttpSurface)) <==> exists route :: route in c.routes && id == "http:" + (route.verb + " " + route.pattern)
  {
    InMap(ToHttpId, c.Names(HttpSurface), id);
    forall x ensures x in c.Names(HttpSurface) <==> exists route :: route in c.routes && RouteName(route) == x { IsNameOf(RouteName, c.routes, x); }
    if x :| x in c.Names(HttpSurface) && ToHttpId(x) == id {
      var route :| route in c.routes && RouteName(route) == x;
    }
    if route :| route in c.routes && id == "http:" + (route.verb + " " + route.pattern) {
      assert RouteName(route) in c.Names(HttpSurface) && ToHttpId(RouteName(route)) == id;
    }
  }

  /** The live operations are the tools, commands and routes, each once for every time it is
      registered, in the order of their code units. */
  lemma LiveExactlyWhen(c: Input, id: string)
    ensures id in c.LiveIds() <==>
      || (exists tool :: tool in c.tools && id == "mcp:" + tool.name)
      || (exists command :: command in c.commands && id == "cli:" + command.key)
      || (exists route :: route in c.routes && id == "http:" + (route.verb + " " + route.pattern))
    ensures Ascend(c.LiveIds()) && |c.LiveIds()| == |c.tools| + |c.commands| + |c.routes|
  {
    IsLive(c, id);
    ToolIds(c, id);
    CommandIds(c, id);
    RouteIds(c, id);
    LiveAscend(c);
  }

  lemma LiveAscend(c: Input)
    ensures Ascend(c.LiveIds()) && |c.LiveIds()| == |c.tools| + |c.commands| + |c.routes|
  {
    SortedStringsAscend(Map(McpId, c.Names(McpSurface)) + Map(CliId, c.Names(CliSurface)) + Map(ToHttpId, c.Names(HttpSurface)));
    NameCounts(c);
  }

  lemma NameCounts(c: Input)
    ensures |c.Names(McpSurface)| == |c.tools| && |c.Names(CliSurface)| == |c.commands| && |c.Names(HttpSurface)| == |c.routes|
  {
    SortedStringsAscend(Map(ToolName, c.tools));
    SortedStringsAscend(Map(CommandKey, c.commands));
    SortedStringsAscend(Map(RouteName, c.routes));
  }

  /** The names that are registered at a surface, in the order of their registration. */
  function Registered(c: Input, s: Surface): seq<string> {
    match s
    case McpSurface => Map((t: Tool) => t.name, c.tools)
    case CliSurface => Map((x: Command) => x.key, c.commands)
    case HttpSurface => Map((r: Route) => r.verb + " " + r.pattern, c.routes)
  }

  lemma NamesAreRegistered(c: Input, s: Surface)
    ensures c.Names(s) == SortStrings(Registered(c, s))
  {
    match s
    case McpSurface => assert Registered(c, s) == Map(ToolName, c.tools);
    case CliSurface => assert Registered(c, s) == Map(CommandKey, c.commands);
    case HttpSurface => assert Registered(c, s) == Map(RouteName, c.routes);
  }

  /** A surface is as reviewed exactly when it has the reviewed number of operations, and their names
      in order have the reviewed hash. */
  lemma SurfaceHoldsExactlyWhen(c: Input, s: Surface, names: seq<string>)
    requires Ascend(names) && multiset(names) == multiset(Registered(c, s))
    ensures c.SurfaceHolds(s) <==> |names| == c.baselineCount(s) && c.surfaceHash(names) == c.baselineHash(s)
  {
    NamesAreRegistered(c, s);
    SortedIs(Registered(c, s), names);
  }

  lemma SortedIs(s: seq<string>, names: seq<string>)
    requires Ascend(names) && multiset(names) == multiset(s)
    ensures SortStrings(s) == names
  {
    SortedStringsAscend(s);
    StringLeIsTotal();
    forall i, j | 0 <= i < j < |names| ensures StringLe(Self(names[i]), Self(names[j])) {
      StringLeExactlyWhen(names[i], names[j]);
    }
    SortIsSorted(s, Self<string>, StringLe);
    SortedIsUnique(SortStrings(s), names, Self<string>, StringLe);
  }

  // --- And has its binding ---

  /** How the operation may be repeated: a read always, a provider's call after reconciling it, a
      reviewed one by its key or by nature, and any other after reading back. */
  ghost predicate IsToolRetry(n: RetryNames, b: Binding, name: string) {
    b.retryClass ==
      if b.safety.Read? then SafeRead
      else if name in n.externalProvider then ExternalProviderReconciled
      else if name in n.keyIdempotent then KeyIdempotent
      else if name in n.naturalIdempotent then NaturalIdempotent
      else UnsafeReadBack
  }

  ghost predicate ClaimsOfTool(c: Input, b: Binding, tool: Tool) {
    && b.id == "mcp:" + tool.name && b.capabilityIds == c.classify(b.id) != []
    && tool.annotations.Some? && BindingOfTool(b, tool.annotations.value)
    && b.requiresActor == b.requiresConfirmation == !b.safety.Read?
    && IsToolRetry(c.retryNames, b, tool.name)
  }

  ghost predicate ClaimsOfCommand(c: Input, b: Binding, command: Command) {
    && b.id == "cli:" + command.key && b.capabilityIds == c.classify(b.id) != []
    && !b.safety.Destructive? && (b.safety.Read? <==> !command.mutating && !command.sideEffecting)
    && b.idempotent == (if b.safety.Read? then Some(true) else None)
    && b.requiresActor == command.mutating
    && b.requiresConfirmation == ("--confirm" in command.allowedFlags)
    && b.retryClass == if b.safety.Read? then SafeRead
         else if command.key in c.retryNames.naturalIdempotentCli then NaturalIdempotent else UnsafeReadBack
  }

  ghost predicate ClaimsOfRoute(c: Input, b: Binding, route: Route) {
    && b.id == "http:" + route.verb + " " + route.pattern && b.capabilityIds == c.classify(b.id) != []
    && !b.safety.Destructive? && (b.safety.Read? <==> route.effect == Some("read"))
    && b.idempotent == (if b.safety.Read? then Some(true) else None)
    && !b.requiresActor && !b.requiresConfirmation
    && b.retryClass == if b.safety.Read? then SafeRead
         else if route.effect == Some("external") then ExternalProviderReconciled else UnsafeReadBack
  }

  lemma ToolClaims(c: Input, tool: Tool)
    requires UniquelyNamed(c) && tool in c.tools
    ensures var b := c.BindingFor("mcp:" + tool.name);
      && (b.Some? ==> ClaimsOfTool(c, b.value, tool))
      && (b.None? <==> c.classify("mcp:" + tool.name) == [] || tool.annotations.None? || tool.annotations.value.readOnlyHint.None?)
  {
    PrefixesDiffer(tool.name);
    McpIdSplits(tool.name);
    FoundToolIsThere(c.tools, tool.name);
    NamesIdentify(ToolName, c.tools, tool, FindTool(c.tools, tool.name).value);
  }

  lemma CommandClaims(c: Input, command: Command)
    requires UniquelyNamed(c) && command in c.commands
    ensures var b := c.BindingFor("cli:" + command.key);
      (b.Some? ==> ClaimsOfCommand(c, b.value, command)) && (b.None? <==> c.classify("cli:" + command.key) == [])
  {
    PrefixesDiffer(command.key);
    assert CliId(command.key)[4..] == command.key;
    FoundCommandIsThere(c.commands, command.key);
    NamesIdentify(CommandKey, c.commands, command, FindCommand(c.commands, command.key).value);
  }

  lemma HttpIdSplits(verb: string, pattern: string)
    requires ' ' !in verb
    ensures var routeId := HttpId(verb, pattern)[5..];
      |routeId| > |verb| && Before(routeId, ' ') == verb && routeId[|verb| + 1..] == pattern
  {
    var id := HttpId(verb, pattern);
    assert id[5..] == verb + " " + pattern;
    BeforeFirst(verb, ' ', pattern);
  }

  lemma RouteClaims(c: Input, route: Route)
    requires UniquelyNamed(c) && route in c.routes && ' ' !in route.verb
    ensures var id := "http:" + route.verb + " " + route.pattern;
      var b := c.BindingFor(id);
      (b.Some? ==> ClaimsOfRoute(c, b.value, route)) && (b.None? <==> c.classify(id) == [])
  {
    HttpPrefixDiffers(route.verb, route.pattern);
    HttpIdSplits(route.verb, route.pattern);
    FoundRouteIsThere(c.routes, route.verb, route.pattern);
    NamesIdentify(RouteName, c.routes, route, FindRoute(c.routes, route.verb, route.pattern).value);
  }

  lemma PrefixesDiffer(name: string)
    ensures StartsWith(McpId(name), "mcp:")
    ensures StartsWith(CliId(name), "cli:") && !StartsWith(CliId(name), "mcp:")
  {
    assert CliId(name)[0] == 'c' && "mcp:"[0] == 'm';
    assert CliId(name)[..4] == "cli:";
  }

  lemma HttpPrefixDiffers(verb: string, pattern: string)
    ensures !StartsWith(HttpId(verb, pattern), "mcp:") && !StartsWith(HttpId(verb, pattern), "cli:")
  {
    assert HttpId(verb, pattern)[0] == 'h' && "mcp:"[0] == 'm' && "cli:"[0] == 'c';
  }

  lemma IsReported(c: Input, id: string)
    requires id in c.LiveIds() && c.BindingFor(id).Some?
    ensures c.BindingFor(id).value in c.Bindings()
  {
    InFlatMap(c.BindingsOf, c.LiveIds(), c.BindingFor(id).value);
  }

  lemma LiveIsBound(c: Input, id: string)
    requires Holds(c) && id in c.LiveIds()
    ensures c.BindingFor(id).Some?
  {
    assert !IsDefect(c, NoBinding(id));
    assert !BindingDefect(c, id, NoBinding(id));
  }

  /** When the validator says `ok`, every live operation has a binding in the report, and the
      binding claims exactly what the operation's registration says. */
  lemma EveryToolIsBound(c: Input, tool: Tool)
    requires Holds(c) && UniquelyNamed(c) && tool in c.tools
    ensures exists b :: b in c.Bindings() && ClaimsOfTool(c, b, tool)
  {
    var id := McpId(tool.name);
    ToolIsLive(c, tool);
    LiveIsBound(c, id);
    ToolClaims(c, tool);
    IsReported(c, id);
  }

  lemma EveryCommandIsBound(c: Input, command: Command)
    requires Holds(c) && UniquelyNamed(c) && command in c.commands
    ensures exists b :: b in c.Bindings() && ClaimsOfCommand(c, b, command)
  {
    var id := CliId(command.key);
    CommandIsLive(c, command);
    LiveIsBound(c, id);
    CommandClaims(c, command);
    IsReported(c, id);
  }

  lemma EveryRouteIsBound(c: Input, route: Route)
    requires Holds(c) && UniquelyNamed(c) && route in c.routes && ' ' !in route.verb
    ensures exists b :: b in c.Bindings() && ClaimsOfRoute(c, b, route)
  {
    var id := HttpId(route.verb, route.pattern);
    RouteIsLive(c, route);
    LiveIsBound(c, id);
    RouteClaims(c, route);
    IsReported(c, id);
  }

  /** A binding claims what a live tool, command or route is registered with. */
  ghost predicate IsClaimed(c: Input, b: Binding) {
    || (exists tool :: tool in c.tools && ClaimsOfTool(c, b, tool))
    || (exists command :: command in c.commands && ClaimsOfCommand(c, b, command))
    || (exists route :: route in c.routes && ClaimsOfRoute(c, b, route))
  }

  lemma BoundIsClaimed(c: Input, id: string, b: Binding)
    requires UniquelyNamed(c) && id in c.LiveIds() && c.BindingFor(id) == Some(b) && forall route :: route in c.routes ==> ' ' !in route.verb
    ensures IsClaimed(c, b)
  {
    LiveExactlyWhen(c, id);
    if tool :| tool in c.tools && id == "mcp:" + tool.name {
      ToolClaims(c, tool);
    } else if command :| command in c.commands && id == "cli:" + command.key {
      CommandClaims(c, command);
    } else {
      var route :| route in c.routes && id == "http:" + (route.verb + " " + route.pattern);
      RouteIsBound(c, route, b);
    }
  }

  /** And nothing else is reported. */
  lemma EveryBindingIsLive(c: Input, b: Binding)
    requires UniquelyNamed(c) && b in c.Bindings() && forall route :: route in c.routes ==> ' ' !in route.verb
    ensures IsClaimed(c, b)
  {
    var id := ReportedIsLive(c, b);
    BoundIsClaimed(c, id, b);
  }

  lemma ReportedIsLive(c: Input, b: Binding) returns (id: string)
    requires b in c.Bindings()
    ensures id in c.LiveIds() && c.BindingFor(id) == Some(b)
  {
    InFlatMap(c.BindingsOf, c.LiveIds(), b);
    id :| id in c.LiveIds() && b in c.BindingsOf(id);
  }

  lemma RouteIsBound(c: Input, route: Route, b: Binding)
    requires UniquelyNamed(c) && route in c.routes && ' ' !in route.verb
    requires c.BindingFor("http:" + (route.verb + " " + route.pattern)) == Some(b)
    ensures ClaimsOfRoute(c, b, route)
  {
    Regroup("http:", route.verb + " ", route.pattern);
    Regroup("http:", route.verb, " ");
    RouteClaims(c, route);
  }

  /** The report lists the bindings in the order of the collation. */
  lemma ReportIsSorted(c: Input, p: Platform, report: Report)
    requires IsReport(c, p, report) && TotalOrder(p.collation)
    ensures multiset(report.bindings) == multiset(c.Bindings())
    ensures forall i, j :: 0 <= i < j < |report.bindings| ==> p.collation(report.bindings[i].id, report.bindings[j].id)
  {
    SortIsSorted(c.Bindings(), BindingId, p.collation);
    var r := report.bindings;
    forall i, j | 0 <= i < j < |r| ensures p.collation(r[i].id, r[j].id) {
      assert p.collation(BindingId(r[i]), BindingId(r[j]));
    }
  }

  // --- Some catalogue is covered ---

  /** One tool that writes and may be repeated, in one workflow of one capability. */
  function SmallCatalogue(): Input {
    Input(
      [Tool("sync", Some(Annotations(Some(false), Some(false), Some(true))))], [], [],
      [Workflow("w", "c", [Step("s", [], Mcp("sync"), Write, true, true, true, [], NaturalIdempotent)])],
      [Capability("c", ["w"])],
      Some([McpId("sync")]), [],
      (id: string) => ["c"], RetryNames({}, {"sync"}, {}, {}),
      (ids: seq<string>) => "", (s: Surface) => 0, (s: Surface) => "")
  }

  lemma SortOne(x: string)
    ensures SortStrings([x]) == [x] && SortStrings([]) == []
  {
    assert [x][1..] == [];
  }

  lemma SmallCatalogueIsLive()
    ensures SmallCatalogue().LiveIds() == [McpId("sync")]
  {
    var c := SmallCatalogue();
    SortOne("sync");
    SortOne(McpId("sync"));
    MapOne(ToolName, c.tools[0]);
    assert c.Names(McpSurface) == ["sync"] && c.Names(CliSurface) == [] && c.Names(HttpSurface) == [];
    MapOne(McpId, "sync");
    assert [McpId("sync")] + [] + [] == [McpId("sync")];
  }

  lemma SmallCatalogueIsBound() returns (b: Binding)
    ensures SmallCatalogue().BindingFor(McpId("sync")) == Some(b)
    ensures b == Binding(McpId("sync"), ["c"], Write, Some(true), true, true, NaturalIdempotent)
  {
    McpIdSplits("sync");
    b := Binding(McpId("sync"), ["c"], Write, Some(true), true, true, NaturalIdempotent);
    assert "sync" in SmallCatalogue().retryNames.naturalIdempotent;
  }

  lemma SmallCatalogueIsExpected(e: CoverageError)
    ensures !BaselineDefect(SmallCatalogue(), e)
  {
    SmallCatalogueIsLive();
  }

  lemma SmallCatalogueIsLinked(e: CoverageError)
    ensures var c := SmallCatalogue(); !LinkDefect(c, c.workflows[0], e)
  {
    var c := SmallCatalogue();
    assert c.capabilities[0] in c.capabilities;
    assert c.HasCapability("c");
  }

  lemma SmallCatalogueIsDiscoverable(e: CoverageError)
    ensures var c := SmallCatalogue(); !CapabilityDefect(c.Bindings(), c.workflows, c.capabilities[0], e)
  {
    var c := SmallCatalogue();
    SmallCatalogueIsLive();
    var b := SmallCatalogueIsBound();
    IsReported(c, McpId("sync"));
    assert c.IsDiscoverable("c");
    assert c.workflows[0] in c.workflows;
    assert c.HasWorkflow("w");
  }

  lemma SmallCatalogueBinds(e: CoverageError)
    ensures !BindingDefect(SmallCatalogue(), McpId("sync"), e)
  {
    var c := SmallCatalogue();
    SmallCatalogueIsLive();
    var b := SmallCatalogueIsBound();
    assert c.capabilities[0] in c.capabilities;
    assert c.HasCapability("c");
  }

  lemma SmallCatalogueIsAnnotated(e: CoverageError)
    ensures !ToolDefect(SmallCatalogue(), SmallCatalogue().tools[0], e)
  {
    SmallCatalogueIsLive();
    var b := SmallCatalogueIsBound();
    assert SmallCatalogue().Bound(McpId("sync")) == Some(b);
  }

  lemma SmallCatalogueClaims(e: CoverageError)
    ensures var c := SmallCatalogue(); var w := c.workflows[0]; !StepDefect(c.Bound, w, w.steps[0], e)
  {
    SmallCatalogueIsLive();
    var b := SmallCatalogueIsBound();
    var w := SmallCatalogue().workflows[0];
    assert SmallCatalogue().Bound(McpId("sync")) == Some(b);
    QuietStep(SmallCatalogue().Bound, w, w.steps[0], b, e);
  }

  /** A step that waits for nothing and claims what its binding does has no defect. */
  lemma QuietStep(bound: Lookup, w: Workflow, s: Step, b: Binding, e: CoverageError)
    requires s.operation.Mcp? && s.dependsOn == [] && bound(OperationId(s.operation)) == Some(b)
    requires s.expectedSafety == b.safety == Write && b.idempotent == Some(s.expectedIdempotent)
    requires s.requiresActor == b.requiresActor && s.requiresConfirmation == b.requiresConfirmation && s.retryClass == b.retryClass
    ensures !StepDefect(bound, w, s, e)
  {
  }

  /** The conditions of the validator can be met, by a catalogue that makes a retry claim. */
  lemma SmallCatalogueHolds()
    ensures Holds(SmallCatalogue()) && UniquelyNamed(SmallCatalogue())
  {
    forall e ensures !IsDefect(SmallCatalogue(), e) {
      SmallCatalogueHasNoDefect(e);
    }
  }

  lemma SmallCatalogueHasNoDefect(e: CoverageError)
    ensures !IsDefect(SmallCatalogue(), e)
  {
    SmallCatalogueIsLive();
    SmallCatalogueIsExpected(e);
    SmallCatalogueIsLinked(e);
    SmallCatalogueIsDiscoverable(e);
    SmallCatalogueBinds(e);
    SmallCatalogueIsAnnotated(e);
    SmallCatalogueClaims(e);
  }
}
