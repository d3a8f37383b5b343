/** Connection rules of the graph editor: the whole-graph check and its per-node view. */
module GraphValidation {
  import opened JsonValues

  datatype Rule = Rule(kind: string, value: string, required: bool, multiple: bool)

  datatype Template = Template(id: string, kind: string, inputs: Option<seq<Rule>>, outputs: Option<seq<Rule>>)

  datatype Node = Node(id: string, caption: string, template: string)

  datatype Edge = Edge(source: string, target: string, sourceHandle: Option<string>, targetHandle: Option<string>)

  /** Error texts, by what they report. */
  datatype Report =
    | TemplateNotFound(template: string)
    | CannotConnect(caption: string)
    | UnknownHandle(side: string, handle: string, caption: string)
    | CannotConnectTo(caption: string, other: string, template: string)
    | DoesNotAccept(caption: string, other: string, rule: Option<Rule>)
    | MissingNode
    | OtherReport(text: string)

  datatype ErrorType = ConnectionError | TemplateError | OtherError

  datatype ValidationError = ValidationError(nodeId: string, report: Report, errorType: ErrorType)

  /** The template list, and the two naming functions of the canvas, which are taken as given. */
  datatype Catalog = Catalog(templates: seq<Template>, slug: string -> string, handleId: (string, Rule) -> string)

  // ---- rules -----------------------------------------------------------------------------------------

  function FindTemplate(templates: seq<Template>, id: string): Option<Template> {
    if templates == [] then None
    else if templates[0].id == id then Some(templates[0])
    else FindTemplate(templates[1..], id)
  }

  function FindNode(nodes: seq<Node>, id: string): Option<Node> {
    if nodes == [] then None
    else if nodes[0].id == id then Some(nodes[0])
    else FindNode(nodes[1..], id)
  }

  predicate IsRuleAllowingTemplate(c: Catalog, rule: Rule, template: Template) {
    if rule.kind == "kind" then c.slug(template.kind) == c.slug(rule.value)
    else rule.kind == "template" && template.id == rule.value
  }

  predicate IsConnectionAllowed(c: Catalog, outputs: seq<Rule>, target: Template) {
    exists rule | rule in outputs :: IsRuleAllowingTemplate(c, rule, target)
  }

  predicate IsTemplateAcceptedByInputs(c: Catalog, inputs: seq<Rule>, source: Template) {
    inputs == [] || exists rule | rule in inputs :: IsRuleAllowingTemplate(c, rule, source)
  }

  function FindRule(c: Catalog, side: string, rules: seq<Rule>, handle: Option<string>): Option<Rule> {
    if handle.None? || handle.value == "" || rules == [] then None
    else if c.handleId(side, rules[0]) == handle.value then Some(rules[0])
    else FindRule(c, side, rules[1..], handle)
  }

  predicate Given(handle: Option<string>) { handle.Some? && handle.value != "" }

  function RulesOf(rules: Option<seq<Rule>>): seq<Rule> { if rules.Some? then rules.value else [] }

  /** The errors of one edge between two known nodes. */
  function ConnectionErrors(c: Catalog, source: Node, target: Node, edge: Edge): seq<ValidationError> {
    var sourceTemplate := FindTemplate(c.templates, source.template);
    if sourceTemplate.None? then [ValidationError(source.id, TemplateNotFound(source.template), TemplateError)]
    else if RulesOf(sourceTemplate.value.outputs) == [] then
      [ValidationError(source.id, CannotConnect(source.caption), ConnectionError)]
    else
      var targetTemplate := FindTemplate(c.templates, target.template);
      if targetTemplate.None? then [ValidationError(target.id, TemplateNotFound(target.template), TemplateError)]
      else RuleErrors(c, source, target, sourceTemplate.value, targetTemplate.value, edge)
  }

  function RuleErrors(c: Catalog, source: Node, target: Node, from: Template, to: Template,
                      edge: Edge): seq<ValidationError> {
    var outputRules, inputRules := RulesOf(from.outputs), RulesOf(to.inputs);
    var output := FindRule(c, "source", outputRules, edge.sourceHandle);
    var input := FindRule(c, "target", inputRules, edge.targetHandle);
    var outputAllows :=
      if output.Some? then IsRuleAllowingTemplate(c, output.value, to) else IsConnectionAllowed(c, outputRules, to);
    var inputAllows :=
      if input.Some? then IsRuleAllowingTemplate(c, input.value, from)
      else IsTemplateAcceptedByInputs(c, inputRules, from);
    (if Given(edge.sourceHandle) && output.None? then
       [ValidationError(source.id, UnknownHandle("source", edge.sourceHandle.value, source.caption), ConnectionError)]
        else []) +
    (if Given(edge.targetHandle) && input.None? then
       [ValidationError(target.id, UnknownHandle("target", edge.targetHandle.value, target.caption), ConnectionError)]
        else []) +
    (if !outputAllows then
       [ValidationError(source.id, CannotConnectTo(source.caption, target.caption, target.template), ConnectionError)]
        else []) +
    (if !inputAllows then
       [ValidationError(target.id, DoesNotAccept(target.caption, source.caption, input), ConnectionError)] else [])
  }

  /** A rule on this side allows the template: the one the handle names, or any if no handle is given. */
  predicate Allows(c: Catalog, side: string, rules: seq<Rule>, handle: Option<string>, template: Template) {
    if Given(handle) then
      exists i | 0 <= i < |rules| ::
        c.handleId(side, rules[i]) == handle.value && Matches(c, rules[i], template) &&
        forall j | 0 <= j < i :: c.handleId(side, rules[j]) != handle.value
    else exists rule | rule in rules :: Matches(c, rule, template)
  }

  /** A rule names a template by its kind, compared as slugs, or by its id. */
  predicate Matches(c: Catalog, rule: Rule, template: Template) {
    || (rule.kind == "kind" && c.slug(rule.value) == c.slug(template.kind))
    || (rule.kind == "template" && rule.value == template.id)
  }

  lemma {:induction false} MatchesAsAllowed(c: Catalog, rule: Rule, template: Template)
    ensures Matches(c, rule, template) <==> IsRuleAllowingTemplate(c, rule, template)
  {
    assert "kind"[0] != "template"[0];
  }

  lemma {:induction false} FindRuleIsFirst(c: Catalog, side: string, rules: seq<Rule>,
                                           handle: Option<string>) returns (i: nat)
    requires Given(handle)
    ensures i <= |rules| && forall j | 0 <= j < i :: c.handleId(side, rules[j]) != handle.value
    ensures if i < |rules| then
              FindRule(c, side, rules, handle) == Some(rules[i]) && c.handleId(side, rules[i]) == handle.value
            else FindRule(c, side, rules, handle) == None
  {
    i := 0;
    if rules != [] && c.handleId(side, rules[0]) != handle.value {
      i := FindRuleIsFirst(c, side, rules[1..], handle);
      i := i + 1;
    }
  }

  /**
   A connection is valid exactly when both templates exist and each side allows the other: an
   output rule of the source the target's template, and an input rule of the target the
   source's, where a target without input rules accepts any source but no named handle.
   */
  lemma {:induction false} ConnectionValidIff(c: Catalog, source: Node, target: Node, edge: Edge)
    ensures
      var from, to := FindTemplate(c.templates, source.template), FindTemplate(c.templates, target.template);
      ConnectionErrors(c, source, target, edge) == [] <==>
        && from.Some? && to.Some?
        && Allows(c, "source", RulesOf(from.value.outputs), edge.sourceHandle, to.value)
        && (Allows(c, "target", RulesOf(to.value.inputs), edge.targetHandle, from.value) ||
            (!Given(edge.targetHandle) && RulesOf(to.value.inputs) == []))
  {
    var from, to := FindTemplate(c.templates, source.template), FindTemplate(c.templates, target.template);
    if from.Some? && to.Some? {
      AllowedAsFound(c, "source", RulesOf(from.value.outputs), edge.sourceHandle, to.value);
      AllowedAsFound(c, "target", RulesOf(to.value.inputs), edge.targetHandle, from.value);
    }
  }

  lemma {:induction false} AllowedAsFound(c: Catalog, side: string, rules: seq<Rule>, handle: Option<string>,
                                          template: Template)
    ensures
      var rule := FindRule(c, side, rules, handle);
      Allows(c, side, rules, handle, template) <==>
        if Given(handle) then rule.Some? && IsRuleAllowingTemplate(c, rule.value, template)
        else rule.None? && IsConnectionAllowed(c, rules, template)
  {
    forall rule ensures Matches(c, rule, template) <==> IsRuleAllowingTemplate(c, rule, template) {
      MatchesAsAllowed(c, rule, template);
    }
    if Given(handle) {
      var i := FindRuleIsFirst(c, side, rules, handle);
      if Allows(c, side, rules, handle, template) {
        var k :| 0 <= k < |rules| && c.handleId(side, rules[k]) == handle.value &&
          Matches(c, rules[k], template) &&
                 forall j | 0 <= j < k :: c.handleId(side, rules[j]) != handle.value;
        assert k == i;
      }
    }
  }

  /** No rule of the list has the handle. */
  predicate Unknown(c: Catalog, side: string, rules: seq<Rule>, handle: Option<string>) {
    Given(handle) && forall i | 0 <= i < |rules| :: c.handleId(side, rules[i]) != handle.value
  }

  /** The side allows the template by the rule its handle names, or, if it names none, by any rule. */
  predicate AllowsSomehow(c: Catalog, side: string, rules: seq<Rule>, handle: Option<string>, template: Template) {
    if Unknown(c, side, rules, handle) then exists rule | rule in rules :: Matches(c, rule, template)
    else Allows(c, side, rules, handle, template)
  }

  lemma {:induction false} AllowedSomehow(c: Catalog, side: string, rules: seq<Rule>, handle: Option<string>,
                                          template: Template)
    ensures
      var rule := FindRule(c, side, rules, handle);
      && (Unknown(c, side, rules, handle) <==> Given(handle) && rule.None?)
      && (AllowsSomehow(c, side, rules, handle, template) <==>
            if rule.Some? then IsRuleAllowingTemplate(c, rule.value, template)
            else IsConnectionAllowed(c, rules, template))
  {
    forall rule ensures Matches(c, rule, template) <==> IsRuleAllowingTemplate(c, rule, template) {
      MatchesAsAllowed(c, rule, template);
    }
    AllowedAsFound(c, side, rules, handle, template);
    if Given(handle) { var i := FindRuleIsFirst(c, side, rules, handle); }
  }

  function Blamed(node: Node,
    report: Report): seq<ValidationError> { [ValidationError(node.id, report, ConnectionError)] }

  /**
   The exact list of errors of a connection, each with the node it blames: the source for a
   missing template of its own, for having no outputs, for an unknown source handle and for
   outputs that do not allow the target; the target for its own three.
   */
  lemma {:induction false} ConnectionBlames(c: Catalog, source: Node, target: Node, edge: Edge)
    ensures
      var from, to := FindTemplate(c.templates, source.template), FindTemplate(c.templates, target.template);
      var errors := ConnectionErrors(c, source, target, edge);
      if from.None? then errors == [ValidationError(source.id, TemplateNotFound(source.template), TemplateError)]
      else if RulesOf(from.value.outputs) == [] then
        errors == [ValidationError(source.id, CannotConnect(source.caption), ConnectionError)]
      else if to.None? then errors == [ValidationError(target.id, TemplateNotFound(target.template), TemplateError)]
      else
        var outputs, inputs := RulesOf(from.value.outputs), RulesOf(to.value.inputs);
        errors ==
          (if Unknown(c, "source", outputs, edge.sourceHandle) then
             Blamed(source, UnknownHandle("source", edge.sourceHandle.value, source.caption)) else []) +
          (if Unknown(c, "target", inputs, edge.targetHandle) then
             Blamed(target, UnknownHandle("target", edge.targetHandle.value, target.caption)) else []) +
          (if AllowsSomehow(c, "source", outputs, edge.sourceHandle, to.value) then []
           else Blamed(source, CannotConnectTo(source.caption, target.caption, target.template))) +
          (if inputs == [] || AllowsSomehow(c, "target", inputs, edge.targetHandle, from.value) then []
           else Blamed(target, DoesNotAccept(target.caption, source.caption,
                                             FindRule(c, "target", inputs, edge.targetHandle))))
  {
    var from, to := FindTemplate(c.templates, source.template), FindTemplate(c.templates, target.template);
    if from.Some? && to.Some? {
      AllowedSomehow(c, "source", RulesOf(from.value.outputs), edge.sourceHandle, to.value);
      AllowedSomehow(c, "target", RulesOf(to.value.inputs), edge.targetHandle, from.value);
    }
  }

  // ---- the whole graph --------------------------------------------------------------------------------

  predicate Dangling(nodes: seq<Node>, edge: Edge) {
    FindNode(nodes, edge.source).None? || FindNode(nodes, edge.target).None?
  }

  function DanglingError(edge: Edge): ValidationError {
    ValidationError(if edge.source != "" then edge.source else if edge.target != "" then edge.target else "unknown",
                    MissingNode, ConnectionError)
  }

  function EdgeErrors(c: Catalog, nodes: seq<Node>, edge: Edge): seq<ValidationError> {
    if Dangling(nodes, edge) then []
    else ConnectionErrors(c, FindNode(nodes, edge.source).value, FindNode(nodes, edge.target).value, edge)
  }

  function GraphErrors(c: Catalog, nodes: seq<Node>, edges: seq<Edge>): seq<ValidationError> {
    if edges == [] then []
    else
      var last := edges[|edges| - 1];
      GraphErrors(c, nodes, edges[..|edges| - 1]) +
      if Dangling(nodes, last) then [DanglingError(last)] else EdgeErrors(c, nodes, last)
  }

  function ErrorsOf(c: Catalog, nodes: seq<Node>, edge: Edge): seq<ValidationError> {
    if Dangling(nodes, edge) then [DanglingError(edge)] else EdgeErrors(c, nodes, edge)
  }

  /** The errors of a graph come edge by edge, in the order of the edges. */
  function InEdgeOrder(c: Catalog, nodes: seq<Node>, edges: seq<Edge>): seq<ValidationError> {
    if edges == [] then [] else ErrorsOf(c, nodes, edges[0]) + InEdgeOrder(c, nodes, edges[1..])
  }

  lemma {:induction false} InEdgeOrderAppend(c: Catalog, nodes: seq<Node>, edges: seq<Edge>, edge: Edge)
    ensures InEdgeOrder(c, nodes, edges + [edge]) == InEdgeOrder(c, nodes, edges) + ErrorsOf(c, nodes, edge)
  {
    if edges == [] {
      assert [edge][1..] == [] && [] + [edge] == [edge];
    } else {
      assert (edges + [edge])[1..] == edges[1..] + [edge];
      InEdgeOrderAppend(c, nodes, edges[1..], edge);
    }
  }

  lemma {:induction false} GraphErrorsInOrder(c: Catalog, nodes: seq<Node>, edges: seq<Edge>)
    ensures GraphErrors(c, nodes, edges) == InEdgeOrder(c, nodes, edges)
  {
    if edges != [] {
      GraphErrorsInOrder(c, nodes, edges[..|edges| - 1]);
      InEdgeOrderLast(c, nodes, edges);
    }
  }

  lemma {:induction false} InEdgeOrderLast(c: Catalog, nodes: seq<Node>, edges: seq<Edge>)
    requires edges != []
    ensures InEdgeOrder(c, nodes, edges) ==
            InEdgeOrder(c, nodes, edges[..|edges| - 1]) + ErrorsOf(c, nodes, edges[|edges| - 1])
  {
    var before, last := edges[..|edges| - 1], edges[|edges| - 1];
    InEdgeOrderAppend(c, nodes, before, last);
    LastEdge(edges);
  }

  lemma {:induction false} LastEdge(edges: seq<Edge>)
    requires edges != []
    ensures edges[..|edges| - 1] + [edges[|edges| - 1]] == edges
  {
  }

  method ValidateGraph(c: Catalog, nodes: seq<Node>,
                       edges: seq<Edge>) returns (isValid: bool, errors: seq<ValidationError>)
    ensures errors == GraphErrors(c, nodes, edges) && isValid == (errors == [])
  {
    errors := [];
    for i := 0 to |edges|
      invariant errors == GraphErrors(c, nodes, edges[..i])
    {
      var edge := edges[i];
      assert edges[..i + 1][..i] == edges[..i];
      var sourceNode, targetNode := FindNode(nodes, edge.source), FindNode(nodes, edge.target);
      if sourceNode.None? || targetNode.None? {
        errors := errors + [DanglingError(edge)];
      } else {
        var validation := ConnectionErrors(c, sourceNode.value, targetNode.value, edge);
        if validation != [] {
          errors := errors + validation;
        }
      }
    }
    assert edges[..|edges|] == edges;
    isValid := errors == [];
  }

  // ---- one node --------------------------------------------------------------------------------------------

  function About(errors: seq<ValidationError>, nodeId: string): seq<ValidationError> {
    if errors == [] then []
    else if errors[0].nodeId == nodeId then [errors[0]] + About(errors[1..], nodeId)
    else About(errors[1..], nodeId)
  }

  predicate Touches(edge: Edge, nodeId: string) { edge.source == nodeId || edge.target == nodeId }

  function NodeErrors(c: Catalog, nodes: seq<Node>, edges: seq<Edge>, nodeId: string): seq<ValidationError> {
    if edges == [] then []
    else
      var last := edges[|edges| - 1];
      NodeErrors(c, nodes, edges[..|edges| - 1], nodeId) +
      if Touches(last, nodeId) then About(EdgeErrors(c, nodes, last), nodeId) else []
  }

  /**
   getNodeValidationErrors: the connection part, then what the required-connection, config
   and secret checks say about the node, which is taken as given.
   */
  method GetNodeValidationErrors(c: Catalog, nodes: seq<Node>, edges: seq<Edge>, nodeId: string,
                                 others: Node -> seq<ValidationError>)
    returns (errors: seq<ValidationError>)
    ensures errors == if FindNode(nodes, nodeId).None? then []
                      else NodeErrors(c, nodes, edges, nodeId) + others(FindNode(nodes, nodeId).value)
  {
    var node := FindNode(nodes, nodeId);
    if node.None? {
      return [];
    }
    errors := [];
    for i := 0 to |edges|
      invariant errors == NodeErrors(c, nodes, edges[..i], nodeId)
    {
      var edge := edges[i];
      assert edges[..i + 1][..i] == edges[..i];
      if Touches(edge, nodeId) {
        var sourceNode, targetNode := FindNode(nodes, edge.source), FindNode(nodes, edge.target);
        if sourceNode.Some? && targetNode.Some? {
          var validation := ConnectionErrors(c, sourceNode.value, targetNode.value, edge);
          if validation != [] {
            errors := errors + About(validation, nodeId);
          }
        }
      }
    }
    assert edges[..|edges|] == edges;
    errors := errors + others(node.value);
  }

  // ---- the per-node view partitions the whole ---------------------------------------------------------------

  predicate UniqueNodes(nodes: seq<Node>) { forall i, j | 0 <= i < j < |nodes| :: nodes[i].id != nodes[j].id }

  /** The errors of all nodes together. */
  ghost function AllNodeErrors(c: Catalog, nodes: seq<Node>, edges: seq<Edge>,
                               some: seq<Node>): multiset<ValidationError> {
    if some == [] then multiset{}
    else multiset(NodeErrors(c, nodes, edges, some[0].id)) + AllNodeErrors(c, nodes, edges, some[1..])
  }

  ghost function DanglingErrors(nodes: seq<Node>, edges: seq<Edge>): multiset<ValidationError> {
    if edges == [] then multiset{}
    else
      var last := edges[|edges| - 1];
      DanglingErrors(nodes, edges[..|edges| - 1]) + if Dangling(nodes, last) then multiset{DanglingError(last)}
        else multiset{}
  }

  lemma {:induction false} FoundNode(nodes: seq<Node>, id: string)
    ensures FindNode(nodes, id).Some? ==> FindNode(nodes, id).value.id == id && FindNode(nodes, id).value in nodes
  {
    if nodes != [] { FoundNode(nodes[1..], id); }
  }

  lemma {:induction false} RuleErrorsAboutEnds(c: Catalog, source: Node, target: Node, from: Template, to: Template,
                                               edge: Edge)
    ensures forall e | e in RuleErrors(c, source, target, from, to, edge) :: e.nodeId in {source.id, target.id}
  {
  }

  /** An edge's errors are about its two ends. */
  lemma {:induction false} ErrorsAboutEnds(c: Catalog, nodes: seq<Node>, edge: Edge)
    ensures forall e | e in EdgeErrors(c, nodes, edge) ::
              Touches(edge, e.nodeId) && FindNode(nodes, e.nodeId).Some?
  {
    FoundNode(nodes, edge.source);
    FoundNode(nodes, edge.target);
    if !Dangling(nodes, edge) {
      var source, target := FindNode(nodes, edge.source).value, FindNode(nodes, edge.target).value;
      var from, to := FindTemplate(c.templates, source.template), FindTemplate(c.templates, target.template);
      if from.Some? && to.Some? { RuleErrorsAboutEnds(c, source, target, from.value, to.value, edge); }
    }
  }

  lemma {:induction false} AboutNothing(errors: seq<ValidationError>, nodeId: string)
    requires forall e | e in errors :: e.nodeId != nodeId
    ensures About(errors, nodeId) == []
  {
    if errors != [] { AboutNothing(errors[1..], nodeId); }
  }

  ghost function AllAbout(errors: seq<ValidationError>, some: seq<Node>): multiset<ValidationError> {
    if some == [] then multiset{} else multiset(About(errors, some[0].id)) + AllAbout(errors, some[1..])
  }

  lemma {:induction false} AllAboutStep(errors: seq<ValidationError>, some: seq<Node>)
    requires errors != [] && UniqueNodes(some)
    ensures AllAbout(errors, some) == AllAbout(errors[1..], some) +
            if FindNode(some, errors[0].nodeId).Some? then multiset{errors[0]} else multiset{}
  {
    if some != [] {
      AllAboutStep(errors, some[1..]);
      FoundNode(some[1..], some[0].id);
    }
  }

  /** Errors that are about some node are each counted for exactly one. */
  lemma {:induction false} AllAboutIsAll(errors: seq<ValidationError>, nodes: seq<Node>)
    requires UniqueNodes(nodes) && forall e | e in errors :: FindNode(nodes, e.nodeId).Some?
    ensures AllAbout(errors, nodes) == multiset(errors)
  {
    if errors == [] {
      AllAboutNone(nodes);
    } else {
      AllAboutStep(errors, nodes);
      AllAboutIsAll(errors[1..], nodes);
      assert errors == [errors[0]] + errors[1..];
    }
  }

  lemma {:induction false} AllAboutNone(some: seq<Node>)
    ensures AllAbout([], some) == multiset{}
  {
    if some != [] { AllAboutNone(some[1..]); }
  }

  lemma {:induction false} OneMoreEdge(c: Catalog, nodes: seq<Node>, edges: seq<Edge>, some: seq<Node>)
    requires edges != []
    ensures
      var before, last := edges[..|edges| - 1], edges[|edges| - 1];
      AllNodeErrors(c, nodes, edges, some) ==
      AllNodeErrors(c, nodes, before, some) + AllAbout(EdgeErrors(c, nodes, last), some)
  {
    if some != [] {
      var last := edges[|edges| - 1];
      OneMoreEdge(c, nodes, edges, some[1..]);
      ErrorsAboutEnds(c, nodes, last);
      if !Touches(last, some[0].id) { AboutNothing(EdgeErrors(c, nodes, last), some[0].id); }
    }
  }

  lemma {:induction false} NoEdgesNoErrors(c: Catalog, nodes: seq<Node>, some: seq<Node>)
    ensures AllNodeErrors(c, nodes, [], some) == multiset{}
  {
    if some != [] { NoEdgesNoErrors(c, nodes, some[1..]); }
  }

  /**
   The whole-graph errors are those of the nodes, each counted once even for a self-loop,
   together with the errors of dangling edges, which no node reports.
   */
  lemma {:induction false} GraphErrorsSplitByNode(c: Catalog, nodes: seq<Node>, edges: seq<Edge>)
    requires UniqueNodes(nodes)
    ensures multiset(GraphErrors(c, nodes, edges)) ==
            AllNodeErrors(c, nodes, edges, nodes) + DanglingErrors(nodes, edges)
  {
    if edges == [] {
      NoEdgesNoErrors(c, nodes, nodes);
    } else {
      var before, last := edges[..|edges| - 1], edges[|edges| - 1];
      GraphErrorsSplitByNode(c, nodes, before);
      OneMoreEdge(c, nodes, edges, nodes);
      ErrorsAboutEnds(c, nodes, last);
      AllAboutIsAll(EdgeErrors(c, nodes, last), nodes);
    }
  }

  lemma {:induction false} NoDanglingErrors(nodes: seq<Node>, edges: seq<Edge>)
    ensures DanglingErrors(nodes, edges) == multiset{} <==> forall e | e in edges :: !Dangling(nodes, e)
  {
    if edges != [] {
      var before, last := edges[..|edges| - 1], edges[|edges| - 1];
      NoDanglingErrors(nodes, before);
      assert edges == before + [last];
      if Dangling(nodes, last) { assert DanglingError(last) in DanglingErrors(nodes, edges); }
    }
  }

  lemma {:induction false} EmptySum(own: seq<ValidationError>, rest: multiset<ValidationError>)
    ensures multiset(own) + rest == multiset{} <==> own == [] && rest == multiset{}
  {
    if own != [] { assert own[0] in multiset(own) + rest; }
  }

  lemma {:induction false} NoNodeReports(c: Catalog, nodes: seq<Node>, edges: seq<Edge>, some: seq<Node>)
    ensures AllNodeErrors(c, nodes, edges, some) == multiset{} <==>
            forall n | n in some :: NodeErrors(c, nodes, edges, n.id) == []
  {
    if some != [] {
      var own, rest := NodeErrors(c, nodes, edges, some[0].id), some[1..];
      NoNodeReports(c, nodes, edges, rest);
      EmptySum(own, AllNodeErrors(c, nodes, edges, rest));
      assert forall n :: n in some <==> n == some[0] || n in rest;
    }
  }

  /** The two views agree exactly on graphs without dangling edges. */
  lemma {:induction false} ViewsAgreeIffNoDangling(c: Catalog, nodes: seq<Node>, edges: seq<Edge>)
    requires UniqueNodes(nodes)
    ensures multiset(GraphErrors(c, nodes, edges)) == AllNodeErrors(c, nodes, edges, nodes) <==>
            forall e | e in edges :: !Dangling(nodes, e)
  {
    GraphErrorsSplitByNode(c, nodes, edges);
    NoDanglingErrors(nodes, edges);
    var all, dangling := AllNodeErrors(c, nodes, edges, nodes), DanglingErrors(nodes, edges);
    if dangling != multiset{} {
      var e :| e in dangling;
      assert (all + dangling)[e] > all[e];
    }
  }

  /** One node with an edge to nowhere: the graph view reports it, the node does not. */
  lemma {:induction false} DanglingEdgeIsSeenOnce(c: Catalog)
    ensures
      var nodes, edges := [Node("a", "", "t")], [Edge("a", "b", None, None)];
      && GraphErrors(c, nodes, edges) == [ValidationError("a", MissingNode, ConnectionError)]
      && NodeErrors(c, nodes, edges, "a") == []
  {
    var nodes, edge := [Node("a", "", "t")], Edge("a", "b", None, None);
    assert "a"[0] != "b"[0] && nodes[1..] == [];
    assert Dangling(nodes, edge) && [edge][..0] == [];
  }

  /** The graph is valid exactly when no edge dangles and no node reports a connection error. */
  lemma {:induction false} ValidIffNoNodeReports(c: Catalog, nodes: seq<Node>, edges: seq<Edge>)
    requires UniqueNodes(nodes)
    ensures GraphErrors(c, nodes, edges) == [] <==>
            && (forall e | e in edges :: !Dangling(nodes, e))
            && (forall n | n in nodes :: NodeErrors(c, nodes, edges, n.id) == [])
  {
    GraphErrorsSplitByNode(c, nodes, edges);
    NoDanglingErrors(nodes, edges);
    NoNodeReports(c, nodes, edges, nodes);
    var errors := GraphErrors(c, nodes, edges);
    if errors != [] { assert errors[0] in multiset(errors); }
  }
}
