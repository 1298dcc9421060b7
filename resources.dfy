/** What `Workspace.set_resource` does to a workflow, as a function of the workflow it
    starts from. The `Workspace` class carries out the same steps in place. The
    operation registry, `parse_op_args` and `validate_input_values` are given as
    parameters and are not interpreted. */
module Resources {
  import opened Wrappers
  import opened Workflows
  import opened WorkspaceErrors

  /** A value that `parse_op_args` produced for one argument. */
  datatype ArgValue =
    | PortArg(port: PortRef)                    // a `NodePort`
    | NamespaceArg(ports: map<string, PortRef>) // a `Namespace` of output ports
    | LiteralArg(literal: Literal)              // any other value

  /** One keyword argument: input name and value. */
  type Keyword = (string, ArgValue)

  datatype ParseOutcome =
    | ParseFailed(message: string)                                 // raised `ValueError`
    | Parsed(positional: seq<ArgValue>, keywords: seq<Keyword>)

  /** The collaborators `set_resource` consults. `registry` is `OP_REGISTRY.get_op`.
      `parse` is `parse_op_args(raw_op_args, namespace=...)`. `validate` is
      `validate_input_values`: it yields the message of what it raises, if it raises.
      Its flag says whether values of the namespace type are exempt. They are exactly
      when the namespace is not empty. */
  datatype Env = Env(
    registry: map<string, OpInfo>,
    parse: (seq<string>, Namespace) -> ParseOutcome,
    validate: (OpInfo, seq<Keyword>, bool) -> Option<string>)

  datatype Outcome = Outcome(workflow: Workflow, failure: Option<Failure>)

  function UnknownOperation(opName: string): string {
    "unknown operation '" + opName + "'"
  }

  function AlreadyExists(resName: string): string {
    "resource '" + resName + "' already exists"
  }

  const PositionalNotSupported := "positional arguments are not yet supported"

  function NotAnInput(inputName: string, opName: string): string {
    "'" + inputName + "' is not an input of operation '" + opName + "'"
  }

  function IllegalValue(inputName: string): string {
    "illegal value for input '" + inputName + "'"
  }

  function NamedOutputsNotSupported(opName: string): string {
    "operation '" + opName + "' has named outputs which are not (yet) supported"
  }

  /** How one argument value binds an input port: a port becomes the source; a namespace
      becomes the source through its `return` entry and is illegal without one; any
      other value is stored as the port's value. */
  function BindInput(inputName: string, v: ArgValue): (r: Result<PortBinding, Failure>)
    ensures v.PortArg? ==> r == Ok(Source(v.port))
    ensures v.NamespaceArg? && ReturnOutputName in v.ports ==> r == Ok(Source(v.ports[ReturnOutputName]))
    ensures v.NamespaceArg? && ReturnOutputName !in v.ports ==> r == Err(Raise(IllegalValue(inputName)))
    ensures v.LiteralArg? ==> r == Ok(Value(v.literal))
  {
    match v
    case PortArg(p) => Ok(Source(p))
    case NamespaceArg(ports) =>
      if ReturnOutputName in ports then Ok(Source(ports[ReturnOutputName]))
      else Err(Raise(IllegalValue(inputName)))
    case LiteralArg(l) => Ok(Value(l))
  }

  /** The keyword loop of `set_resource`: binds the arguments in order, stopping at the
      first name that is not an input or the first value that cannot be bound. */
  function BindInputs(inputs: map<string, PortBinding>, kws: seq<Keyword>, opName: string)
    : (r: Result<map<string, PortBinding>, Failure>)
    ensures r.Ok? ==> r.value.Keys == inputs.Keys
    decreases |kws|
  {
    if kws == [] then Ok(inputs)
    else
      var name := kws[0].0;
      if name !in inputs then Err(Raise(NotAnInput(name, opName)))
      else match BindInput(name, kws[0].1)
        case Err(e) => Err(e)
        case Ok(b) => BindInputs(inputs[name := b], kws[1..], opName)
  }

  /** The three `assert`s that open `set_resource`: a non-empty resource name, a
      non-empty operation name and a non-empty argument list. */
  predicate ArgumentsGiven(resName: string, opName: string, opArgs: seq<string>) {
    resName != "" && opName != "" && opArgs != []
  }

  /** The whole of `set_resource`. Every failure before `add_step` leaves the workflow
      as it was. A failure of `resolve_source_refs`, or an operation with named outputs,
      is raised after `add_step`, so the new step stays in the workflow. The header is
      never touched, and a normal return registers the output `resName`. */
  function SetResourceOutcome(wf: Workflow, resName: string, opName: string, opArgs: seq<string>,
                              canExist: bool, validateArgs: bool, env: Env): (o: Outcome)
    ensures o.workflow.header == wf.header
    ensures o.failure.None? ==> resName in o.workflow.outputs && o.workflow.outputs.Keys == wf.outputs.Keys + {resName}
  {
    if !ArgumentsGiven(resName, opName, opArgs) then Outcome(wf, Some(AssertionFailed))
    else if opName !in env.registry then Outcome(wf, Some(Raise(UnknownOperation(opName))))
    else
      var op := env.registry[opName];
      var step := NewStep(op, opName, resName);
      var ns := NamespaceOf(wf.steps);
      var doesExist := resName in ns;
      if !canExist && doesExist then Outcome(wf, Some(Raise(AlreadyExists(resName))))
      else match env.parse(opArgs, ns)
        case ParseFailed(msg) => Outcome(wf, Some(WorkspaceError(Exception("ValueError", msg))))
        case Parsed(positional, kws) =>
          if positional != [] then Outcome(wf, Some(Raise(PositionalNotSupported)))
          else if validateArgs && env.validate(op, kws, ns != map[]).Some? then
            Outcome(wf, Some(InvalidInput(env.validate(op, kws, ns != map[]).value)))
          else match BindInputs(step.inputs, kws, opName)
            case Err(e) => Outcome(wf, Some(e))
            case Ok(inputs) =>
              var added := wf.(steps := AddStep(wf.steps, step.(inputs := inputs)));
              if doesExist && !SourcesResolve(added.steps) then Outcome(added, Some(UnresolvedReference))
              else if op.HasNamedOutputs() then Outcome(added, Some(Raise(NamedOutputsNotSupported(opName))))
              else
                Outcome(added.(outputInfo := added.outputInfo[resName := op.outputs[ReturnOutputName]],
                               outputs := added.outputs[resName := PortRef(resName, ReturnOutputName)]),
                        None)
  }

  // ---------------------------------------------------------------------------
  // The keyword binding loop

  ghost predicate Bindable(inputs: map<string, PortBinding>, kw: Keyword) {
    kw.0 in inputs && BindInput(kw.0, kw.1).Ok?
  }

  /** Binding succeeds exactly when every argument names an input and can be bound. */
  lemma {:induction false} BindInputsSucceeds(inputs: map<string, PortBinding>, kws: seq<Keyword>, opName: string)
    ensures BindInputs(inputs, kws, opName).Ok? <==> forall i :: 0 <= i < |kws| ==> Bindable(inputs, kws[i])
    decreases |kws|
  {
    if kws != [] && Bindable(inputs, kws[0]) {
      var next := inputs[kws[0].0 := BindInput(kws[0].0, kws[0].1).value];
      assert next.Keys == inputs.Keys;
      BindInputsSucceeds(next, kws[1..], opName);
      assert forall i :: 1 <= i < |kws| ==> kws[i] == kws[1..][i - 1];
      assert forall i :: 0 <= i < |kws[1..]| ==> (Bindable(next, kws[1..][i]) <==> Bindable(inputs, kws[1..][i]));
    }
  }

  /** A failed binding reports the first argument that cannot be bound: a name that is
      not an input, or a namespace without a `return` entry. */
  lemma {:induction false} BindInputsFirstFailure(inputs: map<string, PortBinding>, kws: seq<Keyword>, opName: string, i: nat)
    requires i < |kws| && !Bindable(inputs, kws[i])
    requires forall j :: 0 <= j < i ==> Bindable(inputs, kws[j])
    ensures kws[i].0 !in inputs ==> BindInputs(inputs, kws, opName) == Err(Raise(NotAnInput(kws[i].0, opName)))
    ensures kws[i].0 in inputs ==> BindInputs(inputs, kws, opName) == Err(Raise(IllegalValue(kws[i].0)))
    decreases i
  {
    if i > 0 {
      var next := inputs[kws[0].0 := BindInput(kws[0].0, kws[0].1).value];
      assert next.Keys == inputs.Keys;
      assert kws[1..][i - 1] == kws[i];
      assert forall j :: 0 <= j < i - 1 ==> kws[1..][j] == kws[j + 1];
      BindInputsFirstFailure(next, kws[1..], opName, i - 1);
    }
  }

  /** Binding fails only with a `WorkspaceError`. */
  lemma {:induction false} BindInputsErrors(inputs: map<string, PortBinding>, kws: seq<Keyword>, opName: string)
    ensures BindInputs(inputs, kws, opName).Err? ==> BindInputs(inputs, kws, opName).error.WorkspaceError?
    decreases |kws|
  {
    if kws != [] && kws[0].0 in inputs && BindInput(kws[0].0, kws[0].1).Ok? {
      BindInputsErrors(inputs[kws[0].0 := BindInput(kws[0].0, kws[0].1).value], kws[1..], opName);
    }
  }

  ghost predicate DistinctNames(kws: seq<Keyword>) {
    forall i, j :: 0 <= i < j < |kws| ==> kws[i].0 != kws[j].0
  }

  /** After a successful binding each named input holds what its argument binds to,
      and every other input keeps what it held. */
  lemma {:induction false} BindInputsValues(inputs: map<string, PortBinding>, kws: seq<Keyword>, opName: string)
    requires DistinctNames(kws) && BindInputs(inputs, kws, opName).Ok?
    ensures forall i :: 0 <= i < |kws| ==>
      kws[i].0 in inputs && BindInput(kws[i].0, kws[i].1).Ok? && BindInputs(inputs, kws, opName).value[kws[i].0] == BindInput(kws[i].0, kws[i].1).value
    ensures forall n :: n in inputs && (forall i :: 0 <= i < |kws| ==> kws[i].0 != n) ==>
      BindInputs(inputs, kws, opName).value[n] == inputs[n]
    decreases |kws|
  {
    if kws != [] {
      var b := BindInput(kws[0].0, kws[0].1).value;
      var next := inputs[kws[0].0 := b];
      var rest := kws[1..];
      assert forall i :: 0 <= i < |rest| ==> rest[i] == kws[i + 1];
      BindInputsValues(next, rest, opName);
      var r := BindInputs(inputs, kws, opName).value;
      assert r == BindInputs(next, rest, opName).value;
      assert forall i :: 0 <= i < |rest| ==> rest[i].0 != kws[0].0;
      assert r[kws[0].0] == b;
    }
  }

  // ---------------------------------------------------------------------------
  // Properties of set_resource

  /** The checks `set_resource` passes before it calls `add_step`. */
  ghost predicate ReachesAddStep(wf: Workflow, resName: string, opName: string, opArgs: seq<string>,
                                 canExist: bool, validateArgs: bool, env: Env) {
    && ArgumentsGiven(resName, opName, opArgs)
    && opName in env.registry
    && (canExist || !HasStep(wf.steps, resName))
    && var ns := NamespaceOf(wf.steps);
       var op := env.registry[opName];
       && env.parse(opArgs, ns).Parsed?
       && env.parse(opArgs, ns).positional == []
       && (validateArgs ==> env.validate(op, env.parse(opArgs, ns).keywords, ns != map[]).None?)
       && BindInputs(NewStep(op, opName, resName).inputs, env.parse(opArgs, ns).keywords, opName).Ok?
  }

  /** The step `set_resource` adds, once it reaches `add_step`. */
  ghost function BoundStep(wf: Workflow, resName: string, opName: string, opArgs: seq<string>,
                           canExist: bool, validateArgs: bool, env: Env): Step
    requires ReachesAddStep(wf, resName, opName, opArgs, canExist, validateArgs, env)
  {
    var op := env.registry[opName];
    var step := NewStep(op, opName, resName);
    step.(inputs := BindInputs(step.inputs, env.parse(opArgs, NamespaceOf(wf.steps)).keywords, opName).value)
  }

  /** An empty resource name, operation name or argument list fails the opening
      `assert`s, before anything else is looked at, and the workflow is unchanged. */
  lemma AssertionsRejected(wf: Workflow, resName: string, opName: string, opArgs: seq<string>,
                           canExist: bool, validateArgs: bool, env: Env)
    ensures !ArgumentsGiven(resName, opName, opArgs) <==>
            SetResourceOutcome(wf, resName, opName, opArgs, canExist, validateArgs, env) == Outcome(wf, Some(AssertionFailed))
  {
    if ArgumentsGiven(resName, opName, opArgs) && opName in env.registry {
      var o := SetResourceOutcome(wf, resName, opName, opArgs, canExist, validateArgs, env);
      var ns := NamespaceOf(wf.steps);
      var parsed := env.parse(opArgs, ns);
      if (canExist || resName !in ns) && parsed.Parsed? && parsed.positional == [] {
        var op := env.registry[opName];
        if !validateArgs || env.validate(op, parsed.keywords, ns != map[]).None? {
          match BindInputs(NewStep(op, opName, resName).inputs, parsed.keywords, opName)
          case Err(e) =>
            assert e.WorkspaceError? by { BindInputsErrors(NewStep(op, opName, resName).inputs, parsed.keywords, opName); }
          case Ok(_) =>
        }
      }
      assert o.failure != Some(AssertionFailed);
    }
  }

  /** An operation the registry does not know is rejected, and the workflow is unchanged. */
  lemma UnknownOperationRejected(wf: Workflow, resName: string, opName: string, opArgs: seq<string>,
                                 canExist: bool, validateArgs: bool, env: Env)
    requires ArgumentsGiven(resName, opName, opArgs) && opName !in env.registry
    ensures SetResourceOutcome(wf, resName, opName, opArgs, canExist, validateArgs, env)
         == Outcome(wf, Some(Raise(UnknownOperation(opName))))
  {
  }

  /** Without `can_exist`, a resource name that is already a step id is rejected before
      any arguments are parsed, and the workflow is unchanged. */
  lemma DuplicateRejected(wf: Workflow, resName: string, opName: string, opArgs: seq<string>,
                          validateArgs: bool, env: Env)
    requires ArgumentsGiven(resName, opName, opArgs) && opName in env.registry && HasStep(wf.steps, resName)
    ensures SetResourceOutcome(wf, resName, opName, opArgs, false, validateArgs, env)
         == Outcome(wf, Some(Raise(AlreadyExists(resName))))
  {
    NamespaceKeys(wf.steps, resName);
  }

  /** Positional arguments are rejected, and the workflow is unchanged. */
  lemma PositionalRejected(wf: Workflow, resName: string, opName: string, opArgs: seq<string>,
                           canExist: bool, validateArgs: bool, env: Env)
    requires ArgumentsGiven(resName, opName, opArgs) && opName in env.registry && (canExist || !HasStep(wf.steps, resName))
    requires env.parse(opArgs, NamespaceOf(wf.steps)).Parsed?
    requires env.parse(opArgs, NamespaceOf(wf.steps)).positional != []
    ensures SetResourceOutcome(wf, resName, opName, opArgs, canExist, validateArgs, env)
         == Outcome(wf, Some(Raise(PositionalNotSupported)))
  {
    NamespaceKeys(wf.steps, resName);
  }

  /** A keyword that is not an input of the operation, or a namespace value without a
      `return` entry, is rejected with a message naming that input; the first such
      keyword decides, and the workflow is unchanged. */
  lemma BadKeywordRejected(wf: Workflow, resName: string, opName: string, opArgs: seq<string>,
                           canExist: bool, validateArgs: bool, env: Env, i: nat)
    requires ArgumentsGiven(resName, opName, opArgs) && opName in env.registry && (canExist || !HasStep(wf.steps, resName))
    requires env.parse(opArgs, NamespaceOf(wf.steps)).Parsed?
    requires env.parse(opArgs, NamespaceOf(wf.steps)).positional == []
    requires validateArgs ==> env.validate(env.registry[opName], env.parse(opArgs, NamespaceOf(wf.steps)).keywords,
                                           NamespaceOf(wf.steps) != map[]).None?
    requires var kws := env.parse(opArgs, NamespaceOf(wf.steps)).keywords;
             var inputs := NewStep(env.registry[opName], opName, resName).inputs;
             i < |kws| && !Bindable(inputs, kws[i]) && forall j :: 0 <= j < i ==> Bindable(inputs, kws[j])
    ensures var name := env.parse(opArgs, NamespaceOf(wf.steps)).keywords[i].0;
            (SetResourceOutcome(wf, resName, opName, opArgs, canExist, validateArgs, env)
             == Outcome(wf, Some(Raise(if name in env.registry[opName].inputNames then IllegalValue(name) else NotAnInput(name, opName)))))
  {
    NamespaceKeys(wf.steps, resName);
    var kws := env.parse(opArgs, NamespaceOf(wf.steps)).keywords;
    BindInputsFirstFailure(NewStep(env.registry[opName], opName, resName).inputs, kws, opName, i);
  }

  /** A call that does not reach `add_step` raises and leaves the workflow unchanged. */
  lemma UnchangedUnlessAddStepReached(wf: Workflow, resName: string, opName: string, opArgs: seq<string>,
                                      canExist: bool, validateArgs: bool, env: Env)
    requires !ReachesAddStep(wf, resName, opName, opArgs, canExist, validateArgs, env)
    ensures SetResourceOutcome(wf, resName, opName, opArgs, canExist, validateArgs, env).workflow == wf
    ensures SetResourceOutcome(wf, resName, opName, opArgs, canExist, validateArgs, env).failure.Some?
  {
    if ArgumentsGiven(resName, opName, opArgs) && opName in env.registry {
      NamespaceKeys(wf.steps, resName);
      if canExist || !HasStep(wf.steps, resName) {
        var parsed := env.parse(opArgs, NamespaceOf(wf.steps));
        if parsed.Parsed? && parsed.positional == [] {
          var op := env.registry[opName];
          if !validateArgs || env.validate(op, parsed.keywords, NamespaceOf(wf.steps) != map[]).None? {
            assert BindInputs(NewStep(op, opName, resName).inputs, parsed.keywords, opName).Err?;
          }
        }
      }
    }
  }

  /** A call that reaches `add_step` leaves the bound step in the workflow whatever is
      raised afterwards. */
  lemma StepAddedOnceReached(wf: Workflow, resName: string, opName: string, opArgs: seq<string>,
                             canExist: bool, validateArgs: bool, env: Env)
    requires ReachesAddStep(wf, resName, opName, opArgs, canExist, validateArgs, env)
    ensures SetResourceOutcome(wf, resName, opName, opArgs, canExist, validateArgs, env).workflow.steps
         == AddStep(wf.steps, BoundStep(wf, resName, opName, opArgs, canExist, validateArgs, env))
  {
    NamespaceKeys(wf.steps, resName);
  }

  /** An operation with named outputs is refused after `add_step`: the failure is
      raised, the new step stays in the workflow, and no output alias is registered. */
  lemma NamedOutputsRefusedAfterAddStep(wf: Workflow, resName: string, opName: string, opArgs: seq<string>,
                                        canExist: bool, validateArgs: bool, env: Env)
    requires ReachesAddStep(wf, resName, opName, opArgs, canExist, validateArgs, env)
    requires env.registry[opName].HasNamedOutputs()
    requires HasStep(wf.steps, resName) ==>
      SourcesResolve(AddStep(wf.steps, BoundStep(wf, resName, opName, opArgs, canExist, validateArgs, env)))
    ensures var o := SetResourceOutcome(wf, resName, opName, opArgs, canExist, validateArgs, env);
            && o.failure == Some(Raise(NamedOutputsNotSupported(opName)))
            && HasStep(o.workflow.steps, resName)
            && o.workflow.outputs == wf.outputs && o.workflow.outputInfo == wf.outputInfo
  {
    NamespaceKeys(wf.steps, resName);
    AddStepFinds(wf.steps, BoundStep(wf, resName, opName, opArgs, canExist, validateArgs, env));
  }

  /** When `set_resource` returns normally: the workflow holds the step `resName` for
      `opName` inputs bound from the arguments. That step replaced the previous one in
      place or was appended. All other steps are untouched. After a replacement every
      reference resolves. The graph output `resName` takes its value from the step's
      `return` output, which exists. Nothing else about the outputs or the header
      changed. */
  lemma SuccessfulSet(wf: Workflow, resName: string, opName: string, opArgs: seq<string>,
                      canExist: bool, validateArgs: bool, env: Env)
    requires SetResourceOutcome(wf, resName, opName, opArgs, canExist, validateArgs, env).failure.None?
    ensures ReachesAddStep(wf, resName, opName, opArgs, canExist, validateArgs, env)
    ensures var w := SetResourceOutcome(wf, resName, opName, opArgs, canExist, validateArgs, env).workflow;
            var s := BoundStep(wf, resName, opName, opArgs, canExist, validateArgs, env);
            && s.id == resName && s.opName == opName && s.op == env.registry[opName]
            && s.inputs.Keys == env.registry[opName].inputNames
            && IndexOf(w.steps, resName).Some? && w.steps[IndexOf(w.steps, resName).value] == s
            && (HasStep(wf.steps, resName) ==> |w.steps| == |wf.steps| && IndexOf(w.steps, resName) == IndexOf(wf.steps, resName))
            && (!HasStep(wf.steps, resName) ==> w.steps == wf.steps + [s])
            && (forall j :: 0 <= j < |wf.steps| && wf.steps[j].id != resName ==> w.steps[j] == wf.steps[j])
            && (HasStep(wf.steps, resName) ==> SourcesResolve(w.steps))
            && !env.registry[opName].HasNamedOutputs()
            && w.outputs == wf.outputs[resName := PortRef(resName, ReturnOutputName)]
            && RefResolves(w.steps, PortRef(resName, ReturnOutputName))
            && w.outputInfo == wf.outputInfo[resName := env.registry[opName].outputs[ReturnOutputName]]
            && w.header == wf.header
  {
    NamespaceKeys(wf.steps, resName);
    var s := BoundStep(wf, resName, opName, opArgs, canExist, validateArgs, env);
    var w := SetResourceOutcome(wf, resName, opName, opArgs, canExist, validateArgs, env).workflow;
    AddStepFinds(wf.steps, s);
    assert w.steps == AddStep(wf.steps, s);
    var k := IndexOf(w.steps, resName).value;
    assert w.steps[k].id == resName && ReturnOutputName in w.steps[k].op.outputs;
  }

  /** `set_resource` returns normally exactly when every check before `add_step` passes,
      a replacement leaves every reference resolvable, and the operation has only the
      `return` output. */
  lemma SetResourceSucceedsIff(wf: Workflow, resName: string, opName: string, opArgs: seq<string>,
                               canExist: bool, validateArgs: bool, env: Env)
    ensures SetResourceOutcome(wf, resName, opName, opArgs, canExist, validateArgs, env).failure.None? <==>
      && ReachesAddStep(wf, resName, opName, opArgs, canExist, validateArgs, env)
      && (HasStep(wf.steps, resName) ==>
            SourcesResolve(AddStep(wf.steps, BoundStep(wf, resName, opName, opArgs, canExist, validateArgs, env))))
      && !env.registry[opName].HasNamedOutputs()
  {
    if ArgumentsGiven(resName, opName, opArgs) && opName in env.registry {
      NamespaceKeys(wf.steps, resName);
    }
  }

  /** Setting a resource twice without `can_exist` the second time: the second call is
      rejected as a duplicate and changes nothing. */
  lemma SecondSetRejected(wf: Workflow, resName: string, opName: string, opArgs: seq<string>,
                          canExist: bool, validateArgs: bool,
                          opName2: string, opArgs2: seq<string>, validateArgs2: bool, env: Env)
    requires SetResourceOutcome(wf, resName, opName, opArgs, canExist, validateArgs, env).failure.None?
    requires ArgumentsGiven(resName, opName2, opArgs2) && opName2 in env.registry
    ensures var w := SetResourceOutcome(wf, resName, opName, opArgs, canExist, validateArgs, env).workflow;
            (SetResourceOutcome(w, resName, opName2, opArgs2, false, validateArgs2, env)
             == Outcome(w, Some(Raise(AlreadyExists(resName)))))
  {
    SuccessfulSet(wf, resName, opName, opArgs, canExist, validateArgs, env);
    var w := SetResourceOutcome(wf, resName, opName, opArgs, canExist, validateArgs, env).workflow;
    assert w.steps[IndexOf(w.steps, resName).value].id == resName;
    DuplicateRejected(w, resName, opName2, opArgs2, validateArgs2, env);
  }

  /** `set_resource` keeps the step ids of a workflow distinct. */
  lemma SetResourceKeepsIdsUnique(wf: Workflow, resName: string, opName: string, opArgs: seq<string>,
                                  canExist: bool, validateArgs: bool, env: Env)
    requires UniqueIds(wf.steps)
    ensures UniqueIds(SetResourceOutcome(wf, resName, opName, opArgs, canExist, validateArgs, env).workflow.steps)
  {
    if ReachesAddStep(wf, resName, opName, opArgs, canExist, validateArgs, env) {
      StepAddedOnceReached(wf, resName, opName, opArgs, canExist, validateArgs, env);
      AddStepUnique(wf.steps, BoundStep(wf, resName, opName, opArgs, canExist, validateArgs, env));
    } else {
      UnchangedUnlessAddStepReached(wf, resName, opName, opArgs, canExist, validateArgs, env);
    }
  }

  /** After a normal return, the namespace that the next `set_resource` parses its
      arguments against has an entry for `resName`: the new step's single `return`
      output, the port the graph output `resName` takes its value from. So a later
      resource can take this one as an argument. */
  lemma NextCallSeesResource(wf: Workflow, resName: string, opName: string, opArgs: seq<string>,
                             canExist: bool, validateArgs: bool, env: Env)
    requires UniqueIds(wf.steps)
    requires SetResourceOutcome(wf, resName, opName, opArgs, canExist, validateArgs, env).failure.None?
    ensures var w := SetResourceOutcome(wf, resName, opName, opArgs, canExist, validateArgs, env).workflow;
            && resName in NamespaceOf(w.steps)
            && NamespaceOf(w.steps)[resName].Keys == {ReturnOutputName}
            && NamespaceOf(w.steps)[resName][ReturnOutputName] == w.outputs[resName]
  {
    SuccessfulSet(wf, resName, opName, opArgs, canExist, validateArgs, env);
    SetResourceKeepsIdsUnique(wf, resName, opName, opArgs, canExist, validateArgs, env);
    var w := SetResourceOutcome(wf, resName, opName, opArgs, canExist, validateArgs, env).workflow;
    NamespaceEntry(w.steps, IndexOf(w.steps, resName).value);
  }
}
