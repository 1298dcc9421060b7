/** The dataflow graph a workspace records, stored as an arena. Steps live in one
    sequence and are identified by their resource name. An input port holds nothing,
    a literal, or a reference `(step id, output name)` that is resolved through the
    graph rather than through a live pointer. `ect.core.workflow` itself is not part
    of this model. This module holds only the parts of it that `Workspace.set_resource`
    relies on: creating a step, the steps' output namespace, `add_step` and
    `resolve_source_refs`. */
module Workflows {
  import opened Wrappers

  /** `OpMetaInfo.RETURN_OUTPUT_NAME`: the name of an operation's single implicit output. */
  const ReturnOutputName := "return"

  /** A reference to the output port `portName` of the step whose id is `stepId`. */
  datatype PortRef = PortRef(stepId: string, portName: string)

  /** A literal argument value, by its Python `repr`. */
  datatype Literal = Literal(repr: string)

  /** What an input port holds. */
  datatype PortBinding = Unbound | Value(value: Literal) | Source(source: PortRef)

  /** The properties an operation declares for one output (data type, description, ...). */
  type OutputProps = map<string, string>

  /** An operation's meta-info: the names of its inputs and its declared outputs. */
  datatype OpInfo = OpInfo(inputNames: set<string>, outputs: map<string, OutputProps>) {
    /** An operation has named outputs unless its only output is the implicit `return`. */
    predicate HasNamedOutputs() {
      outputs.Keys != {ReturnOutputName}
    }
  }

  /** An `OpStep`: one invocation of the operation `opName`, with one port per input. */
  datatype Step = Step(id: string, opName: string, op: OpInfo, inputs: map<string, PortBinding>)

  /** A workflow: header metadata, ordered steps, and graph-level outputs. Each output has
      its declared properties (`op_meta_info.output`) and the port it takes its value from
      (`output[name].source`). */
  datatype Workflow = Workflow(
    header: map<string, string>,
    steps: seq<Step>,
    outputInfo: map<string, OutputProps>,
    outputs: map<string, PortRef>)

  /** `OpStep(op, id)`: a fresh step whose input ports are all unbound. */
  function NewStep(op: OpInfo, opName: string, id: string): (s: Step)
    ensures s.id == id && s.opName == opName && s.op == op
    ensures s.inputs.Keys == op.inputNames
    ensures forall n :: n in s.inputs ==> s.inputs[n] == Unbound
  {
    Step(id, opName, op, map n | n in op.inputNames :: Unbound)
  }

  /** `Workspace.new_workflow`: a workflow with the given header, no steps and no outputs. */
  function NewWorkflow(header: map<string, string>): (w: Workflow)
    ensures w.header == header && w.steps == [] && w.outputs == map[] && w.outputInfo == map[]
  {
    Workflow(header, [], map[], map[])
  }

  /** `step.output`: each output name of the step, mapped to its port. */
  function OutputNamespace(s: Step): (ns: map<string, PortRef>)
    ensures ns.Keys == s.op.outputs.Keys
    ensures forall n :: n in ns ==> ns[n] == PortRef(s.id, n)
  {
    map n | n in s.op.outputs :: PortRef(s.id, n)
  }

  /** What `set_resource` parses arguments against: step id to output namespace. */
  type Namespace = map<string, map<string, PortRef>>

  /** The namespace built by filling a dict with the steps in order, so a later step
      overwrites an earlier one that has the same id. */
  function NamespaceOf(steps: seq<Step>): Namespace
    decreases |steps|
  {
    if steps == [] then map[]
    else NamespaceOf(steps[..|steps| - 1])[steps[|steps| - 1].id := OutputNamespace(steps[|steps| - 1])]
  }

  ghost predicate HasStep(steps: seq<Step>, id: string) {
    exists i :: 0 <= i < |steps| && steps[i].id == id
  }

  predicate UniqueIds(steps: seq<Step>) {
    forall i, j :: 0 <= i < j < |steps| ==> steps[i].id != steps[j].id
  }

  /** The namespace has an entry for exactly the ids of the steps. */
  lemma {:induction false} NamespaceKeys(steps: seq<Step>, id: string)
    ensures id in NamespaceOf(steps) <==> HasStep(steps, id)
    decreases |steps|
  {
    if steps != [] {
      var init := steps[..|steps| - 1];
      NamespaceKeys(init, id);
      if HasStep(init, id) {
        var i :| 0 <= i < |init| && init[i].id == id;
        assert steps[i].id == id;
      }
      if HasStep(steps, id) && steps[|steps| - 1].id != id {
        var i :| 0 <= i < |steps| && steps[i].id == id;
        assert init[i].id == id;
      }
    }
  }

  /** With distinct ids, the namespace entry of a step is that step's output namespace. */
  lemma {:induction false} NamespaceEntry(steps: seq<Step>, i: nat)
    requires UniqueIds(steps) && i < |steps|
    ensures steps[i].id in NamespaceOf(steps)
    ensures NamespaceOf(steps)[steps[i].id] == OutputNamespace(steps[i])
    decreases |steps|
  {
    if i < |steps| - 1 {
      var init := steps[..|steps| - 1];
      assert init[i] == steps[i];
      NamespaceEntry(init, i);
    }
  }

  /** Position of the first step with the given id. */
  function IndexOf(steps: seq<Step>, id: string): (r: Option<nat>)
    ensures r.Some? ==> r.value < |steps| && steps[r.value].id == id
    ensures r.Some? ==> forall j :: 0 <= j < r.value ==> steps[j].id != id
    ensures r.None? <==> !HasStep(steps, id)
    decreases |steps|
  {
    if steps == [] then None
    else if steps[0].id == id then Some(0)
    else match IndexOf(steps[1..], id)
      case None => assert forall j :: 1 <= j < |steps| ==> steps[j] == steps[1..][j - 1]; None
      case Some(k) => Some(k + 1)
  }

  /** `add_step(step, can_exist=True)`: a step whose id is already present replaces that
      step where it stands; otherwise the step is appended. */
  function AddStep(steps: seq<Step>, step: Step): (r: seq<Step>)
    ensures HasStep(steps, step.id) ==> |r| == |steps|
    ensures !HasStep(steps, step.id) ==> r == steps + [step]
    ensures forall j :: 0 <= j < |steps| && steps[j].id != step.id ==> r[j] == steps[j]
  {
    match IndexOf(steps, step.id)
    case Some(i) => steps[i := step]
    case None => steps + [step]
  }

  /** After `add_step`, looking the new step's id up finds the new step, and it sits
      where the step it replaced stood. */
  lemma AddStepFinds(steps: seq<Step>, step: Step)
    ensures IndexOf(AddStep(steps, step), step.id).Some?
    ensures AddStep(steps, step)[IndexOf(AddStep(steps, step), step.id).value] == step
    ensures HasStep(steps, step.id) ==> IndexOf(AddStep(steps, step), step.id) == IndexOf(steps, step.id)
    ensures !HasStep(steps, step.id) ==> IndexOf(AddStep(steps, step), step.id) == Some(|steps|)
  {
    var r := AddStep(steps, step);
    match IndexOf(steps, step.id)
    case Some(i) =>
      assert r[i] == step;
      assert HasStep(r, step.id);
      assert forall j :: 0 <= j < i ==> r[j] == steps[j];
    case None =>
      assert r[|steps|] == step;
      assert HasStep(r, step.id);
      assert forall j :: 0 <= j < |steps| ==> r[j] == steps[j];
  }

  /** `add_step` keeps step ids distinct. */
  lemma AddStepUnique(steps: seq<Step>, step: Step)
    requires UniqueIds(steps)
    ensures UniqueIds(AddStep(steps, step))
  {
    var r := AddStep(steps, step);
    if !HasStep(steps, step.id) {
      forall i | 0 <= i < |steps|
        ensures r[i].id != step.id
      {
        assert r[i] == steps[i];
      }
    }
  }

  /** A reference names an existing step and one of that step's outputs. */
  predicate RefResolves(steps: seq<Step>, p: PortRef) {
    exists k :: 0 <= k < |steps| && steps[k].id == p.stepId && p.portName in steps[k].op.outputs
  }

  /** What `resolve_source_refs` demands: every input reference of every step resolves. */
  predicate SourcesResolve(steps: seq<Step>) {
    forall i, n :: 0 <= i < |steps| && n in steps[i].inputs && steps[i].inputs[n].Source? ==>
      RefResolves(steps, steps[i].inputs[n].source)
  }
}
