/** `Workspace`: a base directory and the workflow recorded there. It is stored in
    `<base_dir>/.ect-workspace/workflow.json`. */
module Workspaces {
  import opened Wrappers
  import opened Paths
  import opened Workflows
  import opened WorkspaceErrors
  import opened FileSystems
  import opened Resources

  const WorkspaceDataDirName := ".ect-workspace"
  const WorkspaceWorkflowFileName := "workflow.json"

  /** `Workspace.get_workspace_dir`. */
  function GetWorkspaceDir(baseDir: string): (d: string)
    ensures d != "" && d[|d| - 1] != '/'
  {
    Join(baseDir, WorkspaceDataDirName)
  }

  /** `Workspace.get_workflow_file`. */
  function GetWorkflowFile(baseDir: string): (f: string)
    ensures |f| > |GetWorkspaceDir(baseDir)|
  {
    Join(GetWorkspaceDir(baseDir), WorkspaceWorkflowFileName)
  }

  /** The workflow file lies directly in the workspace directory, which lies below the
      base directory. */
  lemma WorkflowFileLocation(baseDir: string)
    ensures Dirname(GetWorkflowFile(baseDir)) == GetWorkspaceDir(baseDir)
    ensures Under(GetWorkspaceDir(baseDir), GetWorkflowFile(baseDir))
    ensures GetWorkflowFile(baseDir) != GetWorkspaceDir(baseDir)
    ensures baseDir != "" ==> Under(baseDir, GetWorkspaceDir(baseDir))
  {
    var d := GetWorkspaceDir(baseDir);
    DirnameOfJoin(d, WorkspaceWorkflowFileName);
    assert GetWorkflowFile(baseDir) == d + "/" + WorkspaceWorkflowFileName;
    assert (d + "/" + WorkspaceWorkflowFileName)[..|d| + 1] == d + "/";
    if baseDir != "" && baseDir[|baseDir| - 1] != '/' {
      assert d == baseDir + "/" + WorkspaceDataDirName;
      assert (baseDir + "/" + WorkspaceDataDirName)[..|baseDir| + 1] == baseDir + "/";
    }
  }

  /** The first loop of `set_resource`: maps each step id to the step's outputs, a later
      step overwriting an earlier one with the same id. */
  method BuildNamespace(steps: seq<Step>) returns (namespace: Namespace)
    ensures namespace == NamespaceOf(steps)
  {
    namespace := map[];
    var i := 0;
    while i < |steps|
      invariant 0 <= i <= |steps|
      invariant namespace == NamespaceOf(steps[..i])
    {
      assert steps[..i + 1][..i] == steps[..i];
      namespace := namespace[steps[i].id := OutputNamespace(steps[i])];
      i := i + 1;
    }
    assert steps[..|steps|] == steps;
  }

  /** The keyword loop of `set_resource`: binds each keyword argument to the input of that
      name, and stops at the first name that is not an input or the first namespace
      without a `return` entry. */
  method BindKeywords(inputs0: map<string, PortBinding>, kwargs: seq<Keyword>, opName: string)
    returns (r: Result<map<string, PortBinding>, Failure>)
    ensures r == BindInputs(inputs0, kwargs, opName)
  {
    var inputs := inputs0;
    var k := 0;
    while k < |kwargs|
      invariant 0 <= k <= |kwargs|
      invariant BindInputs(inputs, kwargs[k..], opName) == BindInputs(inputs0, kwargs, opName)
    {
      var inputName := kwargs[k].0;
      var inputValue := kwargs[k].1;
      assert kwargs[k..][1..] == kwargs[k + 1..];
      if inputName !in inputs {
        return Err(Raise(NotAnInput(inputName, opName)));
      }
      match inputValue {
        case PortArg(outputPort) =>
          inputs := inputs[inputName := Source(outputPort)];
        case NamespaceArg(outputNamespace) =>
          if ReturnOutputName !in outputNamespace {
            return Err(Raise(IllegalValue(inputName)));
          }
          inputs := inputs[inputName := Source(outputNamespace[ReturnOutputName])];
        case LiteralArg(value) =>
          inputs := inputs[inputName := Value(value)];
      }
      k := k + 1;
    }
    r := Ok(inputs);
  }

  /** `description or ''`. */
  function DescriptionOrEmpty(description: Option<string>): (d: string)
    ensures description.Some? ==> d == description.value
    ensures d == "" <==> description.None? || description == Some("")
  {
    if description.Some? then description.value else ""
  }

  class Workspace {
    const baseDir: string
    var workflow: Workflow

    /** `Workspace(base_dir, workflow)`, which asserts a non-empty base directory. */
    constructor (baseDir: string, workflow: Workflow)
      requires baseDir != ""
      ensures this.baseDir == baseDir && this.workflow == workflow
    {
      this.baseDir := baseDir;
      this.workflow := workflow;
    }

    /** `Workspace.create`: makes the base and workspace directories as needed and stores
        a new workflow whose header holds the description (`''` when none is given). An
        existing workflow file is refused. Every OS error is raised as a `WorkspaceError`. */
    static method Create(fs: FileSystem, baseDir: string, description: Option<string>) returns (r: Result<Workspace, Failure>)
      requires baseDir != ""
      modifies fs
      ensures r.Ok? ==> fresh(r.value) && r.value.baseDir == baseDir &&
                        r.value.workflow == NewWorkflow(map["description" := DescriptionOrEmpty(description)]) &&
                        fs.IsFile(GetWorkflowFile(baseDir)) && fs.entries[GetWorkflowFile(baseDir)].workflow == r.value.workflow
      ensures r.Err? ==> r.error.WorkspaceError?
      ensures old(fs.IsDir(baseDir)) && old(fs.IsDir(GetWorkspaceDir(baseDir))) && old(fs.IsFile(GetWorkflowFile(baseDir))) ==>
                r == Err(Raise("workspace exists: " + baseDir)) && fs.entries == old(fs.entries)
      ensures old(fs.IsDir(baseDir)) && old(fs.IsDir(GetWorkspaceDir(baseDir))) && GetWorkflowFile(baseDir) !in old(fs.entries) ==>
                r.Ok? && fs.entries == old(fs.entries)[GetWorkflowFile(baseDir) := File(r.value.workflow)]
      ensures Dirname(GetWorkspaceDir(baseDir)) == baseDir && old(fs.IsDir(baseDir)) &&
              GetWorkspaceDir(baseDir) !in old(fs.entries) && GetWorkflowFile(baseDir) !in old(fs.entries) ==>
                r.Ok? && fs.entries == old(fs.entries)[GetWorkspaceDir(baseDir) := Dir][GetWorkflowFile(baseDir) := File(r.value.workflow)]
      ensures Dirname(GetWorkspaceDir(baseDir)) == baseDir && baseDir !in old(fs.entries) && old(fs.IsDir(Dirname(baseDir))) &&
              GetWorkspaceDir(baseDir) !in old(fs.entries) && GetWorkflowFile(baseDir) !in old(fs.entries) ==>
                r.Ok? && fs.entries == old(fs.entries)[baseDir := Dir][GetWorkspaceDir(baseDir) := Dir][GetWorkflowFile(baseDir) := File(r.value.workflow)]
    {
      WorkflowFileLocation(baseDir);
      if !fs.IsDir(baseDir) {
        var e := fs.MkDir(baseDir);
        if e.Some? {
          return Err(WrapOSError(e.value));
        }
      }
      var workspaceDir := GetWorkspaceDir(baseDir);
      var workflowFile := GetWorkflowFile(baseDir);
      if !fs.IsDir(workspaceDir) {
        var e := fs.MkDir(workspaceDir);
        if e.Some? {
          return Err(WrapOSError(e.value));
        }
      } else if fs.IsFile(workflowFile) {
        return Err(Raise("workspace exists: " + baseDir));
      }
      var w := NewWorkflow(map["description" := DescriptionOrEmpty(description)]);
      var e := fs.WriteWorkflow(workflowFile, w);
      if e.Some? {
        return Err(WrapOSError(e.value));
      }
      var ws := new Workspace(baseDir, w);
      r := Ok(ws);
    }

    /** `Workspace.load`: a missing workspace directory raises the non-`WorkspaceError`
        "not a valid workspace"; a missing or unreadable workflow file raises a
        `WorkspaceError`; otherwise the stored workflow is read back. */
    static method Load(fs: FileSystem, baseDir: string) returns (r: Result<Workspace, Failure>)
      requires baseDir != ""
      ensures !fs.IsDir(GetWorkspaceDir(baseDir)) ==> r == Err(NotValidWorkspace("not a valid workspace: " + baseDir))
      ensures r.Ok? ==> fresh(r.value)
      ensures fs.IsDir(GetWorkspaceDir(baseDir)) && fs.IsFile(GetWorkflowFile(baseDir)) ==>
                r.Ok? && fresh(r.value) && r.value.baseDir == baseDir &&
                r.value.workflow == fs.entries[GetWorkflowFile(baseDir)].workflow
      ensures fs.IsDir(GetWorkspaceDir(baseDir)) && !fs.IsFile(GetWorkflowFile(baseDir)) ==>
                r.Err? && r.error.WorkspaceError?
    {
      if !fs.IsDir(GetWorkspaceDir(baseDir)) {
        return Err(NotValidWorkspace("not a valid workspace: " + baseDir));
      }
      var read := fs.ReadWorkflow(GetWorkflowFile(baseDir));
      match read
      case Err(e) => r := Err(WrapOSError(e));
      case Ok(w) =>
        var ws := new Workspace(baseDir, w);
        r := Ok(ws);
    }

    /** `Workspace.store`: writes the workflow to the workflow file; this fails as a
        `WorkspaceError` when the workspace directory is missing. */
    method Store(fs: FileSystem) returns (err: Option<Failure>)
      modifies fs
      ensures old(fs.IsDir(GetWorkspaceDir(baseDir))) && !old(fs.IsDir(GetWorkflowFile(baseDir))) ==>
                err == None && fs.entries == old(fs.entries)[GetWorkflowFile(baseDir) := File(workflow)]
      ensures !old(fs.IsDir(GetWorkspaceDir(baseDir))) || old(fs.IsDir(GetWorkflowFile(baseDir))) ==>
                err.Some? && err.value.WorkspaceError? && fs.entries == old(fs.entries)
    {
      WorkflowFileLocation(baseDir);
      var e := fs.WriteWorkflow(GetWorkflowFile(baseDir), workflow);
      err := if e.Some? then Some(WrapOSError(e.value)) else None;
    }

    /** `Workspace.delete`: removes the workspace directory and all it holds. */
    method Delete(fs: FileSystem) returns (err: Option<Failure>)
      modifies fs
      ensures old(fs.IsDir(GetWorkspaceDir(baseDir))) ==>
                err == None && (forall q :: q in fs.entries <==> q in old(fs.entries) && !Under(GetWorkspaceDir(baseDir), q)) &&
                (forall q :: q in fs.entries ==> fs.entries[q] == old(fs.entries)[q])
      ensures !old(fs.IsDir(GetWorkspaceDir(baseDir))) ==> err.Some? && err.value.WorkspaceError? && fs.entries == old(fs.entries)
    {
      var e := fs.RemoveTree(GetWorkspaceDir(baseDir));
      err := if e.Some? then Some(WrapOSError(e.value)) else None;
    }

    /** `Workspace.set_resource`, which first asserts a non-empty resource name, operation
        name and argument list. The workflow it leaves and what it raises are those that
        `SetResourceOutcome` gives for the workflow it started from. */
    method SetResource(resName: string, opName: string, opArgs: seq<string>,
                       canExist: bool, validateArgs: bool, env: Env) returns (failure: Option<Failure>)
      modifies this
      ensures workflow == SetResourceOutcome(old(workflow), resName, opName, opArgs, canExist, validateArgs, env).workflow
      ensures failure == SetResourceOutcome(old(workflow), resName, opName, opArgs, canExist, validateArgs, env).failure
    {
      if resName == "" || opName == "" || opArgs == [] {
        return Some(AssertionFailed);
      }
      if opName !in env.registry {
        return Some(Raise(UnknownOperation(opName)));
      }
      var op := env.registry[opName];
      var opStep := NewStep(op, opName, resName);

      var namespace := BuildNamespace(workflow.steps);
      var doesExist := resName in namespace;
      if !canExist && doesExist {
        return Some(Raise(AlreadyExists(resName)));
      }

      var parsed := env.parse(opArgs, namespace);
      if parsed.ParseFailed? {
        return Some(WorkspaceError(Exception("ValueError", parsed.message)));
      }
      if parsed.positional != [] {
        return Some(Raise(PositionalNotSupported));
      }
      var kwargs := parsed.keywords;
      if validateArgs {
        var invalid := env.validate(op, kwargs, namespace != map[]);
        if invalid.Some? {
          return Some(InvalidInput(invalid.value));
        }
      }

      var bound := BindKeywords(opStep.inputs, kwargs, opName);
      if bound.Err? {
        return Some(bound.error);
      }
      var inputs := bound.value;

      workflow := workflow.(steps := AddStep(workflow.steps, opStep.(inputs := inputs)));
      if doesExist && !SourcesResolve(workflow.steps) {
        return Some(UnresolvedReference);
      }
      if op.HasNamedOutputs() {
        return Some(Raise(NamedOutputsNotSupported(opName)));
      }
      workflow := workflow.(outputInfo := workflow.outputInfo[resName := op.outputs[ReturnOutputName]]);
      workflow := workflow.(outputs := workflow.outputs[resName := PortRef(resName, ReturnOutputName)]);
      failure := None;
    }
  }
}
