# Cate workspaces and dataset harmonisation in Dafny

This project models two parts of the ESA CCI Toolbox (`ect`).

The first is the workspace layer of `ect/ui/workspace.py`. A workspace is a directory
with a `.ect-workspace/workflow.json` file that records, as a workflow of operation
steps, what the user has done. The model covers:

- `Workspace` with `create`, `load`, `store`, `delete` and `set_resource`;
- the file-system workspace manager: its path resolution, its cache of open workspaces
  and its get / init / clean / delete / set-resource operations;
- the web-API workspace manager: its configuration, its JSON reply handling and
  `is_running`;
- `WorkspaceError` and its messages.

The second is `ect/ops/harmonize.py`, which renames the latitude and longitude
dimensions of datasets to `lat` and `lon` in place.

Layout:

- `wrappers.dfy`: `Option` and `Result`.
- `paths.dfy`: POSIX `os.path.join`, `normpath`, `abspath`, `isabs` and `dirname` on
  strings, with the facts the managers rely on, such as idempotence of `normpath`.
- `workflows.dfy`: the parts of `Workflow` and `OpStep` that workspaces use. It holds
  the steps in order, their ports, the output namespace, `add_step` and reference
  resolution.
- `errors.dfy`: `WorkspaceError` and the other exceptions the layer raises.
- `filesystems.dfy`: a mutable file system (a map from path to directory or file) with
  `mkdir`, writing and reading a workflow file, `remove` and `rmtree`. Each fails with the POSIX error for the cases it models
  (ENOENT, EEXIST, EISDIR, ENOTDIR).
- `resources.dfy`: `set_resource` as a function of the workflow it starts from, with
  its properties.
- `workspaces.dfy`: the `Workspace` class. `SetResource` carries out the namespace
  loop and the keyword loop in place and is proved equal to the function in
  `resources.dfy`.
- `fsmanager.dfy`: `FSWorkspaceManager` with its cache as a field.
- `webapi.dfy`: `WebAPIWorkspaceManager`.
- `harmonize.dfy`: dimension-name lookup, the rename map, and the in-place harmonisation
  of one dataset and of a list of datasets.

Collaborators the layer calls but does not define are parameters of the model:

- the operation registry, `parse_op_args` and `validate_input_values` (`Resources.Env`);
- the HTTP transport behind `urlopen`;
- xarray's `rename` (`Harmonize.Renamer`). `Harmonize.RenameDims` is a reference
  definition of what xarray's `rename` does to a dataset's dimensions.

The current directory passed to `FSWorkspaceManager` is a constructor argument.

## Model

| member | source | states |
|---|---|---|
| Workspaces.GetWorkspaceDir | ect/ui/workspace.py:93-95 | the workspace directory is a non-empty path that does not end in a slash |
| Workspaces.GetWorkflowFile | ect/ui/workspace.py:97-99 | the workflow file path is longer than the workspace directory path |
| Workspaces.WorkflowFileLocation | ect/ui/workspace.py:93-99 | the workflow file sits directly in the workspace directory, is distinct from it, and the workspace directory lies under any non-empty base directory, one ending in a slash included |
| Paths.Join | ect/ui/workspace.py:272-275 | `os.path.join` gives an absolute second part unchanged, and an absolute result when either part is absolute |
| Paths.NormPath | ect/ui/workspace.py:272-275 | `os.path.normpath` never gives the empty path and keeps an absolute path absolute |
| Paths.AbsPath | ect/ui/workspace.py:268-275 | `os.path.abspath` against an absolute current directory gives an absolute path |
| Paths.Dirname | ect/ui/workspace.py:110-117 | `os.path.dirname` gives a prefix of the path, the parent that `mkdir` needs |
| Workflows.NewWorkflow | ect/ui/workspace.py:101-105 | a new workspace workflow has the given header and no steps and no outputs |
| Workflows.NewStep | ect/ui/workspace.py:169 | a new step has the resource name as id, the operation's meta-info, and one unbound input port per declared input |
| Workflows.OutputNamespace | ect/ui/workspace.py:173-176 | a step's output namespace has one entry per declared output, each referring to that output of that step |
| Workflows.NamespaceKeys | ect/ui/workspace.py:173-178 | a name is in the namespace exactly when some step has that id, which is the `does_exist` test |
| Workflows.NamespaceEntry | ect/ui/workspace.py:173-176 | when step ids are distinct, each step id maps to that step's output namespace |
| Workflows.IndexOf | ect/ui/workspace.py:214-216 | the first step with a given id is found, or none exists |
| Workflows.AddStep | ect/ui/workspace.py:214-216 | an existing step with the same id is replaced in place (same length), otherwise the step is appended; the other steps are untouched |
| Workflows.AddStepFinds | ect/ui/workspace.py:214-216 | after `add_step` the step is found under its id: at its old index after a replacement, at the end after an append |
| Workflows.AddStepUnique | ect/ui/workspace.py:214-216 | `add_step` keeps step ids unique |
| WorkspaceErrors.Failure.Message | ect/ui/workspace.py:46-57 | the message of a `WorkspaceError` is its text cause, the text of its exception cause, or empty without a cause |
| WorkspaceErrors.Raise | ect/ui/workspace.py:46-57 | a `WorkspaceError` from a string carries that string as its message |
| WorkspaceErrors.WrapOSError | ect/ui/workspace.py:48-51 | a `WorkspaceError` from an exception carries the exception's text as its message |
| FileSystems.FileSystem.IsDir | ect/ui/workspace.py:110-115 | `os.path.isdir` holds only for a path that exists |
| FileSystems.FileSystem.IsFile | ect/ui/workspace.py:117 | `os.path.isfile` holds only for a path that exists and is not a directory |
| FileSystems.FileSystem.constructor | ect/ui/workspace.py:107-147 | the file system starts with the given entries |
| FileSystems.FileSystem.MkDir | ect/ui/workspace.py:110-117 | `mkdir` fails with "File exists" on an existing path, "No such file or directory" without a parent, and "Not a directory" when the parent is a file; each failure changes nothing, and otherwise exactly one directory is added |
| FileSystems.FileSystem.WriteWorkflow | ect/ui/workspace.py:122 | storing a workflow fails on a directory, without a parent, or when the parent is a file, and changes nothing then; otherwise it sets exactly that file |
| FileSystems.FileSystem.ReadWorkflow | ect/ui/workspace.py:130-133 | loading a workflow gives the stored workflow, or the error for a directory or a missing path |
| FileSystems.FileSystem.Remove | ect/ui/workspace.py:305-309 | `os.remove` deletes a file and nothing else; it fails on a directory or a missing path and changes nothing |
| FileSystems.FileSystem.RemoveTree | ect/ui/workspace.py:143-147 | `rmtree` removes exactly the directory and everything under it; it fails on a file or a missing path and changes nothing |
| Resources.SetResourceOutcome | ect/ui/workspace.py:160-229 | `set_resource` never changes the workflow header; a normal return registers `res_name` and adds no output key other than it |
| Resources.AssertionsRejected | ect/ui/workspace.py:161-163 | an empty resource name, operation name or argument list fails the opening assertions, and the workflow is unchanged; no other call fails that way |
| Resources.BindInput | ect/ui/workspace.py:203-212 | a port becomes the input's source, a namespace becomes its source through `return` and is illegal without it, any other value becomes the port's value |
| Resources.BindInputs | ect/ui/workspace.py:198-212 | binding keeps the set of input names |
| Resources.BindInputsErrors | ect/ui/workspace.py:198-212 | every error of the keyword loop is a `WorkspaceError` |
| Resources.BindInputsSucceeds | ect/ui/workspace.py:198-212 | binding succeeds exactly when every keyword names an input and its value can be bound |
| Resources.BindInputsFirstFailure | ect/ui/workspace.py:198-208 | the first unbindable keyword decides the error: "is not an input of operation" for an unknown name, "illegal value for input" otherwise |
| Resources.BindInputsValues | ect/ui/workspace.py:198-212 | with distinct keyword names, every named input gets the bound value of its keyword and every other input keeps its old binding |
| Resources.UnknownOperationRejected | ect/ui/workspace.py:165-167 | with the arguments given, an operation the registry does not know is rejected with "unknown operation" and the workflow is unchanged |
| Resources.DuplicateRejected | ect/ui/workspace.py:173-180 | with the arguments given and without `can_exist`, an existing resource name is rejected with "already exists" and the workflow is unchanged |
| Resources.PositionalRejected | ect/ui/workspace.py:182-189 | with the arguments given, positional arguments are rejected and the workflow is unchanged |
| Resources.BadKeywordRejected | ect/ui/workspace.py:198-208 | with the arguments given, the first bad keyword is rejected with a message naming it, and the workflow is unchanged |
| Resources.UnchangedUnlessAddStepReached | ect/ui/workspace.py:160-212 | every call that does not reach `add_step` raises and leaves the workflow unchanged |
| Resources.StepAddedOnceReached | ect/ui/workspace.py:214-216 | once `add_step` is reached, the bound step stays in the workflow whatever is raised afterwards |
| Resources.NamedOutputsRefusedAfterAddStep | ect/ui/workspace.py:214-224 | an operation with named outputs raises after `add_step`; the step stays and no output is registered |
| Resources.SuccessfulSet | ect/ui/workspace.py:214-229 | a normal return replaces or appends the bound step, leaves the other steps alone, resolves all references after a replacement, and registers the output `res_name` with the step's `return` output and its meta-info, leaving the header unchanged |
| Resources.SetResourceSucceedsIff | ect/ui/workspace.py:160-229 | `set_resource` returns normally exactly when every check before `add_step` passes, references resolve after a replacement, and the operation has no named outputs |
| Resources.SetResourceKeepsIdsUnique | ect/ui/workspace.py:214-216 | `set_resource` keeps step ids unique, whether it succeeds or fails |
| Resources.NextCallSeesResource | ect/ui/workspace.py:173-176 | after a successful set on a workflow with unique ids, the namespace the next call builds has `res_name`, whose only output is `return`, the port registered as the workspace output |
| Resources.SecondSetRejected | ect/ui/workspace.py:173-180 | right after a successful set, setting the same name again (with the arguments given and a known operation) without `can_exist` is rejected and changes nothing |
| Workflows.NamespaceOf | ect/ui/workspace.py:173-176 | no contract of its own: the namespace of a step list; `Workflows.NamespaceKeys` and `Workflows.NamespaceEntry` state its keys and entries |
| Workspaces.BuildNamespace | ect/ui/workspace.py:173-176 | the namespace loop builds the namespace of all steps |
| Workspaces.BindKeywords | ect/ui/workspace.py:198-212 | the keyword loop binds the step's inputs exactly as the binding function does, stopping at the first error |
| Workspaces.DescriptionOrEmpty | ect/ui/workspace.py:120 | `description or ''` is the given description, and empty exactly when none or an empty one is given |
| Workspaces.Workspace.constructor | ect/ui/workspace.py:69-73 | a workspace keeps its base directory and workflow |
| Workspaces.Workspace.Create | ect/ui/workspace.py:107-124 | creation stores a fresh workflow whose description header is the given one or empty. An existing workflow file gives "workspace exists" with nothing changed. A missing base directory whose parent is a directory is made, then the workspace directory, then the workflow file, and nothing else changes. Every error is a `WorkspaceError` |
| Workspaces.Workspace.Load | ect/ui/workspace.py:126-135 | without a workspace directory, "not a valid workspace"; with the workflow file, a fresh workspace holding its workflow; without it, a `WorkspaceError` |
| Workspaces.Workspace.Store | ect/ui/workspace.py:137-141 | storing writes exactly the workflow file, or raises a `WorkspaceError` and changes nothing |
| Workspaces.Workspace.Delete | ect/ui/workspace.py:143-147 | deleting removes exactly the workspace directory tree, and every entry that remains keeps its contents; or it raises a `WorkspaceError` and changes nothing |
| Workspaces.Workspace.SetResource | ect/ui/workspace.py:160-229 | the workflow and the raised failure after the call are those of `Resources.SetResourceOutcome` on the workflow before it, the empty-argument assertions included |
| FSManager.ResolvePath | ect/ui/workspace.py:272-275 | a resolved path is absolute, and an absolute path resolves to its normal form |
| FSManager.ResolveNormal | ect/ui/workspace.py:272-275 | a resolved path is normal: normalising it again changes nothing |
| FSManager.ResolveEmpty | ect/ui/workspace.py:272-275 | an empty path resolves to the resolve directory |
| FSManager.ResolveIdempotent | ect/ui/workspace.py:272-275 | resolving a resolved key gives the same key |
| FSManager.ResolveRelative | ect/ui/workspace.py:272-275 | a relative path resolves as it does after joining it onto the resolve directory |
| FSManager.DirOrCurrent | ect/ui/workspace.py:270 | `resolve_dir or os.curdir` is never empty |
| FSManager.KeptHeader | ect/ui/workspace.py:299-311 | no contract of its own: the header `clean_workspace` keeps; `FSManager.FSWorkspaceManager.CleanWorkspace` states its effect |
| FSManager.FSWorkspaceManager.constructor | ect/ui/workspace.py:268-270 | the resolve directory is the absolute normal form of the given one, or of the current directory; the cache is empty |
| FSManager.FSWorkspaceManager.GetWorkspace | ect/ui/workspace.py:277-285 | a cached workspace is returned as is; otherwise a loaded workspace is cached under the resolved key. A missing workspace directory gives "not a valid workspace", a workspace directory without the workflow file a `WorkspaceError`, and a load error leaves the cache unchanged |
| FSManager.FSWorkspaceManager.InitWorkspace | ect/ui/workspace.py:287-295 | an existing workspace directory gives "workspace exists". Otherwise a freshly created workspace is stored and cached under a key that was not cached before; when the key directory exists, or is missing but its parent is a directory, exactly the missing directories and the workflow file are made. A key already cached fails the source's assertion after the workspace is created. Errors leave the cache unchanged |
| FSManager.FSWorkspaceManager.CleanWorkspace | ect/ui/workspace.py:297-314 | the workflow file is replaced by a new workflow that keeps the old header when the old workspace loaded, and a fresh workspace is cached under the key. Otherwise a `WorkspaceError` is raised, and the only change to the file system is that an old workflow file is gone |
| FSManager.FSWorkspaceManager.DeleteWorkspace | ect/ui/workspace.py:317-327 | a missing workspace directory gives "not a workspace"; otherwise the directory tree is removed, the entries that remain keep their contents, and the key leaves the cache |
| FSManager.FSWorkspaceManager.SetWorkspaceResource | ect/ui/workspace.py:329-332 | the workspace is got (cached or loaded) and its workflow becomes that of `set_resource` with `can_exist` and `validate_args` set. The error is the failure of `set_resource`, or the failure of loading or storing. Any failure leaves the file system unchanged. On success exactly the workflow file changes, to the new workflow |
| WebAPI.FetchJson | ect/ui/workspace.py:400-410 | a transport failure is passed on, and anything it raises itself is a `WorkspaceError` |
| WebAPI.OrElse | ect/ui/workspace.py:409 | `message or type_name` is one of the two: the message when it is non-empty, and nothing only when neither gives a non-empty message or a type name |
| WebAPI.ErrorFailure | ect/ui/workspace.py:405-409 | an error reply always raises a `WorkspaceError` |
| WebAPI.FetchJsonDecision | ect/ui/workspace.py:400-410 | a reply with status `error` raises a `WorkspaceError` carrying the message, or else the type name, or no cause when the error object is missing or has neither; any other reply gives its content |
| WebAPI.Urlopen | ect/ui/workspace.py:401 | a URL without a scheme is refused before anything is sent; otherwise the transport decides |
| WebAPI.Answered | ect/ui/workspace.py:414-420 | the service answered unless fetching ended in an exception other than a `WorkspaceError` |
| WebAPI.IsRunningAsWritten | ect/ui/workspace.py:412-420 | no contract of its own: `is_running` as written; `WebAPI.IsRunningAsWrittenAlwaysFalse` states what it returns |
| WebAPI.IsRunningAsWrittenAlwaysFalse | ect/ui/workspace.py:412-420 | as written, `is_running` reports false whatever the service answers |
| WebAPI.IsRunning | ect/ui/workspace.py:412-420 | as intended, `is_running` is false for a base URL without a scheme |
| WebAPI.IsRunningIff | ect/ui/workspace.py:412-420 | as intended, `is_running` is true exactly when the service answers, with content or with a structured error |
| WebAPI.Decimal | ect/ui/workspace.py:394 | the port is written as a non-empty string of decimal digits |
| WebAPI.DecimalRoundTrip | ect/ui/workspace.py:394 | the port written into the URL reads back as the same number |
| WebAPI.NewManager | ect/ui/workspace.py:389-395 | a manager is built exactly when a non-zero port is given, otherwise it fails with the "missing port" message; the timeout is kept |
| WebAPI.NewManagerUrl | ect/ui/workspace.py:389-395 | the URL of a built manager is `http://`, then the address (or `127.0.0.1` when absent or empty), then `:` and the port, which reads back as the given number |
| WebAPI.ManagerIsRunning | ect/ui/workspace.py:389-420 | for a configured manager, as intended, `is_running` depends only on whether the service answers |
| Harmonize.GetDimName | ect/ops/harmonize.py:49-53 | a found name is both a dimension and a candidate |
| Harmonize.GetDimNameFirstMatch | ect/ops/harmonize.py:49-52 | the first candidate that is a dimension is the one found |
| Harmonize.GetDimNameIsFirst | ect/ops/harmonize.py:49-52 | no candidate before the found one is a dimension |
| Harmonize.GetDimNameNone | ect/ops/harmonize.py:49-53 | nothing is found exactly when no candidate is a dimension |
| Harmonize.GetLonDimName | ect/ops/harmonize.py:41-42 | a found longitude name is a dimension and a longitude candidate |
| Harmonize.GetLatDimName | ect/ops/harmonize.py:45-46 | a found latitude name is a dimension and a latitude candidate |
| Harmonize.LonPriority | ect/ops/harmonize.py:41-42 | the longitude dimension is `lon`, else `longitude`, else `long`, else none |
| Harmonize.LatPriority | ect/ops/harmonize.py:45-46 | the latitude dimension is `lat`, else `latitude`, else none |
| Harmonize.RenameMapAsWritten | ect/ops/harmonize.py:38 | the rename map as written always has the two keys, `None` included when a name is missing |
| Harmonize.RenameMap | ect/ops/harmonize.py:35-38 | the corrected rename map has only found names as keys |
| Harmonize.RenameMapSendsFound | ect/ops/harmonize.py:35-38 | the corrected map sends the found latitude name to `lat` and the found longitude name to `lon`, and has no other keys |
| Harmonize.RenameDims | ect/ops/harmonize.py:39 | a rename succeeds exactly when every key is a present dimension name |
| Harmonize.AsWrittenRaisesWithoutLon | ect/ops/harmonize.py:35-39 | for dimensions `lat` and `time` no longitude is found, the map as written has the key `None`, and the rename fails |
| Harmonize.RenameMapsAgreeWhenBothFound | ect/ops/harmonize.py:35-38 | when both dimensions are found, the two maps are the same and have two keys |
| Harmonize.HarmonizedDims | ect/ops/harmonize.py:35-39 | with the corrected map the rename always succeeds, and the new dimensions are exactly the old ones without the found latitude and longitude names, plus `lat` and `lon` for those found |
| Harmonize.Harmonized | ect/ops/harmonize.py:35-39 | no contract of its own: what `rename` makes of a dataset's dimensions; `Harmonize.HarmonizeDataset` and `Harmonize.HarmonizedDims` state its effect |
| Harmonize.HarmonizeDataset | ect/ops/harmonize.py:29-39 | the dataset's dimensions are renamed in place exactly when the rename succeeds, and are untouched otherwise |
| Harmonize.HarmonizeAll | ect/ops/harmonize.py:17-26 | datasets are harmonised in order. The first failure stops the loop and is reported; the datasets before it are harmonised and the later ones untouched |

## Left out

- `write_workspace_resource` and `plot_workspace_resource` execute the workflow and draw with matplotlib. Workflow execution is not part of this model.
- The abstract `WorkspaceManager` base declares operations without behaviour, so it has no model of its own.
- The remote operations of `WebAPIWorkspaceManager` (get, init, clean, delete, set, write and plot over HTTP) are left out. They only build a URL and call `_fetch_json`, which is modelled.
- `_url` and `encode_url_path` are left out. The corrected `is_running` takes `_url('/')` to be `base_url + '/'`.
- The `data` and `timeout` arguments of `_fetch_json` are not modelled, nor is `timeout or self.timeout`; a timeout is a transport failure. The timeout is a `nat`, not a float.
- UTF-8 decoding and JSON parsing of replies are left out. A reply that does not decode is a transport failure. A reply that is not an object is not modelled.
- `WebAPI.NewManager`: the port is a natural number. A string port or another non-integer port is not modelled.
- `Workspace.from_json_dict` and `to_json_dict` are JSON serialisation and are left out.
- `Workflow.store` and `Workflow.load` are left out. The file system keeps the workflow value itself, so loading gives back exactly what was stored.
- `ect.core.workflow` and `ect.core.op` are not part of this model. `add_step(..., can_exist=True)` is taken to replace a step with the same id in place and to append otherwise.
- `resolve_source_refs` is taken to raise when some input source names a step id or an output that does not exist.
- `has_named_outputs` is taken to mean that the outputs are not exactly `return`.
- The operation registry, `parse_op_args` and `validate_input_values` are parameters. The `except_types` set passed to `validate_input_values` is reduced to one flag: the namespace is not empty.
- The traceback that `WorkspaceError` attaches to a wrapped exception is left out.
- `Workspaces.Workspace.constructor`: `assert workflow` is not modelled; a workflow value is always present. `assert base_dir` is its precondition.
- `Workspaces.Workspace.Load`: `raise WindowsError(...)` is modelled as a `NotValidWorkspace` failure that is not a `WorkspaceError`. On POSIX the name is undefined, so Python raises `NameError`; either way callers that catch `WorkspaceError` do not catch it.
- `Workspaces.Workspace.Create`: the exact outcome is stated where the workspace directory sits in the base directory and the base directory or its parent is a directory. For other states, such as a file where a directory is expected or a missing grandparent, the contract states only that every error is a `WorkspaceError`.
- `FSManager.FSWorkspaceManager.InitWorkspace`: the file system after the call is stated in the same states as for `Create`; in the others, only that errors leave the cache unchanged.
- `Workspaces.Workspace.SetResource`: the three `assert`s at the head of `set_resource` are modelled as the failure `AssertionFailed`, which `AssertionError` would be; the workflow is left unchanged.
- `FSManager.KeptHeader` has no contract of its own; `CleanWorkspace` states the header it keeps.
- Monitors, the `has_monitor` flag and the file lock (a TODO in the source) are left out.
- The file system is a map from path strings to entries. Symbolic links, permissions and concurrent access are not modelled. Only POSIX path rules are modelled.
- The rest of an xarray dataset (variables, coordinates, attributes) is left out; a dataset is its set of dimension names.
- `Harmonize.HarmonizeAll`: the result for each dataset is stated only for lists in which no dataset object appears twice. With a repeated object, a later rename acts on an already renamed dataset.
- `Harmonize.Harmonized` builds the corrected rename map (see Findings), not line 38's map with its `None` key.
- `Harmonize.HarmonizeDataset` uses the corrected rename map through `Harmonize.Harmonized`.
- `Harmonize.HarmonizeAll` uses the corrected rename map through `Harmonize.HarmonizeDataset`.
- The `op_input` decorator's metadata is left out.

## Findings

| source | as written | input that shows it | evidently intended | confidence | as-written member | corrected member |
|---|---|---|---|---|---|---|
| ect/ui/workspace.py:412-416 | `is_running` calls `_fetch_json('/')` with a bare path. `urlopen` refuses it with `ValueError: unknown url type`, which the bare `except` turns into `False` | any service, running or not: the URL `/` has no scheme | fetch `self._url('/')`, i.e. `base_url + '/'` | high, not executed | WebAPI.IsRunningAsWritten, WebAPI.IsRunningAsWrittenAlwaysFalse | WebAPI.IsRunning, WebAPI.IsRunningIff |
| ect/ops/harmonize.py:35-39 | the rename map `{lat_name: 'lat', lon_name: 'lon'}` gets a `None` key when a dimension is missing, and xarray's `rename` rejects a name that is not in the dataset | a dataset with dimensions `lat` and `time` | rename only the dimensions that were found | medium, not executed (xarray's `rename` is not part of this model) | Harmonize.RenameMapAsWritten, Harmonize.AsWrittenRaisesWithoutLon | Harmonize.RenameMap, Harmonize.HarmonizedDims |
