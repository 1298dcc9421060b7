/** `FSWorkspaceManager`: workspaces on the local filesystem, cached by their resolved
    base directory. */
module FSManager {
  import opened Wrappers
  import opened Paths
  import opened Workflows
  import opened WorkspaceErrors
  import opened FileSystems
  import opened Resources
  import opened Workspaces

  /** `resolve_path`: an absolute path is normalised; anything else is taken relative to
      the resolve directory. */
  function ResolvePath(resolveDir: string, dirPath: string): (r: string)
    requires IsAbs(resolveDir)
    ensures IsAbs(r)
    ensures IsAbs(dirPath) ==> r == NormPath(dirPath)
  {
    var p := if dirPath != "" && IsAbs(dirPath) then dirPath else Join(resolveDir, dirPath);
    NormPathKeepsAbs(p);
    NormPath(p)
  }

  /** A resolved path is absolute and normal, so it can serve as a cache key. */
  lemma ResolveNormal(resolveDir: string, dirPath: string)
    requires IsAbs(resolveDir)
    ensures IsNormal(ResolvePath(resolveDir, dirPath))
  {
    var p := if dirPath != "" && IsAbs(dirPath) then dirPath else Join(resolveDir, dirPath);
    NormPathIdempotent(p);
  }

  /** Resolving the empty path gives the resolve directory itself. */
  lemma ResolveEmpty(resolveDir: string)
    requires IsAbs(resolveDir) && IsNormal(resolveDir)
    ensures ResolvePath(resolveDir, "") == resolveDir
  {
    if resolveDir[|resolveDir| - 1] == '/' {
      NormalTrailingSlash(resolveDir);
    } else {
      assert Join(resolveDir, "") == resolveDir + "/";
      NormPathTrailingSlash(resolveDir);
    }
  }

  /** Resolving is idempotent: a resolved path resolves to itself. */
  lemma ResolveIdempotent(resolveDir: string, dirPath: string)
    requires IsAbs(resolveDir)
    ensures ResolvePath(resolveDir, ResolvePath(resolveDir, dirPath)) == ResolvePath(resolveDir, dirPath)
  {
    ResolveNormal(resolveDir, dirPath);
  }

  /** A relative path resolves to the same key as its join with the resolve directory. */
  lemma ResolveRelative(resolveDir: string, dirPath: string)
    requires IsAbs(resolveDir) && !IsAbs(dirPath)
    ensures ResolvePath(resolveDir, dirPath) == ResolvePath(resolveDir, Join(resolveDir, dirPath))
  {
  }

  /** `resolve_dir or os.curdir`. */
  function DirOrCurrent(resolveDir: Option<string>): (d: string)
    ensures d != ""
  {
    if resolveDir.Some? && resolveDir.value != "" then resolveDir.value else "."
  }

  /** The header `clean_workspace` keeps: that of the stored workflow when the workspace
      loads, and an empty one otherwise. */
  function KeptHeader(entries: map<string, Entry>, key: string): (h: map<string, string>)
  {
    var workflowFile := GetWorkflowFile(key);
    if GetWorkspaceDir(key) in entries && entries[GetWorkspaceDir(key)].Dir? &&
       workflowFile in entries && entries[workflowFile].File?
    then entries[workflowFile].workflow.header
    else map[]
  }

  class FSWorkspaceManager {
    var cache: map<string, Workspace>
    const resolveDir: string

    /** Every cache key is an absolute path and names its workspace's base directory, so
        distinct keys hold distinct workspace objects. Keys come from `ResolvePath`, so
        they are also normal (`ResolveNormal`). */
    ghost predicate Valid()
      reads this
    {
      IsAbs(resolveDir) &&
      forall k :: k in cache ==> IsAbs(k) && cache[k].baseDir == k
    }

    /** `FSWorkspaceManager(resolve_dir)`, with the process's working directory `cwd`. */
    constructor (cwd: string, resolveDir: Option<string>)
      requires IsAbs(cwd)
      ensures Valid() && IsNormal(this.resolveDir)
      ensures this.resolveDir == AbsPath(cwd, DirOrCurrent(resolveDir)) && cache == map[]
    {
      AbsPathNormal(cwd, DirOrCurrent(resolveDir));
      this.resolveDir := AbsPath(cwd, DirOrCurrent(resolveDir));
      cache := map[];
    }

    /** `get_workspace`: a hit returns the cached object and touches nothing; a miss
        loads the workspace and caches it under its resolved path. */
    method GetWorkspace(fs: FileSystem, baseDir: string) returns (r: Result<Workspace, Failure>)
      requires Valid()
      modifies this
      ensures Valid()
      ensures var key := ResolvePath(resolveDir, baseDir);
              key in old(cache) ==> r == Ok(old(cache)[key]) && cache == old(cache)
      ensures var key := ResolvePath(resolveDir, baseDir);
              key !in old(cache) && fs.IsDir(GetWorkspaceDir(key)) && fs.IsFile(GetWorkflowFile(key)) ==>
                r.Ok? && fresh(r.value) && r.value.baseDir == key &&
                r.value.workflow == fs.entries[GetWorkflowFile(key)].workflow && cache == old(cache)[key := r.value]
      ensures var key := ResolvePath(resolveDir, baseDir);
              key !in old(cache) && !fs.IsDir(GetWorkspaceDir(key)) ==>
                r == Err(NotValidWorkspace("not a valid workspace: " + key))
      ensures var key := ResolvePath(resolveDir, baseDir);
              key !in old(cache) && fs.IsDir(GetWorkspaceDir(key)) && !fs.IsFile(GetWorkflowFile(key)) ==>
                r.Err? && r.error.WorkspaceError?
      ensures r.Err? ==> cache == old(cache)
      ensures r.Ok? ==> cache == old(cache)[ResolvePath(resolveDir, baseDir) := r.value]
      ensures r.Ok? ==> fresh(r.value) || r.value in old(cache).Values
    {
      var key := ResolvePath(resolveDir, baseDir);
      if key in cache {
        return Ok(cache[key]);
      }
      r := Workspace.Load(fs, key);
      if r.Ok? {
        cache := cache[key := r.value];
      }
    }

    /** `init_workspace`: refuses a directory that already holds a workspace directory,
        creates the workspace, and caches it. Python's `assert base_dir not in cache`
        fails when an earlier call left an entry under the same key. */
    method InitWorkspace(fs: FileSystem, baseDir: string, description: Option<string>) returns (r: Result<Workspace, Failure>)
      requires Valid()
      modifies this, fs
      ensures Valid()
      ensures var key := ResolvePath(resolveDir, baseDir);
              old(fs.IsDir(GetWorkspaceDir(key))) ==>
                r == Err(Raise("workspace exists: " + key)) && fs.entries == old(fs.entries)
      ensures var key := ResolvePath(resolveDir, baseDir);
              r.Ok? ==> key !in old(cache) && cache == old(cache)[key := r.value] && fresh(r.value) &&
                        r.value.baseDir == key &&
                        r.value.workflow == NewWorkflow(map["description" := DescriptionOrEmpty(description)]) &&
                        fs.IsFile(GetWorkflowFile(key)) && fs.entries[GetWorkflowFile(key)].workflow == r.value.workflow
      ensures r.Err? ==> cache == old(cache)
      ensures ResolvePath(resolveDir, baseDir) in old(cache) ==> r.Err?
      ensures var key := ResolvePath(resolveDir, baseDir);
              Dirname(GetWorkspaceDir(key)) == key && old(fs.IsDir(key)) &&
              GetWorkspaceDir(key) !in old(fs.entries) && GetWorkflowFile(key) !in old(fs.entries) ==>
                fs.entries == old(fs.entries)[GetWorkspaceDir(key) := Dir]
                                             [GetWorkflowFile(key) := File(NewWorkflow(map["description" := DescriptionOrEmpty(description)]))] &&
                (r.Ok? <==> key !in old(cache)) &&
                (key in old(cache) ==> r == Err(AssertionFailed))
      ensures var key := ResolvePath(resolveDir, baseDir);
              Dirname(GetWorkspaceDir(key)) == key && key !in old(fs.entries) && old(fs.IsDir(Dirname(key))) &&
              GetWorkspaceDir(key) !in old(fs.entries) && GetWorkflowFile(key) !in old(fs.entries) ==>
                fs.entries == old(fs.entries)[key := Dir][GetWorkspaceDir(key) := Dir]
                                             [GetWorkflowFile(key) := File(NewWorkflow(map["description" := DescriptionOrEmpty(description)]))] &&
                (r.Ok? <==> key !in old(cache)) &&
                (key in old(cache) ==> r == Err(AssertionFailed))
    {
      var key := ResolvePath(resolveDir, baseDir);
      if fs.IsDir(GetWorkspaceDir(key)) {
        return Err(Raise("workspace exists: " + key));
      }
      r := Workspace.Create(fs, key, description);
      if r.Err? {
        return;
      }
      if key in cache {
        return Err(AssertionFailed);
      }
      cache := cache[key := r.value];
    }

    /** `clean_workspace`: drops the stored workflow file and stores a new, empty workflow
        that keeps the old header (an empty header when the workspace cannot be loaded).
        The new workspace is cached before it is stored, so a failing store leaves it
        cached. */
    method CleanWorkspace(fs: FileSystem, baseDir: string) returns (err: Option<Failure>)
      requires Valid()
      modifies this, fs
      ensures Valid()
      ensures var key := ResolvePath(resolveDir, baseDir);
              key in cache && fresh(cache[key]) && cache == old(cache)[key := cache[key]]
      ensures var key := ResolvePath(resolveDir, baseDir);
              key in cache && cache[key].workflow == NewWorkflow(KeptHeader(old(fs.entries), key))
      ensures var key := ResolvePath(resolveDir, baseDir);
              old(fs.IsDir(GetWorkspaceDir(key))) && !old(fs.IsDir(GetWorkflowFile(key))) ==>
                err == None && fs.entries == old(fs.entries)[GetWorkflowFile(key) := File(NewWorkflow(KeptHeader(old(fs.entries), key)))]
      ensures var key := ResolvePath(resolveDir, baseDir);
              !old(fs.IsDir(GetWorkspaceDir(key))) || old(fs.IsDir(GetWorkflowFile(key))) ==>
                err.Some? && err.value.WorkspaceError?
      ensures var key := ResolvePath(resolveDir, baseDir);
              err.Some? ==>
                fs.entries == (if old(fs.IsFile(GetWorkflowFile(key))) then old(fs.entries) - {GetWorkflowFile(key)} else old(fs.entries))
    {
      var key := ResolvePath(resolveDir, baseDir);
      var workspaceDir := GetWorkspaceDir(key);
      var workflowFile := GetWorkflowFile(key);
      var loaded := Workspace.Load(fs, key);
      var header := if loaded.Ok? then loaded.value.workflow.header else map[];
      assert header == KeptHeader(fs.entries, key);
      if fs.IsFile(workflowFile) {
        // `os.remove` cannot fail on an existing file here.
        var _ := fs.Remove(workflowFile);
      }
      var ws := new Workspace(key, NewWorkflow(header));
      cache := cache[key := ws];
      err := ws.Store(fs);
    }

    /** `delete_workspace`: refuses a directory without a workspace directory; otherwise
        removes the workspace directory and any cache entry for it. */
    method DeleteWorkspace(fs: FileSystem, baseDir: string) returns (err: Option<Failure>)
      requires Valid()
      modifies this, fs
      ensures Valid()
      ensures var key := ResolvePath(resolveDir, baseDir);
              !old(fs.IsDir(GetWorkspaceDir(key))) ==>
                err == Some(Raise("not a workspace: " + key)) && fs.entries == old(fs.entries) && cache == old(cache)
      ensures var key := ResolvePath(resolveDir, baseDir);
              old(fs.IsDir(GetWorkspaceDir(key))) ==>
                err == None && cache == old(cache) - {key} &&
                (forall q :: q in fs.entries <==> q in old(fs.entries) && !Under(GetWorkspaceDir(key), q)) &&
                (forall q :: q in fs.entries ==> fs.entries[q] == old(fs.entries)[q])
    {
      var key := ResolvePath(resolveDir, baseDir);
      var workspaceDir := GetWorkspaceDir(key);
      if !fs.IsDir(workspaceDir) {
        return Some(Raise("not a workspace: " + key));
      }
      // `shutil.rmtree` cannot fail on an existing directory here.
      var _ := fs.RemoveTree(workspaceDir);
      cache := cache - {key};
      err := None;
    }

    /** `set_workspace_resource`: gets the workspace, sets the resource with overwriting
        and validation enabled, and stores the workspace. The cached workflow changes as
        `SetResourceOutcome` says even when setting the resource fails, and is then not
        stored. */
    method SetWorkspaceResource(fs: FileSystem, baseDir: string, resName: string, opName: string,
                                opArgs: seq<string>, env: Env) returns (err: Option<Failure>)
      requires Valid()
      modifies this, fs
      modifies if ResolvePath(resolveDir, baseDir) in cache then {cache[ResolvePath(resolveDir, baseDir)]} else {}
      ensures Valid()
      ensures var key := ResolvePath(resolveDir, baseDir);
              key in old(cache) ==>
                var o := SetResourceOutcome(old(cache[key].workflow), resName, opName, opArgs, true, true, env);
                && cache == old(cache)
                && cache[key].workflow == o.workflow
                && (o.failure.Some? ==> err == o.failure && fs.entries == old(fs.entries))
                && (o.failure.None? && old(fs.IsDir(GetWorkspaceDir(key))) && !old(fs.IsDir(GetWorkflowFile(key))) ==> err == None)
                && (o.failure.None? && (!old(fs.IsDir(GetWorkspaceDir(key))) || old(fs.IsDir(GetWorkflowFile(key)))) ==>
                      err.Some? && err.value.WorkspaceError? && fs.entries == old(fs.entries))
      ensures var key := ResolvePath(resolveDir, baseDir);
              key !in old(cache) && old(fs.IsDir(GetWorkspaceDir(key))) && old(fs.IsFile(GetWorkflowFile(key))) ==>
                var o := SetResourceOutcome(old(fs.entries[GetWorkflowFile(key)].workflow), resName, opName, opArgs, true, true, env);
                && key in cache && cache == old(cache)[key := cache[key]] && fresh(cache[key])
                && cache[key].workflow == o.workflow
                && err == o.failure
                && (o.failure.Some? ==> fs.entries == old(fs.entries))
      ensures var key := ResolvePath(resolveDir, baseDir);
              key !in old(cache) && !old(fs.IsDir(GetWorkspaceDir(key))) ==>
                err == Some(NotValidWorkspace("not a valid workspace: " + key)) && cache == old(cache) && fs.entries == old(fs.entries)
      ensures var key := ResolvePath(resolveDir, baseDir);
              key !in old(cache) && old(fs.IsDir(GetWorkspaceDir(key))) && !old(fs.IsFile(GetWorkflowFile(key))) ==>
                err.Some? && err.value.WorkspaceError? && cache == old(cache) && fs.entries == old(fs.entries)
      ensures err == None ==> var key := ResolvePath(resolveDir, baseDir);
                key in cache && fs.entries == old(fs.entries)[GetWorkflowFile(key) := File(cache[key].workflow)]
    {
      var got := GetWorkspace(fs, baseDir);
      if got.Err? {
        return Some(got.error);
      }
      var ws := got.value;
      var failure := ws.SetResource(resName, opName, opArgs, true, true, env);
      if failure.Some? {
        return failure;
      }
      err := ws.Store(fs);
    }
  }
}
