/** The filesystem, abstracted to a map from path to what is stored there. A workflow
    file holds the workflow it was stored from. `Workflow.store` and `Workflow.load` are
    taken to round-trip exactly. Error texts are those of POSIX `OSError`s. */
module FileSystems {
  import opened Wrappers
  import opened Paths
  import opened Workflows

  datatype Entry = Dir | File(workflow: Workflow)

  /** `q` is `p` itself or lies below it; a `p` that ends in a slash already carries
      the separator. */
  predicate Under(p: string, q: string) {
    || q == p
    || (|q| > |p| + 1 && q[..|p| + 1] == p + "/")
    || (p != "" && p[|p| - 1] == '/' && |q| > |p| && q[..|p|] == p)
  }

  function NotFound(p: string): string {
    "[Errno 2] No such file or directory: '" + p + "'"
  }

  function Exists(p: string): string {
    "[Errno 17] File exists: '" + p + "'"
  }

  function IsADirectory(p: string): string {
    "[Errno 21] Is a directory: '" + p + "'"
  }

  function NotADirectory(p: string): string {
    "[Errno 20] Not a directory: '" + p + "'"
  }

  class FileSystem {
    var entries: map<string, Entry>

    constructor (entries: map<string, Entry>)
      ensures this.entries == entries
    {
      this.entries := entries;
    }

    /** `os.path.isdir`. */
    predicate IsDir(p: string): (r: bool)
      reads this
      ensures r ==> p in entries
    {
      p in entries && entries[p].Dir?
    }

    /** `os.path.isfile`. */
    predicate IsFile(p: string): (r: bool)
      reads this
      ensures r ==> p in entries && !IsDir(p)
    {
      p in entries && entries[p].File?
    }

    /** `os.mkdir`: fails if the path exists, if its parent is missing, or if its parent
        is a file. */
    method MkDir(p: string) returns (err: Option<string>)
      modifies this
      ensures p in old(entries) ==> err == Some(Exists(p)) && entries == old(entries)
      ensures p !in old(entries) && Dirname(p) !in old(entries) ==> err == Some(NotFound(p)) && entries == old(entries)
      ensures p !in old(entries) && old(IsFile(Dirname(p))) ==> err == Some(NotADirectory(p)) && entries == old(entries)
      ensures p !in old(entries) && old(IsDir(Dirname(p))) ==> err == None && entries == old(entries)[p := Dir]
    {
      if p in entries {
        err := Some(Exists(p));
      } else if Dirname(p) !in entries {
        err := Some(NotFound(p));
      } else if entries[Dirname(p)].File? {
        err := Some(NotADirectory(p));
      } else {
        entries := entries[p := Dir];
        err := None;
      }
    }

    /** `Workflow.store(p)`: writes the workflow file; fails if `p` is a directory, or if
        its directory is missing or is a file. */
    method WriteWorkflow(p: string, w: Workflow) returns (err: Option<string>)
      modifies this
      ensures old(IsDir(p)) ==> err == Some(IsADirectory(p)) && entries == old(entries)
      ensures !old(IsDir(p)) && Dirname(p) !in old(entries) ==> err == Some(NotFound(p)) && entries == old(entries)
      ensures !old(IsDir(p)) && old(IsFile(Dirname(p))) ==> err == Some(NotADirectory(p)) && entries == old(entries)
      ensures !old(IsDir(p)) && old(IsDir(Dirname(p))) ==> err == None && entries == old(entries)[p := File(w)]
    {
      if IsDir(p) {
        err := Some(IsADirectory(p));
      } else if Dirname(p) !in entries {
        err := Some(NotFound(p));
      } else if entries[Dirname(p)].File? {
        err := Some(NotADirectory(p));
      } else {
        entries := entries[p := File(w)];
        err := None;
      }
    }

    /** `Workflow.load(p)`: reads back the stored workflow. */
    method ReadWorkflow(p: string) returns (r: Result<Workflow, string>)
      ensures IsFile(p) ==> r == Ok(entries[p].workflow)
      ensures IsDir(p) ==> r == Err(IsADirectory(p))
      ensures p !in entries ==> r == Err(NotFound(p))
    {
      if p !in entries {
        r := Err(NotFound(p));
      } else if entries[p].Dir? {
        r := Err(IsADirectory(p));
      } else {
        r := Ok(entries[p].workflow);
      }
    }

    /** `os.remove`: deletes a file. */
    method Remove(p: string) returns (err: Option<string>)
      modifies this
      ensures old(IsFile(p)) ==> err == None && entries == old(entries) - {p}
      ensures old(IsDir(p)) ==> err == Some(IsADirectory(p)) && entries == old(entries)
      ensures p !in old(entries) ==> err == Some(NotFound(p)) && entries == old(entries)
    {
      if p !in entries {
        err := Some(NotFound(p));
      } else if entries[p].Dir? {
        err := Some(IsADirectory(p));
      } else {
        entries := entries - {p};
        err := None;
      }
    }

    /** `shutil.rmtree`: deletes a directory and everything below it. */
    method RemoveTree(p: string) returns (err: Option<string>)
      modifies this
      ensures old(IsDir(p)) ==> err == None
      ensures old(IsDir(p)) ==> forall q :: q in entries <==> q in old(entries) && !Under(p, q)
      ensures old(IsDir(p)) ==> forall q :: q in entries ==> entries[q] == old(entries)[q]
      ensures p !in old(entries) ==> err == Some(NotFound(p)) && entries == old(entries)
      ensures old(IsFile(p)) ==> err == Some(NotADirectory(p)) && entries == old(entries)
    {
      if p !in entries {
        err := Some(NotFound(p));
      } else if entries[p].File? {
        err := Some(NotADirectory(p));
      } else {
        entries := map q | q in entries && !Under(p, q) :: entries[q];
        err := None;
      }
    }
  }
}
