/** The failures the workspace core raises. `WorkspaceError` is the manager's own error
    kind. The others are exceptions that the code lets escape without converting them. */
module WorkspaceErrors {

  /** What a `WorkspaceError` was constructed from: a message string, another exception
      (of the named Python type, with its `str()`), or anything else. */
  datatype Cause = NoCause | Text(text: string) | Exception(kind: string, text: string)

  datatype Failure =
    | WorkspaceError(cause: Cause)
      /** The `WindowsError` that `Workspace.load` raises for a missing workspace directory. */
    | NotValidWorkspace(message: string)
      /** Whatever `OpMetaInfo.validate_input_values` raises for an argument of the wrong type. */
    | InvalidInput(message: string)
      /** Raised by `Workflow.resolve_source_refs` for a reference to a missing step or port. */
    | UnresolvedReference
      /** An `assert` statement of the source failed. */
    | AssertionFailed
  {
    /** `str(e)` for a `WorkspaceError`. A string cause is the message, and a wrapped
        exception passes on its own message. Any other cause leaves the message empty. */
    function Message(): (m: string)
      requires WorkspaceError?
      ensures cause.Text? ==> m == cause.text
      ensures cause.Exception? ==> m == cause.text
      ensures cause.NoCause? ==> m == ""
    {
      match cause
      case NoCause => ""
      case Text(t) => t
      case Exception(_, t) => t
    }
  }

  /** `WorkspaceError(message)` raised with a message string. */
  function Raise(message: string): (f: Failure)
    ensures f.WorkspaceError? && f.Message() == message
  {
    WorkspaceError(Text(message))
  }

  /** `WorkspaceError(e)` wrapping an `OSError`/`IOError` whose `str()` is `text`. */
  function WrapOSError(text: string): (f: Failure)
    ensures f.WorkspaceError? && f.cause.Exception? && f.Message() == text
  {
    WorkspaceError(Exception("OSError", text))
  }
}
