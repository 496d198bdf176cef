/** What the two rules share with their common base check: the list of errors
    `add_error` appends to, the file categories a rule can ask for, and the
    interest filter under which the review engine calls a rule's callback. */
module Checks {
  import opened SExps

  /** The file categories the rules ask for (`MODEL_FILES`, `ROUTE_FILE`); how a
      path is classified is not part of this model. */
  datatype FileCategory = ModelFiles | RouteFile

  /** The error list a check accumulates; each error is its message text. */
  class Check {
    var errors: seq<string>

    constructor ()
      ensures errors == []
    {
      errors := [];
    }

    /** `add_error message`: record one more error, keeping the earlier ones. */
    method AddError(message: string)
      modifies this
      ensures errors == old(errors) + [message]
    {
      errors := errors + [message];
    }
  }

  /** A rule that declares interest in the node types `nodes` and in files of
      category `files` is reviewed on `node` of a file of category `file`
      exactly when the category matches and the node's type is one it named. */
  predicate Interested(nodes: seq<string>, files: FileCategory, file: FileCategory, node: SExp)
    ensures Interested(nodes, files, file, node) ==> file == files && node.List? && |node.items| > 0
    ensures nodes == [] ==> !Interested(nodes, files, file, node)
  {
    file == files && NodeType(node).Some? && NodeType(node).value in nodes
  }
}
