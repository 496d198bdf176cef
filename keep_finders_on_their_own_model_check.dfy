/** Keep finders on their own model: in a model file, a finder (`find`, `all`,
    `first` or `last`) called on another model and given a hash of options
    belongs in that other model. */
module KeepFindersOnTheirOwnModel {
  import opened SExps
  import opened Checks

  /** FINDERS */
  const Finders: seq<string> := ["find", "all", "first", "last"]

  const ErrorMessage: string := "keep finders on their own model"

  /** interesting_review_nodes: call nodes only. */
  function InterestingReviewNodes(): (r: seq<string>)
    ensures forall kind :: kind in r <==> kind == "call"
  {
    ["call"]
  }

  /** interesting_review_files: model files. */
  function InterestingReviewFiles(): (r: FileCategory)
    ensures r == ModelFiles
  {
    ModelFiles
  }

  /** `arguments.children.any? { |node| :hash == node.node_type }` */
  function AnyHash(children: seq<SExp>): (r: bool)
    ensures r <==> exists i :: 0 <= i < |children| && HasType(children[i], "hash")
  {
    if children == [] then false
    else HasType(children[0], "hash") || AnyHash(children[1..])
  }

  /** other_finder?: the message is a finder, the receiver is itself a call
      (another model) and some argument is a hash. An absent or nil receiver
      has no node type, so it is not a call. */
  predicate IsOtherFinder(node: SExp)
    ensures IsOtherFinder(node) ==>
      && node.List? && |node.items| >= 4
      && node.items[2] in {Sym("find"), Sym("all"), Sym("first"), Sym("last")}
      && node.items[1].List? && |node.items[1].items| > 0 && node.items[1].items[0] == Sym("call")
  {
    && Message(node).Some? && Message(node).value in Finders
    && Subject(node).Some? && HasType(Subject(node).value, "call")
    && Arguments(node).Some? && AnyHash(Children(Arguments(node).value))
  }

  /** `s(:hash, ...)` written out on the node's elements. */
  predicate IsHashNode(a: SExp) {
    a.List? && |a.items| > 0 && a.items[0] == Sym("hash")
  }

  /** The `any?` over the children of an argument list sees exactly the hash
      nodes among the list's direct elements, at whatever position. */
  lemma AnyHashIff(args: seq<SExp>)
    ensures AnyHash(Children(List(args))) <==> exists a :: a in args && IsHashNode(a)
  {
  }

  /** The three conditions, stated directly on the positions of the node:
      the verdict holds exactly when all three hold, whatever else the node holds. */
  lemma OtherFinderIff(node: SExp)
    ensures IsOtherFinder(node) <==>
      && node.List? && |node.items| >= 4
      && node.items[2].Sym? && node.items[2].name in {"find", "all", "first", "last"}
      && node.items[1].List? && |node.items[1].items| > 0 && node.items[1].items[0] == Sym("call")
      && node.items[3].List? && exists a :: a in node.items[3].items && IsHashNode(a)
  {
  }

  /** Only the four finder messages can be flagged; `save`, for one, never is. */
  lemma OnlyFindersFlagged(node: SExp)
    requires Message(node) !in {Some("find"), Some("all"), Some("first"), Some("last")}
    ensures !IsOtherFinder(node)
  {
  }

  /** Only a receiver that is itself a call can be flagged; `s(:self)`,
      `s(:lvar, ...)`, nil or no receiver at all never are. */
  lemma OnlyCallReceiversFlagged(node: SExp)
    requires Subject(node).None? || !HasType(Subject(node).value, "call")
    ensures !IsOtherFinder(node)
  {
  }

  /** Only an argument list with a hash among its direct elements can be flagged. */
  lemma OnlyHashArgumentsFlagged(node: SExp, args: seq<SExp>)
    requires Arguments(node) == Some(List(args))
    requires forall i :: 0 <= i < |args| ==> !HasType(args[i], "hash")
    ensures !IsOtherFinder(node)
  {
  }

  /** A hash argument at any position, after any other arguments, is enough. */
  lemma HashAtAnyPosition(receiver: SExp, finder: string, before: seq<SExp>, hash: SExp, after: seq<SExp>)
    requires finder in Finders && HasType(receiver, "call") && HasType(hash, "hash")
    ensures IsOtherFinder(List([Sym("call"), receiver, Sym(finder), List([Sym("arglist")] + before + [hash] + after)]))
  {
  }

  /** The verdict does not depend on the order of the arguments: any
      rearrangement of the argument list gets the same answer. */
  lemma {:induction false} ArgumentOrderIrrelevant(receiver: SExp, message: string, args: seq<SExp>, reordered: seq<SExp>)
    requires multiset(args) == multiset(reordered)
    ensures IsOtherFinder(FinderCall(receiver, message, args)) == IsOtherFinder(FinderCall(receiver, message, reordered))
  {
    forall a | a in args ensures a in reordered {
      assert a in multiset(args);
    }
    forall a | a in reordered ensures a in args {
      assert a in multiset(reordered);
    }
  }

  /** The receiver `comment` of the documented example: `s(:call, s(:self), :comment, s(:arglist))`. */
  const CommentCall: SExp := List([Sym("call"), List([Sym("self")]), Sym("comment"), List([Sym("arglist")])])

  /** The arguments of the documented example:
      `:all, :conditions => {:is_spam => false}, :limit => 10`. */
  const ExampleArguments: seq<SExp> := [
    Sym("arglist"),
    List([Sym("lit"), Sym("all")]),
    List([Sym("hash"),
          List([Sym("lit"), Sym("conditions")]),
          List([Sym("hash"), List([Sym("lit"), Sym("is_spam")]), List([Sym("false")])]),
          List([Sym("lit"), Sym("limit")]),
          List([Sym("lit"), Int(10)])])]

  function FinderCall(receiver: SExp, message: string, args: seq<SExp>): SExp {
    List([Sym("call"), receiver, Sym(message), List(args)])
  }

  /** `comment.find(:all, :conditions => ..., :limit => 10)` is flagged. */
  lemma DocumentedExampleFlagged()
    ensures IsOtherFinder(FinderCall(CommentCall, "find", ExampleArguments))
  {
  }

  /** The same call with `save` instead of `find` is not flagged. */
  lemma DocumentedExampleWithSave()
    ensures !IsOtherFinder(FinderCall(CommentCall, "save", ExampleArguments))
  {
  }

  /** The same call on `self` instead of another model is not flagged. */
  lemma DocumentedExampleOnSelf()
    ensures !IsOtherFinder(FinderCall(List([Sym("self")]), "find", ExampleArguments))
  {
  }

  /** The same call without its hash argument, `comment.find(:all)`, is not flagged. */
  lemma DocumentedExampleWithoutHash()
    ensures !IsOtherFinder(FinderCall(CommentCall, "find", ExampleArguments[..2]))
  {
  }

  /** Whether the rule is asked about a node: call nodes in model files, nothing else. */
  lemma InterestIsCallsInModelFiles(file: FileCategory, node: SExp)
    ensures Interested(InterestingReviewNodes(), InterestingReviewFiles(), file, node)
        <==> file == ModelFiles && HasType(node, "call")
  {
  }

  /** KeepFindersOnTheirOwnModelCheck, holding the error list of its base check. */
  class KeepFindersOnTheirOwnModelCheck {
    const check: Check

    constructor ()
      ensures fresh(check) && check.errors == []
    {
      check := new Check();
    }

    /** review_start_call: one error with the rule's message when the call is
        a finder on another model, the error list untouched otherwise. */
    method ReviewStartCall(node: SExp)
      modifies check
      ensures check.errors == if IsOtherFinder(node) then old(check.errors) + [ErrorMessage] else old(check.errors)
    {
      if IsOtherFinder(node) {
        check.AddError(ErrorMessage);
      }
    }
  }

  /** A client: reviewing the documented finder and a plain `save` call
      leaves exactly one error behind. */
  method ReviewDocumentedExample()
  {
    var rule := new KeepFindersOnTheirOwnModelCheck();
    DocumentedExampleFlagged();
    rule.ReviewStartCall(FinderCall(CommentCall, "find", ExampleArguments));
    DocumentedExampleWithSave();
    rule.ReviewStartCall(FinderCall(CommentCall, "save", ExampleArguments));
    assert rule.check.errors == [ErrorMessage];
  }
}
