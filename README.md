# rails_best_practices: two review rules, modelled in Dafny

This project models two lint rules of rails_best_practices. Each rule is a decision over a Ruby S-expression, the `s(...)` tree that ruby_parser builds. When the decision holds, the rule records one error message.

- **Keep finders on their own model** (`KeepFindersOnTheirOwnModelCheck`). It reviews call nodes in model files. It reports a call when three things hold. The message is one of `find`, `all`, `first` or `last`. The receiver is itself a call, meaning another model. Some direct element of the argument list is a `:hash` node.
- **Do not use the default route** (`NotUseDefaultRouteCheck`). It reviews call nodes in the routes file. It reports a call that is structurally equal to one of three routes:
  - `map.connect ':controller/:action/:id'`
  - `map.connect ':controller/:action/:id.:format'`
  - `match ':controller(/:action(/:id(.:format)))'` with no receiver

Files:

- `sexp.dfy` (module `SExps`): the S-expression datatype (symbol, string, integer, nil, list) and the accessors the rules use. The accessors are node type (element 0), subject (element 1), message (element 2), arguments (element 3) and children. Every accessor is total: a short or ill-shaped node gives `None` or no children. Ruby's `Sexp#==` compares element by element, so Dafny's datatype equality models it directly.
- `check.dfy` (module `Checks`): the error list that the base check keeps, `add_error`, the two file categories, and the interest filter under which a rule is asked about a node.
- `keep_finders_on_their_own_model_check.dfy` and `not_use_default_route_check.dfy`: one module per rule. Each holds the pure decision as a predicate, the lemmas about it, and a class whose `ReviewStartCall` appends at most one error.

Each decision is a function of the node alone. No state is read, so reviewing the same node twice gives the same verdict by construction. The rule classes keep the base check's error list by composition: each holds a `Check` in its `check` field.

## Model

| member | source | states |
|---|---|---|
| `SExps.Element` | lib/rails_best_practices/checks/keep_finders_on_their_own_model_check.rb:54-65 | element `i` of a node exists exactly when the node is a list longer than `i`, and is then that element |
| `SExps.NodeType` | lib/rails_best_practices/checks/keep_finders_on_their_own_model_check.rb:67 | a node has a node type exactly when it is a list headed by a symbol, and the type is that symbol |
| `SExps.Subject` | lib/rails_best_practices/checks/keep_finders_on_their_own_model_check.rb:54-55 | the subject of a call exists exactly when the node has a second element, and is that element |
| `SExps.Message` | lib/rails_best_practices/checks/keep_finders_on_their_own_model_check.rb:54-56 | the message of a call exists exactly when the third element is a symbol, and is that symbol |
| `SExps.Arguments` | lib/rails_best_practices/checks/keep_finders_on_their_own_model_check.rb:54-57 | the argument list of a call exists exactly when the node has a fourth element, and is that element |
| `Checks.Interested` | lib/rails_best_practices/checks/keep_finders_on_their_own_model_check.rb:26-32 | a rule is only asked about a list node of the file category it names, and a rule naming no node type is never asked |
| `SExps.Children` | lib/rails_best_practices/checks/keep_finders_on_their_own_model_check.rb:67 | a value is a child of a node exactly when it is one of the node's elements and is itself an S-expression |
| `KeepFindersOnTheirOwnModel.IsOtherFinder` | lib/rails_best_practices/checks/keep_finders_on_their_own_model_check.rb:66-68 | a flagged node has at least four elements, a finder symbol as its third and an `s(:call, ...)` as its second |
| `KeepFindersOnTheirOwnModel.AnyHash` | lib/rails_best_practices/checks/keep_finders_on_their_own_model_check.rb:67 | the `any?` over the children holds exactly when some child, at some index, has node type `:hash` |
| `KeepFindersOnTheirOwnModel.AnyHashIff` | lib/rails_best_practices/checks/keep_finders_on_their_own_model_check.rb:40 | the `any?` over an argument list's children holds exactly when some direct element of the list is an `s(:hash, ...)` node, at any position |
| `KeepFindersOnTheirOwnModel.OtherFinderIff` | lib/rails_best_practices/checks/keep_finders_on_their_own_model_check.rb:66-68 | `other_finder?` holds exactly when all three conditions hold together: element 2 is `:find`, `:all`, `:first` or `:last`; element 1 is an `s(:call, ...)`; and element 3 is a list that directly holds an `s(:hash, ...)` |
| `KeepFindersOnTheirOwnModel.OnlyFindersFlagged` | lib/rails_best_practices/checks/keep_finders_on_their_own_model_check.rb:24 | a call whose message is not one of the four finders, `save` for one, is never flagged |
| `KeepFindersOnTheirOwnModel.OnlyCallReceiversFlagged` | lib/rails_best_practices/checks/keep_finders_on_their_own_model_check.rb:39 | a call whose receiver is absent or is not a `:call` node, such as `s(:self)` or `s(:lvar, ...)`, is never flagged |
| `KeepFindersOnTheirOwnModel.OnlyHashArgumentsFlagged` | lib/rails_best_practices/checks/keep_finders_on_their_own_model_check.rb:40 | a call whose argument list has no `:hash` element is never flagged |
| `KeepFindersOnTheirOwnModel.HashAtAnyPosition` | lib/rails_best_practices/checks/keep_finders_on_their_own_model_check.rb:66-68 | a finder on a call receiver is flagged whenever a hash argument sits anywhere in its argument list, whatever comes before or after it |
| `KeepFindersOnTheirOwnModel.ArgumentOrderIrrelevant` | lib/rails_best_practices/checks/keep_finders_on_their_own_model_check.rb:40 | rearranging the arguments of a call never changes the verdict, since `any?` asks only whether some argument is a hash |
| `KeepFindersOnTheirOwnModel.DocumentedExampleFlagged` | lib/rails_best_practices/checks/keep_finders_on_their_own_model_check.rb:54-65 | the documented `comment.find(:all, :conditions => {...}, :limit => 10)` tree is flagged |
| `KeepFindersOnTheirOwnModel.DocumentedExampleWithSave` | lib/rails_best_practices/checks/keep_finders_on_their_own_model_check.rb:67 | the documented tree with `:save` in place of `:find` is not flagged |
| `KeepFindersOnTheirOwnModel.DocumentedExampleOnSelf` | lib/rails_best_practices/checks/keep_finders_on_their_own_model_check.rb:67 | the documented tree with `s(:self)` as receiver is not flagged |
| `KeepFindersOnTheirOwnModel.DocumentedExampleWithoutHash` | lib/rails_best_practices/checks/keep_finders_on_their_own_model_check.rb:67 | the documented tree without its hash argument is not flagged |
| `KeepFindersOnTheirOwnModel.InterestingReviewNodes` | lib/rails_best_practices/checks/keep_finders_on_their_own_model_check.rb:26-28 | the rule declares interest in `:call` nodes and in no other kind |
| `KeepFindersOnTheirOwnModel.InterestingReviewFiles` | lib/rails_best_practices/checks/keep_finders_on_their_own_model_check.rb:30-32 | the rule asks for model files |
| `KeepFindersOnTheirOwnModel.InterestIsCallsInModelFiles` | lib/rails_best_practices/checks/keep_finders_on_their_own_model_check.rb:26-32 | the rule is asked about a node exactly when the node is a `:call` in a model file |
| `KeepFindersOnTheirOwnModel.KeepFindersOnTheirOwnModelCheck.ReviewStartCall` | lib/rails_best_practices/checks/keep_finders_on_their_own_model_check.rb:43-45 | when `other_finder?` holds, exactly one error is appended, and its text is exactly "keep finders on their own model"; otherwise the error list is unchanged; earlier errors are never altered |
| `Checks.Check.AddError` | lib/rails_best_practices/checks/keep_finders_on_their_own_model_check.rb:44 | `add_error` appends its message after the errors already recorded |
| `NotUseDefaultRoute.InterestingReviewNodes` | lib/rails_best_practices/checks/not_use_default_route_check.rb:26-28 | the rule declares interest in `:call` nodes and in no other kind |
| `NotUseDefaultRoute.InterestingReviewFiles` | lib/rails_best_practices/checks/not_use_default_route_check.rb:30-32 | the rule asks for the routes file |
| `NotUseDefaultRoute.IsDefaultRoute` | lib/rails_best_practices/checks/not_use_default_route_check.rb:51-53 | a node equal to one of the three routes is a four-element `:call` whose message is `connect` or `match` |
| `NotUseDefaultRoute.InterestIsCallsInRouteFile` | lib/rails_best_practices/checks/not_use_default_route_check.rb:26-32 | the rule is asked about a node exactly when the node is a `:call` in the routes file |
| `NotUseDefaultRoute.CallFromParts` | lib/rails_best_practices/checks/not_use_default_route_check.rb:38-49 | a four-element call node whose only argument is `s(:str, path)` equals the tree `s(:call, receiver, :message, s(:arglist, s(:str, path)))` rebuilt from its receiver, its message and that path |
| `NotUseDefaultRoute.DefaultRouteIff` | lib/rails_best_practices/checks/not_use_default_route_check.rb:51-53 | the three-way equality holds exactly when the node is a four-element call whose argument list is `s(:arglist, s(:str, path))`, and either (receiver `s(:lvar, :map)`, message `connect`, one of the two Rails 2 paths) or (receiver nil, message `match`, the Rails 3 catch-all path) |
| `NotUseDefaultRoute.DefaultRoutesReported` | lib/rails_best_practices/checks/not_use_default_route_check.rb:51-53 | each of the three route trees, written out element for element with the path inside `s(:str, ...)`, is reported |
| `NotUseDefaultRoute.OtherPathNotReported` | lib/rails_best_practices/checks/not_use_default_route_check.rb:51-53 | a call whose only argument is `s(:str, path)` with a path other than the three is not reported |
| `NotUseDefaultRoute.CustomPathNotReported` | lib/rails_best_practices/checks/not_use_default_route_check.rb:51 | `map.connect ':controller/:action/:id/:custom'` is not reported |
| `NotUseDefaultRoute.ReceiverMustMatch` | lib/rails_best_practices/checks/not_use_default_route_check.rb:51-53 | `connect` is reported only on the receiver `s(:lvar, :map)`, and `match` only on a nil receiver |
| `NotUseDefaultRoute.MatchWithReceiverNotReported` | lib/rails_best_practices/checks/not_use_default_route_check.rb:53 | the catch-all `match` tree with any non-nil receiver is not reported |
| `NotUseDefaultRoute.ExtraArgumentsNotReported` | lib/rails_best_practices/checks/not_use_default_route_check.rb:51-53 | an argument list with anything but exactly one argument is not reported |
| `NotUseDefaultRoute.ReportedOnlyOnCalls` | lib/rails_best_practices/checks/not_use_default_route_check.rb:26-28 | every reported node is a `:call` node, a kind the rule declares interest in, in the routes file |
| `NotUseDefaultRoute.NotUseDefaultRouteCheck.ReviewStartCall` | lib/rails_best_practices/checks/not_use_default_route_check.rb:50-56 | when the node equals one of the three routes, exactly one error is appended, not one per route, and its text is exactly "not use default route"; otherwise the error list is unchanged; earlier errors are never altered |

## Left out

- `Check` is modelled only as its error list and `add_error` (message text only); its other members are left out. The Sexp accessors `node_type`, `subject`, `message`, `arguments` and `children` are defined outside the two rule files; they are modelled from the shapes in the rules' doc comments: positional, with `children` as the elements that are S-expressions. A node of any type is read positionally; the rules are only asked about `:call` nodes.
- `KeepFindersOnTheirOwnModel.IsOtherFinder`: a call with a nil or absent receiver is taken to be "not a call", so it is not flagged. In Ruby, `node.subject.node_type` on a nil subject depends on code that is not part of this model. If `nil` has no `node_type`, the Ruby rule would raise there instead of answering false.
- `add_error` also records the file name and line number of the error. Here an error is only its message text.
- `MODEL_FILES` and `ROUTE_FILE` are opaque file categories. How a path is classified is not modelled.
- The review engine is left out: the traversal that calls `review_start_call` on every interesting node, the prepare/review phases and dispatch. Only the interest filter each rule declares is modelled.
- Parsing Ruby source into S-expressions (ruby_parser) is left out. The model starts from the tree.
- Reporting, the command line and the documentation links in the comments are left out.
