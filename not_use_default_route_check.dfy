/** Do not use the default route: in the routes file, the catch-all route that
    Rails generates (`map.connect ':controller/:action/:id'` and its `.:format`
    twin in Rails 2, `match ':controller(/:action(/:id(.:format)))'` in Rails 3)
    is reported. A call is compared with the three routes by plain structural
    equality. */
module NotUseDefaultRoute {
  import opened SExps
  import opened Checks

  const ErrorMessage: string := "not use default route"

  const IdPath: string := ":controller/:action/:id"
  const FormatPath: string := ":controller/:action/:id.:format"
  const CatchAllPath: string := ":controller(/:action(/:id(.:format)))"

  /** The receiver `map` of a Rails 2 route: `s(:lvar, :map)`. */
  const MapVariable: SExp := List([Sym("lvar"), Sym("map")])

  /** `receiver.message 'path'` as ruby_parser builds it:
      `s(:call, receiver, :message, s(:arglist, s(:str, "path")))`. */
  function RouteCall(receiver: SExp, message: string, path: string): SExp {
    List([Sym("call"), receiver, Sym(message), List([Sym("arglist"), List([Sym("str"), Str(path)])])])
  }

  /** `map.connect ':controller/:action/:id'` */
  const ConnectIdRoute: SExp := RouteCall(MapVariable, "connect", IdPath)
  /** `map.connect ':controller/:action/:id.:format'` */
  const ConnectFormatRoute: SExp := RouteCall(MapVariable, "connect", FormatPath)
  /** `match ':controller(/:action(/:id(.:format)))'`, with no receiver */
  const MatchCatchAllRoute: SExp := RouteCall(Nil, "match", CatchAllPath)

  /** The condition of review_start_call: the node equals one of the three routes.
      Only a four-element `connect` or `match` call can be one. */
  predicate IsDefaultRoute(node: SExp)
    ensures IsDefaultRoute(node) ==>
      && node.List? && |node.items| == 4 && HasType(node, "call")
      && Message(node) in {Some("connect"), Some("match")}
  {
    node == ConnectIdRoute || node == ConnectFormatRoute || node == MatchCatchAllRoute
  }

  /** interesting_review_nodes: call nodes only. */
  function InterestingReviewNodes(): (r: seq<string>)
    ensures forall kind :: kind in r <==> kind == "call"
  {
    ["call"]
  }

  /** interesting_review_files: the routes file. */
  function InterestingReviewFiles(): (r: FileCategory)
    ensures r == RouteFile
  {
    RouteFile
  }

  /** The string of a call whose argument list is exactly one string literal,
      `s(:arglist, s(:str, path))`. */
  function SinglePath(node: SExp): (r: Option<string>)
    ensures r.Some? ==> Arguments(node) == Some(List([Sym("arglist"), List([Sym("str"), Str(r.value)])]))
    ensures r.None? ==> forall p :: Arguments(node) != Some(List([Sym("arglist"), List([Sym("str"), Str(p)])]))
  {
    match Arguments(node)
    case Some(List(args)) =>
      if && |args| == 2 && args[0] == Sym("arglist")
         && args[1].List? && |args[1].items| == 2 && args[1].items[0] == Sym("str") && args[1].items[1].Str?
      then
        assert args[1].items == [Sym("str"), Str(args[1].items[1].text)];
        assert args == [Sym("arglist"), List([Sym("str"), Str(args[1].items[1].text)])];
        Some(args[1].items[1].text)
      else None
    case _ => None
  }

  /** A call node of exactly four elements equals the route built from its parts. */
  lemma CallFromParts(node: SExp, receiver: SExp, message: string, path: string)
    requires node.List? && |node.items| == 4 && HasType(node, "call")
    requires Subject(node) == Some(receiver) && Message(node) == Some(message)
    requires SinglePath(node) == Some(path)
    ensures node == RouteCall(receiver, message, path)
  {
  }

  /** The three routes taken apart: a node is reported exactly when it is a
      four-element call whose only argument is one string, and either the
      receiver is `map`, the message `connect` and the string one of the two
      Rails 2 paths, or there is no receiver, the message is `match` and the
      string is the Rails 3 catch-all path. */
  lemma DefaultRouteIff(node: SExp)
    ensures IsDefaultRoute(node) <==>
      && node.List? && |node.items| == 4 && HasType(node, "call") && SinglePath(node).Some?
      && ( (Subject(node) == Some(MapVariable) && Message(node) == Some("connect")
              && SinglePath(node).value in {":controller/:action/:id", ":controller/:action/:id.:format"})
        || (Subject(node) == Some(Nil) && Message(node) == Some("match")
              && SinglePath(node).value == ":controller(/:action(/:id(.:format)))"))
  {
  }

  /** Each of the three generated routes, written out as ruby_parser builds
      it, is reported. */
  lemma DefaultRoutesReported()
    ensures IsDefaultRoute(List([Sym("call"), List([Sym("lvar"), Sym("map")]), Sym("connect"),
                                 List([Sym("arglist"), List([Sym("str"), Str(":controller/:action/:id")])])]))
    ensures IsDefaultRoute(List([Sym("call"), List([Sym("lvar"), Sym("map")]), Sym("connect"),
                                 List([Sym("arglist"), List([Sym("str"), Str(":controller/:action/:id.:format")])])]))
    ensures IsDefaultRoute(List([Sym("call"), Nil, Sym("match"),
                                 List([Sym("arglist"), List([Sym("str"), Str(":controller(/:action(/:id(.:format)))")])])]))
  {
  }

  /** Matching is exact: any other string, such as
      `':controller/:action/:id/:custom'`, is not reported. */
  lemma OtherPathNotReported(node: SExp)
    requires SinglePath(node).Some?
    requires SinglePath(node).value !in {IdPath, FormatPath, CatchAllPath}
    ensures !IsDefaultRoute(node)
  {
  }

  /** `map.connect ':controller/:action/:id/:custom'` is not reported. */
  lemma CustomPathNotReported()
    ensures !IsDefaultRoute(List([Sym("call"), List([Sym("lvar"), Sym("map")]), Sym("connect"),
                                  List([Sym("arglist"), List([Sym("str"), Str(":controller/:action/:id/:custom")])])]))
  {
  }

  /** `connect` is reported only on the receiver `map`, and `match` only with no receiver. */
  lemma ReceiverMustMatch(node: SExp)
    requires Message(node) == Some("connect") ==> Subject(node) != Some(MapVariable)
    requires Message(node) == Some("match") ==> Subject(node) != Some(Nil)
    ensures !IsDefaultRoute(node)
  {
  }

  /** `match` called on any receiver at all is not reported. */
  lemma MatchWithReceiverNotReported(receiver: SExp)
    requires receiver != Nil
    ensures !IsDefaultRoute(List([Sym("call"), receiver, Sym("match"),
                                  List([Sym("arglist"), List([Sym("str"), Str(":controller(/:action(/:id(.:format)))")])])]))
  {
  }

  /** An argument list holding anything but a single argument is not reported. */
  lemma ExtraArgumentsNotReported(node: SExp, args: seq<SExp>)
    requires Arguments(node) == Some(List(args)) && |args| != 2
    ensures !IsDefaultRoute(node)
  {
  }

  /** The rule is reported only on call nodes, the kind it declares interest in. */
  lemma ReportedOnlyOnCalls(node: SExp)
    requires IsDefaultRoute(node)
    ensures HasType(node, "call") && Interested(InterestingReviewNodes(), InterestingReviewFiles(), RouteFile, node)
  {
  }

  /** Whether the rule is asked about a node: call nodes in the routes file, nothing else. */
  lemma InterestIsCallsInRouteFile(file: FileCategory, node: SExp)
    ensures Interested(InterestingReviewNodes(), InterestingReviewFiles(), file, node)
        <==> file == RouteFile && HasType(node, "call")
  {
  }

  /** NotUseDefaultRouteCheck, holding the error list of its base check. */
  class NotUseDefaultRouteCheck {
    const check: Check

    constructor ()
      ensures fresh(check) && check.errors == []
    {
      check := new Check();
    }

    /** review_start_call: one error with the rule's message when the call is
        one of the default routes (one, not one per route it equals), the error
        list untouched otherwise. */
    method ReviewStartCall(node: SExp)
      modifies check
      ensures check.errors == if IsDefaultRoute(node) then old(check.errors) + [ErrorMessage] else old(check.errors)
    {
      if IsDefaultRoute(node) {
        check.AddError(ErrorMessage);
      }
    }
  }

  /** A client: of `map.connect ':controller/:action/:id'` and the same call
      with a longer path, only the first is reported. */
  method ReviewRoutesExample()
  {
    var rule := new NotUseDefaultRouteCheck();
    rule.ReviewStartCall(RouteCall(MapVariable, "connect", IdPath));
    CustomPathNotReported();
    rule.ReviewStartCall(RouteCall(MapVariable, "connect", ":controller/:action/:id/:custom"));
    assert rule.check.errors == [ErrorMessage];
  }
}
