/** Route selection of `build_rag_chain`: the classifier's raw answer is stripped
    and compared with three labels in a fixed order, the first equal label picks
    its strategy, and anything else falls back to the local strategy. */
module Routing {
  import opened Text

  /** The three answering strategies. */
  datatype Route = Local | Global | Chat

  datatype Option<T> = None | Some(value: T)

  /** One `(predicate, runnable)` pair of the branch: the predicate holds when
      the stripped classifier output equals `expected`. */
  datatype Branch = Branch(expected: string, target: Route)

  /** The branches in the order they are tried. */
  const Branches: seq<Branch> := [Branch("LOCAL", Local), Branch("GLOBAL", Global), Branch("CHAT", Chat)]

  /** The runnable used when no predicate holds. */
  const DefaultRoute: Route := Local

  /** The label the classifier is asked to emit for a route. */
  function Label(r: Route): string
  {
    match r
    case Local => "LOCAL"
    case Global => "GLOBAL"
    case Chat => "CHAT"
  }

  /** The target of the first branch whose label equals `key`, or `None` when
      no branch matches. */
  function FirstMatch(branches: seq<Branch>, key: string): (r: Option<Route>)
    ensures r.None? <==> forall i :: 0 <= i < |branches| ==> branches[i].expected != key
    ensures r.Some? ==> exists i :: (0 <= i < |branches| && branches[i].expected == key &&
      branches[i].target == r.value && forall j :: 0 <= j < i ==> branches[j].expected != key)
  {
    if |branches| == 0 then None
    else if branches[0].expected == key then Some(branches[0].target)
    else
      var r := FirstMatch(branches[1..], key);
      assert forall i :: 1 <= i < |branches| ==> branches[i] == branches[1..][i - 1];
      r
  }

  /** The branch as a whole: strip the raw classifier output, take the first
      matching branch, else the fallback. */
  function SelectRoute(raw: string): Route
  {
    match FirstMatch(Branches, Strip(raw))
    case Some(r) => r
    case None => DefaultRoute
  }

  /** The labels dispatch exactly: the stripped output selects the global or
      the chat strategy if and only if it is that label, and the local strategy
      in every other case, which is its own label or an unmatched output. */
  lemma SelectRouteExact(raw: string)
    ensures SelectRoute(raw) == Global <==> Strip(raw) == "GLOBAL"
    ensures SelectRoute(raw) == Chat <==> Strip(raw) == "CHAT"
    ensures SelectRoute(raw) == Local <==> Strip(raw) != "GLOBAL" && Strip(raw) != "CHAT"
  {
    var key := Strip(raw);
    var m := FirstMatch(Branches, key);
    if m.Some? {
      var i :| 0 <= i < |Branches| && Branches[i].expected == key && Branches[i].target == m.value;
      assert i == 0 || i == 1 || i == 2;
    } else {
      assert Branches[1].expected != key && Branches[2].expected != key;
    }
  }

  /** Any output that is not one of the three labels once stripped, compared
      case-sensitively, falls back to the local strategy. */
  lemma FallbackToLocal(raw: string)
    requires forall r: Route :: Strip(raw) != Label(r)
    ensures SelectRoute(raw) == Local
  {
    assert Strip(raw) != Label(Global) && Strip(raw) != Label(Chat);
    SelectRouteExact(raw);
  }

  lemma LabelTrimmed(r: Route)
    ensures Trimmed(Label(r))
  {
  }

  /** Every label, with any whitespace around it, selects its own route: the
      classifier output is stripped before it is compared. */
  lemma {:induction false} LabelSelects(r: Route, pre: string, post: string)
    requires AllSpace(pre) && AllSpace(post)
    ensures SelectRoute(pre + Label(r) + post) == r
  {
    LabelTrimmed(r);
    assert AllSpace("");
    StripSurrounded(pre, Label(r), post);
    SelectRouteExact(pre + Label(r) + post);
  }

  /** Outputs a chatty model may produce that do not dispatch: the empty
      string, a lower-case label, a label with punctuation and two labels. */
  lemma FallbackExamples(s: string)
    requires s == "" || s == "chat" || s == "CHAT." || s == "LOCAL GLOBAL"
    ensures SelectRoute(s) == Local
  {
    assert Trimmed(s) && s != "GLOBAL" && s != "CHAT";
    UnmatchedFallsBack(s);
  }

  /** A label with a leading space and a trailing newline still dispatches. */
  lemma PaddedLabelExample()
    ensures SelectRoute(" GLOBAL\n") == Global
  {
    var pre, post := " ", "\n";
    assert AllSpace(pre) && AllSpace(post);
    assert pre + Label(Global) + post == " GLOBAL\n";
    LabelSelects(Global, pre, post);
  }

  lemma UnmatchedFallsBack(s: string)
    requires Trimmed(s) && s != "GLOBAL" && s != "CHAT"
    ensures SelectRoute(s) == Local
  {
    StripSurrounded("", s, "");
    assert "" + s + "" == s;
    SelectRouteExact(s);
  }
}
