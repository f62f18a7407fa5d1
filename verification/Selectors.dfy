/**
 What a selector means, following section 8 of Selectors Level 3: a list of tokens read from left to
 right denotes a chain of nodes that starts at the search context and ends at the matched node.
 */
module Selectors {
  import opened Dom
  import opened Wrappers

  datatype Direction = ParentNode | PreviousSibling

  /** The four entries `>`, ` `, `+` and `~` of the table of combinators. */
  datatype Relation = Child | Descendant | Adjacent | Sibling {
    function Dir(): Direction {
      if Child? || Descendant? then ParentNode else PreviousSibling
    }

    predicate First() {
      Child? || Adjacent?
    }
  }

  /** A combinator, or a simple selector given by the test it makes on a node. */
  datatype Token = Combine(rel: Relation) | Filter(test: Node -> bool)

  datatype Context = One(node: Node) | Many(nodes: seq<Node>) {
    predicate Has(n: Node) {
      match this
      case One(c) => n == c
      case Many(cs) => n in cs
    }
  }

  /** What stays fixed while one compiled selector runs over its candidates. */
  datatype Query = Query(context: Context, xml: bool, outermostContext: Option<Context>)

  ghost predicate IsAncestor(a: Node, n: Node, nodes: set<Node>)
    requires IsForest(nodes) && n in nodes
    reads nodes
    decreases n.depth
  {
    assert LinkedUp(n, nodes);
    n.parentNode != null && (n.parentNode == a || IsAncestor(a, n.parentNode, nodes))
  }

  ghost predicate IsEarlierSibling(a: Node, n: Node, nodes: set<Node>)
    requires IsForest(nodes) && n in nodes
    reads nodes
  {
    assert LinkedUp(n, nodes);
    n.parentNode != null && exists i | 0 <= i < n.index :: n.parentNode.childNodes[i] == a
  }

  /** `a` combined with `n` by `rel`. The search context may be any kind of node above `n`. */
  ghost predicate Related(rel: Relation, asContext: bool, a: Node, n: Node, nodes: set<Node>)
    requires IsForest(nodes) && n in nodes
    reads nodes
  {
    assert LinkedUp(n, nodes);
    match rel
    case Child => a == n.parentNode && (asContext || a.nodeType == 1)
    case Descendant => IsAncestor(a, n, nodes) && (asContext || a.nodeType == 1)
    case Sibling => IsEarlierSibling(a, n, nodes) && a.nodeType == 1
    case Adjacent =>
      && IsEarlierSibling(a, n, nodes) && a.nodeType == 1
      && a in nodes
      && forall i | a.index < i < n.index :: n.parentNode.childNodes[i].nodeType != 1
  }

  function Leading(tokens: seq<Token>): Option<Relation> {
    if |tokens| > 0 && tokens[0].Combine? then Some(tokens[0].rel) else None
  }

  /** A node at which a chain may start. Without a leading combinator the context is not looked at
      in XML, nor when it is not the outermost one. */
  ghost predicate Reachable(leading: Option<Relation>, q: Query, n: Node, nodes: set<Node>)
    requires IsForest(nodes) && n in nodes
    reads nodes
  {
    match leading
    case None => q.xml || Some(q.context) != q.outermostContext || HasContext(Descendant, q, n, nodes)
    case Some(rel) => HasContext(rel, q, n, nodes)
  }

  ghost predicate HasContext(rel: Relation, q: Query, n: Node, nodes: set<Node>)
    requires IsForest(nodes) && n in nodes
    reads nodes
  {
    exists c <- nodes :: q.context.Has(c) && Related(rel, true, c, n, nodes)
  }

  /** The tokens after a leading combinator. */
  function Body(tokens: seq<Token>): seq<Token> {
    if Leading(tokens).Some? then tokens[1..] else tokens
  }

  /** How many combinators there are: a chain has one node more than that. */
  function Links(body: seq<Token>): nat {
    if body == [] then 0
    else Links(body[..|body| - 1]) + if body[|body| - 1].Combine? then 1 else 0
  }

  /** `path` satisfies the body: the i-th node passes every filter between the i-th combinator and
      the next, and consecutive nodes are related by the combinator between them. */
  ghost predicate IsChain(body: seq<Token>, older path: seq<Node>, nodes: set<Node>)
    requires IsForest(nodes)
    reads nodes
  {
    && |path| == Links(body) + 1
    && (forall i | 0 <= i < |path| :: path[i] in nodes)
    && forall k | 0 <= k < |body| :: MeetsToken(body[k], Links(body[..k]), path, nodes)
  }

  ghost predicate MeetsToken(token: Token, at: nat, path: seq<Node>, nodes: set<Node>)
    requires IsForest(nodes)
    requires forall i | 0 <= i < |path| :: path[i] in nodes
    reads nodes
  {
    match token
    case Filter(test) => at < |path| && test(path[at])
    case Combine(rel) => at + 1 < |path| && Related(rel, false, path[at], path[at + 1], nodes)
  }

  /** The selector accepts `n` in this query. */
  ghost predicate Selects(tokens: seq<Token>, q: Query, n: Node, nodes: set<Node>)
    requires IsForest(nodes) && n in nodes
    reads nodes
  {
    exists path: seq<Node> ::
      && IsChain(Body(tokens), path, nodes)
      && path[|path| - 1] == n
      && Reachable(Leading(tokens), q, path[0], nodes)
  }
}
