/**
 Compiling a token list into matchers preserves its meaning: the right-to-left closure chain accepts
 a node exactly when a left-to-right chain of nodes from the search context ends there.
 */
module SelectorMeaning {
  import opened Dom
  import opened Selectors
  import opened Wrappers
  import opened SelectorEngine
  import opened SelectorCompiler

  /** Walking with a combinator is looking for a related node that the inner matcher accepts. */
  ghost predicate Finds(m: Matcher, q: Query, n: Node, nodes: set<Node>)
    requires IsForest(nodes) && n in nodes && m.Combinator?
    reads nodes
  {
    exists c <- nodes :: Related(m.rel, m.base, c, n, nodes) && Accepts(m.inner, q, c, nodes)
  }

  lemma {:induction false} UpwardWalk(m: Matcher, q: Query, n: Node, nodes: set<Node>)
    requires IsForest(nodes) && n in nodes && m.Combinator? && m.rel.Dir() == ParentNode
    ensures Accepts(m, q, n, nodes) <==> Finds(m, q, n, nodes)
    decreases n.depth
  {
    assert LinkedUp(n, nodes);
    var p := n.parentNode;
    if p != null {
      UpwardWalk(m, q, p, nodes);
      assert LinkedUp(p, nodes);
      if Finds(m, q, n, nodes) {
        var c :| c in nodes && Related(m.rel, m.base, c, n, nodes) && Accepts(m.inner, q, c, nodes);
        if c != p && m.rel == Descendant {
          assert Related(m.rel, m.base, c, p, nodes);
        }
      }
      if Accepts(m, q, n, nodes) {
        if m.Considers(p) && Accepts(m.inner, q, p, nodes) {
          assert Related(m.rel, m.base, p, n, nodes);
        } else {
          var c :| c in nodes && Related(m.rel, m.base, c, p, nodes) && Accepts(m.inner, q, c, nodes);
          assert Related(m.rel, m.base, c, n, nodes);
        }
      }
    }
  }

  lemma PreviousSiblings(n: Node, nodes: set<Node>)
    requires IsForest(nodes) && n in nodes
    ensures n.previousSibling == null ==> forall c <- nodes :: !IsEarlierSibling(c, n, nodes)
    ensures var p := n.previousSibling;
      p != null ==>
        && p in nodes && p.index == n.index - 1 && p.parentNode == n.parentNode != null
        && n.index < |n.parentNode.childNodes| && n.parentNode.childNodes[n.index - 1] == p
        && forall c <- nodes :: IsEarlierSibling(c, n, nodes) <==> c == p || IsEarlierSibling(c, p, nodes)
  {
    assert LinkedUp(n, nodes);
    if n.previousSibling != null {
      assert LinkedDown(n.parentNode, nodes);
    }
  }

  /** Seen from `n`, the related earlier siblings are the previous one, if it counts, and, unless
      the combinator wants the nearest, those seen from there. */
  lemma RelatedSideways(rel: Relation, base: bool, n: Node, c: Node, nodes: set<Node>)
    requires IsForest(nodes) && n in nodes && c in nodes && rel.Dir() == PreviousSibling && n.previousSibling != null
    ensures n.previousSibling in nodes
    ensures var p := n.previousSibling;
      Related(rel, base, c, n, nodes) <==>
        if IsElement(p) then c == p || (!rel.First() && Related(rel, base, c, p, nodes))
        else Related(rel, base, c, p, nodes)
  {
    PreviousSiblings(n, nodes);
    var p := n.previousSibling;
    assert LinkedDown(n.parentNode, nodes) by { assert LinkedUp(n, nodes); }
    if IsEarlierSibling(c, p, nodes) {
      assert c.index < p.index;
    }
  }

  lemma {:induction false} SidewaysWalk(m: Matcher, q: Query, n: Node, nodes: set<Node>)
    requires IsForest(nodes) && n in nodes && m.Combinator? && m.rel.Dir() == PreviousSibling
    ensures Accepts(m, q, n, nodes) <==> Finds(m, q, n, nodes)
    decreases Rank(n, PreviousSibling)
  {
    PreviousSiblings(n, nodes);
    var p := n.previousSibling;
    if p != null {
      StepDown(n, PreviousSibling, nodes);
      SidewaysWalk(m, q, p, nodes);
      forall c | c in nodes
        ensures Related(m.rel, m.base, c, n, nodes) <==>
          if IsElement(p) then c == p || (!m.rel.First() && Related(m.rel, m.base, c, p, nodes))
          else Related(m.rel, m.base, c, p, nodes)
      {
        RelatedSideways(m.rel, m.base, n, c, nodes);
      }
    }
  }

  lemma {:induction false} CombinatorMeaning(m: Matcher, q: Query, n: Node, nodes: set<Node>)
    requires IsForest(nodes) && n in nodes && m.Combinator?
    ensures Accepts(m, q, n, nodes) <==> Finds(m, q, n, nodes)
  {
    if m.rel.Dir() == ParentNode {
      UpwardWalk(m, q, n, nodes);
    } else {
      SidewaysWalk(m, q, n, nodes);
    }
  }

  /** The body of a selector read from the right: what its last token demands, and then the rest. */
  ghost predicate Arrives(body: seq<Token>, leading: Option<Relation>, q: Query, n: Node, nodes: set<Node>)
    requires IsForest(nodes) && n in nodes
    reads nodes
    decreases |body|
  {
    if body == [] then Reachable(leading, q, n, nodes)
    else
      var last := |body| - 1;
      match body[last]
      case Filter(test) => test(n) && Arrives(body[..last], leading, q, n, nodes)
      case Combine(rel) =>
        exists c <- nodes :: Related(rel, false, c, n, nodes) && Arrives(body[..last], leading, q, c, nodes)
  }

  lemma BaseMeaning(m: Matcher, leading: Option<Relation>, q: Query, n: Node, nodes: set<Node>)
    requires IsForest(nodes) && n in nodes && IsBase(m, leading)
    ensures Accepts(m, q, n, nodes) <==> Reachable(leading, q, n, nodes)
  {
    CombinatorMeaning(m.matchContext, q, n, nodes);
    CombinatorMeaning(m.matchAnyContext, q, n, nodes);
  }

  lemma {:induction false} StandsMeaning(ms: seq<Matcher>, body: seq<Token>, leading: Option<Relation>, q: Query,
                                         n: Node, nodes: set<Node>)
    requires IsForest(nodes) && n in nodes && Stands(ms, body, leading)
    ensures (forall i | 0 <= i < |ms| :: Accepts(ms[i], q, n, nodes)) <==> Arrives(body, leading, q, n, nodes)
    decreases |body|
  {
    if body == [] {
      BaseMeaning(ms[0], leading, q, n, nodes);
    } else {
      var init := body[..|body| - 1];
      match body[|body| - 1]
      case Filter(test) =>
        var rest := ms[..|ms| - 1];
        StandsMeaning(rest, init, leading, q, n, nodes);
        assert forall i | 0 <= i < |rest| :: rest[i] == ms[i];
        assert (forall i | 0 <= i < |ms| :: Accepts(ms[i], q, n, nodes))
          <==> (forall i | 0 <= i < |rest| :: Accepts(rest[i], q, n, nodes)) && Accepts(ms[|ms| - 1], q, n, nodes);
      case Combine(rel) =>
        CombinatorMeaning(ms[0], q, n, nodes);
        forall c | c in nodes ensures Accepts(ms[0].inner, q, c, nodes) <==> Arrives(init, leading, q, c, nodes) {
          StandsMeaning(if ms[0].inner.AllOf? then ms[0].inner.matchers else [ms[0].inner], init, leading, q, c, nodes);
        }
    }
  }

  lemma {:induction false} ArrivesByPath(body: seq<Token>, leading: Option<Relation>, q: Query, n: Node,
                                         nodes: set<Node>)
    returns (path: seq<Node>)
    requires IsForest(nodes) && n in nodes && Arrives(body, leading, q, n, nodes)
    ensures IsChain(body, path, nodes) && path[|path| - 1] == n && Reachable(leading, q, path[0], nodes)
    decreases |body|
  {
    if body == [] {
      path := [n];
    } else {
      var last := |body| - 1;
      match body[last]
      case Filter(_) =>
        path := ArrivesByPath(body[..last], leading, q, n, nodes);
        ChainSnoc(body, path, path, nodes);
      case Combine(rel) =>
        var c :| c in nodes && Related(rel, false, c, n, nodes) && Arrives(body[..last], leading, q, c, nodes);
        var front := ArrivesByPath(body[..last], leading, q, c, nodes);
        path := front + [n];
        ChainSnoc(body, front, path, nodes);
    }
  }

  lemma {:induction false} PathArrives(body: seq<Token>, leading: Option<Relation>, q: Query, path: seq<Node>,
                                       nodes: set<Node>)
    requires IsForest(nodes) && IsChain(body, path, nodes) && Reachable(leading, q, path[0], nodes)
    ensures Arrives(body, leading, q, path[|path| - 1], nodes)
    decreases |body|
  {
    if body != [] {
      var last := |body| - 1;
      var front := if body[last].Combine? then path[..|path| - 1] else path;
      assert MeetsToken(body[last], Links(body[..last]), path, nodes);
      ChainSnoc(body, front, path, nodes);
      PathArrives(body[..last], leading, q, front, nodes);
    }
  }

  /** One more token at the end of a chain. */
  lemma ChainSnoc(body: seq<Token>, front: seq<Node>, path: seq<Node>, nodes: set<Node>)
    requires IsForest(nodes) && body != []
    requires forall i | 0 <= i < |path| :: path[i] in nodes
    requires |path| == Links(body) + 1 && front <= path
    requires |front| == Links(body[..|body| - 1]) + 1
    ensures IsChain(body, path, nodes) <==>
      IsChain(body[..|body| - 1], front, nodes) && MeetsToken(body[|body| - 1], |front| - 1, path, nodes)
  {
    var last := |body| - 1;
    var init := body[..last];
    if IsChain(body, path, nodes) {
      forall k | 0 <= k < last ensures MeetsToken(init[k], Links(init[..k]), front, nodes) {
        EarlierToken(body, k, front, path, nodes);
        assert MeetsToken(body[k], Links(body[..k]), path, nodes);
      }
      assert MeetsToken(body[last], Links(body[..last]), path, nodes);
    }
    if IsChain(init, front, nodes) && MeetsToken(body[last], |front| - 1, path, nodes) {
      forall k | 0 <= k < |body| ensures MeetsToken(body[k], Links(body[..k]), path, nodes) {
        if k < last {
          EarlierToken(body, k, front, path, nodes);
          assert MeetsToken(init[k], Links(init[..k]), front, nodes);
        }
      }
    }
  }

  lemma EarlierToken(body: seq<Token>, k: nat, front: seq<Node>, path: seq<Node>, nodes: set<Node>)
    requires IsForest(nodes) && k < |body| - 1
    requires forall i | 0 <= i < |path| :: path[i] in nodes
    requires front <= path && |front| == Links(body[..|body| - 1]) + 1
    ensures var init := body[..|body| - 1];
      MeetsToken(body[k], Links(body[..k]), path, nodes) <==> MeetsToken(init[k], Links(init[..k]), front, nodes)
  {
    var init := body[..|body| - 1];
    assert init[..k] == body[..k];
    LinksMonotone(init, k);
  }

  lemma LinksMonotone(body: seq<Token>, k: nat)
    requires k < |body|
    ensures Links(body[..k]) + (if body[k].Combine? then 1 else 0) <= Links(body)
    decreases |body|
  {
    var last := |body| - 1;
    if k < last {
      assert body[..last][..k] == body[..k];
      LinksMonotone(body[..last], k);
    }
  }

  /** The compiled matcher accepts exactly the nodes that the selector selects. */
  lemma CompilationPreservesMeaning(m: Matcher, tokens: seq<Token>, q: Query, n: Node, nodes: set<Node>)
    requires IsForest(nodes) && n in nodes && CompiledFrom(m, tokens)
    ensures Accepts(m, q, n, nodes) <==> Selects(tokens, q, n, nodes)
  {
    var body, leading := Body(tokens), Leading(tokens);
    StandsMeaning(if m.AllOf? then m.matchers else [m], body, leading, q, n, nodes);
    if Arrives(body, leading, q, n, nodes) {
      var path := ArrivesByPath(body, leading, q, n, nodes);
    }
    forall path: seq<Node> | IsChain(body, path, nodes) && path[|path| - 1] == n
      && Reachable(leading, q, path[0], nodes)
      ensures Arrives(body, leading, q, n, nodes)
    {
      PathArrives(body, leading, q, path, nodes);
    }
  }

  ghost function SelectedSet(groups: seq<seq<Token>>, q: Query, nodes: set<Node>): set<Node>
    requires IsForest(nodes)
    reads nodes
  {
    set n | n in nodes && exists k | 0 <= k < |groups| :: Selects(groups[k], q, n, nodes)
  }

  lemma CompiledListSelects(ms: seq<Matcher>, groups: seq<seq<Token>>, q: Query, nodes: set<Node>)
    requires IsForest(nodes) && |ms| == |groups|
    requires forall k | 0 <= k < |groups| :: CompiledFrom(ms[k], groups[|groups| - 1 - k])
    ensures AcceptedSet(ms, q, nodes) == SelectedSet(groups, q, nodes)
  {
    forall n | n in nodes ensures n in AcceptedSet(ms, q, nodes) <==> n in SelectedSet(groups, q, nodes) {
      forall k | 0 <= k < |groups|
        ensures Accepts(ms[k], q, n, nodes) <==> Selects(groups[|groups| - 1 - k], q, n, nodes)
      {
        CompilationPreservesMeaning(ms[k], groups[|groups| - 1 - k], q, n, nodes);
      }
      if k :| 0 <= k < |groups| && Selects(groups[k], q, n, nodes) {
        assert Accepts(ms[|groups| - 1 - k], q, n, nodes);
      }
    }
  }

  /** Where a chain may begin, for a search in `context`. With a leading combinator, which must relate
      the first node to a context node; else, in XML or in the whole document, anywhere; else, below
      a context node. */
  ghost predicate Begins(tokens: seq<Token>, context: Context, xml: bool, document: Node, n: Node, nodes: set<Node>)
    requires IsForest(nodes) && n in nodes
    reads nodes
  {
    if tokens != [] && tokens[0].Combine? then
      exists c <- nodes :: InContext(context, c) && Related(tokens[0].rel, true, c, n, nodes)
    else
      || xml || context == One(document)
      || exists c <- nodes :: InContext(context, c) && IsAncestor(c, n, nodes)
  }

  ghost predicate InContext(context: Context, c: Node) {
    context == One(c) || (context.Many? && c in context.nodes)
  }

  /** `n` ends a chain of nodes that satisfies the tokens after a leading combinator, and begins where
      it may. */
  ghost predicate EndsChain(tokens: seq<Token>, context: Context, xml: bool, document: Node, n: Node, nodes: set<Node>)
    requires IsForest(nodes) && n in nodes
    reads nodes
  {
    exists path: seq<Node> ::
      && IsChain(if tokens != [] && tokens[0].Combine? then tokens[1..] else tokens, path, nodes)
      && path[|path| - 1] == n && Begins(tokens, context, xml, document, path[0], nodes)
  }

  lemma SelectsMeans(tokens: seq<Token>, context: Context, xml: bool, document: Node, n: Node, nodes: set<Node>)
    requires IsForest(nodes) && n in nodes
    ensures
      var q := Query(context, xml, if context == One(document) then None else Some(context));
      Selects(tokens, q, n, nodes) <==> EndsChain(tokens, context, xml, document, n, nodes)
  {
    var q := Query(context, xml, if context == One(document) then None else Some(context));
    forall m | m in nodes
      ensures Reachable(Leading(tokens), q, m, nodes) <==> Begins(tokens, context, xml, document, m, nodes)
    {
      assert forall c <- nodes :: InContext(context, c) <==> context.Has(c);
      assert forall c <- nodes :: Related(Descendant, true, c, m, nodes) <==> IsAncestor(c, m, nodes);
    }
    assert Body(tokens) == if tokens != [] && tokens[0].Combine? then tokens[1..] else tokens;
  }

  /** The candidates that one of the groups selects in this search. */
  ghost function MatchedSet(groups: seq<seq<Token>>, context: Context, xml: bool, document: Node, nodes: set<Node>)
    : set<Node>
    requires IsForest(nodes)
    reads nodes
  {
    set n | n in nodes && exists k | 0 <= k < |groups| :: EndsChain(groups[k], context, xml, document, n, nodes)
  }

  /** Compile a selector list and run it over candidates. Whatever cells earlier runs have left in
      the expandos, the result is the selected candidates, in the order given. */
  method Search(compiler: Compiler, engine: Engine, groups: seq<seq<Token>>, elems: seq<Node>,
                context: Context, xml: bool, document: Node, ghost nodes: set<Node>)
    returns (results: seq<Node>)
    requires IsForest(nodes) && forall g <- groups :: |g| > 0
    requires forall e <- elems :: e in nodes
    requires engine.outermostContext == None && NoneLater(engine.dirruns, MemosIn(nodes), nodes)
    modifies compiler, engine, Expandos(nodes)
    ensures results == Kept(elems, MatchedSet(groups, context, xml, document, nodes))
    ensures forall n <- results :: n in elems
    ensures forall n <- elems ::
      n in results <==> exists k | 0 <= k < |groups| :: EndsChain(groups[k], context, xml, document, n, nodes)
    ensures engine.outermostContext == None && NoneLater(engine.dirruns, MemosIn(nodes), nodes)
  {
    ghost var q := Query(context, xml, if context == One(document) then None else Some(context));
    var elementMatchers := compiler.Compile(groups);
    results := engine.SuperMatch(elementMatchers, elems, context, xml, document, nodes);
    CompiledListSelects(elementMatchers, groups, q, nodes);
    SelectedIsMatched(groups, context, xml, document, nodes);
    KeptElements(elems, MatchedSet(groups, context, xml, document, nodes));
  }

  lemma SelectedIsMatched(groups: seq<seq<Token>>, context: Context, xml: bool, document: Node, nodes: set<Node>)
    requires IsForest(nodes)
    ensures SelectedSet(groups, Query(context, xml, if context == One(document) then None else Some(context)), nodes)
      == MatchedSet(groups, context, xml, document, nodes)
  {
    var q := Query(context, xml, if context == One(document) then None else Some(context));
    forall n, k | n in nodes && 0 <= k < |groups|
      ensures Selects(groups[k], q, n, nodes) <==> EndsChain(groups[k], context, xml, document, n, nodes)
    {
      SelectsMeans(groups[k], context, xml, document, n, nodes);
    }
  }

  lemma {:induction false} KeptElements(elems: seq<Node>, ok: set<Node>)
    ensures forall n :: n in Kept(elems, ok) <==> n in elems && n in ok
  {
    if elems != [] {
      var last := |elems| - 1;
      KeptElements(elems[..last], ok);
      assert elems == elems[..last] + [elems[last]];
    }
  }

  /** Keeping respects order: what is kept of a list is what is kept of its halves, in turn. */
  lemma {:induction false} KeptOfConcat(a: seq<Node>, b: seq<Node>, ok: set<Node>)
    ensures Kept(a + b, ok) == Kept(a, ok) + Kept(b, ok)
    decreases |b|
  {
    if b == [] {
      assert a + b == a;
    } else {
      var last := |b| - 1;
      assert (a + b)[..|a + b| - 1] == a + b[..last];
      KeptOfConcat(a, b[..last], ok);
    }
  }

  /** A candidate in `ok` is kept as often as it was given, any other one never. */
  lemma {:induction false} KeptCounts(elems: seq<Node>, ok: set<Node>, n: Node)
    ensures multiset(Kept(elems, ok))[n] == if n in ok then multiset(elems)[n] else 0
  {
    if elems != [] {
      var last := |elems| - 1;
      KeptCounts(elems[..last], ok, n);
      assert elems == elems[..last] + [elems[last]];
    }
  }
}
