/**
 The compiled form of a selector: a chain of matcher closures, given here by their captured values,
 and the interpreter that runs them with memo cells in the nodes' expandos.
 */
module SelectorEngine {
  import opened Dom
  import opened Selectors
  import opened Wrappers

  datatype Matcher =
    | Simple(test: Node -> bool)
    | IsContext
    | InContexts
    | CheckContext(leading: bool, matchContext: Matcher, matchAnyContext: Matcher)
    | Combinator(inner: Matcher, rel: Relation, base: bool, doneName: int)
    | AllOf(matchers: seq<Matcher>)
  {
    predicate Considers(n: Node)
      requires Combinator?
    {
      IsElement(n) || (base && rel.Dir() == ParentNode)
    }
  }

  function Step(n: Node, dir: Direction): Node?
    reads n
  {
    if dir == ParentNode then n.parentNode else n.previousSibling
  }

  /** How many steps a traversal from `n` can still take. */
  ghost function Rank(n: Node, dir: Direction): nat
    reads n
  {
    if dir == ParentNode then n.depth else if n.parentNode == null then 0 else n.index
  }

  function Memo(n: Node, dir: Direction): MemoCell?
    reads n.expando
  {
    if dir == ParentNode then n.expando.parentNode else n.expando.previousSibling
  }

  lemma StepDown(n: Node, dir: Direction, nodes: set<Node>)
    requires IsForest(nodes) && n in nodes && Step(n, dir) != null
    ensures Step(n, dir) in nodes && Rank(Step(n, dir), dir) < Rank(n, dir)
  {
    assert LinkedUp(n, nodes);
    if dir == PreviousSibling {
      assert LinkedDown(n.parentNode, nodes);
    }
  }

  /** The answer of a matcher when nothing is cached. */
  ghost predicate Accepts(m: Matcher, q: Query, n: Node, nodes: set<Node>)
    requires IsForest(nodes) && n in nodes
    reads nodes
    decreases m, if m.Combinator? then Rank(n, m.rel.Dir()) else 0
  {
    match m
    case Simple(test) => test(n)
    case IsContext => q.context == One(n)
    case InContexts => q.context.Many? && n in q.context.nodes
    case CheckContext(leading, one, any) =>
      || (!leading && (q.xml || Some(q.context) != q.outermostContext))
      || (if q.context.One? then Accepts(one, q, n, nodes) else Accepts(any, q, n, nodes))
    case Combinator(inner, rel, _, _) =>
      var next := Step(n, rel.Dir());
      && next != null
      && (StepDown(n, rel.Dir(), nodes);
          if !m.Considers(next) then Accepts(m, q, next, nodes)
          else Accepts(inner, q, next, nodes) || (!rel.First() && Accepts(m, q, next, nodes)))
    case AllOf(ms) => forall i | 0 <= i < |ms| :: Accepts(ms[i], q, n, nodes)
  }

  /** What a traversal that stands on `n` will answer. */
  ghost predicate AcceptsFrom(m: Matcher, q: Query, n: Node, nodes: set<Node>)
    requires IsForest(nodes) && n in nodes && m.Combinator?
    reads nodes
  {
    (m.Considers(n) && Accepts(m.inner, q, n, nodes)) || Accepts(m, q, n, nodes)
  }

  /** The names under which a matcher leaves results in expandos. */
  ghost function Dones(m: Matcher): set<int> {
    match m
    case CheckContext(_, one, any) => Dones(one) + Dones(any)
    case Combinator(inner, rel, _, done) => Dones(inner) + {done}
    case AllOf(ms) => DonesOf(ms)
    case _ => {}
  }

  ghost function DonesOf(ms: seq<Matcher>): set<int> {
    if ms == [] then {} else Dones(ms[0]) + DonesOf(ms[1..])
  }

  ghost predicate Apart(a: set<int>, b: set<int>) {
    forall d <- a :: d !in b
  }

  /** No two combinators inside a matcher share a name. */
  ghost predicate DistinctDones(m: Matcher) {
    match m
    case CheckContext(_, one, any) =>
      DistinctDones(one) && DistinctDones(any) && Apart(Dones(one), Dones(any))
    case Combinator(inner, _, _, done) => DistinctDones(inner) && done !in Dones(inner)
    case AllOf(ms) => DistinctDonesOf(ms)
    case _ => true
  }

  ghost predicate DistinctDonesOf(ms: seq<Matcher>) {
    ms == [] || (DistinctDones(ms[0]) && DistinctDonesOf(ms[1..]) && Apart(Dones(ms[0]), DonesOf(ms[1..])))
  }

  ghost function Expandos(nodes: set<Node>): set<Expando> {
    set n | n in nodes :: n.expando
  }

  /** The value of a memo cell, and of all slots of a set of nodes. */
  datatype Cell = Cell(run: int, done: int, result: bool)

  datatype Memos = Memos(up: map<Node, Cell>, left: map<Node, Cell>) {
    ghost function At(n: Node, dir: Direction): Option<Cell> {
      var slots := if dir == ParentNode then up else left;
      if n in slots then Some(slots[n]) else None
    }

    /** A traversal with this name that meets `n` in this run stops at its cell. */
    ghost predicate Current(n: Node, dir: Direction, run: int, done: int) {
      At(n, dir).Some? && At(n, dir).value.run == run && At(n, dir).value.done == done
    }
  }

  ghost function CellOf(c: MemoCell): Cell
    reads c
  {
    Cell(c.run, c.done, c.result)
  }

  ghost function MemosIn(nodes: set<Node>): Memos
    reads Expandos(nodes)
    reads set n | n in nodes :: n.expando.parentNode
    reads set n | n in nodes :: n.expando.previousSibling
  {
    Memos(map n | n in nodes && n.expando.parentNode != null :: CellOf(n.expando.parentNode),
          map n | n in nodes && n.expando.previousSibling != null :: CellOf(n.expando.previousSibling))
  }

  /** Every cell that the matcher would take at face value holds the uncached answer. */
  ghost predicate MemosOk(m: Matcher, run: int, q: Query, memos: Memos, nodes: set<Node>)
    requires IsForest(nodes)
    reads nodes
  {
    match m
    case CheckContext(_, one, any) => MemosOk(one, run, q, memos, nodes) && MemosOk(any, run, q, memos, nodes)
    case Combinator(inner, rel, _, done) =>
      && MemosOk(inner, run, q, memos, nodes)
      && forall n {:trigger memos.At(n, rel.Dir())} | n in nodes ::
           memos.Current(n, rel.Dir(), run, done) ==>
             memos.At(n, rel.Dir()).value.result == AcceptsFrom(m, q, n, nodes)
    case AllOf(ms) => forall i | 0 <= i < |ms| :: MemosOk(ms[i], run, q, memos, nodes)
    case _ => true
  }

  /** From `before` to `after`, slots have kept their value or taken one that `m` ignores. */
  ghost predicate Ignorable(m: Matcher, before: Memos, after: Memos, nodes: set<Node>) {
    forall n <- nodes, dir: Direction ::
      || after.At(n, dir) == before.At(n, dir)
      || (after.At(n, dir).Some? && after.At(n, dir).value.done !in Dones(m))
  }

  lemma DonesOfMember(ms: seq<Matcher>, i: nat)
    requires i < |ms|
    ensures Dones(ms[i]) <= DonesOf(ms)
    ensures DistinctDonesOf(ms) ==> DistinctDones(ms[i])
  {
    if i > 0 {
      DonesOfMember(ms[1..], i - 1);
    }
  }

  lemma DonesOfDisjoint(ms: seq<Matcher>, i: nat, j: nat)
    requires i < |ms| && j < |ms| && i != j && DistinctDonesOf(ms)
    ensures Apart(Dones(ms[i]), Dones(ms[j]))
  {
    if i == 0 {
      DonesOfMember(ms[1..], j - 1);
    } else if j == 0 {
      DonesOfMember(ms[1..], i - 1);
    } else {
      DonesOfDisjoint(ms[1..], i - 1, j - 1);
    }
  }

  lemma {:induction false} MemosFrame(m: Matcher, run: int, q: Query, before: Memos, after: Memos, nodes: set<Node>)
    requires IsForest(nodes) && MemosOk(m, run, q, before, nodes) && Ignorable(m, before, after, nodes)
    ensures MemosOk(m, run, q, after, nodes)
  {
    match m
    case CheckContext(_, one, any) =>
      MemosFrame(one, run, q, before, after, nodes);
      MemosFrame(any, run, q, before, after, nodes);
    case Combinator(inner, rel, _, done) =>
      MemosFrame(inner, run, q, before, after, nodes);
    case AllOf(ms) =>
      forall i | 0 <= i < |ms| ensures MemosOk(ms[i], run, q, after, nodes) {
        DonesOfMember(ms, i);
        MemosFrame(ms[i], run, q, before, after, nodes);
      }
    case _ =>
  }

  /** From `before` to `after`, slots have kept their value or taken one that `m` writes in `run`. */
  ghost predicate Wrote(m: Matcher, run: int, before: Memos, after: Memos, nodes: set<Node>) {
    forall n <- nodes, dir: Direction ::
      || after.At(n, dir) == before.At(n, dir)
      || (after.At(n, dir).Some? && after.At(n, dir).value.done in Dones(m) && after.At(n, dir).value.run == run)
  }

  /** No cell carries a run later than `run`. */
  ghost predicate NoneLater(run: int, memos: Memos, nodes: set<Node>) {
    forall n, dir: Direction {:trigger memos.At(n, dir)} | n in nodes && memos.At(n, dir).Some? ::
      memos.At(n, dir).value.run <= run
  }

  lemma {:induction false} StaleIgnored(m: Matcher, run: int, q: Query, memos: Memos, nodes: set<Node>)
    requires IsForest(nodes) && NoneLater(run - 1, memos, nodes)
    ensures MemosOk(m, run, q, memos, nodes)
  {
    match m
    case CheckContext(_, one, any) =>
      StaleIgnored(one, run, q, memos, nodes);
      StaleIgnored(any, run, q, memos, nodes);
    case Combinator(inner, _, _, _) =>
      StaleIgnored(inner, run, q, memos, nodes);
    case AllOf(ms) =>
      forall i | 0 <= i < |ms| ensures MemosOk(ms[i], run, q, memos, nodes) {
        StaleIgnored(ms[i], run, q, memos, nodes);
      }
    case _ =>
  }

  lemma StillNoneLater(m: Matcher, run: int, before: Memos, after: Memos, nodes: set<Node>)
    requires NoneLater(run, before, nodes) && Wrote(m, run, before, after, nodes)
    ensures NoneLater(run, after, nodes)
  {}

  ghost predicate AcceptedByAny(ms: seq<Matcher>, q: Query, n: Node, nodes: set<Node>)
    requires IsForest(nodes) && n in nodes
    reads nodes
  {
    exists j | 0 <= j < |ms| :: Accepts(ms[j], q, n, nodes)
  }

  ghost function AcceptedSet(ms: seq<Matcher>, q: Query, nodes: set<Node>): set<Node>
    requires IsForest(nodes)
    reads nodes
  {
    set n | n in nodes && AcceptedByAny(ms, q, n, nodes)
  }

  /** The members of `elems` that are in `ok`, in order. */
  ghost function Kept(elems: seq<Node>, ok: set<Node>): seq<Node> {
    if elems == [] then []
    else
      var last := |elems| - 1;
      Kept(elems[..last], ok) + if elems[last] in ok then [elems[last]] else []
  }

  class Engine {
    var dirruns: int
    var outermostContext: Option<Context>

    /** One outermost run over the candidates: `elems` in, the accepted ones out, in input order. */
    method SuperMatch(elementMatchers: seq<Matcher>, elems: seq<Node>, context: Context, xml: bool, document: Node,
                      ghost nodes: set<Node>)
      returns (results: seq<Node>)
      requires IsForest(nodes) && DistinctDonesOf(elementMatchers)
      requires forall e <- elems :: e in nodes
      requires outermostContext == None && NoneLater(dirruns, MemosIn(nodes), nodes)
      modifies this, Expandos(nodes)
      ensures results == Kept(elems, AcceptedSet(elementMatchers,
        Query(context, xml, if context == One(document) then None else Some(context)), nodes))
      ensures outermostContext == None && NoneLater(dirruns, MemosIn(nodes), nodes)
    {
      var contextBackup := outermostContext;
      dirruns := dirruns + 1;
      outermostContext := if context == One(document) then None else Some(context);
      var q := Query(context, xml, outermostContext);
      StaleIgnored(AllOf(elementMatchers), dirruns, q, MemosIn(nodes), nodes);
      results := FilterElements(elementMatchers, q, elems, nodes);
      outermostContext := contextBackup;
    }

    method FilterElements(ms: seq<Matcher>, q: Query, elems: seq<Node>, ghost nodes: set<Node>)
      returns (results: seq<Node>)
      requires IsForest(nodes) && DistinctDonesOf(ms)
      requires forall e <- elems :: e in nodes
      requires (q.xml || MemosOk(AllOf(ms), dirruns, q, MemosIn(nodes), nodes))
      requires NoneLater(dirruns, MemosIn(nodes), nodes)
      modifies Expandos(nodes)
      ensures results == Kept(elems, AcceptedSet(ms, q, nodes))
      ensures NoneLater(dirruns, MemosIn(nodes), nodes)
    {
      results := [];
      var i := 0;
      while i < |elems|
        invariant 0 <= i <= |elems|
        invariant results == Kept(elems[..i], AcceptedSet(ms, q, nodes))
        invariant (q.xml || MemosOk(AllOf(ms), dirruns, q, MemosIn(nodes), nodes))
        invariant NoneLater(dirruns, MemosIn(nodes), nodes)
      {
        var matched := MatchAny(ms, q, elems[i], nodes);
        if matched {
          results := results + [elems[i]];
        }
        assert elems[..i + 1][..i] == elems[..i];
        i := i + 1;
      }
      assert elems[..i] == elems;
    }

    /** Try the groups in turn until one accepts the element. */
    method MatchAny(ms: seq<Matcher>, q: Query, elem: Node, ghost nodes: set<Node>) returns (matched: bool)
      requires IsForest(nodes) && elem in nodes && DistinctDonesOf(ms)
      requires (q.xml || MemosOk(AllOf(ms), dirruns, q, MemosIn(nodes), nodes))
      requires NoneLater(dirruns, MemosIn(nodes), nodes)
      modifies Expandos(nodes)
      ensures matched == AcceptedByAny(ms, q, elem, nodes)
      ensures (q.xml || MemosOk(AllOf(ms), dirruns, q, MemosIn(nodes), nodes))
      ensures NoneLater(dirruns, MemosIn(nodes), nodes)
    {
      matched := false;
      var j := 0;
      while j < |ms| && !matched
        invariant 0 <= j <= |ms|
        invariant !matched ==> forall k | 0 <= k < j :: !Accepts(ms[k], q, elem, nodes)
        invariant matched ==> AcceptedByAny(ms, q, elem, nodes)
        invariant (q.xml || MemosOk(AllOf(ms), dirruns, q, MemosIn(nodes), nodes))
        invariant NoneLater(dirruns, MemosIn(nodes), nodes)
      {
        ghost var before := MemosIn(nodes);
        matched := MatchOneOf(AllOf(ms), j, q, elem, nodes);
        StillNoneLater(AllOf(ms), dirruns, before, MemosIn(nodes), nodes);
        j := j + 1;
      }
    }

    /** Run a compiled matcher on one node. */
    method Match(m: Matcher, q: Query, elem: Node, ghost nodes: set<Node>) returns (r: bool)
      requires IsForest(nodes) && elem in nodes && DistinctDones(m)
      requires !q.xml ==> MemosOk(m, dirruns, q, MemosIn(nodes), nodes)
      modifies Expandos(nodes)
      ensures r == Accepts(m, q, elem, nodes)
      ensures !q.xml ==> MemosOk(m, dirruns, q, MemosIn(nodes), nodes)
      ensures Wrote(m, dirruns, old(MemosIn(nodes)), MemosIn(nodes), nodes)
      ensures forall n <- nodes, d: Direction ::
                Memo(n, d) == old(Memo(n, d)) || (fresh(Memo(n, d)) && Memo(n, d).done in Dones(m))
      decreases m, 5
    {
      match m
      case Simple(test) => r := test(elem);
      case IsContext => r := q.context.One? && elem == q.context.node;
      case InContexts => r := q.context.Many? && elem in q.context.nodes;
      case CheckContext(leading, _, _) =>
        if !leading && (q.xml || Some(q.context) != q.outermostContext) {
          r := true;
        } else {
          r := MatchContext(m, q, elem, nodes);
        }
      case Combinator(_, rel, _, _) =>
        if rel.First() || q.xml {
          r := TraversePlain(m, q, elem, nodes);
        } else {
          r := TraverseCached(m, q, elem, nodes);
        }
      case AllOf(_) =>
        r := MatchAll(m, q, elem, nodes);
    }

    /** Look for the search context, with the combinator for one node or the one for several. */
    method MatchContext(m: Matcher, q: Query, elem: Node, ghost nodes: set<Node>) returns (r: bool)
      requires IsForest(nodes) && elem in nodes && DistinctDones(m) && m.CheckContext?
      requires !q.xml ==> MemosOk(m, dirruns, q, MemosIn(nodes), nodes)
      modifies Expandos(nodes)
      ensures r == Accepts(if q.context.One? then m.matchContext else m.matchAnyContext, q, elem, nodes)
      ensures !q.xml ==> MemosOk(m, dirruns, q, MemosIn(nodes), nodes)
      ensures Wrote(m, dirruns, old(MemosIn(nodes)), MemosIn(nodes), nodes)
      ensures forall n <- nodes, d: Direction ::
                Memo(n, d) == old(Memo(n, d)) || (fresh(Memo(n, d)) && Memo(n, d).done in Dones(m))
      decreases m, 0
    {
      ghost var before := MemosIn(nodes);
      ghost var other := if q.context.One? then m.matchAnyContext else m.matchContext;
      r := Match(if q.context.One? then m.matchContext else m.matchAnyContext, q, elem, nodes);
      if !q.xml {
        MemosFrame(other, dirruns, q, before, MemosIn(nodes), nodes);
      }
    }

    /** The loop of elementMatcher: from the last matcher to the first, stopping at a failure. */
    method MatchAll(m: Matcher, q: Query, elem: Node, ghost nodes: set<Node>) returns (r: bool)
      requires IsForest(nodes) && elem in nodes && DistinctDones(m) && m.AllOf?
      requires !q.xml ==> MemosOk(m, dirruns, q, MemosIn(nodes), nodes)
      modifies Expandos(nodes)
      ensures r == Accepts(m, q, elem, nodes)
      ensures !q.xml ==> MemosOk(m, dirruns, q, MemosIn(nodes), nodes)
      ensures Wrote(m, dirruns, old(MemosIn(nodes)), MemosIn(nodes), nodes)
      ensures forall n <- nodes, d: Direction ::
                Memo(n, d) == old(Memo(n, d)) || (fresh(Memo(n, d)) && Memo(n, d).done in Dones(m))
      decreases m, 1
    {
      ghost var before := MemosIn(nodes);
      var ms := m.matchers;
      var i := |ms|;
      while i > 0
        invariant 0 <= i <= |ms|
        invariant forall j | i <= j < |ms| :: Accepts(ms[j], q, elem, nodes)
        invariant !q.xml ==> MemosOk(m, dirruns, q, MemosIn(nodes), nodes)
        invariant Wrote(m, dirruns, before, MemosIn(nodes), nodes)
        invariant forall n <- nodes, d: Direction ::
                Memo(n, d) == old(Memo(n, d)) || (fresh(Memo(n, d)) && Memo(n, d).done in Dones(m))
      {
        i := i - 1;
        r := MatchOneOf(m, i, q, elem, nodes);
        if !r {
          return;
        }
      }
      r := true;
    }

    method MatchOneOf(m: Matcher, i: nat, q: Query, elem: Node, ghost nodes: set<Node>) returns (r: bool)
      requires IsForest(nodes) && elem in nodes && DistinctDones(m) && m.AllOf? && i < |m.matchers|
      requires !q.xml ==> MemosOk(m, dirruns, q, MemosIn(nodes), nodes)
      modifies Expandos(nodes)
      ensures r == Accepts(m.matchers[i], q, elem, nodes)
      ensures !q.xml ==> MemosOk(m, dirruns, q, MemosIn(nodes), nodes)
      ensures Wrote(m, dirruns, old(MemosIn(nodes)), MemosIn(nodes), nodes)
      ensures forall n <- nodes, d: Direction ::
                Memo(n, d) == old(Memo(n, d)) || (fresh(Memo(n, d)) && Memo(n, d).done in Dones(m))
      decreases m, 0
    {
      var ms := m.matchers;
      DonesOfMember(ms, i);
      ghost var before := MemosIn(nodes);
      r := Match(ms[i], q, elem, nodes);
      if !q.xml {
        forall j | 0 <= j < |ms| ensures MemosOk(ms[j], dirruns, q, MemosIn(nodes), nodes) {
          if j != i {
            DonesOfDisjoint(ms, i, j);
            MemosFrame(ms[j], dirruns, q, before, MemosIn(nodes), nodes);
          }
        }
      }
    }

    /** Walk in the combinator's direction without consulting expandos. */
    method TraversePlain(m: Matcher, q: Query, start: Node, ghost nodes: set<Node>) returns (r: bool)
      requires IsForest(nodes) && start in nodes && DistinctDones(m)
      requires m.Combinator? && (m.rel.First() || q.xml)
      requires !q.xml ==> MemosOk(m, dirruns, q, MemosIn(nodes), nodes)
      modifies Expandos(nodes)
      ensures r == Accepts(m, q, start, nodes)
      ensures !q.xml ==> MemosOk(m, dirruns, q, MemosIn(nodes), nodes)
      ensures Wrote(m, dirruns, old(MemosIn(nodes)), MemosIn(nodes), nodes)
      ensures forall n <- nodes, d: Direction ::
                Memo(n, d) == old(Memo(n, d)) || (fresh(Memo(n, d)) && Memo(n, d).done in Dones(m))
      decreases m, 0
    {
      ghost var before := MemosIn(nodes);
      var dir := m.rel.Dir();
      var elem := start;
      while Step(elem, dir) != null
        invariant elem in nodes
        invariant Accepts(m, q, elem, nodes) == Accepts(m, q, start, nodes)
        invariant !q.xml ==> MemosOk(m.inner, dirruns, q, MemosIn(nodes), nodes)
        invariant !q.xml ==> forall n <- nodes | MemosIn(nodes).Current(n, dir, dirruns, m.doneName) ::
                    MemosIn(nodes).At(n, dir).value.result == AcceptsFrom(m, q, n, nodes)
        invariant Wrote(m, dirruns, before, MemosIn(nodes), nodes)
        invariant forall n <- nodes, d: Direction ::
                Memo(n, d) == old(Memo(n, d)) || (fresh(Memo(n, d)) && Memo(n, d).done in Dones(m))
        decreases Rank(elem, dir)
      {
        StepDown(elem, dir, nodes);
        elem := Step(elem, dir);
        if m.Considers(elem) {
          r := Match(m.inner, q, elem, nodes);
          if m.rel.First() || r {
            return;
          }
        }
      }
      return false;
    }
  
    /** Walk towards the root or the first sibling. All nodes visited share one cell, so that the
        final result reaches each of them; an earlier traversal's cell ends the walk. */
    method TraverseCached(m: Matcher, q: Query, start: Node, ghost nodes: set<Node>) returns (r: bool)
      requires IsForest(nodes) && start in nodes && DistinctDones(m)
      requires m.Combinator? && !m.rel.First() && !q.xml
      requires MemosOk(m, dirruns, q, MemosIn(nodes), nodes)
      modifies Expandos(nodes)
      ensures r == Accepts(m, q, start, nodes)
      ensures MemosOk(m, dirruns, q, MemosIn(nodes), nodes)
      ensures Wrote(m, dirruns, old(MemosIn(nodes)), MemosIn(nodes), nodes)
      ensures forall n <- nodes, d: Direction ::
                Memo(n, d) == old(Memo(n, d)) || (fresh(Memo(n, d)) && Memo(n, d).done in Dones(m))
      decreases m, 4
    {
      ghost var before := MemosIn(nodes);
      var newCache := NewCell(m, q, start, Accepts(m, q, start, nodes), nodes);
      r := Walk(m, q, start, newCache, nodes);
    }

    method Walk(m: Matcher, q: Query, start: Node, newCache: MemoCell, ghost nodes: set<Node>) returns (r: bool)
      requires IsForest(nodes) && start in nodes && DistinctDones(m)
      requires m.Combinator? && !m.rel.First() && !q.xml
      requires CellOf(newCache) == Cell(dirruns, m.doneName, false)
      requires WalkOk(newCache, m, q, start, Accepts(m, q, start, nodes), nodes)
      modifies Expandos(nodes), newCache
      ensures r == Accepts(m, q, start, nodes)
      ensures MemosOk(m, dirruns, q, MemosIn(nodes), nodes) && newCache.done == m.doneName
      ensures Wrote(m, dirruns, old(MemosIn(nodes)), MemosIn(nodes), nodes)
      ensures forall n <- nodes, d: Direction ::
                Memo(n, d) == old(Memo(n, d)) || Memo(n, d) == newCache
                || (fresh(Memo(n, d)) && Memo(n, d).done in Dones(m))
      decreases m, 3
    {
      ghost var before := MemosIn(nodes);
      ghost var answer := Accepts(m, q, start, nodes);
      var dir := m.rel.Dir();
      var elem := start;
      while Step(elem, dir) != null
        invariant elem in nodes
        invariant Accepts(m, q, elem, nodes) == answer
        invariant Wrote(m, dirruns, before, MemosIn(nodes), nodes)
        invariant forall n <- nodes, d: Direction ::
                    || Memo(n, d) == old(Memo(n, d)) || Memo(n, d) == newCache
                    || (fresh(Memo(n, d)) && Memo(n, d).done in Dones(m))
        invariant CellOf(newCache) == Cell(dirruns, m.doneName, false)
        invariant WalkOk(newCache, m, q, elem, answer, nodes)
        decreases Rank(elem, dir)
      {
        StepOn(newCache, m, q, elem, answer, nodes);
        elem := Step(elem, dir);
        if m.Considers(elem) {
          var stop;
          stop, r := Consider(m, q, elem, newCache, answer, nodes);
          if stop {
            return;
          }
        }
      }
      Conclude(m, q, newCache, elem, false, nodes);
      r := false;
    }

    /** The walk goes one node further, and has not left its cell there. */
    lemma StepOn(cell: MemoCell, m: Matcher, q: Query, elem: Node, answer: bool, nodes: set<Node>)
      requires IsForest(nodes) && elem in nodes && m.Combinator? && !m.rel.First() && Step(elem, m.rel.Dir()) != null
      requires WalkOk(cell, m, q, elem, answer, nodes) && Accepts(m, q, elem, nodes) == answer
      ensures var next := Step(elem, m.rel.Dir());
        && next in nodes && Rank(next, m.rel.Dir()) < Rank(elem, m.rel.Dir())
        && Memo(next, m.rel.Dir()) != cell && WalkOk(cell, m, q, next, answer, nodes)
        && AcceptsFrom(m, q, next, nodes) == answer
        && (!m.Considers(next) ==> Accepts(m, q, next, nodes) == answer)
    {
      StepDown(elem, m.rel.Dir(), nodes);
    }

    method NewCell(m: Matcher, q: Query, start: Node, ghost answer: bool, ghost nodes: set<Node>)
      returns (cell: MemoCell)
      requires IsForest(nodes) && start in nodes && m.Combinator?
      requires MemosOk(m, dirruns, q, MemosIn(nodes), nodes)
      ensures fresh(cell) && CellOf(cell) == Cell(dirruns, m.doneName, false)
      ensures WalkOk(cell, m, q, start, answer, nodes)
      ensures MemosIn(nodes) == old(MemosIn(nodes))
    {
      ghost var before := MemosIn(nodes);
      cell := new MemoCell(dirruns, m.doneName);
      MemosFrame(m.inner, dirruns, q, before, MemosIn(nodes), nodes);
    }

    /** One element of a cached walk: stop at an earlier traversal's cell or at a match. */
    method Consider(m: Matcher, q: Query, elem: Node, newCache: MemoCell, ghost answer: bool, ghost nodes: set<Node>)
      returns (stop: bool, r: bool)
      requires IsForest(nodes) && elem in nodes && DistinctDones(m)
      requires m.Combinator? && !m.rel.First() && !q.xml && m.Considers(elem)
      requires CellOf(newCache) == Cell(dirruns, m.doneName, false) && Memo(elem, m.rel.Dir()) != newCache
      requires WalkOk(newCache, m, q, elem, answer, nodes) && AcceptsFrom(m, q, elem, nodes) == answer
      modifies Expandos(nodes), newCache
      ensures stop ==> r == answer && MemosOk(m, dirruns, q, MemosIn(nodes), nodes) && newCache.done == m.doneName
      ensures !stop ==> !Accepts(m.inner, q, elem, nodes) && CellOf(newCache) == Cell(dirruns, m.doneName, false)
      ensures !stop ==> WalkOk(newCache, m, q, elem, answer, nodes)
      ensures Wrote(m, dirruns, old(MemosIn(nodes)), MemosIn(nodes), nodes)
      ensures forall n <- nodes, d: Direction ::
                Memo(n, d) == old(Memo(n, d)) || Memo(n, d) == newCache
                || (fresh(Memo(n, d)) && Memo(n, d).done in Dones(m))
      decreases m, 2
    {
      var oldCache := Memo(elem, m.rel.Dir());
      if oldCache != null && oldCache.run == dirruns && oldCache.done == m.doneName {
        r := Adopt(m, q, elem, newCache, oldCache, answer, nodes);
        stop := true;
      } else {
        r := Visit(m, q, elem, newCache, answer, nodes);
        stop := r;
        if r {
          Conclude(m, q, newCache, elem, true, nodes);
        }
      }
    }

    /** Leave the shared cell in an element and let it hold the inner matcher's answer. */
    method Visit(m: Matcher, q: Query, elem: Node, newCache: MemoCell, ghost answer: bool, ghost nodes: set<Node>)
      returns (r: bool)
      requires IsForest(nodes) && elem in nodes && DistinctDones(m)
      requires m.Combinator? && !m.rel.First() && !q.xml && m.Considers(elem)
      requires CellOf(newCache) == Cell(dirruns, m.doneName, false)
      requires WalkOk(newCache, m, q, elem, answer, nodes) && AcceptsFrom(m, q, elem, nodes) == answer
      modifies Expandos(nodes), newCache
      ensures r == Accepts(m.inner, q, elem, nodes)
      ensures CellOf(newCache) == Cell(dirruns, m.doneName, r)
      ensures WalkOk(newCache, m, q, elem, answer, nodes)
      ensures Wrote(m, dirruns, old(MemosIn(nodes)), MemosIn(nodes), nodes)
      ensures forall n <- nodes, d: Direction ::
                Memo(n, d) == old(Memo(n, d)) || Memo(n, d) == newCache
                || (fresh(Memo(n, d)) && Memo(n, d).done in Dones(m))
      decreases m, 1
    {
      Plant(m, q, elem, newCache, answer, nodes);
      r := MatchInner(m, q, elem, newCache, answer, nodes);
      Store(m, q, elem, newCache, r, answer, nodes);
    }

    /** Take over the result that an earlier traversal left in an element. */
    method Adopt(m: Matcher, q: Query, elem: Node, newCache: MemoCell, oldCache: MemoCell, ghost answer: bool,
                 ghost nodes: set<Node>)
      returns (r: bool)
      requires IsForest(nodes) && elem in nodes && DistinctDones(m) && m.Combinator?
      requires oldCache == Memo(elem, m.rel.Dir()) && oldCache != newCache
      requires oldCache.run == newCache.run == dirruns && oldCache.done == newCache.done == m.doneName
      requires WalkOk(newCache, m, q, elem, answer, nodes) && AcceptsFrom(m, q, elem, nodes) == answer
      modifies newCache
      ensures r == answer
      ensures MemosOk(m, dirruns, q, MemosIn(nodes), nodes)
      ensures Wrote(m, dirruns, old(MemosIn(nodes)), MemosIn(nodes), nodes)
      ensures newCache.done == m.doneName
      ensures forall n <- nodes, d: Direction :: Memo(n, d) == old(Memo(n, d))
    {
      assert MemosIn(nodes).At(elem, m.rel.Dir()) == Some(CellOf(oldCache));
      r := oldCache.result;
      Store(m, q, elem, newCache, r, r, nodes);
      Conclude(m, q, newCache, elem, r, nodes);
    }

    method Plant(m: Matcher, q: Query, elem: Node, newCache: MemoCell, ghost answer: bool, ghost nodes: set<Node>)
      requires IsForest(nodes) && elem in nodes && DistinctDones(m) && m.Combinator?
      requires CellOf(newCache) == Cell(dirruns, m.doneName, false)
      requires WalkOk(newCache, m, q, elem, answer, nodes) && AcceptsFrom(m, q, elem, nodes) == answer
      modifies elem.expando
      ensures WalkOk(newCache, m, q, elem, answer, nodes)
      ensures Wrote(m, dirruns, old(MemosIn(nodes)), MemosIn(nodes), nodes)
      ensures forall n <- nodes, d: Direction :: Memo(n, d) == old(Memo(n, d)) || Memo(n, d) == newCache
    {
      ghost var before := MemosIn(nodes);
      SetMemo(elem, m.rel.Dir(), newCache, nodes);
      MemosFrame(m.inner, dirruns, q, before, MemosIn(nodes), nodes);
    }

    method MatchInner(m: Matcher, q: Query, elem: Node, newCache: MemoCell, ghost answer: bool, ghost nodes: set<Node>)
      returns (r: bool)
      requires IsForest(nodes) && elem in nodes && DistinctDones(m)
      requires m.Combinator? && !q.xml
      requires WalkOk(newCache, m, q, elem, answer, nodes)
      modifies Expandos(nodes)
      ensures r == Accepts(m.inner, q, elem, nodes)
      ensures WalkOk(newCache, m, q, elem, answer, nodes)
      ensures Wrote(m, dirruns, old(MemosIn(nodes)), MemosIn(nodes), nodes)
      ensures forall n <- nodes, d: Direction ::
                Memo(n, d) == old(Memo(n, d)) || (fresh(Memo(n, d)) && Memo(n, d).done in Dones(m.inner))
      decreases m, 0
    {
      r := Match(m.inner, q, elem, nodes);
    }

    /** `newCache[2] = result` */
    method Store(m: Matcher, q: Query, elem: Node, newCache: MemoCell, result: bool, ghost answer: bool,
                 ghost nodes: set<Node>)
      requires IsForest(nodes) && elem in nodes && DistinctDones(m) && m.Combinator?
      requires newCache.run == dirruns && newCache.done == m.doneName
      requires WalkOk(newCache, m, q, elem, answer, nodes)
      modifies newCache
      ensures CellOf(newCache) == Cell(dirruns, m.doneName, result)
      ensures WalkOk(newCache, m, q, elem, answer, nodes)
      ensures Wrote(m, dirruns, old(MemosIn(nodes)), MemosIn(nodes), nodes)
      ensures forall n <- nodes, d: Direction :: Memo(n, d) == old(Memo(n, d))
    {
      ghost var before := MemosIn(nodes);
      SetResult(newCache, result, nodes);
      MemosFrame(m.inner, dirruns, q, before, MemosIn(nodes), nodes);
    }

    /** Once the shared cell holds the answer of the walk, every cell of the combinator is right. */
    lemma Conclude(m: Matcher, q: Query, cell: MemoCell, elem: Node, answer: bool, nodes: set<Node>)
      requires IsForest(nodes) && m.Combinator?
      requires WalkOk(cell, m, q, elem, answer, nodes) && cell.result == answer
      ensures MemosOk(m, dirruns, q, MemosIn(nodes), nodes)
    {
      var dir := m.rel.Dir();
      forall n {:trigger MemosIn(nodes).At(n, dir)}
        | n in nodes && MemosIn(nodes).Current(n, dir, dirruns, m.doneName)
        ensures MemosIn(nodes).At(n, dir).value.result == AcceptsFrom(m, q, n, nodes)
      {
        if Memo(n, dir) == cell {
          assert MemosIn(nodes).At(n, dir) == Some(CellOf(cell));
        }
      }
    }

    /** In the middle of a cached walk that has reached `elem`: the nodes that hold the shared cell
        have been passed and owe the answer of the walk; every other cell is right already. */
    ghost predicate WalkOk(cell: MemoCell, m: Matcher, q: Query, elem: Node, answer: bool, nodes: set<Node>)
      requires IsForest(nodes) && m.Combinator?
      reads this, nodes, elem, Expandos(nodes)
      reads set n | n in nodes :: n.expando.parentNode
      reads set n | n in nodes :: n.expando.previousSibling
    {
      && MemosOk(m.inner, dirruns, q, MemosIn(nodes), nodes)
      && (forall n, d: Direction {:trigger Memo(n, d)} | n in nodes && Memo(n, d) == cell ::
            d == m.rel.Dir() && Rank(n, d) >= Rank(elem, d) && AcceptsFrom(m, q, n, nodes) == answer)
      && (forall n {:trigger MemosIn(nodes).At(n, m.rel.Dir())}
            | n in nodes && MemosIn(nodes).Current(n, m.rel.Dir(), dirruns, m.doneName)
              && Memo(n, m.rel.Dir()) != cell ::
            MemosIn(nodes).At(n, m.rel.Dir()).value.result == AcceptsFrom(m, q, n, nodes))
    }

    /** `outerCache[dir] = newCache` */
    method SetMemo(elem: Node, dir: Direction, cell: MemoCell, ghost nodes: set<Node>)
      requires IsForest(nodes) && elem in nodes
      modifies elem.expando
      ensures Memo(elem, dir) == cell
      ensures forall n <- nodes, d: Direction | n != elem || d != dir ::
                Memo(n, d) == old(Memo(n, d)) && MemosIn(nodes).At(n, d) == old(MemosIn(nodes)).At(n, d)
      ensures MemosIn(nodes).At(elem, dir) == Some(CellOf(cell))
    {
      if dir == ParentNode {
        elem.expando.parentNode := cell;
      } else {
        elem.expando.previousSibling := cell;
      }
    }

    /** `newCache[2] = result`, seen by every node that holds the cell. */
    method SetResult(cell: MemoCell, result: bool, ghost nodes: set<Node>)
      modifies cell
      ensures CellOf(cell) == old(CellOf(cell)).(result := result)
      ensures forall n <- nodes, d: Direction ::
                MemosIn(nodes).At(n, d) == if Memo(n, d) == cell then Some(CellOf(cell))
                  else old(MemosIn(nodes)).At(n, d)
    {
      cell.result := result;
    }
  }
}
