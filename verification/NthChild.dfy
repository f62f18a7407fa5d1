/** The `:nth-child` family, with the caches that let one query resume where the last one stopped. */
module NthChild {
  import opened Wrappers
  import opened Dom
  import Text

  function LowerCase(s: string): string {
    seq(|s|, i requires 0 <= i < |s| => Text.Lower(s[i]))
  }

  /** What is counted: all elements, or the nodes whose name, in lower case, is this one. */
  datatype What = Elements | Named(name: string)

  /** What the filter counts for this element. */
  function Counting(elem: Node, ofType: bool): What {
    if ofType then Named(LowerCase(elem.nodeName)) else Elements
  }

  predicate Counted(n: Node, what: What) {
    match what
    case Elements => IsElement(n)
    case Named(name) => LowerCase(n.nodeName) == name
  }

  /** How many of the nodes before `i` count. */
  ghost function CountBefore(s: seq<Node>, i: nat, what: What): nat
    requires i <= |s|
  {
    if i == 0 then 0 else CountBefore(s, i - 1, what) + if Counted(s[i - 1], what) then 1 else 0
  }

  /** How many of the nodes from `i` on count. */
  ghost function CountFrom(s: seq<Node>, i: nat, what: What): nat
    requires i <= |s|
    decreases |s| - i
  {
    if i == |s| then 0 else CountFrom(s, i + 1, what) + if Counted(s[i], what) then 1 else 0
  }

  /** The place of a node among its siblings, from 1, counted from the front or from the back. */
  ghost function Position(n: Node, what: What, forward: bool): nat
    requires n.parentNode != null && n.index < |n.parentNode.childNodes|
    reads n, n.parentNode
  {
    if forward then CountBefore(n.parentNode.childNodes, n.index + 1, what)
    else CountFrom(n.parentNode.childNodes, n.index, what)
  }

  /** No mark is ahead of this run, and every mark made in it tells the truth. */
  ghost predicate MarksOk(nodes: set<Node>, run: int)
    reads nodes, set n | n in nodes :: n.expando
  {
    forall n {:trigger MarkOk(n, run, nodes)} | n in nodes :: MarkOk(n, run, nodes)
  }

  ghost predicate MarkOk(n: Node, run: int, nodes: set<Node>)
    reads n, n.expando, nodes
  {
    NthOk(n, n.expando.nth, run) && LastOk(n, n.expando.nthLast, run, nodes)
  }

  ghost predicate NthOk(n: Node, mark: Option<NthMark>, run: int)
    reads n
  {
    mark.Some? ==> mark.value.run <= run && (mark.value.run == run ==>
      && mark.value.nodeIndex < |n.childNodes|
      && mark.value.diff == CountBefore(n.childNodes, mark.value.nodeIndex + 1, Elements))
  }

  ghost predicate LastOk(n: Node, mark: Option<LastMark>, run: int, nodes: set<Node>)
    reads n, nodes
  {
    mark.Some? ==> mark.value.run <= run && (mark.value.run == run && n.parentNode != null && n.parentNode in nodes ==>
      n.index < |n.parentNode.childNodes| && mark.value.diff == Position(n, Elements, false))
  }

  ghost predicate NoneMarked(nodes: set<Node>, run: int)
    reads nodes, set n | n in nodes :: n.expando
  {
    forall n <- nodes ::
      && (n.expando.nth.Some? ==> n.expando.nth.value.run < run)
      && (n.expando.nthLast.Some? ==> n.expando.nthLast.value.run < run)
  }

  /** A run starts with true marks: those of earlier runs, whatever they say and however the tree has
      changed since, do not count. */
  lemma MarksOkAtStart(nodes: set<Node>, run: int)
    requires NoneMarked(nodes, run)
    ensures MarksOk(nodes, run)
  {
    forall n | n in nodes ensures MarkOk(n, run, nodes) {}
  }

  /** So the end of one run is a start for the next. */
  lemma NextRun(nodes: set<Node>, run: int)
    requires MarksOk(nodes, run)
    ensures NoneMarked(nodes, run + 1) && MarksOk(nodes, run + 1)
  {
    forall n | n in nodes
      ensures n.expando.nth.Some? ==> n.expando.nth.value.run < run + 1
      ensures n.expando.nthLast.Some? ==> n.expando.nthLast.value.run < run + 1
    {
      assert MarkOk(n, run, nodes);
    }
    MarksOkAtStart(nodes, run + 1);
  }

  /** Walks on from the child found last, and starts over if `elem` does not come after it. */
  method Seek(elem: Node, parent: Node, mark: Option<NthMark>, run: int, ghost nodes: set<Node>)
    returns (nodeIndex: nat, diff: nat)
    requires IsForest(nodes) && elem in nodes && IsElement(elem) && elem.parentNode == parent
    requires NthOk(parent, mark, run)
    ensures LinkedUp(elem, nodes) && diff == Position(elem, Elements, true) && nodeIndex == elem.index
  {
    assert LinkedUp(elem, nodes);
    assert LinkedDown(parent, nodes);
    var start := [parent.childNodes[0]];
    nodeIndex, diff := 0, 0;
    if mark.Some? && mark.value.run == run {
      nodeIndex, diff := mark.value.nodeIndex, mark.value.diff;
    }
    var node: Node? := if nodeIndex != 0 then parent.childNodes[nodeIndex] else null;
    while true
      invariant SeekOk(parent, elem, node, nodeIndex, diff, start)
      decreases |start|, |parent.childNodes| - nodeIndex
    {
      node, nodeIndex, diff, start := NextNode(elem, parent, node, nodeIndex, diff, start, nodes);
      if IsElement(node) && node == elem {
        break;
      }
    }
  }

  /** Up to `node`, at `nodeIndex`, `diff` children have counted; after a fresh start `elem` is still to come. */
  ghost predicate SeekOk(parent: Node, elem: Node, node: Node?, nodeIndex: nat, diff: nat, start: seq<Node>)
    reads parent, elem
  {
    && (node != null ==>
          && nodeIndex < |parent.childNodes| && node == parent.childNodes[nodeIndex]
          && diff == CountBefore(parent.childNodes, nodeIndex + 1, Elements))
    && (if start == [] then node != null && nodeIndex < elem.index
        else |parent.childNodes| > 0 && start == [parent.childNodes[0]])
  }

  /** The condition of the loop: the next sibling, or else, once, the first child again. */
  method NextNode(elem: Node, parent: Node, node: Node?, nodeIndex: nat, diff: nat, start: seq<Node>,
                  ghost nodes: set<Node>)
    returns (next: Node, nextIndex: nat, nextDiff: nat, nextStart: seq<Node>)
    requires IsForest(nodes) && elem in nodes && IsElement(elem) && elem.parentNode == parent
    requires SeekOk(parent, elem, node, nodeIndex, diff, start)
    ensures nextIndex < |parent.childNodes| && next == parent.childNodes[nextIndex]
    ensures nextDiff == CountBefore(parent.childNodes, nextIndex + 1, Elements)
    ensures next == elem ==> nextIndex == elem.index
    ensures next != elem ==> SeekOk(parent, elem, next, nextIndex, nextDiff, nextStart)
    ensures |nextStart| < |start| || (nextStart == start && nextIndex > nodeIndex)
  {
    SiblingOf(elem, parent, node, nodeIndex, nodes);
    nextIndex, nextDiff, nextStart := nodeIndex + 1, diff, start;
    var following := if node != null then node.nextSibling else null;
    if following == null {
      nextDiff, nextIndex := 0, 0;
      following, nextStart := start[0], [];
    }
    next := following;
    if IsElement(next) {
      nextDiff := nextDiff + 1;
    }
  }

  lemma SiblingOf(elem: Node, parent: Node, node: Node?, i: nat, nodes: set<Node>)
    requires IsForest(nodes) && elem in nodes && elem.parentNode == parent
    requires node != null ==> i < |parent.childNodes| && node == parent.childNodes[i]
    ensures elem.index < |parent.childNodes| && parent.childNodes[elem.index] == elem
    ensures node != null ==>
      node.nextSibling == (if i + 1 == |parent.childNodes| then null else parent.childNodes[i + 1])
    ensures forall k | 0 <= k < |parent.childNodes| && parent.childNodes[k] == elem :: k == elem.index
  {
    assert LinkedUp(elem, nodes) && LinkedDown(parent, nodes);
    assert node != null ==> LinkedUp(node, nodes);
  }

  /** `:nth-child`: the place found is marked on the parent, for the next query of the run. */
  method SeekFromMark(elem: Node, run: int, ghost nodes: set<Node>) returns (diff: nat)
    requires IsForest(nodes) && elem in nodes && IsElement(elem) && elem.parentNode != null && MarksOk(nodes, run)
    modifies elem.parentNode.expando`nth
    ensures LinkedUp(elem, nodes) && diff == Position(elem, Elements, true) && MarksOk(nodes, run)
    ensures elem.parentNode.expando.nth == Some(NthMark(run, elem.index, diff))
  {
    assert LinkedUp(elem, nodes);
    var parent := elem.parentNode;
    assert MarkOk(parent, run, nodes);
    var nodeIndex;
    nodeIndex, diff := Seek(elem, parent, parent.expando.nth, run, nodes);
    parent.expando.nth := Some(NthMark(run, nodeIndex, diff));
    forall n | n in nodes ensures MarkOk(n, run, nodes) {
      assert old(MarkOk(n, run, nodes));
    }
  }

  /** The same loop from one end of the sibling list, without a mark to start from. Under `useCache`
      every node it counts is marked with its place. */
  method SeekFromEnd(elem: Node, what: What, forward: bool, useCache: bool, run: int, ghost nodes: set<Node>)
    returns (diff: nat)
    requires IsForest(nodes) && elem in nodes && Counted(elem, what) && elem.parentNode != null && MarksOk(nodes, run)
    requires useCache ==> !forward && what == Elements
    modifies (set n | n in nodes :: n.expando)`nthLast
    ensures LinkedUp(elem, nodes) && diff == Position(elem, what, forward) && MarksOk(nodes, run)
    ensures !useCache ==> forall n <- nodes :: n.expando.nthLast == old(n.expando.nthLast)
  {
    assert LinkedUp(elem, nodes) && LinkedDown(elem.parentNode, nodes);
    var parent := elem.parentNode;
    var node := if forward then parent.childNodes[0] else parent.childNodes[|parent.childNodes| - 1];
    ghost var i: nat := if forward then 0 else |parent.childNodes| - 1;
    diff := 0;
    StartOk(elem, forward, what, nodes);
    var found := false;
    while !found
      invariant node != null && MarksOk(nodes, run)
      invariant if found then diff == Position(elem, what, forward)
        else OnTheWay(parent, elem, node, i, diff, what, forward)
      invariant !useCache ==> forall n <- nodes :: n.expando.nthLast == old(n.expando.nthLast)
      decreases !found, if forward then |parent.childNodes| - i else i
    {
      diff := CountNode(parent, elem, node, i, diff, what, forward, useCache, run, nodes);
      if node == elem {
        found := true;
      } else {
        OnwardsOk(parent, elem, node, i, diff, what, forward, nodes);
        node := if forward then node.nextSibling else node.previousSibling;
        i := if forward then i + 1 else i - 1;
      }
    }
  }

  lemma StartOk(elem: Node, forward: bool, what: What, nodes: set<Node>)
    requires IsForest(nodes) && elem in nodes && elem.parentNode != null
    ensures LinkedUp(elem, nodes) && |elem.parentNode.childNodes| > 0
    ensures var s := elem.parentNode.childNodes;
      var i := if forward then 0 else |s| - 1;
      OnTheWay(elem.parentNode, elem, s[i], i, 0, what, forward)
  {
    assert LinkedUp(elem, nodes);
  }

  /** The loop has come to `node`, and `diff` nodes before it have counted. */
  ghost predicate OnTheWay(parent: Node, elem: Node, node: Node, i: nat, diff: nat, what: What, forward: bool)
    reads parent, elem
  {
    && i < |parent.childNodes| && node == parent.childNodes[i]
    && (if forward then i <= elem.index else elem.index <= i)
    && diff == if forward then CountBefore(parent.childNodes, i, what) else CountFrom(parent.childNodes, i + 1, what)
  }

  lemma OnwardsOk(parent: Node, elem: Node, node: Node, i: nat, diff: nat, what: What, forward: bool, nodes: set<Node>)
    requires IsForest(nodes) && elem in nodes && elem.parentNode == parent && parent in nodes && node != elem
    requires i < |parent.childNodes| && node == parent.childNodes[i]
    requires (if forward then i <= elem.index else elem.index <= i)
    requires diff == if forward then CountBefore(parent.childNodes, i + 1, what)
      else CountFrom(parent.childNodes, i, what)
    ensures if forward then i + 1 < |parent.childNodes| else i > 0
    ensures var next, j := if forward then node.nextSibling else node.previousSibling, if forward then i + 1 else i - 1;
      next != null && OnTheWay(parent, elem, next, j, diff, what, forward)
  {
    assert LinkedDown(parent, nodes) && LinkedUp(elem, nodes);
    assert LinkedUp(node, nodes);
  }

  method CountNode(parent: Node, elem: Node, node: Node, ghost i: nat, diff: nat, what: What, forward: bool,
                   useCache: bool,
                   run: int, ghost nodes: set<Node>) returns (next: nat)
    requires IsForest(nodes) && elem in nodes && parent in nodes && elem.parentNode == parent && MarksOk(nodes, run)
    requires OnTheWay(parent, elem, node, i, diff, what, forward) && (useCache ==> !forward && what == Elements)
    modifies (set n | n in nodes :: n.expando)`nthLast
    ensures MarksOk(nodes, run) && (!useCache ==> forall n <- nodes :: n.expando.nthLast == old(n.expando.nthLast))
    ensures next == if forward then CountBefore(parent.childNodes, i + 1, what)
      else CountFrom(parent.childNodes, i, what)
    ensures node == elem ==> i == elem.index
  {
    assert LinkedDown(parent, nodes);
    assert LinkedUp(node, nodes);
    next := diff;
    if Counted(node, what) {
      next := diff + 1;
      if useCache { MarkLast(node, next, run, nodes); }
    }
  }

  method MarkLast(node: Node, diff: nat, run: int, ghost nodes: set<Node>)
    requires IsForest(nodes) && node in nodes && MarksOk(nodes, run) && node.parentNode != null
    requires LinkedUp(node, nodes) && diff == Position(node, Elements, false)
    modifies node.expando`nthLast
    ensures IsForest(nodes) && MarksOk(nodes, run) && node.expando.nthLast == Some(LastMark(run, diff))
  {
    node.expando.nthLast := Some(LastMark(run, diff));
    forall n | n in nodes ensures MarkOk(n, run, nodes) {
      assert old(MarkOk(n, run, nodes));
    }
  }

  /** The remainder of JavaScript takes the sign of the dividend; that by zero is not a number. */
  function Remainder(a: int, b: int): Option<int> {
    if b == 0 then None
    else
      var r := Abs(a) % Abs(b);
      Some(if a < 0 then -r else r)
  }

  function Abs(a: int): nat {
    if a < 0 then -a else a
  }

  /** `diff === first || (diff % first === 0 && diff / first >= 0)` */
  predicate InCycle(diff: int, first: int) {
    diff == first || (Remainder(diff, first) == Some(0) && (diff as real) / (first as real) >= 0.0)
  }

  /** A place is in the cycle `an+b` exactly when some n from 0 on leads to it. */
  lemma InCycleMeansReached(position: int, a: int, b: int)
    ensures InCycle(position - b, a) <==> exists n: nat :: position == a * n + b
  {
    var diff := position - b;
    if n: nat :| position == a * n + b {
      assert diff == a * n;
      if a == 0 {
        assert diff == 0;
      } else {
        MultipleHasNoRemainder(a, n);
        QuotientSign(diff, a, n);
      }
    }
    if InCycle(diff, a) {
      if diff == a {
        assert position == a * 1 + b;
      } else {
        var n := QuotientOf(diff, a);
        assert position == a * n + b;
      }
    }
  }

  lemma MultipleHasNoRemainder(a: int, n: nat)
    requires a != 0
    ensures Abs(a * n) % Abs(a) == 0
  {
    assert Abs(a * n) == Abs(a) * n;
    Multiple(Abs(a), n);
  }

  lemma Multiple(a: nat, n: nat)
    requires a > 0
    ensures (a * n) % a == 0
  {
    var x := a * n;
    assert x == a * (x / a) + x % a;
    assert a * (n - x / a) == x % a;
    if n - x / a >= 1 { Grows(a, n - x / a); } else if n - x / a <= -1 { Grows(a, x / a - n); }
  }

  lemma Grows(a: int, k: int)
    requires a >= 0 && k >= 1
    ensures a * k >= a && a * -k <= -a
  {}

  lemma QuotientSign(diff: int, a: int, n: nat)
    requires a != 0 && diff == a * n
    ensures (diff as real) / (a as real) >= 0.0
  {
    assert (a * n) as real == (a as real) * (n as real);
    assert (diff as real) / (a as real) == n as real;
  }

  lemma QuotientOf(diff: int, a: int) returns (n: nat)
    requires a != 0 && Abs(diff) % Abs(a) == 0 && (diff as real) / (a as real) >= 0.0
    ensures diff == a * n
  {
    n := Abs(diff) / Abs(a);
    assert Abs(diff) == Abs(a) * n;
    if diff < 0 && a > 0 { NegativeQuotient(diff, a); }
    if diff > 0 && a < 0 { NegativeQuotient(-diff, -a); }
  }

  lemma NegativeQuotient(diff: int, a: int)
    requires diff < 0 && a > 0
    ensures (diff as real) / (a as real) < 0.0 && (-diff as real) / (-a as real) < 0.0
  {
    FactorSign((diff as real) / (a as real), a as real);
    FactorSign((-diff as real) / (-a as real), a as real);
  }

  lemma FactorSign(q: real, a: real)
    requires q * a < 0.0 && a > 0.0
    ensures q < 0.0
  {}

  /** The siblings up to an element, itself included, that count for its place: all elements, or those of
      the same name but for the case of its letters. */
  ghost function Alike(siblings: seq<Node>, from: nat, to: nat, ofType: bool, name: string): set<nat>
    requires to <= |siblings|
  {
    set i: nat | from <= i < to &&
      if ofType then LowerCase(siblings[i].nodeName) == LowerCase(name) else siblings[i].nodeType == 1
  }

  /** The place of an element: how many siblings like it there are up to it, or from it on. */
  ghost function Place(elem: Node, forward: bool, ofType: bool): nat
    requires elem.parentNode != null && elem.index < |elem.parentNode.childNodes|
    reads elem, elem.parentNode
  {
    var siblings := elem.parentNode.childNodes;
    if forward then |Alike(siblings, 0, elem.index + 1, ofType, elem.nodeName)|
    else |Alike(siblings, elem.index, |siblings|, ofType, elem.nodeName)|
  }

  lemma {:induction false} CountsBefore(s: seq<Node>, i: nat, ofType: bool, elem: Node)
    requires i <= |s|
    ensures CountBefore(s, i, Counting(elem, ofType)) == |Alike(s, 0, i, ofType, elem.nodeName)|
  {
    if i > 0 {
      CountsBefore(s, i - 1, ofType, elem);
      var before, now := Alike(s, 0, i - 1, ofType, elem.nodeName), Alike(s, 0, i, ofType, elem.nodeName);
      assert now == if Counted(s[i - 1], Counting(elem, ofType)) then before + {i - 1} else before;
    }
  }

  lemma {:induction false} CountsFrom(s: seq<Node>, i: nat, ofType: bool, elem: Node)
    requires i <= |s|
    ensures CountFrom(s, i, Counting(elem, ofType)) == |Alike(s, i, |s|, ofType, elem.nodeName)|
    decreases |s| - i
  {
    if i < |s| {
      CountsFrom(s, i + 1, ofType, elem);
      var before, now := Alike(s, i + 1, |s|, ofType, elem.nodeName), Alike(s, i, |s|, ofType, elem.nodeName);
      assert now == if Counted(s[i], Counting(elem, ofType)) then before + {i} else before;
    }
  }

  /** The counts that the walks keep are the place. */
  lemma PlaceIsPosition(elem: Node, forward: bool, ofType: bool)
    requires elem.parentNode != null && elem.index < |elem.parentNode.childNodes|
    ensures Position(elem, Counting(elem, ofType), forward) == Place(elem, forward, ofType)
  {
    var siblings := elem.parentNode.childNodes;
    CountsBefore(siblings, elem.index + 1, ofType, elem);
    CountsFrom(siblings, elem.index, ofType, elem);
  }

  /** The filter for `:nth-child(an+b)`, `:nth-last-child(an+b)` and their of-type forms: with or
      without caches, it accepts exactly the elements whose place some n from 0 on leads to. */
  method MatchesNth(elem: Node, forward: bool, ofType: bool, xml: bool, first: int, last: int, run: int,
                    ghost nodes: set<Node>)
    returns (r: bool)
    requires IsForest(nodes) && elem in nodes && IsElement(elem) && MarksOk(nodes, run)
    modifies set n | n in nodes :: n.expando
    ensures MarksOk(nodes, run)
    ensures elem.parentNode == null ==> !r
    ensures elem.parentNode != null ==>
      && LinkedUp(elem, nodes)
      && (r <==> exists n: nat :: Place(elem, forward, ofType) == first * n + last)
  {
    assert LinkedUp(elem, nodes);
    if elem.parentNode != null { PlaceIsPosition(elem, forward, ofType); }
    if first == 1 && last == 0 {
      r := elem.parentNode != null;
      ghost var position := if r then Position(elem, Counting(elem, ofType), forward) else 0;
      assert position == 1 * position + 0;
      return;
    }
    if elem.parentNode == null {
      return false;
    }
    var useCache := !xml && !ofType;
    var diff;
    if forward && useCache {
      diff := SeekFromMark(elem, run, nodes);
    } else if useCache && elem.expando.nthLast.Some? && elem.expando.nthLast.value.run == run {
      assert MarkOk(elem, run, nodes);
      diff := elem.expando.nthLast.value.diff;
    } else {
      diff := SeekFromEnd(elem, Counting(elem, ofType), forward, useCache, run,
                          nodes);
    }
    InCycleMeansReached(diff, first, last);
    r := InCycle(diff - last, first);
  }
}
