/**
 The part of a document that jQuery's selector engine walks: nodes linked to their parent and
 siblings, and, per node, the expando object in which the engine keeps its memo cells.
 */
module Dom {

  import opened Wrappers

  const ELEMENT_NODE := 1

  /** The array `[dirruns, doneName, result]` that one traversal shares between the nodes it visits. */
  class MemoCell {
    var run: int
    var done: int
    var result: bool

    constructor (run: int, done: int)
      ensures this.run == run && this.done == done && !result
    {
      this.run, this.done, result := run, done, false;
    }
  }

  /** Where `:nth-child` has got to among the children of a node: `[dirruns, nodeIndex, diff]`. */
  datatype NthMark = NthMark(run: int, nodeIndex: nat, diff: nat)

  /** The place of a node counted from the end: `[dirruns, diff]`. */
  datatype LastMark = LastMark(run: int, diff: nat)

  /** `elem[expando]`: one slot per traversal direction, and one per kind of `:nth` selector. */
  class Expando {
    var parentNode: MemoCell?
    var previousSibling: MemoCell?
    var nth: Option<NthMark>
    var nthLast: Option<LastMark>

    constructor () {
      parentNode, previousSibling, nth, nthLast := null, null, None, None;
    }
  }

  class Node {
    const nodeType: int
    const nodeName: string
    const expando: Expando
    var parentNode: Node?
    var previousSibling: Node?
    var nextSibling: Node?
    var childNodes: seq<Node>
    // How far the node is from its root, and its position among its parent's children.
    ghost var depth: nat
    ghost var index: nat

    constructor (nodeType: int, nodeName: string)
      ensures this.nodeType == nodeType && this.nodeName == nodeName && fresh(expando)
      ensures parentNode == null && childNodes == []
    {
      this.nodeType, this.nodeName := nodeType, nodeName;
      expando := new Expando();
      parentNode, previousSibling, nextSibling, childNodes := null, null, null, [];
      depth, index := 0, 0;
    }
  }

  predicate IsElement(n: Node) {
    n.nodeType == ELEMENT_NODE
  }

  /** Parent, child and sibling links of `nodes` agree and form finite trees. A root has no siblings,
      a node that is not an element has no parent unless it is a leaf, and expandos are not shared. */
  ghost predicate IsForest(nodes: set<Node>)
    reads nodes
  {
    && (forall n {:trigger LinkedUp(n, nodes)} | n in nodes :: LinkedUp(n, nodes))
    && (forall n {:trigger LinkedDown(n, nodes)} | n in nodes :: LinkedDown(n, nodes))
    && (forall m, n | m in nodes && n in nodes && m != n :: m.expando != n.expando)
  }

  ghost predicate LinkedUp(n: Node, nodes: set<Node>)
    reads n, nodes
  {
    if n.parentNode == null then
      n.depth == 0 && n.previousSibling == null && n.nextSibling == null
    else
      var p := n.parentNode;
      && p in nodes
      && n.depth == p.depth + 1
      && n.index < |p.childNodes| && p.childNodes[n.index] == n
      && (p.nodeType != 1 ==> p.parentNode == null)
      && n.previousSibling == (if n.index == 0 then null else p.childNodes[n.index - 1])
      && n.nextSibling == (if n.index + 1 == |p.childNodes| then null else p.childNodes[n.index + 1])
  }

  ghost predicate LinkedDown(n: Node, nodes: set<Node>)
    reads n, nodes
  {
    forall i | 0 <= i < |n.childNodes| ::
      n.childNodes[i] in nodes && n.childNodes[i].parentNode == n && n.childNodes[i].index == i
  }
}
